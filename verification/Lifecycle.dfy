/**
 Artifact rows and the single UPDATE statement that moves each kind of row.  The guards and
 CASE expressions are evaluated in SQL's three-valued logic: a request without a status
 passes NULL.
 */
module Lifecycle {
  import opened Text

  type Id = string

  datatype Kind = Story | Journey | Problem | Idea | Task | Feedback

  datatype Status =
    | Draft | Locked
    | Considered | Selected | Rejected
    | Planned | InProgress | Completed | Abandoned
    | Active
    | Archived

  datatype Outcome = Validated | Invalidated | NeedsIteration

  // ---------------------------------------------------------------- three-valued logic

  datatype Tri = True | False | Unknown

  function Bool(b: bool): Tri {
    if b then True else False
  }

  function And(a: Tri, b: Tri): Tri {
    if a == False || b == False then False
    else if a == True && b == True then True
    else Unknown
  }

  function Or(a: Tri, b: Tri): Tri {
    if a == True || b == True then True
    else if a == False && b == False then False
    else Unknown
  }

  function Eq(a: Option<Status>, b: Status): Tri {
    if a.None? then Unknown else Bool(a.value == b)
  }

  function Neq(a: Option<Status>, b: Status): Tri {
    if a.None? then Unknown else Bool(a.value != b)
  }

  function NotIn(a: Status, set_: set<Status>): Tri {
    Bool(a !in set_)
  }

  /** A WHERE clause or a CASE branch applies only when its condition is true. */
  predicate Holds(t: Tri) {
    t == True
  }

  function Coalesce<T>(a: Option<T>, b: T): T {
    if a.Some? then a.value else b
  }

  function CoalesceOption<T>(a: Option<T>, b: Option<T>): Option<T> {
    if a.Some? then a else b
  }

  // ---------------------------------------------------------------- rows

  datatype Row =
    | SourceRow(kind: Kind, project: Id, title: string, persona: string, painPoints: int, hypotheses: int,
                status: Status, archivedFrom: Option<Status>, revision: nat)
    | ProblemRow(project: Id, title: string, status: Status, archivedFrom: Option<Status>, isLocked: bool,
                 revision: nat)
    | IdeaRow(project: Id, title: string, status: Status, archivedFrom: Option<Status>, primary: Option<Id>,
              selectedAt: Option<int>, revision: nat)
    | TaskRow(project: Id, title: string, status: Status, primary: Option<Id>, dueAt: Option<string>,
              startedAt: Option<int>, completedAt: Option<int>, revision: nat)
    | FeedbackRow(project: Id, title: string, status: Status, archivedFrom: Option<Status>, primary: Option<Id>,
                  outcome: Outcome, revision: nat)

  function KindOf(r: Row): Kind {
    match r
    case SourceRow(kind, _, _, _, _, _, _, _, _) => kind
    case ProblemRow(_, _, _, _, _, _) => Problem
    case IdeaRow(_, _, _, _, _, _, _) => Idea
    case TaskRow(_, _, _, _, _, _, _, _) => Task
    case FeedbackRow(_, _, _, _, _, _, _) => Feedback
  }

  /** The status an archived row came from, or its own. */
  function Origin(r: Row): Status {
    if r.TaskRow? then r.status
    else if r.status == Archived then Coalesce(r.archivedFrom, Archived)
    else r.status
  }

  /** The row a create request inserts. */
  function NewRow(kind: Kind, project: Id, title: string): Row {
    match kind
    case Story => SourceRow(Story, project, title, "", 0, 0, Draft, None, 1)
    case Journey => SourceRow(Journey, project, title, "", 0, 0, Draft, None, 1)
    case Problem => ProblemRow(project, title, Draft, None, false, 1)
    case Idea => IdeaRow(project, title, Considered, None, None, None, 1)
    case Task => TaskRow(project, title, Planned, None, None, None, None, 1)
    case Feedback => FeedbackRow(project, title, Active, None, None, NeedsIteration, 1)
  }

  /** The statuses a kind knows. */
  function Statuses(kind: Kind): set<Status> {
    match kind
    case Story => {Draft, Locked, Archived}
    case Journey => {Draft, Locked, Archived}
    case Problem => {Draft, Locked, Archived}
    case Idea => {Considered, Selected, Rejected, Archived}
    case Task => {Planned, InProgress, Completed, Abandoned}
    case Feedback => {Active, Archived}
  }

  // ---------------------------------------------------------------- requests

  /** The arguments of one UPDATE statement. */
  datatype Request =
    | SourceRequest(status: Option<Status>, title: string, persona: string, painPoints: int, hypotheses: int)
    | ProblemRequest(status: Option<Status>, title: string)
    | IdeaRequest(status: Option<Status>, ref: Option<Id>)
    | TaskRequest(status: Option<Status>, ref: Option<Id>, dueAt: Option<string>)
    | FeedbackRequest(status: Option<Status>, outcome: Option<Outcome>, ref: Option<Id>)

  predicate Fits(q: Request, r: Row) {
    && (match r
        case SourceRow(_, _, _, _, _, _, _, _, _) => q.SourceRequest?
        case ProblemRow(_, _, _, _, _, _) => q.ProblemRequest?
        case IdeaRow(_, _, _, _, _, _, _) => q.IdeaRequest?
        case TaskRow(_, _, _, _, _, _, _, _) => q.TaskRequest?
        case FeedbackRow(_, _, _, _, _, _, _) => q.FeedbackRequest?)
    && (q.status.Some? ==> q.status.value in Statuses(KindOf(r)))
  }

  // ---------------------------------------------------------------- CASE expressions

  function Archiving(want: Option<Status>, status: Status): Tri {
    And(Eq(want, Archived), Bool(status != Archived))
  }

  function Restoring(want: Option<Status>, status: Status): Tri {
    And(And(Bool(want.Some?), Bool(status == Archived)), Neq(want, Archived))
  }

  /** status = CASE ... END. */
  function NextStatus(want: Option<Status>, status: Status, archivedFrom: Option<Status>, fallback: Status): Status {
    if Holds(Archiving(want, status)) then Archived
    else if Holds(Restoring(want, status)) then Coalesce(archivedFrom, fallback)
    else Coalesce(want, status)
  }

  /** archived_from_status = CASE ... END. */
  function NextArchivedFrom(want: Option<Status>, status: Status, archivedFrom: Option<Status>): Option<Status> {
    if Holds(Archiving(want, status)) then Some(status)
    else if Holds(Restoring(want, status)) then None
    else archivedFrom
  }

  /** The WHERE guard of stories, journeys and problems. */
  function SourceGuard(want: Option<Status>, status: Status): Tri {
    Or(Or(NotIn(status, {Locked, Archived}), Eq(want, Archived)),
       And(And(Bool(status == Archived), Bool(want.Some?)), Neq(want, Archived)))
  }

  /** The WHERE guard of ideas; problemLocked is the EXISTS over the problem in effect. */
  function IdeaGuard(want: Option<Status>, status: Status, problem: Option<Id>, problemLocked: bool): Tri {
    And(Or(And(Bool(want.None?), NotIn(status, {Selected, Rejected, Archived})), Bool(want.Some?)),
        Or(Neq(want, Selected), And(Bool(problem.Some?), Bool(problemLocked))))
  }

  /** The WHERE guard of tasks; ideaRejected is the EXISTS over the idea in effect. */
  function TaskGuard(want: Option<Status>, status: Status, ideaRejected: bool): Tri {
    And(Or(And(Bool(want.None?), NotIn(status, {Completed, Abandoned})), Bool(want.Some?)),
        Or(Neq(Some(Coalesce(want, status)), InProgress), Bool(!ideaRejected)))
  }

  function NonEmpty(s: string, otherwise: string): string {
    if s == "" then otherwise else s
  }

  /** Which committed rows an EXISTS subquery can see. */
  type Rows = map<Id, Row>

  predicate ProblemLocked(rows: Rows, problem: Option<Id>) {
    problem.Some? && problem.value in rows && rows[problem.value].ProblemRow? && rows[problem.value].status == Locked
  }

  predicate IdeaRejected(rows: Rows, idea: Option<Id>) {
    idea.Some? && idea.value in rows && rows[idea.value].IdeaRow? && rows[idea.value].status == Rejected
  }

  /** One UPDATE ... RETURNING on row r; None when the WHERE clause selects no row. */
  function SqlUpdate(rows: Rows, r: Row, q: Request, now: int): Option<Row>
    requires Fits(q, r)
  {
    match r
    case SourceRow(kind, project, title, persona, painPoints, hypotheses, status, archivedFrom, revision) =>
      if !Holds(SourceGuard(q.status, status)) then None
      else Some(SourceRow(kind, project, NonEmpty(q.title, title),
                          if kind == Story then NonEmpty(q.persona, persona) else persona,
                          if kind == Story && q.painPoints >= 0 then q.painPoints else painPoints,
                          if kind == Story && q.hypotheses >= 0 then q.hypotheses else hypotheses,
                          NextStatus(q.status, status, archivedFrom, Draft),
                          NextArchivedFrom(q.status, status, archivedFrom), revision + 1))
    case ProblemRow(project, title, status, archivedFrom, isLocked, revision) =>
      if !Holds(SourceGuard(q.status, status)) then None
      else Some(ProblemRow(project, NonEmpty(q.title, title),
                           NextStatus(q.status, status, archivedFrom, Draft),
                           NextArchivedFrom(q.status, status, archivedFrom),
                           NextStatus(q.status, status, archivedFrom, Draft) == Locked, revision + 1))
    case IdeaRow(project, title, status, archivedFrom, primary, selectedAt, revision) =>
      var problem := CoalesceOption(q.ref, primary);
      if !Holds(IdeaGuard(q.status, status, problem, ProblemLocked(rows, problem))) then None
      else
        var next := NextStatus(q.status, status, archivedFrom, Considered);
        Some(IdeaRow(project, title, next, NextArchivedFrom(q.status, status, archivedFrom), problem,
                     if next == Selected then Some(Coalesce(selectedAt, now)) else selectedAt, revision + 1))
    case TaskRow(project, title, status, primary, dueAt, startedAt, completedAt, revision) =>
      var idea := CoalesceOption(q.ref, primary);
      if !Holds(TaskGuard(q.status, status, IdeaRejected(rows, idea))) then None
      else
        var next := Coalesce(q.status, status);
        Some(TaskRow(project, title, next, idea, CoalesceOption(q.dueAt, dueAt),
                     if next == InProgress && startedAt.None? then Some(now) else startedAt,
                     if next == Completed then Some(now) else completedAt, revision + 1))
    case FeedbackRow(project, title, status, archivedFrom, primary, outcome, revision) =>
      var next := Coalesce(q.status, status);
      Some(FeedbackRow(project, title, next,
                       if next == Archived && status != Archived then Some(status)
                       else if next != Archived && status == Archived then None
                       else archivedFrom,
                       q.ref, Coalesce(q.outcome, outcome), revision + 1))
  }

  // ---------------------------------------------------------------- what every UPDATE keeps

  /** archived_from_status is set exactly on archived rows and never says Archived; a
      problem's is_locked says what its status says; a selected idea has a selection time, and
      an idea with a selection time has a problem; a task in progress has a start time, a
      completed one a completion time. */
  predicate RowOk(r: Row) {
    && (r.SourceRow? ==> r.kind == Story || r.kind == Journey)
    && r.status in Statuses(KindOf(r))
    && (!r.TaskRow? ==>
          && (r.archivedFrom.Some? <==> r.status == Archived)
          && (r.archivedFrom.Some? ==> r.archivedFrom.value != Archived && r.archivedFrom.value in Statuses(KindOf(r))))
    && (r.ProblemRow? ==> (r.isLocked <==> r.status == Locked))
    && (r.IdeaRow? && Origin(r) == Selected ==> r.selectedAt.Some?)
    && (r.IdeaRow? && r.selectedAt.Some? ==> r.primary.Some?)
    && (r.TaskRow? ==>
          && (r.status == InProgress ==> r.startedAt.Some?)
          && (r.status == Completed ==> r.completedAt.Some?))
  }

  /** What later versions of a row keep: kind and project; Locked stays Locked under any
      archiving; a set selection or start time never changes; revisions grow. */
  predicate Evolves(r: Row, r': Row) {
    && KindOf(r) == KindOf(r') && r.project == r'.project
    && (Origin(r) == Locked ==> Origin(r') == Locked)
    && (r.IdeaRow? ==> r'.IdeaRow? && (r.selectedAt.Some? ==> r'.selectedAt == r.selectedAt))
    && (r.TaskRow? ==> r'.TaskRow? && (r.startedAt.Some? ==> r'.startedAt == r.startedAt))
    && r.revision <= r'.revision
  }

  lemma NewRowOk(kind: Kind, project: Id, title: string)
    ensures RowOk(NewRow(kind, project, title))
    ensures
      var r := NewRow(kind, project, title);
      KindOf(r) == kind && r.project == project && r.title == title && r.revision == 1
    ensures NewRow(kind, project, title).status in {Draft, Considered, Planned, Active}
    ensures Origin(NewRow(kind, project, title)) != Locked && Origin(NewRow(kind, project, title)) != Selected
  {
  }

  lemma UpdateKeepsRowOk(rows: Rows, r: Row, q: Request, now: int)
    requires Fits(q, r) && RowOk(r) && SqlUpdate(rows, r, q, now).Some?
    ensures RowOk(SqlUpdate(rows, r, q, now).value)
    ensures Evolves(r, SqlUpdate(rows, r, q, now).value)
  {
  }

  lemma EvolvesTransitive(a: Row, b: Row, c: Row)
    requires Evolves(a, b) && Evolves(b, c)
    ensures Evolves(a, c)
  {
  }

  /** The status an UPDATE leaves: the one asked for, except that an archived row goes back to
      where it came from. */
  lemma StatusAfter(rows: Rows, r: Row, q: Request, now: int)
    requires RowOk(r) && Fits(q, r) && q.status.Some? && SqlUpdate(rows, r, q, now).Some?
    ensures SqlUpdate(rows, r, q, now).value.status ==
            if r.status == Archived && q.status.value != Archived then Origin(r) else q.status.value
  {
  }

  /** An UPDATE that archives a row, leaves it archived or restores it keeps the status the
      row came from. */
  lemma UpdateKeepsOrigin(rows: Rows, r: Row, q: Request, now: int)
    requires RowOk(r) && Fits(q, r) && SqlUpdate(rows, r, q, now).Some?
    ensures
      var r' := SqlUpdate(rows, r, q, now).value;
      r.status == Archived || r'.status == Archived ==> Origin(r') == Origin(r)
  {
  }

  /** Archiving and restoring undo each other: a restore returns the pre-archive status
      whatever status was asked for. */
  lemma RestoreReturnsOrigin(rows: Rows, r: Row, archive: Request, restore: Request, now: int, later: int)
    requires RowOk(r) && !r.TaskRow? && r.status != Archived
    requires Fits(archive, r) && archive.status == Some(Archived)
    requires Fits(restore, r) && restore.status.Some? && restore.status.value != Archived
    requires SqlUpdate(rows, r, archive, now).Some?
    ensures
      var archived := SqlUpdate(rows, r, archive, now).value;
      && archived.status == Archived && Origin(archived) == Origin(r) == r.status
      && (SqlUpdate(rows, archived, restore, later).Some? ==>
            var restored := SqlUpdate(rows, archived, restore, later).value;
            restored.status == r.status && restored.archivedFrom.None?)
  {
  }

  /** An UPDATE of a locked story, journey or problem can only archive it; of an archived
      one only leave it archived or restore it. */
  lemma LockedOnlyArchives(rows: Rows, r: Row, q: Request, now: int)
    requires RowOk(r) && (r.SourceRow? || r.ProblemRow?) && Fits(q, r) && r.status in {Locked, Archived}
    ensures SqlUpdate(rows, r, q, now).Some?
            <==> q.status.Some? && (q.status.value == Archived || r.status == Archived)
    ensures SqlUpdate(rows, r, q, now).Some? ==>
              var r' := SqlUpdate(rows, r, q, now).value;
              r'.status == (if q.status.value == Archived then Archived else Origin(r))
  {
  }

  /** NULL <> 'Selected' is not true: a request without a status is accepted only on a
      considered idea whose problem, existing or requested, is locked, although selection is
      not asked for. */
  lemma StatuslessIdeaUpdate(rows: Rows, r: Row, q: Request, now: int)
    requires RowOk(r) && r.IdeaRow? && Fits(q, r) && q.status.None?
    ensures SqlUpdate(rows, r, q, now).Some?
            <==> r.status == Considered && ProblemLocked(rows, CoalesceOption(q.ref, r.primary))
  {
  }
}
