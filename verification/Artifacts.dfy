/**
 Update requests on artifacts: the service's checks, the gates between artifacts, the UPDATE
 under its row lock, the link rows, the document write and the commit.
 */
module Artifacts {
  import opened Text
  import opened Patches
  import opened Lifecycle

  // ---------------------------------------------------------------- reading a patch

  function Field(patch: Document, key: string): Value {
    if key in patch then patch[key] else Null
  }

  function TextOf(v: Value): string {
    if v.Str? then Trim(v.text) else ""
  }

  function ItemsOf(v: Value): seq<Value> {
    if v.Array? then v.items else []
  }

  function StatusText(s: Status): string {
    match s
    case Draft => "Draft"
    case Locked => "Locked"
    case Considered => "Considered"
    case Selected => "Selected"
    case Rejected => "Rejected"
    case Planned => "Planned"
    case InProgress => "In Progress"
    case Completed => "Completed"
    case Abandoned => "Abandoned"
    case Active => "Active"
    case Archived => "Archived"
  }

  function AnyStatus(text: string): Option<Status> {
    if EqualFold(text, StatusText(Draft)) then Some(Draft)
    else if EqualFold(text, StatusText(Locked)) then Some(Locked)
    else if EqualFold(text, StatusText(Considered)) then Some(Considered)
    else if EqualFold(text, StatusText(Selected)) then Some(Selected)
    else if EqualFold(text, StatusText(Rejected)) then Some(Rejected)
    else if EqualFold(text, StatusText(Planned)) then Some(Planned)
    else if EqualFold(text, StatusText(InProgress)) then Some(InProgress)
    else if EqualFold(text, StatusText(Completed)) then Some(Completed)
    else if EqualFold(text, StatusText(Abandoned)) then Some(Abandoned)
    else if EqualFold(text, StatusText(Active)) then Some(Active)
    else if EqualFold(text, StatusText(Archived)) then Some(Archived)
    else None
  }

  /** normalizeAllowedStatus over the statuses of a kind. */
  function ParseStatus(kind: Kind, text: string): Option<Status> {
    var s := AnyStatus(text);
    if s.Some? && s.value in Statuses(kind) then s else None
  }

  function Requested(kind: Kind, patch: Document): Option<Status> {
    ParseStatus(kind, TextOf(Field(patch, "status")))
  }

  /** A patch without a status asks for none. */
  lemma NoStatusAsked(kind: Kind, patch: Document)
    requires "status" !in patch
    ensures TextOf(Field(patch, "status")) == "" && Requested(kind, patch).None?
  {
    forall s ensures !EqualFold("", StatusText(s)) {
      assert |StatusText(s)| != 0;
    }
  }

  function OutcomeText(o: Outcome): string {
    match o
    case Validated => "Validated"
    case Invalidated => "Invalidated"
    case NeedsIteration => "Needs Iteration"
  }

  function ParseOutcome(text: string): Option<Outcome> {
    if EqualFold(text, OutcomeText(Validated)) then Some(Validated)
    else if EqualFold(text, OutcomeText(Invalidated)) then Some(Invalidated)
    else if EqualFold(text, OutcomeText(NeedsIteration)) then Some(NeedsIteration)
    else None
  }

  function RequestedOutcome(kind: Kind, patch: Document): Option<Outcome> {
    if kind == Feedback then ParseOutcome(TextOf(Field(patch, "outcome"))) else None
  }

  /** The status and outcome parts of Validate. */
  predicate ValidPatch(kind: Kind, patch: Document) {
    && (TextOf(Field(patch, "status")) == "" || Requested(kind, patch).Some?)
    && (kind == Feedback ==> TextOf(Field(patch, "outcome")) == "" || RequestedOutcome(kind, patch).Some?)
  }

  /** Validate writes the canonical spellings back. */
  function Canonical(kind: Kind, patch: Document): Document {
    WithOutcome(RequestedOutcome(kind, patch), WithStatus(Requested(kind, patch), patch))
  }

  function WithStatus(s: Option<Status>, patch: Document): Document {
    if s.Some? then patch["status" := Str(StatusText(s.value))] else patch
  }

  function WithOutcome(o: Option<Outcome>, patch: Document): Document {
    if o.Some? then patch["outcome" := Str(OutcomeText(o.value))] else patch
  }

  function CountTexts(items: seq<Value>): nat {
    if items == [] then 0
    else CountTexts(items[..|items| - 1]) + (if TextOf(items[|items| - 1]) != "" then 1 else 0)
  }

  function CountOrSentinel(patch: Document, key: string): int {
    if key in patch then CountTexts(ItemsOf(patch[key])) else -1
  }

  /** normalizeArtifactType. */
  function ArtifactType(raw: string): Option<Kind> {
    var key := Lower(Trim(raw));
    if key in ["story", "stories", "user story", "user stories"] then Some(Story)
    else if key in ["journey", "journeys", "user journey", "user journeys"] then Some(Journey)
    else if key in ["problem", "problems", "problem statement"] then Some(Problem)
    else if key in ["idea", "ideas"] then Some(Idea)
    else if key in ["task", "tasks"] then Some(Task)
    else if key == "feedback" then Some(Feedback)
    else None
  }

  datatype Source = Source(kind: Kind, id: Id)

  /** One entry of linkedSources or linkedArtifacts; first and second are the keys that may
      hold its type. */
  function ParseSource(item: Value, first: string, second: string, kinds: set<Kind>): Option<Source> {
    if !item.Object? then None
    else
      var kind := ArtifactType(NonEmpty(TextOf(Field(item.fields, first)), TextOf(Field(item.fields, second))));
      var id := TextOf(Field(item.fields, "id"));
      if kind.Some? && kind.value in kinds && id != "" then Some(Source(kind.value, id)) else None
  }

  function ProblemSource(item: Value): Option<Source> {
    ParseSource(item, "artifactType", "type", {Story, Journey})
  }

  function FeedbackSource(item: Value): Option<Source> {
    ParseSource(item, "type", "artifactType", {Task, Idea, Problem})
  }

  /** The row a reference resolves to: this kind, in this project. */
  predicate Exists(rows: Rows, project: Id, source: Source) {
    source.id in rows && KindOf(rows[source.id]) == source.kind && rows[source.id].project == project
  }

  predicate ExistsWith(rows: Rows, project: Id, source: Source, status: Status) {
    Exists(rows, project, source) && rows[source.id].status == status
  }

  /** resolveFeedbackLinks: entries that do not parse are skipped, entries that do not
      resolve fail the request. */
  function ResolveLinks(rows: Rows, project: Id, items: seq<Value>): Option<seq<Source>> {
    if items == [] then Some([])
    else
      var rest := ResolveLinks(rows, project, items[..|items| - 1]);
      var last := FeedbackSource(items[|items| - 1]);
      if rest.None? then None
      else if last.None? then rest
      else if Exists(rows, project, last.value) then Some(rest.value + [last.value])
      else None
  }

  /** The first task among resolved links becomes the primary task. */
  function FirstTask(sources: seq<Source>): Option<Id> {
    if sources == [] then None
    else if sources[0].kind == Task then Some(sources[0].id)
    else FirstTask(sources[1..])
  }

  // ---------------------------------------------------------------- service checks

  predicate Immutable(kind: Kind, status: Status) {
    match kind
    case Story => status in {Locked, Archived}
    case Journey => status in {Locked, Archived}
    case Problem => status in {Locked, Archived}
    case Idea => status in {Selected, Rejected, Archived}
    case Task => status in {Completed, Abandoned}
    case Feedback => false
  }

  predicate ArchiveOnly(kind: Kind, patch: Document) {
    |patch| == 1 && Requested(kind, patch) == Some(Archived)
  }

  predicate RestoreOnly(kind: Kind, from: Status, patch: Document) {
    from == Archived && |patch| == 1 && Requested(kind, patch).Some? && Requested(kind, patch) != Some(Archived)
  }

  /** isAllowedTransition with each kind's matrix. */
  predicate Allowed(kind: Kind, from: Status, to: Status) {
    match kind
    case Story => from != Locked || to in {Locked, Archived}
    case Journey => from != Locked || to in {Locked, Archived}
    case Problem => from != Locked || to in {Locked, Archived}
    case Idea =>
      (from == Selected ==> to != Considered) && (from == Rejected ==> to in {Rejected, Archived})
    case Task =>
      || (from == Planned && to in {Planned, InProgress, Abandoned})
      || (from == InProgress && to in {InProgress, Completed, Abandoned})
      || (from == Completed && to == Completed)
      || (from == Abandoned && to == Abandoned)
    case Feedback => true
  }

  /** What Update* checks on the status it read before opening the transaction. */
  predicate ServiceAllows(kind: Kind, from: Status, patch: Document) {
    && (Immutable(kind, from) ==> ArchiveOnly(kind, patch) || RestoreOnly(kind, from, patch))
    && (Requested(kind, patch).Some? ==> Allowed(kind, from, Requested(kind, patch).value))
  }

  // ---------------------------------------------------------------- gates

  datatype Refs = Refs(primary: Option<Id>, sources: seq<Source>)

  function RefKey(kind: Kind): string {
    if kind == Idea then "selectedProblemId" else "selectedIdeaId"
  }

  /** The references a request names, resolved before its UPDATE; None when a reference is
      blank, missing or not in the status the gate demands. */
  function Gate(rows: Rows, kind: Kind, project: Id, patch: Document): Option<Refs> {
    match kind
    case Feedback =>
      var sources := ResolveLinks(rows, project, ItemsOf(Field(patch, "linkedArtifacts")));
      if sources.Some? then Some(Refs(FirstTask(sources.value), sources.value)) else None
    case Idea => GateOne(rows, project, patch, RefKey(Idea), Problem, Locked)
    case Task => GateOne(rows, project, patch, RefKey(Task), Idea, Selected)
    case _ => Some(Refs(None, []))
  }

  function GateOne(rows: Rows, project: Id, patch: Document, key: string, kind: Kind, status: Status): Option<Refs> {
    if key !in patch then Some(Refs(None, []))
    else
      var id := TextOf(patch[key]);
      if id != "" && ExistsWith(rows, project, Source(kind, id), status) then Some(Refs(Some(id), [Source(kind, id)]))
      else None
  }

  /** The UPDATE's arguments. */
  function ToRequest(r: Row, patch: Document, ref: Option<Id>): Request {
    var want := Requested(KindOf(r), patch);
    match r
    case SourceRow(kind, _, _, _, _, _, _, _, _) =>
      var persona := Field(patch, "persona");
      SourceRequest(want,
                    if kind == Story then NonEmpty(TextOf(Field(patch, "title")), TextOf(Field(patch, "description")))
                    else TextOf(Field(patch, "title")),
                    if persona.Object? then TextOf(Field(persona.fields, "name")) else "",
                    CountOrSentinel(patch, "painPoints"), CountOrSentinel(patch, "hypothesis"))
    case ProblemRow(_, _, _, _, _, _) =>
      ProblemRequest(want, NonEmpty(TextOf(Field(patch, "finalStatement")), TextOf(Field(patch, "title"))))
    case IdeaRow(_, _, _, _, _, _, _) => IdeaRequest(want, ref)
    case TaskRow(_, _, _, _, _, _, _, _) =>
      var deadline := TextOf(Field(patch, "deadline"));
      TaskRequest(want, ref, if deadline == "" then None else Some(deadline))
    case FeedbackRow(_, _, _, _, _, _, _) => FeedbackRequest(want, RequestedOutcome(Feedback, patch), ref)
  }

  lemma RequestFits(r: Row, patch: Document, ref: Option<Id>)
    ensures Fits(ToRequest(r, patch, ref), r)
  {
  }

  // ---------------------------------------------------------------- link rows

  datatype Link = Link(project: Id, source: Source, target: Source, primary: bool)

  function SourceKinds(target: Kind): set<Kind> {
    match target
    case Problem => {Story, Journey}
    case Idea => {Problem}
    case Task => {Idea}
    case Feedback => {Task, Idea, Problem}
    case _ => {}
  }

  /** The rows the DELETE before re-linking removes. */
  predicate Cleared(l: Link, project: Id, target: Source) {
    l.project == project && l.target == target && l.source.kind in SourceKinds(target.kind)
  }

  /** Whether a request rewrites the links into its target. */
  predicate Relinks(kind: Kind, patch: Document, refs: Refs) {
    match kind
    case Problem => "linkedSources" in patch
    case Idea => refs.primary.Some?
    case Task => refs.primary.Some?
    case Feedback => true
    case _ => false
  }

  function LinksTo(project: Id, target: Source, sources: seq<Source>, primary: bool): set<Link> {
    set source | source in sources :: Link(project, source, target, primary)
  }

  function Relinked(links: set<Link>, project: Id, target: Source, added: set<Link>): set<Link> {
    (set l | l in links && !Cleared(l, project, target)) + added
  }
}
