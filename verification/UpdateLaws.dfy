/**
 What one update call does, column by column, in terms of the patch, the old row and the other
 rows: which calls are accepted, what they change, and that they change nothing else.
 */
module UpdateLaws {
  import opened Text
  import opened Patches
  import opened Lifecycle
  import opened Artifacts
  import opened ArtifactRuns
  import opened ArtifactCalls

  // ---------------------------------------------------------------- what a patch says

  /** The text a patch sends under a key, without the blanks around it. */
  function Sent(patch: Document, key: string): string {
    if key in patch && patch[key].Str? then Trim(patch[key].text) else ""
  }

  function Listed(patch: Document, key: string): seq<Value> {
    if key in patch && patch[key].Array? then patch[key].items else []
  }

  /** The first of two texts that is not empty. */
  function FirstOf(a: string, b: string): string {
    if a == "" then b else a
  }

  /** How a status is spelled where it is stored. */
  function Spelling(s: Status): string {
    match s
    case Draft => "Draft"
    case Locked => "Locked"
    case Considered => "Considered"
    case Selected => "Selected"
    case Rejected => "Rejected"
    case Planned => "Planned"
    case InProgress => "In Progress"
    case Completed => "Completed"
    case Abandoned => "Abandoned"
    case Active => "Active"
    case Archived => "Archived"
  }

  lemma StatusSpellings(s: Status)
    ensures StatusText(s) == Spelling(s)
  {
  }

  /** The patch asks for a status of the kind, in whatever case. */
  predicate Asks(kind: Kind, patch: Document, s: Status) {
    s in Statuses(kind) && EqualFold(Sent(patch, "status"), Spelling(s))
  }

  function OutcomeSpelling(o: Outcome): string {
    match o
    case Validated => "Validated"
    case Invalidated => "Invalidated"
    case NeedsIteration => "Needs Iteration"
  }

  lemma OutcomeSpellings(o: Outcome)
    ensures OutcomeText(o) == OutcomeSpelling(o)
  {
  }

  predicate AsksFor(patch: Document, o: Outcome) {
    EqualFold(Sent(patch, "outcome"), OutcomeSpelling(o))
  }

  lemma SentIs(patch: Document, key: string)
    ensures TextOf(Field(patch, key)) == Sent(patch, key)
    ensures ItemsOf(Field(patch, key)) == Listed(patch, key)
  {
  }

  lemma BlankAsksNothing()
    ensures forall s :: !EqualFold("", StatusText(s))
    ensures forall o :: !EqualFold("", OutcomeText(o))
  {
    forall s ensures !EqualFold("", StatusText(s)) {
      assert |StatusText(s)| != 0;
    }
    forall o ensures !EqualFold("", OutcomeText(o)) {
      assert |OutcomeText(o)| != 0;
    }
  }

  lemma AnyStatusExactlyWhen(text: string, s: Status)
    ensures AnyStatus(text) == Some(s) <==> EqualFold(text, StatusText(s))
  {
    if EqualFold(text, StatusText(s)) {
      forall r | r != s ensures !EqualFold(text, StatusText(r)) {
        StatusTextsApart(s, r);
      }
      AnyStatusIs(text, s);
    }
  }

  lemma AsksIsRequested(kind: Kind, patch: Document, s: Status)
    ensures Requested(kind, patch) == Some(s) <==> Asks(kind, patch, s)
  {
    SentIs(patch, "status");
    StatusSpellings(s);
    AnyStatusExactlyWhen(Sent(patch, "status"), s);
  }

  lemma ParseOutcomeExactlyWhen(text: string, o: Outcome)
    ensures ParseOutcome(text) == Some(o) <==> EqualFold(text, OutcomeSpelling(o))
  {
    OutcomeSpellings(o);
    if EqualFold(text, OutcomeText(o)) {
      forall p | p != o ensures !EqualFold(text, OutcomeText(p)) {
        FoldsApart(OutcomeText(o), OutcomeText(p));
      }
      OutcomeIs(text, o);
    }
  }

  /** The positions of a list that hold a text that is not blank. */
  function Texts(items: seq<Value>): set<nat> {
    set i: nat | i < |items| && items[i].Str? && Trim(items[i].text) != ""
  }

  lemma TextsSnoc(items: seq<Value>, last: Value)
    ensures Texts(items + [last])
            == Texts(items) + if last.Str? && Trim(last.text) != "" then {|items|} else {}
  {
    var all := items + [last];
    var counts := last.Str? && Trim(last.text) != "";
    forall i: nat ensures i in Texts(all) <==> i in Texts(items) || (i == |items| && counts) {
    }
  }

  lemma {:induction false} CountIsTexts(items: seq<Value>)
    ensures CountTexts(items) == |Texts(items)|
  {
    if items == [] {
      assert Texts(items) == {};
    } else {
      var n := |items| - 1;
      CountIsTexts(items[..n]);
      TextsSnoc(items[..n], items[n]);
      assert items == items[..n] + [items[n]];
    }
  }

  // ---------------------------------------------------------------- the columns of the row

  function CameFrom(r: Row): Option<Status> {
    if r.TaskRow? then None else r.archivedFrom
  }

  /** Status and the status an archived row came from: a patch that asks for none changes
      neither; an archived row goes back where it came from; any other row takes the status
      asked for, and archiving remembers the old one. */
  ghost predicate StatusLaw(r: Row, patch: Document, r': Row) {
    && ((forall s :: !Asks(KindOf(r), patch, s)) ==> r'.status == r.status && CameFrom(r') == CameFrom(r))
    && (forall s | Asks(KindOf(r), patch, s) ::
          && Some(r'.status) == (if r.status == Archived && s != Archived then CameFrom(r) else Some(s))
          && CameFrom(r') == (if s != Archived then None
                              else if r.status == Archived then CameFrom(r) else Some(r.status)))
  }

  /** The title sent under one of the keys a kind takes it from, the first that is not empty,
      or else the old one. */
  predicate TitleLaw(r: Row, patch: Document, r': Row) {
    match KindOf(r)
    case Story => r'.title == FirstOf(FirstOf(Sent(patch, "title"), Sent(patch, "description")), r.title)
    case Journey => r'.title == FirstOf(Sent(patch, "title"), r.title)
    case Problem => r'.title == FirstOf(FirstOf(Sent(patch, "finalStatement"), Sent(patch, "title")), r.title)
    case _ => r'.title == r.title
  }

  /** Stories take over the persona's name where one is sent, and count the texts in the lists
      that are sent. */
  predicate CountsLaw(r: Row, patch: Document, r': Row)
    requires r.SourceRow? && r'.SourceRow?
  {
    if r.kind == Journey then
      r'.persona == r.persona && r'.painPoints == r.painPoints && r'.hypotheses == r.hypotheses
    else
      && r'.persona == (if "persona" in patch && patch["persona"].Object?
                        then FirstOf(Sent(patch["persona"].fields, "name"), r.persona) else r.persona)
      && r'.painPoints == (if "painPoints" in patch then |Texts(Listed(patch, "painPoints"))| else r.painPoints)
      && r'.hypotheses == (if "hypothesis" in patch then |Texts(Listed(patch, "hypothesis"))| else r.hypotheses)
  }

  /** The columns of one kind alone.  An idea is dated when it is first selected, a task when it
      is first started and whenever it is completed. */
  ghost predicate OwnColumnsLaw(r: Row, patch: Document, r': Row, now: int)
    requires KindOf(r') == KindOf(r) && (r.SourceRow? <==> r'.SourceRow?)
  {
    match r
    case SourceRow(_, _, _, _, _, _, _, _, _) => CountsLaw(r, patch, r')
    case ProblemRow(_, _, _, _, _, _) => r'.ProblemRow? && (r'.isLocked <==> r'.status == Locked)
    case IdeaRow(_, _, _, _, _, selectedAt, _) =>
      r'.IdeaRow? && r'.selectedAt == (if selectedAt.None? && r'.status == Selected then Some(now) else selectedAt)
    case TaskRow(_, _, _, _, dueAt, startedAt, completedAt, _) =>
      && r'.TaskRow?
      && r'.dueAt == (if Sent(patch, "deadline") != "" then Some(Sent(patch, "deadline")) else dueAt)
      && r'.startedAt == (if startedAt.None? && r'.status == InProgress then Some(now) else startedAt)
      && r'.completedAt == (if r'.status == Completed then Some(now) else completedAt)
    case FeedbackRow(_, _, _, _, _, outcome, _) =>
      && r'.FeedbackRow?
      && (forall o | AsksFor(patch, o) :: r'.outcome == o)
      && ((forall o :: !AsksFor(patch, o)) ==> r'.outcome == outcome)
  }

  /** The primary reference: what the call has resolved for an idea or a task, or else the old
      one; for feedback always what it has resolved. */
  predicate PrimaryLaw(r: Row, ref: Option<Id>, r': Row) {
    match r
    case IdeaRow(_, _, _, _, primary, _, _) => r'.IdeaRow? && r'.primary == if ref.Some? then ref else primary
    case TaskRow(_, _, _, primary, _, _, _, _) => r'.TaskRow? && r'.primary == if ref.Some? then ref else primary
    case FeedbackRow(_, _, _, _, _, _, _) => r'.FeedbackRow? && r'.primary == ref
    case _ => true
  }

  ghost predicate RowLaw(r: Row, patch: Document, ref: Option<Id>, r': Row, now: int) {
    && KindOf(r') == KindOf(r) && (r.SourceRow? <==> r'.SourceRow?) && r'.project == r.project
    && r'.revision == r.revision + 1
    && StatusLaw(r, patch, r') && TitleLaw(r, patch, r') && OwnColumnsLaw(r, patch, r', now)
    && PrimaryLaw(r, ref, r')
  }

  /** Which rows an UPDATE selects, whatever the service has checked before. */
  predicate Selects(rows: Rows, r: Row, q: Request)
    requires Fits(q, r)
  {
    match r
    case SourceRow(_, _, _, _, _, _, _, _, _) => SourceSelects(q.status, r.status)
    case ProblemRow(_, _, _, _, _, _) => SourceSelects(q.status, r.status)
    case IdeaRow(_, _, _, _, primary, _, _) =>
      && (q.status.None? ==> r.status == Considered)
      && (q.status.None? || q.status == Some(Selected) ==>
            ProblemLocked(rows, if q.ref.Some? then q.ref else primary))
    case TaskRow(_, _, _, primary, _, _, _, _) =>
      && (q.status.None? ==> r.status in {Planned, InProgress})
      && (q.status == Some(InProgress) || (q.status.None? && r.status == InProgress) ==>
            !IdeaRejected(rows, if q.ref.Some? then q.ref else primary))
    case FeedbackRow(_, _, _, _, _, _, _) => true
  }

  predicate SourceSelects(want: Option<Status>, status: Status) {
    match status
    case Locked => want == Some(Archived)
    case Archived => want.Some?
    case _ => true
  }

  /** The WHERE clauses in two-valued logic. */
  lemma SelectsExactlyWhen(rows: Rows, r: Row, q: Request, now: int)
    requires RowOk(r) && Fits(q, r)
    ensures SqlUpdate(rows, r, q, now).Some? <==> Selects(rows, r, q)
  {
  }

  /** The same in terms of the status the statement is given. */
  predicate WantedLaw(r: Row, want: Option<Status>, r': Row) {
    if want.None? then r'.status == r.status && CameFrom(r') == CameFrom(r)
    else
      && Some(r'.status) == (if r.status == Archived && want != Some(Archived) then CameFrom(r) else want)
      && CameFrom(r') == (if want != Some(Archived) then None
                          else if r.status == Archived then CameFrom(r) else Some(r.status))
  }

  lemma UpdateTakesWanted(rows: Rows, r: Row, q: Request, now: int)
    requires RowOk(r) && Fits(q, r) && SqlUpdate(rows, r, q, now).Some?
    ensures WantedLaw(r, q.status, SqlUpdate(rows, r, q, now).value)
  {
  }

  lemma WantedIsAsked(r: Row, patch: Document, r': Row)
    requires WantedLaw(r, Requested(KindOf(r), patch), r')
    ensures StatusLaw(r, patch, r')
  {
    forall s ensures Requested(KindOf(r), patch) == Some(s) <==> Asks(KindOf(r), patch, s) {
      AsksIsRequested(KindOf(r), patch, s);
    }
  }

  lemma UpdatedStatus(rows: Rows, r: Row, patch: Document, ref: Option<Id>, now: int)
    requires RowOk(r) && Updated(rows, r, patch, ref, now).Some?
    ensures StatusLaw(r, patch, Updated(rows, r, patch, ref, now).value)
  {
    RequestFits(r, patch, ref);
    UpdateTakesWanted(rows, r, ToRequest(r, patch, ref), now);
    WantedIsAsked(r, patch, Updated(rows, r, patch, ref, now).value);
  }

  lemma UpdatedSource(rows: Rows, r: Row, patch: Document, ref: Option<Id>, now: int)
    requires RowOk(r) && Updated(rows, r, patch, ref, now).Some? && r.SourceRow?
    ensures
      var r' := Updated(rows, r, patch, ref, now).value;
      r'.SourceRow? && TitleLaw(r, patch, r') && CountsLaw(r, patch, r')
  {
    CountIsTexts(Listed(patch, "painPoints"));
    CountIsTexts(Listed(patch, "hypothesis"));
  }

  lemma UpdatedOther(rows: Rows, r: Row, patch: Document, ref: Option<Id>, now: int)
    requires RowOk(r) && Updated(rows, r, patch, ref, now).Some? && !r.SourceRow?
    ensures
      var r' := Updated(rows, r, patch, ref, now).value;
      KindOf(r') == KindOf(r) && !r'.SourceRow? && TitleLaw(r, patch, r') && OwnColumnsLaw(r, patch, r', now)
  {
    forall o ensures ParseOutcome(Sent(patch, "outcome")) == Some(o) <==> AsksFor(patch, o) {
      ParseOutcomeExactlyWhen(Sent(patch, "outcome"), o);
    }
  }

  /** Every UPDATE that selects its row obeys the law of its columns, in every interleaving. */
  lemma UpdatedIsLawful(rows: Rows, r: Row, patch: Document, ref: Option<Id>, now: int)
    requires RowOk(r) && Updated(rows, r, patch, ref, now).Some?
    ensures RowLaw(r, patch, ref, Updated(rows, r, patch, ref, now).value, now)
  {
    UpdatedStatus(rows, r, patch, ref, now);
    if r.SourceRow? {
      UpdatedSource(rows, r, patch, ref, now);
    } else {
      UpdatedOther(rows, r, patch, ref, now);
    }
  }

  // ---------------------------------------------------------------- the canonical patch

  /** What is merged into the document: the patch, with the status, and on feedback the outcome,
      in their canonical spelling. */
  ghost predicate CanonicalLaw(kind: Kind, patch: Document, p: Document) {
    && p.Keys == patch.Keys
    && (forall key | key in patch && key !in {"status", "outcome"} :: p[key] == patch[key])
    && ("status" in patch ==>
          && (forall s | Asks(kind, patch, s) :: p["status"] == Str(Spelling(s)))
          && ((forall s :: !Asks(kind, patch, s)) ==> p["status"] == patch["status"]))
    && ("outcome" in patch ==>
          if exists o :: kind == Feedback && AsksFor(patch, o)
          then forall o | AsksFor(patch, o) :: p["outcome"] == Str(OutcomeSpelling(o))
          else p["outcome"] == patch["outcome"])
  }

  lemma AskedIsSent(kind: Kind, patch: Document)
    ensures "status" !in patch ==> Requested(kind, patch).None?
    ensures "outcome" !in patch ==> RequestedOutcome(kind, patch).None?
  {
    BlankAsksNothing();
  }

  lemma CanonicalIsLawful(kind: Kind, patch: Document)
    ensures CanonicalLaw(kind, patch, Canonical(kind, patch))
  {
    AskedIsSent(kind, patch);
    forall s ensures Requested(kind, patch) == Some(s) <==> Asks(kind, patch, s) {
      AsksIsRequested(kind, patch, s);
    }
    forall o ensures ParseOutcome(Sent(patch, "outcome")) == Some(o) <==> AsksFor(patch, o) {
      ParseOutcomeExactlyWhen(Sent(patch, "outcome"), o);
    }
    forall s ensures StatusText(s) == Spelling(s) {
      StatusSpellings(s);
    }
    forall o ensures OutcomeText(o) == OutcomeSpelling(o) {
      OutcomeSpellings(o);
    }
  }

  /** It says what the patch says. */
  lemma CanonicalSaysSame(kind: Kind, patch: Document, key: string)
    ensures |Canonical(kind, patch)| == |patch| && Canonical(kind, patch).Keys == patch.Keys
    ensures Requested(kind, Canonical(kind, patch)) == Requested(kind, patch)
    ensures RequestedOutcome(kind, Canonical(kind, patch)) == RequestedOutcome(kind, patch)
    ensures key !in {"status", "outcome"} ==> Field(Canonical(kind, patch), key) == Field(patch, key)
  {
    AskedIsSent(kind, patch);
    CanonicalReadsBack(kind, patch);
    assert Canonical(kind, patch).Keys == patch.Keys;
    assert |Canonical(kind, patch).Keys| == |patch.Keys|;
  }

  predicate SaysSame(kind: Kind, patch: Document, p: Document) {
    && p.Keys == patch.Keys
    && (forall key | key in patch && key !in {"status", "outcome"} :: p[key] == patch[key])
    && Requested(kind, p) == Requested(kind, patch)
    && RequestedOutcome(kind, p) == RequestedOutcome(kind, patch)
  }

  lemma CanonicalIsSame(kind: Kind, patch: Document)
    ensures SaysSame(kind, patch, Canonical(kind, patch))
  {
    CanonicalSaysSame(kind, patch, "status");
  }

  lemma StatusLawOf(r: Row, patch: Document, p: Document, r': Row)
    requires SaysSame(KindOf(r), patch, p) && StatusLaw(r, p, r')
    ensures StatusLaw(r, patch, r')
  {
    forall s ensures Asks(KindOf(r), p, s) <==> Asks(KindOf(r), patch, s) {
      AsksIsRequested(KindOf(r), p, s);
      AsksIsRequested(KindOf(r), patch, s);
    }
  }

  lemma ColumnsLawOf(r: Row, patch: Document, p: Document, r': Row, now: int)
    requires SaysSame(KindOf(r), patch, p) && KindOf(r') == KindOf(r) && (r.SourceRow? <==> r'.SourceRow?)
    requires TitleLaw(r, p, r') && OwnColumnsLaw(r, p, r', now)
    ensures TitleLaw(r, patch, r') && OwnColumnsLaw(r, patch, r', now)
  {
    forall o ensures r.FeedbackRow? ==> (AsksFor(p, o) <==> AsksFor(patch, o)) {
      ParseOutcomeExactlyWhen(Sent(p, "outcome"), o);
      ParseOutcomeExactlyWhen(Sent(patch, "outcome"), o);
    }
  }

  // ---------------------------------------------------------------- references and links

  /** Whether a call rewrites the links into its target, and which sources it then names. */
  predicate Rewrites(kind: Kind, patch: Document) {
    match kind
    case Problem => "linkedSources" in patch
    case Idea => "selectedProblemId" in patch
    case Task => "selectedIdeaId" in patch
    case Feedback => true
    case _ => false
  }

  /** The kind an entry names, by the first of two keys that is not blank, and its id. */
  predicate Entry(item: Value, first: string, second: string, source: Source) {
    && item.Object? && source.id != "" && source.id == Sent(item.fields, "id")
    && ArtifactType(FirstOf(Sent(item.fields, first), Sent(item.fields, second))) == Some(source.kind)
  }

  /** Which entries of the two lists name which source. */
  lemma EntriesNameExactlyWhen(item: Value, source: Source)
    ensures ProblemSource(item) == Some(source)
            <==> Entry(item, "artifactType", "type", source) && source.kind in {Story, Journey}
    ensures FeedbackSource(item) == Some(source)
            <==> Entry(item, "type", "artifactType", source) && source.kind in {Task, Idea, Problem}
  {
  }

  predicate Names(kind: Kind, patch: Document, source: Source) {
    match kind
    case Problem => exists item | item in Listed(patch, "linkedSources") :: ProblemSource(item) == Some(source)
    case Idea => source == Source(Problem, Sent(patch, "selectedProblemId"))
    case Task => source == Source(Idea, Sent(patch, "selectedIdeaId"))
    case Feedback => exists item | item in Listed(patch, "linkedArtifacts") :: FeedbackSource(item) == Some(source)
    case _ => false
  }

  /** The reference the call resolves: the one it names, and for feedback the first task in its
      list. */
  ghost predicate RefLaw(kind: Kind, patch: Document, ref: Option<Id>) {
    match kind
    case Idea => ref == if "selectedProblemId" in patch then Some(Sent(patch, "selectedProblemId")) else None
    case Task => ref == if "selectedIdeaId" in patch then Some(Sent(patch, "selectedIdeaId")) else None
    case Feedback => FirstTaskIn(Listed(patch, "linkedArtifacts"), ref)
    case _ => ref.None?
  }

  predicate NamesTask(item: Value) {
    FeedbackSource(item).Some? && FeedbackSource(item).value.kind == Task
  }

  ghost predicate FirstTaskIn(items: seq<Value>, ref: Option<Id>) {
    if ref.None? then forall item | item in items :: !NamesTask(item)
    else exists i | 0 <= i < |items| ::
           && FeedbackSource(items[i]) == Some(Source(Task, ref.value))
           && forall j | 0 <= j < i :: !NamesTask(items[j])
  }

  /** Links into the target, where the call rewrites them, are exactly those to the sources it
      names, primary on ideas and tasks; every other link stays. */
  ghost predicate LinkLaw(links: set<Link>, project: Id, target: Source, patch: Document, links': set<Link>) {
    forall l: Link ::
      l in links' <==>
      if l.target == target && Rewrites(target.kind, patch)
      then l.project == project && Names(target.kind, patch, l.source) && (l.primary <==> target.kind in {Idea, Task})
      else l in links
  }

  lemma {:induction false} FirstTaskSnoc(sources: seq<Source>, last: Source)
    ensures FirstTask(sources + [last]) ==
            if FirstTask(sources).Some? then FirstTask(sources)
            else if last.kind == Task then Some(last.id) else None
  {
    if sources != [] {
      assert (sources + [last])[1..] == sources[1..] + [last];
      FirstTaskSnoc(sources[1..], last);
    }
  }

  lemma FirstTaskInSnoc(items: seq<Value>, last: Value, ref: Option<Id>)
    requires FirstTaskIn(items, ref)
    ensures FirstTaskIn(items + [last],
                        if ref.Some? then ref
                        else if NamesTask(last) then Some(FeedbackSource(last).value.id) else None)
  {
    var all := items + [last];
    if ref.Some? {
      var i :| 0 <= i < |items| && FeedbackSource(items[i]) == Some(Source(Task, ref.value))
               && forall j | 0 <= j < i :: !NamesTask(items[j]);
      assert all[i] == items[i] && forall j | 0 <= j < i :: all[j] == items[j];
    } else if NamesTask(last) {
      assert all[|items|] == last && forall j | 0 <= j < |items| :: all[j] == items[j] && items[j] in items;
    }
  }

  lemma ResolvedSnoc(rows: Rows, project: Id, items: seq<Value>, last: Value)
    requires ResolveLinks(rows, project, items + [last]).Some?
    ensures ResolveLinks(rows, project, items).Some?
    ensures ResolveLinks(rows, project, items + [last]).value
            == ResolveLinks(rows, project, items).value
               + if FeedbackSource(last).Some? then [FeedbackSource(last).value] else []
  {
    assert (items + [last])[..|items|] == items;
  }

  lemma {:induction false} ResolvedFirstTask(rows: Rows, project: Id, items: seq<Value>)
    requires ResolveLinks(rows, project, items).Some?
    ensures FirstTaskIn(items, FirstTask(ResolveLinks(rows, project, items).value))
  {
    if items != [] {
      var n := |items| - 1;
      assert items == items[..n] + [items[n]];
      ResolvedSnoc(rows, project, items[..n], items[n]);
      ResolvedFirstTask(rows, project, items[..n]);
      var sources := ResolveLinks(rows, project, items[..n]).value;
      FirstTaskInSnoc(items[..n], items[n], FirstTask(sources));
      if FeedbackSource(items[n]).Some? {
        FirstTaskSnoc(sources, FeedbackSource(items[n]).value);
      }
    }
  }

  /** What a call resolves is what it names. */
  lemma GateIsLawful(rows: Rows, kind: Kind, project: Id, patch: Document)
    requires Gate(rows, kind, project, patch).Some?
    ensures
      var refs := Gate(rows, kind, project, patch).value;
      && RefLaw(kind, patch, refs.primary)
      && (kind != Problem ==> (Relinks(kind, patch, refs) <==> Rewrites(kind, patch)))
      && (kind != Problem && Rewrites(kind, patch) ==>
            forall source :: source in refs.sources <==> Names(kind, patch, source))
  {
    if kind == Feedback {
      var items := Listed(patch, "linkedArtifacts");
      SentIs(patch, "linkedArtifacts");
      ResolvedFirstTask(rows, project, items);
      ResolvedAreNamed(rows, project, items);
    }
  }

  /** The link of an entry in a problem's list. */
  predicate LinkOf(item: Value, project: Id, target: Id, l: Link) {
    ProblemSource(item) == Some(l.source) && l == Link(project, l.source, Source(Problem, target), false)
  }

  lemma SourceLinksCons(rows: Rows, project: Id, target: Id, items: seq<Value>, l: Link)
    requires items != [] && SourceLinks(rows, project, target, items).Some?
    ensures SourceLinks(rows, project, target, items[1..]).Some?
    ensures l in SourceLinks(rows, project, target, items).value
            <==> LinkOf(items[0], project, target, l) || l in SourceLinks(rows, project, target, items[1..]).value
  {
  }

  lemma {:induction false} SourceLinksAreNamed(rows: Rows, project: Id, target: Id, items: seq<Value>, l: Link)
    requires SourceLinks(rows, project, target, items).Some?
    ensures l in SourceLinks(rows, project, target, items).value
            <==> exists item | item in items :: LinkOf(item, project, target, l)
  {
    if items != [] {
      SourceLinksCons(rows, project, target, items, l);
      SourceLinksAreNamed(rows, project, target, items[1..], l);
      assert items == [items[0]] + items[1..];
    }
  }

  lemma OldLinksAreCleared(rows: Rows, links: set<Link>, target: Id)
    requires LinksOk(rows, links) && target in rows
    ensures
      var t := Source(KindOf(rows[target]), target);
      forall l | l in links :: Cleared(l, rows[target].project, t) <==> l.target == t
  {
    var t := Source(KindOf(rows[target]), target);
    forall l | l in links ensures Cleared(l, rows[target].project, t) <==> l.target == t {
      assert LinkOk(rows, l);
    }
  }

  /** The links a call adds. */
  function Added(tables: Tables, target: Id, patch: Document): set<Link>
    requires target in tables.rows
    requires
      var r := tables.rows[target];
      && Gate(tables.rows, KindOf(r), r.project, patch).Some?
      && SourceLinks(tables.rows, r.project, target, SourceItems(KindOf(r), patch)).Some?
  {
    var r := tables.rows[target];
    RefLinks(KindOf(r), r.project, target, Gate(tables.rows, KindOf(r), r.project, patch).value)
    + SourceLinks(tables.rows, r.project, target, SourceItems(KindOf(r), patch)).value
  }

  lemma AddedAreNamed(tables: Tables, target: Id, patch: Document, l: Link)
    requires target in tables.rows
    requires
      var r := tables.rows[target];
      && Gate(tables.rows, KindOf(r), r.project, patch).Some?
      && SourceLinks(tables.rows, r.project, target, SourceItems(KindOf(r), patch)).Some?
    requires Rewrites(KindOf(tables.rows[target]), patch)
    ensures
      var r := tables.rows[target];
      var kind := KindOf(r);
      l in Added(tables, target, patch)
      <==> l.target == Source(kind, target) && l.project == r.project && Names(kind, patch, l.source)
           && (l.primary <==> kind in {Idea, Task})
  {
    var r := tables.rows[target];
    GateIsLawful(tables.rows, KindOf(r), r.project, patch);
    SourceLinksAreNamed(tables.rows, r.project, target, SourceItems(KindOf(r), patch), l);
  }

  lemma LinksAreLawful(tables: Tables, target: Id, patch: Document, now: int)
    requires LinksOk(tables.rows, tables.links) && target in tables.rows
    requires TxEffect(tables, target, patch, now).Some?
    ensures
      var r := tables.rows[target];
      LinkLaw(tables.links, r.project, Source(KindOf(r), target), patch,
              TxEffect(tables, target, patch, now).value.links)
  {
    var r := tables.rows[target];
    OldLinksAreCleared(tables.rows, tables.links, target);
    GateIsLawful(tables.rows, KindOf(r), r.project, patch);
    if Rewrites(KindOf(r), patch) {
      forall l ensures l in Added(tables, target, patch)
                       <==> l.target == Source(KindOf(r), target) && l.project == r.project
                            && Names(KindOf(r), patch, l.source) && (l.primary <==> KindOf(r) in {Idea, Task}) {
        AddedAreNamed(tables, target, patch, l);
      }
    }
  }

  // ---------------------------------------------------------------- the whole call

  /** The row follows the column law, with the reference the patch names. */
  ghost predicate RowAfter(r: Row, patch: Document, r': Row, now: int) {
    exists ref :: RefLaw(KindOf(r), patch, ref) && RowLaw(r, patch, ref, r', now)
  }

  /** The document is merged, field by field, with the canonical patch. */
  ghost predicate DocAfter(kind: Kind, doc: Document, patch: Document, doc': Document) {
    exists p :: CanonicalLaw(kind, patch, p) && MergeLaw(doc, p, doc')
  }

  /** What an accepted call makes of the tables; no other row, link or document is touched. */
  ghost predicate CallLaw(tables: Tables, target: Id, patch: Document, now: int, after: Tables)
    requires target in tables.rows
  {
    var r := tables.rows[target];
    && after.rows.Keys == tables.rows.Keys
    && (forall id | id in tables.rows && id != target :: after.rows[id] == tables.rows[id])
    && RowAfter(r, patch, after.rows[target], now)
    && LinkLaw(tables.links, r.project, Source(KindOf(r), target), patch, after.links)
    && after.docs.Keys == tables.docs.Keys + {target}
    && (forall id | id in tables.docs && id != target :: after.docs[id] == tables.docs[id])
    && DocAfter(KindOf(r), if target in tables.docs then tables.docs[target] else map[], patch, after.docs[target])
  }

  lemma RowAfterOf(r: Row, patch: Document, p: Document, ref: Option<Id>, r': Row, now: int)
    requires SaysSame(KindOf(r), patch, p) && RefLaw(KindOf(r), p, ref) && RowLaw(r, p, ref, r', now)
    ensures RowAfter(r, patch, r', now)
  {
    RefLawOf(KindOf(r), patch, p, ref);
    RowLawOf(r, patch, p, ref, r', now);
  }

  lemma RefLawOf(kind: Kind, patch: Document, p: Document, ref: Option<Id>)
    requires SaysSame(kind, patch, p) && RefLaw(kind, p, ref)
    ensures RefLaw(kind, patch, ref)
  {
  }

  lemma RowLawOf(r: Row, patch: Document, p: Document, ref: Option<Id>, r': Row, now: int)
    requires SaysSame(KindOf(r), patch, p) && RowLaw(r, p, ref, r', now)
    ensures RowLaw(r, patch, ref, r', now)
  {
    StatusLawOf(r, patch, p, r');
    ColumnsLawOf(r, patch, p, r', now);
  }

  lemma LinkLawOf(links: set<Link>, project: Id, target: Source, patch: Document, p: Document, links': set<Link>)
    requires SaysSame(target.kind, patch, p) && LinkLaw(links, project, target, p, links')
    ensures LinkLaw(links, project, target, patch, links')
  {
    forall source ensures Names(target.kind, p, source) <==> Names(target.kind, patch, source) {
    }
  }

  lemma DocIsAfter(kind: Kind, doc: Document, patch: Document)
    ensures DocAfter(kind, doc, patch, Merge(doc, Canonical(kind, patch)))
  {
    CanonicalIsLawful(kind, patch);
    MergeIsLawful(doc, Canonical(kind, patch));
  }

  lemma TxRow(tables: Tables, target: Id, p: Document, now: int) returns (ref: Option<Id>)
    requires RowsOk(tables.rows) && target in tables.rows && TxEffect(tables, target, p, now).Some?
    ensures RefLaw(KindOf(tables.rows[target]), p, ref)
    ensures
      var after := TxEffect(tables, target, p, now).value;
      && after.rows.Keys == tables.rows.Keys && RowLaw(tables.rows[target], p, ref, after.rows[target], now)
      && forall id | id in tables.rows && id != target :: after.rows[id] == tables.rows[id]
  {
    var r := tables.rows[target];
    ref := Gate(tables.rows, KindOf(r), r.project, p).value.primary;
    GateIsLawful(tables.rows, KindOf(r), r.project, p);
    UpdatedIsLawful(tables.rows, r, p, ref, now);
  }

  lemma TxDoc(tables: Tables, target: Id, p: Document, now: int)
    requires target in tables.rows && TxEffect(tables, target, p, now).Some?
    ensures
      var after := TxEffect(tables, target, p, now).value;
      && after.docs.Keys == tables.docs.Keys + {target}
      && (forall id | id in tables.docs && id != target :: after.docs[id] == tables.docs[id])
      && after.docs[target] == Merge(if target in tables.docs then tables.docs[target] else map[], p)
  {
  }

  /** Every accepted call obeys the law. */
  lemma CallIsLawful(tables: Tables, target: Id, patch: Document, now: int)
    requires RowsOk(tables.rows) && LinksOk(tables.rows, tables.links)
    requires UpdateCall(tables, target, patch, now).Some?
    ensures target in tables.rows && CallLaw(tables, target, patch, now, UpdateCall(tables, target, patch, now).value)
  {
    var r := tables.rows[target];
    var kind, project := KindOf(r), r.project;
    var p, after := Canonical(kind, patch), UpdateCall(tables, target, patch, now).value;
    CanonicalIsSame(kind, patch);
    var ref := TxRow(tables, target, p, now);
    RowAfterOf(r, patch, p, ref, after.rows[target], now);
    LinksAreLawful(tables, target, p, now);
    LinkLawOf(tables.links, project, Source(kind, target), patch, p, after.links);
    TxDoc(tables, target, p, now);
    DocIsAfter(kind, if target in tables.docs then tables.docs[target] else map[], patch);
  }

  // ---------------------------------------------------------------- which calls are accepted

  /** The status a patch asks for, if it asks for one of its kind. */
  ghost function Asked(kind: Kind, patch: Document): (want: Option<Status>)
    ensures forall s :: want == Some(s) <==> Asks(kind, patch, s)
  {
    AskedOnce(kind, patch);
    if s :| Asks(kind, patch, s) then Some(s) else None
  }

  lemma AskedOnce(kind: Kind, patch: Document)
    ensures forall s, t | Asks(kind, patch, s) && Asks(kind, patch, t) :: s == t
  {
    forall s, t | Asks(kind, patch, s) && Asks(kind, patch, t) ensures s == t {
      AsksIsRequested(kind, patch, s);
      AsksIsRequested(kind, patch, t);
    }
  }

  lemma AskedIsRequested(kind: Kind, patch: Document)
    ensures Asked(kind, patch) == Requested(kind, patch)
  {
    forall s ensures Requested(kind, patch) == Some(s) <==> Asks(kind, patch, s) {
      AsksIsRequested(kind, patch, s);
    }
    assert Requested(kind, patch).Some? ==> Asks(kind, patch, Requested(kind, patch).value);
  }

  /** A status, if one is sent, is one of the kind; so is an outcome on feedback. */
  ghost predicate SpelledRight(kind: Kind, patch: Document) {
    && (Sent(patch, "status") == "" || Asked(kind, patch).Some?)
    && (kind == Feedback ==> Sent(patch, "outcome") == "" || exists o :: AsksFor(patch, o))
  }

  /** The patch is a status alone, and archives the artifact or restores it. */
  ghost predicate MovesOnly(r: Row, patch: Document) {
    && patch.Keys == {"status"}
    && Asked(KindOf(r), patch).Some?
    && (r.status == Archived || Asked(KindOf(r), patch) == Some(Archived))
  }

  predicate IsLocked(rows: Rows, id: Id) {
    id in rows && rows[id].ProblemRow? && rows[id].status == Locked
  }

  predicate IsSelected(rows: Rows, id: Id) {
    id in rows && rows[id].IdeaRow? && rows[id].status == Selected
  }

  predicate IsRejected(rows: Rows, id: Id) {
    id in rows && rows[id].IdeaRow? && rows[id].status == Rejected
  }

  /** The steps a task may take. */
  predicate TaskSteps(from: Status, to: Status) {
    (from == Planned && to in {Planned, InProgress, Abandoned})
    || (from == InProgress && to in {InProgress, Completed, Abandoned})
  }

  /** Drafts take any patch; locked and archived ones can only be archived and restored. */
  ghost predicate SourceAccepts(r: Row, patch: Document) {
    r.status == Draft || MovesOnly(r, patch)
  }

  /** Every linked source of a problem is a locked story or journey of its project. */
  predicate SourcesAccepted(rows: Rows, project: Id, patch: Document) {
    "linkedSources" in patch ==>
      && patch["linkedSources"].Array?
      && forall item | item in patch["linkedSources"].items ::
           var source := ProblemSource(item);
           && source.Some? && source.value.id in rows && rows[source.value.id].SourceRow?
           && KindOf(rows[source.value.id]) == source.value.kind
           && rows[source.value.id].project == project && rows[source.value.id].status == Locked
  }

  /** An idea names only locked problems of its project.  Selecting it, and any edit of a
      considered idea that asks for no status, needs the problem in effect locked. */
  ghost predicate IdeaAccepts(rows: Rows, r: Row, patch: Document)
    requires r.IdeaRow?
  {
    var named := Sent(patch, "selectedProblemId");
    var want := Asked(Idea, patch);
    && ("selectedProblemId" in patch ==>
          named != "" && IsLocked(rows, named) && rows[named].project == r.project)
    && (r.status == Considered || MovesOnly(r, patch))
    && (want.None? || want == Some(Selected) ==>
          "selectedProblemId" in patch || (r.primary.Some? && IsLocked(rows, r.primary.value)))
  }

  /** A task names only selected ideas of its project.  It takes only its steps, none once it
      has ended, and is started or kept going on no idea that is rejected. */
  ghost predicate TaskAccepts(rows: Rows, r: Row, patch: Document)
    requires r.TaskRow?
  {
    var named := Sent(patch, "selectedIdeaId");
    var next := if Asked(Task, patch).Some? then Asked(Task, patch).value else r.status;
    && ("selectedIdeaId" in patch ==>
          named != "" && IsSelected(rows, named) && rows[named].project == r.project)
    && TaskSteps(r.status, next)
    && (next == InProgress && "selectedIdeaId" !in patch && r.primary.Some? ==> !IsRejected(rows, r.primary.value))
  }

  predicate Resolves(rows: Rows, project: Id, item: Value) {
    FeedbackSource(item).Some? ==> Exists(rows, project, FeedbackSource(item).value)
  }

  /** Every artifact a feedback list names exists in its project. */
  predicate ItemsExist(rows: Rows, project: Id, patch: Document) {
    forall item | item in Listed(patch, "linkedArtifacts") :: Resolves(rows, project, item)
  }

  /** What the kinds demand; active and archived feedback takes every patch. */
  ghost predicate KindAccepts(rows: Rows, r: Row, patch: Document) {
    match r
    case SourceRow(_, _, _, _, _, _, _, _, _) => SourceAccepts(r, patch)
    case ProblemRow(_, _, _, _, _, _) => SourceAccepts(r, patch) && SourcesAccepted(rows, r.project, patch)
    case IdeaRow(_, _, _, _, _, _, _) => IdeaAccepts(rows, r, patch)
    case TaskRow(_, _, _, _, _, _, _, _) => TaskAccepts(rows, r, patch)
    case FeedbackRow(_, _, _, _, _, _, _) => ItemsExist(rows, r.project, patch)
  }

  lemma ValidIs(kind: Kind, patch: Document)
    ensures ValidPatch(kind, patch) <==> SpelledRight(kind, patch)
  {
    AskedIsRequested(kind, patch);
    SentIs(patch, "status");
    SentIs(patch, "outcome");
    forall o ensures ParseOutcome(Sent(patch, "outcome")) == Some(o) <==> AsksFor(patch, o) {
      ParseOutcomeExactlyWhen(Sent(patch, "outcome"), o);
    }
  }

  lemma MovesIs(r: Row, patch: Document)
    ensures MovesOnly(r, patch) <==>
            ArchiveOnly(KindOf(r), patch) || RestoreOnly(KindOf(r), r.status, patch)
  {
    AskedIsRequested(KindOf(r), patch);
    AskedIsSent(KindOf(r), patch);
    assert |patch| == |patch.Keys|;
    if |patch| == 1 && "status" in patch {
      assert |patch.Keys - {"status"}| == 0;
      assert patch.Keys == {"status"};
    }
  }

  lemma SourceGateIs(r: Row, patch: Document)
    requires RowOk(r) && (r.SourceRow? || r.ProblemRow?)
    ensures ServiceAllows(KindOf(r), r.status, patch) && Holds(SourceGuard(Requested(KindOf(r), patch), r.status))
            <==> SourceAccepts(r, patch)
  {
    MovesIs(r, patch);
    AskedIsRequested(KindOf(r), patch);
  }

  lemma IdeaGateIs(r: Row, patch: Document, problem: Option<Id>, locked: bool)
    requires RowOk(r) && r.IdeaRow? && (locked ==> problem.Some?)
    ensures ServiceAllows(Idea, r.status, patch) && Holds(IdeaGuard(Requested(Idea, patch), r.status, problem, locked))
            <==> (r.status == Considered || MovesOnly(r, patch))
                 && (Asked(Idea, patch).None? || Asked(Idea, patch) == Some(Selected) ==> locked)
  {
    MovesIs(r, patch);
    AskedIsRequested(Idea, patch);
  }

  lemma TaskGateIs(r: Row, patch: Document, rejected: bool)
    requires RowOk(r) && r.TaskRow?
    ensures ServiceAllows(Task, r.status, patch) && Holds(TaskGuard(Requested(Task, patch), r.status, rejected))
            <==>
            var next := if Asked(Task, patch).Some? then Asked(Task, patch).value else r.status;
            TaskSteps(r.status, next) && (next == InProgress ==> !rejected)
  {
    MovesIs(r, patch);
    AskedIsRequested(Task, patch);
  }

  lemma ResolveSnoc(rows: Rows, project: Id, items: seq<Value>, last: Value)
    ensures ResolveLinks(rows, project, items + [last]).Some?
            <==> ResolveLinks(rows, project, items).Some? && Resolves(rows, project, last)
  {
    assert (items + [last])[..|items|] == items;
  }

  lemma {:induction false} LinksResolve(rows: Rows, project: Id, items: seq<Value>)
    ensures ResolveLinks(rows, project, items).Some? <==> forall item | item in items :: Resolves(rows, project, item)
  {
    if items != [] {
      var n := |items| - 1;
      LinksResolve(rows, project, items[..n]);
      ResolveSnoc(rows, project, items[..n], items[n]);
      assert items == items[..n] + [items[n]];
    }
  }

  lemma {:induction false} SourcesResolve(rows: Rows, project: Id, target: Id, items: seq<Value>)
    ensures SourceLinks(rows, project, target, items).Some?
            <==> forall item | item in items ::
                   ProblemSource(item).Some? && ExistsWith(rows, project, ProblemSource(item).value, Locked)
  {
    if items != [] {
      SourcesResolve(rows, project, target, items[1..]);
      assert items == [items[0]] + items[1..];
    }
  }

  lemma ProblemSourceKind(item: Value)
    ensures ProblemSource(item).Some? ==> ProblemSource(item).value.kind in {Story, Journey}
  {
  }

  lemma SourcesAcceptedIs(rows: Rows, project: Id, target: Id, patch: Document)
    requires RowsOk(rows)
    ensures SourcesWellFormed(Problem, patch)
            && SourceLinks(rows, project, target, SourceItems(Problem, patch)).Some?
            <==> SourcesAccepted(rows, project, patch)
  {
    SourcesResolve(rows, project, target, SourceItems(Problem, patch));
    forall item ensures ProblemSource(item).Some? ==> ProblemSource(item).value.kind in {Story, Journey} {
      ProblemSourceKind(item);
    }
  }

  lemma SourceAccepted(tables: Tables, target: Id, p: Document, now: int)
    requires RowsOk(tables.rows) && target in tables.rows
    requires tables.rows[target].SourceRow? || tables.rows[target].ProblemRow?
    ensures
      var r := tables.rows[target];
      ServiceAllows(KindOf(r), r.status, p) && TxEffect(tables, target, p, now).Some?
      <==> KindAccepts(tables.rows, r, p)
  {
    var r := tables.rows[target];
    SourceGateIs(r, p);
    if r.ProblemRow? {
      SourcesAcceptedIs(tables.rows, r.project, target, p);
    }
  }

  /** Where no sources are listed, a transaction needs its reference and its UPDATE alone. */
  lemma TxNeeds(tables: Tables, target: Id, p: Document, now: int)
    requires target in tables.rows && KindOf(tables.rows[target]) != Problem
    ensures
      var r := tables.rows[target];
      var refs := Gate(tables.rows, KindOf(r), r.project, p);
      TxEffect(tables, target, p, now).Some?
      <==> refs.Some? && Updated(tables.rows, r, p, refs.value.primary, now).Some?
  {
  }

  lemma GateOneIs(rows: Rows, project: Id, p: Document, key: string, kind: Kind, status: Status)
    requires kind in {Problem, Idea}
    ensures
      var id, refs := Sent(p, key), GateOne(rows, project, p, key, kind, status);
      && (refs.Some? <==>
            key in p ==> id != "" && ExistsWith(rows, project, Source(kind, id), status))
      && (refs.Some? ==> refs.value.primary == if key in p then Some(id) else None)
  {
    SentIs(p, key);
  }

  lemma IdeaUpdates(rows: Rows, r: Row, p: Document, ref: Option<Id>, now: int)
    requires r.IdeaRow?
    ensures
      var problem := if ref.Some? then ref else r.primary;
      Updated(rows, r, p, ref, now).Some?
      <==> Holds(IdeaGuard(Requested(Idea, p), r.status, problem, ProblemLocked(rows, problem)))
  {
  }

  lemma TaskUpdates(rows: Rows, r: Row, p: Document, ref: Option<Id>, now: int)
    requires r.TaskRow?
    ensures
      var idea := if ref.Some? then ref else r.primary;
      Updated(rows, r, p, ref, now).Some?
      <==> Holds(TaskGuard(Requested(Task, p), r.status, IdeaRejected(rows, idea)))
  {
  }

  lemma IdeaAccepted(tables: Tables, target: Id, p: Document, now: int)
    requires RowsOk(tables.rows) && target in tables.rows && tables.rows[target].IdeaRow?
    ensures
      var r := tables.rows[target];
      ServiceAllows(Idea, r.status, p) && TxEffect(tables, target, p, now).Some?
      <==> IdeaAccepts(tables.rows, r, p)
  {
    var r := tables.rows[target];
    var ref := if "selectedProblemId" in p then Some(Sent(p, "selectedProblemId")) else None;
    var problem := if ref.Some? then ref else r.primary;
    TxNeeds(tables, target, p, now);
    GateOneIs(tables.rows, r.project, p, RefKey(Idea), Problem, Locked);
    IdeaUpdates(tables.rows, r, p, ref, now);
    IdeaGateIs(r, p, problem, ProblemLocked(tables.rows, problem));
  }

  lemma TaskAccepted(tables: Tables, target: Id, p: Document, now: int)
    requires RowsOk(tables.rows) && target in tables.rows && tables.rows[target].TaskRow?
    ensures
      var r := tables.rows[target];
      ServiceAllows(Task, r.status, p) && TxEffect(tables, target, p, now).Some?
      <==> TaskAccepts(tables.rows, r, p)
  {
    var r := tables.rows[target];
    var ref := if "selectedIdeaId" in p then Some(Sent(p, "selectedIdeaId")) else None;
    var idea := if ref.Some? then ref else r.primary;
    TxNeeds(tables, target, p, now);
    GateOneIs(tables.rows, r.project, p, RefKey(Task), Idea, Selected);
    TaskUpdates(tables.rows, r, p, ref, now);
    TaskGateIs(r, p, IdeaRejected(tables.rows, idea));
  }

  lemma FeedbackAccepted(tables: Tables, target: Id, p: Document, now: int)
    requires RowsOk(tables.rows) && target in tables.rows && tables.rows[target].FeedbackRow?
    ensures
      var r := tables.rows[target];
      ServiceAllows(Feedback, r.status, p) && TxEffect(tables, target, p, now).Some?
      <==> ItemsExist(tables.rows, r.project, p)
  {
    SentIs(p, "linkedArtifacts");
    LinksResolve(tables.rows, tables.rows[target].project, Listed(p, "linkedArtifacts"));
  }

  lemma AcceptsSame(rows: Rows, r: Row, patch: Document, p: Document)
    requires SaysSame(KindOf(r), patch, p)
    ensures KindAccepts(rows, r, p) <==> KindAccepts(rows, r, patch)
  {
    AskedIsRequested(KindOf(r), p);
    AskedIsRequested(KindOf(r), patch);
  }

  /** An update call succeeds if and only if its artifact exists, its status and outcome are
      spelled right, and its kind accepts it: the checks of the service, the gates and the WHERE
      clause together come to this. */
  lemma AcceptedExactlyWhen(tables: Tables, target: Id, patch: Document, now: int)
    requires RowsOk(tables.rows)
    ensures UpdateCall(tables, target, patch, now).Some?
            <==> target in tables.rows
                 && SpelledRight(KindOf(tables.rows[target]), patch)
                 && KindAccepts(tables.rows, tables.rows[target], patch)
  {
    if target in tables.rows {
      var r := tables.rows[target];
      var p := Canonical(KindOf(r), patch);
      ValidIs(KindOf(r), patch);
      CanonicalIsSame(KindOf(r), patch);
      AcceptsSame(tables.rows, r, patch, p);
      match r {
        case IdeaRow(_, _, _, _, _, _, _) => IdeaAccepted(tables, target, p, now);
        case TaskRow(_, _, _, _, _, _, _, _) => TaskAccepted(tables, target, p, now);
        case FeedbackRow(_, _, _, _, _, _, _) => FeedbackAccepted(tables, target, p, now);
        case _ => SourceAccepted(tables, target, p, now);
      }
    }
  }
}
