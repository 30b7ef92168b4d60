/**
 One update call as a function on the tables, its embedding into runs, and the exact
 condition under which overlapping calls keep the chain from tasks to locked evidence.
 */
module ArtifactCalls {
  import opened Text
  import opened Patches
  import opened Lifecycle
  import opened Artifacts
  import opened ArtifactRuns
  import opened CurrentCalls

  datatype Tables = Tables(rows: Rows, links: set<Link>, docs: map<Id, Document>)

  function TablesOf(s: State): Tables {
    Tables(s.rows, s.links, s.docs)
  }

  // ---------------------------------------------------------------- the call as a function

  /** replaceProblemSourceLinks: every entry must name a locked story or journey of the
      project. */
  function SourceLinks(rows: Rows, project: Id, target: Id, items: seq<Value>): Option<set<Link>> {
    if items == [] then Some({})
    else
      var source := ProblemSource(items[0]);
      if source.None? || !ExistsWith(rows, project, source.value, Locked) then None
      else
        var rest := SourceLinks(rows, project, target, items[1..]);
        if rest.None? then None
        else Some({Link(project, source.value, Source(Problem, target), false)} + rest.value)
  }

  /** What the transaction of an update call does when nothing else happens meanwhile. */
  function TxEffect(tables: Tables, target: Id, patch: Document, now: int): Option<Tables>
    requires target in tables.rows
  {
    var r := tables.rows[target];
    var kind := KindOf(r);
    var refs := Gate(tables.rows, kind, r.project, patch);
    if refs.None? || !SourcesWellFormed(kind, patch) then None
    else
      var row := Updated(tables.rows, r, patch, refs.value.primary, now);
      var sources := SourceLinks(tables.rows, r.project, target, SourceItems(kind, patch));
      if row.None? || sources.None? then None
      else
        var added := RefLinks(kind, r.project, target, refs.value) + sources.value;
        Some(Tables(tables.rows[target := row.value],
                    LinksAfter(tables.links, r.project, Source(kind, target), Relinks(kind, patch, refs.value), added),
                    tables.docs[target := Merge(DocOf(tables.docs, target), patch)]))
  }

  /** What Update* checks before it opens the transaction. */
  predicate Accepts(rows: Rows, target: Id, patch: Document) {
    && target in rows
    && var kind := KindOf(rows[target]);
       ValidPatch(kind, patch) && ServiceAllows(kind, rows[target].status, Canonical(kind, patch))
  }

  /** A whole update call; None is any refusal, and leaves the tables alone. */
  function UpdateCall(tables: Tables, target: Id, patch: Document, now: int): Option<Tables> {
    if !Accepts(tables.rows, target, patch) then None
    else TxEffect(tables, target, Canonical(KindOf(tables.rows[target]), patch), now)
  }

  /** A completed or abandoned task accepts no update at all. */
  lemma EndedTaskRefusesAll(tables: Tables, target: Id, patch: Document, now: int)
    requires target in tables.rows && tables.rows[target].TaskRow?
    requires tables.rows[target].status in {Completed, Abandoned}
    ensures UpdateCall(tables, target, patch, now).None?
  {
    if Accepts(tables.rows, target, patch) {
      FrozenTakesStatusOnly(tables.rows[target], Canonical(Task, patch));
    }
  }

  lemma {:induction false} ResolvedAreNamed(rows: Rows, project: Id, items: seq<Value>)
    requires ResolveLinks(rows, project, items).Some?
    ensures forall source :: source in ResolveLinks(rows, project, items).value
                             <==> exists item | item in items :: FeedbackSource(item) == Some(source)
  {
    if items != [] {
      var n := |items| - 1;
      ResolvedAreNamed(rows, project, items[..n]);
      assert items == items[..n] + [items[n]];
    }
  }

  /** The links that the entries of a list name. */
  function NamedLinks(project: Id, target: Id, items: seq<Value>): set<Link> {
    set item | item in items && FeedbackSource(item).Some? ::
      Link(project, FeedbackSource(item).value, Source(Feedback, target), false)
  }

  /** After an update of feedback its links are exactly those its patch names: an old link
      survives if and only if the patch names it again. */
  lemma FeedbackLinksAreNamed(tables: Tables, target: Id, patch: Document, now: int)
    requires RowsOk(tables.rows) && LinksOk(tables.rows, tables.links)
    requires target in tables.rows && tables.rows[target].FeedbackRow?
    requires UpdateCall(tables, target, patch, now).Some?
    ensures
      Into(UpdateCall(tables, target, patch, now).value.links, target)
      == NamedLinks(tables.rows[target].project, target, ItemsOf(Field(patch, "linkedArtifacts")))
  {
    var project, items := tables.rows[target].project, ItemsOf(Field(patch, "linkedArtifacts"));
    var canonical := Canonical(Feedback, patch);
    assert Field(canonical, "linkedArtifacts") == Field(patch, "linkedArtifacts");
    ResolvedAreNamed(tables.rows, project, items);
    var sources := ResolveLinks(tables.rows, project, items).value;
    LinksToNamed(tables.rows, project, target, items);
    ClearedInto(tables.rows, tables.links, project, target, LinksTo(project, Source(Feedback, target), sources, false));
  }

  lemma LinksToNamed(rows: Rows, project: Id, target: Id, items: seq<Value>)
    requires ResolveLinks(rows, project, items).Some?
    ensures LinksTo(project, Source(Feedback, target), ResolveLinks(rows, project, items).value, false)
            == NamedLinks(project, target, items)
  {
    ResolvedAreNamed(rows, project, items);
  }

  lemma ClearedInto(rows: Rows, links: set<Link>, project: Id, target: Id, added: set<Link>)
    requires LinksOk(rows, links) && target in rows && rows[target].FeedbackRow? && rows[target].project == project
    requires forall l | l in added :: l.target == Source(Feedback, target)
    ensures Into(Relinked(links, project, Source(Feedback, target), added), target) == added
  {
    forall l | l in links && l.target.id == target ensures Cleared(l, project, Source(Feedback, target)) {
      assert LinkOk(rows, l);
    }
  }

  /** Feedback whose update lists no links loses them all, and its primary task: whether the
      list is missing, null, not an array, or empty. */
  lemma FeedbackLosesLinks(tables: Tables, target: Id, patch: Document, now: int)
    requires RowsOk(tables.rows) && LinksOk(tables.rows, tables.links)
    requires target in tables.rows && tables.rows[target].FeedbackRow?
    requires ItemsOf(Field(patch, "linkedArtifacts")) == []
    requires UpdateCall(tables, target, patch, now).Some?
    ensures
      var after := UpdateCall(tables, target, patch, now).value;
      && target in after.rows && after.rows[target].FeedbackRow? && after.rows[target].primary.None?
      && Into(after.links, target) == {}
  {
    FeedbackLinksAreNamed(tables, target, patch, now);
    var canonical := Canonical(Feedback, patch);
    assert Field(canonical, "linkedArtifacts") == Field(patch, "linkedArtifacts");
  }

  // ---------------------------------------------------------------- calls are runs

  lemma Extend(c: Config, states: seq<State>, steps: seq<Step>, step: Step)
    returns (states': seq<State>, steps': seq<Step>)
    requires Run(c, states, steps) && Enabled(c, states[|steps|], step)
    ensures Run(c, states', steps') && states <= states'
    ensures states'[|steps'|] == Do(c, states[|steps|], step)
  {
    states', steps' := states + [Do(c, states[|steps|], step)], steps + [step];
  }

  lemma GotoTwice(s: State, tx: TxId, a: Phase, b: Phase)
    requires tx in s.txs
    ensures Goto(Goto(s, tx, a), tx, b) == Goto(s, tx, b)
  {
  }

  lemma {:induction false} LinkAll(
    c: Config, states: seq<State>, steps: seq<Step>, s: State, tx: TxId, row: Row, relink: bool, added: set<Link>,
    todo: seq<Value>)
    returns (states': seq<State>, steps': seq<Step>)
    requires Run(c, states, steps) && tx in s.txs
    requires states[|steps|] == Goto(s, tx, Linking(row, relink, added, todo))
    requires KindOf(s.txs[tx].seen) == Problem || todo == []
    requires SourceLinks(s.rows, s.txs[tx].seen.project, s.txs[tx].target, todo).Some?
    ensures Run(c, states', steps') && states <= states'
    ensures states'[|steps'|] ==
            Goto(s, tx, Linking(row, relink,
                                added + SourceLinks(s.rows, s.txs[tx].seen.project, s.txs[tx].target, todo).value, []))
    decreases |todo|
  {
    states', steps' := states, steps;
    var project, target := s.txs[tx].seen.project, s.txs[tx].target;
    if todo == [] {
      assert added + {} == added;
    } else {
      var link := Link(project, ProblemSource(todo[0]).value, Source(Problem, target), false);
      states', steps' := Extend(c, states, steps, LinkSource(tx));
      GotoTwice(s, tx, Linking(row, relink, added, todo), Linking(row, relink, added + {link}, todo[1..]));
      assert added + SourceLinks(s.rows, project, target, todo).value
          == (added + {link}) + SourceLinks(s.rows, project, target, todo[1..]).value;
      states', steps' := LinkAll(c, states', steps', s, tx, row, relink, added + {link}, todo[1..]);
    }
  }

  lemma ThroughExecute(c: Config, states: seq<State>, steps: seq<Step>, tx: TxId, now: int)
    returns (states': seq<State>, steps': seq<Step>)
    requires Run(c, states, steps) && tx in states[|steps|].txs
    requires
      var s := states[|steps|];
      var t := s.txs[tx];
      && t.phase.Checked? && Unlocked(s, t.target) && t.target in s.rows
      && KindOf(t.seen) == KindOf(s.rows[t.target]) && t.seen.project == s.rows[t.target].project
      && TxEffect(TablesOf(s), t.target, t.patch, now).Some?
    ensures Run(c, states', steps') && states <= states'
    ensures
      var s := states[|steps|];
      var t := s.txs[tx];
      var refs := Gate(s.rows, KindOf(t.seen), t.seen.project, t.patch).value;
      states'[|steps'|] ==
        Goto(s, tx, Linking(Updated(s.rows, s.rows[t.target], t.patch, refs.primary, now).value,
                            Relinks(KindOf(t.seen), t.patch, refs),
                            RefLinks(KindOf(t.seen), t.seen.project, t.target, refs),
                            SourceItems(KindOf(t.seen), t.patch)))
  {
    var s := states[|steps|];
    var t := s.txs[tx];
    var refs := Gate(s.rows, KindOf(t.seen), t.seen.project, t.patch).value;
    states', steps' := Extend(c, states, steps, CheckRefs(tx));
    states', steps' := Extend(c, states', steps', Start(tx));
    GotoTwice(s, tx, Gated(refs), Started(refs, s.rows));
    assert states'[|steps'|] == Goto(s, tx, Started(refs, s.rows));
    states', steps' := Extend(c, states', steps', Execute(tx, now));
    GotoTwice(s, tx, Started(refs, s.rows), states'[|steps'|].txs[tx].phase);
  }

  lemma Close(c: Config, states: seq<State>, steps: seq<Step>, s: State, tx: TxId, row: Row, relink: bool,
              added: set<Link>)
    returns (states': seq<State>, steps': seq<Step>)
    requires Run(c, states, steps) && tx in s.txs
    requires states[|steps|] == Goto(s, tx, Linking(row, relink, added, []))
    ensures Run(c, states', steps') && states <= states'
    ensures
      var t := s.txs[tx];
      states'[|steps'|] == State(s.rows[t.target := row], LinksAfter(s.links, t.seen.project, Target(t), relink, added),
                                 s.docs[t.target := Merge(DocOf(s.docs, t.target), t.patch)], s.txs - {tx})
  {
    states', steps' := Extend(c, states, steps, WriteDoc(tx));
    var was := states'[|steps'|];
    states', steps' := Extend(c, states', steps', Commit(tx));
    assert was.txs - {tx} == s.txs - {tx};
  }

  /** An open transaction that nothing disturbs can run to its commit, with the effect of
      the function. */
  lemma Finish(c: Config, states: seq<State>, steps: seq<Step>, tx: TxId, now: int)
    returns (states': seq<State>, steps': seq<Step>)
    requires Run(c, states, steps) && tx in states[|steps|].txs
    requires
      var s := states[|steps|];
      var t := s.txs[tx];
      && t.phase.Checked? && Unlocked(s, t.target) && t.target in s.rows
      && KindOf(t.seen) == KindOf(s.rows[t.target]) && t.seen.project == s.rows[t.target].project
      && TxEffect(TablesOf(s), t.target, t.patch, now).Some?
    ensures Run(c, states', steps') && states <= states'
    ensures
      var s := states[|steps|];
      && states'[|steps'|].txs == s.txs - {tx}
      && TxEffect(TablesOf(s), s.txs[tx].target, s.txs[tx].patch, now) == Some(TablesOf(states'[|steps'|]))
  {
    var s := states[|steps|];
    var t := s.txs[tx];
    states', steps' := ThroughExecute(c, states, steps, tx, now);
    var p := states'[|steps'|].txs[tx].phase;
    var sources := SourceLinks(s.rows, t.seen.project, t.target, p.todo).value;
    states', steps' := LinkAll(c, states', steps', s, tx, p.row, p.relink, p.added, p.todo);
    states', steps' := Close(c, states', steps', s, tx, p.row, p.relink, p.added + sources);
  }

  /** Every call that succeeds on the tables is a run of the machine. */
  lemma CallIsRun(c: Config, states: seq<State>, steps: seq<Step>, tx: TxId, target: Id, patch: Document, now: int)
    returns (states': seq<State>, steps': seq<Step>)
    requires Run(c, states, steps) && tx !in states[|steps|].txs && Unlocked(states[|steps|], target)
    requires c.serialized ==> states[|steps|].txs == map[]
    requires UpdateCall(TablesOf(states[|steps|]), target, patch, now).Some?
    ensures Run(c, states', steps') && states <= states'
    ensures UpdateCall(TablesOf(states[|steps|]), target, patch, now) == Some(TablesOf(states'[|steps'|]))
    ensures states'[|steps'|].txs == states[|steps|].txs
  {
    var s := states[|steps|];
    states', steps' := Extend(c, states, steps, Begin(tx, target, patch));
    states', steps' := Finish(c, states', steps', tx, now);
  }

  // ---------------------------------------------------------------- undisturbed calls are calls

  /** The links already prepared, followed by those still to come. */
  function Prepend(done: set<Link>, rest: Option<set<Link>>): Option<set<Link>> {
    if rest.None? then None else Some(done + rest.value)
  }

  /** What a transaction has done so far towards the effect of its call, on tables that nobody
      else has touched since it began. */
  ghost predicate Towards(before: Tables, t: Tx, now: int) {
    && t.target in before.rows && t.seen == before.rows[t.target]
    && var r := t.seen;
       var refs := Gate(before.rows, KindOf(r), r.project, t.patch);
       match t.phase
       case Checked => true
       case Gated(g) => refs == Some(g)
       case Started(g, snapshot) => refs == Some(g) && snapshot == before.rows
       case Linking(row, relink, added, todo) =>
         refs.Some? && Prepared(before, t, now, row, relink, added, todo)
       case Written(row, relink, added) =>
         refs.Some? && Prepared(before, t, now, row, relink, added, [])
  }

  ghost predicate Prepared(before: Tables, t: Tx, now: int, row: Row, relink: bool, added: set<Link>, todo: seq<Value>)
    requires t.target in before.rows && Gate(before.rows, KindOf(t.seen), t.seen.project, t.patch).Some?
  {
    var kind, project := KindOf(t.seen), t.seen.project;
    var refs := Gate(before.rows, kind, project, t.patch).value;
    && SourcesWellFormed(kind, t.patch)
    && Updated(before.rows, before.rows[t.target], t.patch, refs.primary, now) == Some(row)
    && relink == Relinks(kind, t.patch, refs)
    && (todo != [] ==> kind == Problem)
    && Prepend(RefLinks(kind, project, t.target, refs),
               SourceLinks(before.rows, project, t.target, SourceItems(kind, t.patch)))
       == Prepend(added, SourceLinks(before.rows, project, t.target, todo))
  }

  /** The tables as they are while the call is under way: only its document write shows. */
  ghost predicate Underway(before: Tables, s: State, tx: TxId, now: int) {
    && tx in s.txs && s.rows == before.rows && s.links == before.links
    && s.docs == (if s.txs[tx].phase.Written?
                  then before.docs[s.txs[tx].target :=
                                     Merge(DocOf(before.docs, s.txs[tx].target), s.txs[tx].patch)]
                  else before.docs)
    && Towards(before, s.txs[tx], now)
  }

  predicate OwnStep(step: Step, tx: TxId) {
    match step
    case CheckRefs(t) => t == tx
    case Start(t) => t == tx
    case Execute(t, _) => t == tx
    case LinkSource(t) => t == tx
    case WriteDoc(t) => t == tx
    case _ => false
  }

  lemma NothingPrepended(done: set<Link>)
    ensures Prepend(done, Some({})) == Some(done)
  {
    assert done + {} == done;
  }

  lemma ExecutePrepares(before: Tables, t: Tx, row: Row, now: int)
    requires t.phase.Started? && Towards(before, t, now) && SourcesWellFormed(KindOf(t.seen), t.patch)
    requires Updated(t.phase.snapshot, before.rows[t.target], t.patch, t.phase.refs.primary, now) == Some(row)
    ensures
      var kind, refs := KindOf(t.seen), t.phase.refs;
      Prepared(before, t, now, row, Relinks(kind, t.patch, refs), RefLinks(kind, t.seen.project, t.target, refs),
               SourceItems(kind, t.patch))
  {
  }

  lemma LinkPrepares(before: Tables, t: Tx, now: int, row: Row, relink: bool, added: set<Link>, todo: seq<Value>)
    requires t.target in before.rows && Gate(before.rows, KindOf(t.seen), t.seen.project, t.patch).Some?
    requires Prepared(before, t, now, row, relink, added, todo) && todo != []
    requires ProblemSource(todo[0]).Some?
    requires ExistsWith(before.rows, t.seen.project, ProblemSource(todo[0]).value, Locked)
    ensures
      var link := Link(t.seen.project, ProblemSource(todo[0]).value, Target(t), false);
      Prepared(before, t, now, row, relink, added + {link}, todo[1..])
  {
    var link := Link(t.seen.project, ProblemSource(todo[0]).value, Source(Problem, t.target), false);
    var rest := SourceLinks(before.rows, t.seen.project, t.target, todo[1..]);
    if rest.Some? {
      assert added + ({link} + rest.value) == (added + {link}) + rest.value;
    }
  }

  /** When each own step happens, the call gets on towards its effect; the time of the UPDATE
      is the time of the call. */
  lemma OwnStepTowards(c: Config, before: Tables, s: State, step: Step, tx: TxId, now: int)
    requires Underway(before, s, tx, now) && OwnStep(step, tx) && Enabled(c, s, step)
    requires step.Execute? ==> step.now == now
    ensures Underway(before, Do(c, s, step), tx, now)
  {
    var t := s.txs[tx];
    if step.Execute? {
      ExecutePrepares(before, t, Do(c, s, step).txs[tx].phase.row, now);
    } else if step.LinkSource? {
      LinkPrepares(before, t, now, t.phase.row, t.phase.relink, t.phase.added, t.phase.todo);
    }
  }

  /** Steps before the UPDATE get on whatever the time of the UPDATE will be. */
  lemma EarlyAnyTime(before: Tables, s: State, tx: TxId, now: int, later: int)
    requires Underway(before, s, tx, now)
    requires s.txs[tx].phase.Checked? || s.txs[tx].phase.Gated? || s.txs[tx].phase.Started?
    ensures Underway(before, s, tx, later)
  {
  }

  lemma {:induction false} CallIsUnderway(
    c: Config, states: seq<State>, steps: seq<Step>, i: nat, j: nat, tx: TxId) returns (now: int)
    requires Run(c, states, steps) && i < j < |states|
    requires steps[i].Begin? && steps[i].tx == tx && forall k | i < k < j :: OwnStep(steps[k], tx)
    ensures Underway(TablesOf(states[i]), states[j], tx, now)
  {
    assert Enabled(c, states[j - 1], steps[j - 1]);
    if j == i + 1 {
      now := 0;
    } else {
      now := CallIsUnderway(c, states, steps, i, j - 1, tx);
      var step := steps[j - 1];
      if step.Execute? {
        EarlyAnyTime(TablesOf(states[i]), states[j - 1], tx, now, step.now);
        now := step.now;
      }
      OwnStepTowards(c, TablesOf(states[i]), states[j - 1], step, tx, now);
    }
  }

  /** What is prepared when nothing is left to link is the effect of the transaction. */
  lemma PreparedIsEffect(before: Tables, t: Tx, now: int)
    requires t.phase.Written? && Towards(before, t, now)
    ensures TxEffect(before, t.target, t.patch, now) ==
            Some(Tables(before.rows[t.target := t.phase.row],
                        LinksAfter(before.links, t.seen.project, Target(t), t.phase.relink, t.phase.added),
                        before.docs[t.target := Merge(DocOf(before.docs, t.target), t.patch)]))
  {
    NothingPrepended(t.phase.added);
  }

  lemma TargetStays(c: Config, s: State, step: Step, tx: TxId)
    requires OwnStep(step, tx) && Enabled(c, s, step)
    ensures tx in s.txs && tx in Do(c, s, step).txs
    ensures Do(c, s, step).txs[tx].target == s.txs[tx].target && Do(c, s, step).txs[tx].patch == s.txs[tx].patch
  {
  }

  lemma {:induction false} CallKeepsTarget(
    c: Config, states: seq<State>, steps: seq<Step>, i: nat, j: nat, tx: TxId)
    requires Run(c, states, steps) && i < j < |states|
    requires steps[i].Begin? && steps[i].tx == tx && forall k | i < k < j :: OwnStep(steps[k], tx)
    ensures
      var r := states[i].rows[steps[i].target];
      tx in states[j].txs && states[j].txs[tx].target == steps[i].target
      && states[j].txs[tx].patch == Canonical(KindOf(r), steps[i].patch)
  {
    assert Enabled(c, states[i], steps[i]);
    assert Enabled(c, states[j - 1], steps[j - 1]);
    if j > i + 1 {
      CallKeepsTarget(c, states, steps, i, j - 1, tx);
      TargetStays(c, states[j - 1], steps[j - 1], tx);
    }
  }

  /** The other way round: a call of the machine that nothing disturbs from its beginning to
      its commit leaves exactly the tables of the function. */
  lemma RunIsCall(c: Config, states: seq<State>, steps: seq<Step>, i: nat, j: nat, tx: TxId) returns (now: int)
    requires Run(c, states, steps) && i < j < |steps|
    requires steps[i].Begin? && steps[i].tx == tx && steps[j] == Commit(tx)
    requires forall k | i < k < j :: OwnStep(steps[k], tx)
    ensures UpdateCall(TablesOf(states[i]), steps[i].target, steps[i].patch, now) == Some(TablesOf(states[j + 1]))
  {
    now := CallIsUnderway(c, states, steps, i, j, tx);
    CallKeepsTarget(c, states, steps, i, j, tx);
    assert Enabled(c, states[i], steps[i]);
    assert Enabled(c, states[j], steps[j]);
    PreparedIsEffect(TablesOf(states[i]), states[j].txs[tx], now);
  }

  // ---------------------------------------------------------------- overlapping calls

  lemma FoldsApart(a: string, b: string)
    requires |a| != |b| || (a != "" && LowerChar(a[0]) != LowerChar(b[0]))
    ensures !EqualFold(a, b)
  {
    if |a| == |b| {
      assert Lower(a)[0] != Lower(b)[0];
    }
  }

  lemma StatusTextsApart(s: Status, r: Status)
    requires s != r
    ensures !EqualFold(StatusText(s), StatusText(r))
  {
    FoldsApart(StatusText(s), StatusText(r));
  }

  /** A status's own spelling is read back as that status. */
  lemma StatusReadsBack(s: Status)
    ensures TextOf(Str(StatusText(s))) == StatusText(s) && AnyStatus(StatusText(s)) == Some(s)
  {
    TrimTrimmed(StatusText(s));
    forall r | r != s ensures !EqualFold(StatusText(s), StatusText(r)) {
      StatusTextsApart(s, r);
    }
    AnyStatusIs(StatusText(s), s);
  }

  lemma AnyStatusIs(text: string, s: Status)
    requires EqualFold(text, StatusText(s))
    requires forall r | r != s :: !EqualFold(text, StatusText(r))
    ensures AnyStatus(text) == Some(s)
  {
  }

  /** So is that of every outcome. */
  lemma OutcomeReadsBack(o: Outcome)
    ensures TextOf(Str(OutcomeText(o))) == OutcomeText(o) && ParseOutcome(OutcomeText(o)) == Some(o)
  {
    TrimTrimmed(OutcomeText(o));
    forall p | p != o ensures !EqualFold(OutcomeText(o), OutcomeText(p)) {
      FoldsApart(OutcomeText(o), OutcomeText(p));
    }
    OutcomeIs(OutcomeText(o), o);
  }

  lemma OutcomeIs(text: string, o: Outcome)
    requires EqualFold(text, OutcomeText(o))
    requires forall p | p != o :: !EqualFold(text, OutcomeText(p))
    ensures ParseOutcome(text) == Some(o)
  {
  }

  // ---------------------------------------------------------------- what the document says

  /** What Validate writes back is what it has read. */
  lemma CanonicalReadsBack(kind: Kind, patch: Document)
    ensures Requested(kind, patch).Some? ==>
              var w := Requested(kind, patch).value;
              && "status" in Canonical(kind, patch) && Canonical(kind, patch)["status"] == Str(StatusText(w))
              && Requested(kind, Canonical(kind, patch)) == Some(w)
    ensures RequestedOutcome(kind, patch).Some? ==>
              var o := RequestedOutcome(kind, patch).value;
              && "outcome" in Canonical(kind, patch) && Canonical(kind, patch)["outcome"] == Str(OutcomeText(o))
              && RequestedOutcome(kind, Canonical(kind, patch)) == Some(o)
  {
    if Requested(kind, patch).Some? {
      StatusReadsBack(Requested(kind, patch).value);
    }
    if RequestedOutcome(kind, patch).Some? {
      OutcomeReadsBack(RequestedOutcome(kind, patch).value);
    }
  }

  /** Texts of a patch are taken over as they are. */
  lemma DocTakesText(tables: Tables, target: Id, patch: Document, now: int, key: string, text: string)
    requires target in tables.rows && TxEffect(tables, target, patch, now).Some?
    requires key in patch && patch[key] == Str(text)
    ensures
      var after := TxEffect(tables, target, patch, now).value;
      target in after.docs && key in after.docs[target] && after.docs[target][key] == Str(text)
  {
  }

  lemma TxRow(tables: Tables, target: Id, patch: Document, now: int)
    requires target in tables.rows && TxEffect(tables, target, patch, now).Some?
    ensures
      var r, after := tables.rows[target], TxEffect(tables, target, patch, now).value;
      && target in after.rows
      && exists ref :: Updated(tables.rows, r, patch, ref, now) == Some(after.rows[target])
  {
  }

  lemma UpdatedStatus(rows: Rows, r: Row, patch: Document, ref: Option<Id>, w: Status, now: int)
    requires RowOk(r) && Requested(KindOf(r), patch) == Some(w) && Updated(rows, r, patch, ref, now).Some?
    ensures Updated(rows, r, patch, ref, now).value.status ==
            if r.status == Archived && w != Archived then Origin(r) else w
  {
    RequestFits(r, patch, ref);
    StatusAfter(rows, r, ToRequest(r, patch, ref), now);
  }

  /** After a call that asks for a status, document and row name the same status if and only
      if the call does not restore an archived artifact under another status than it came
      from: the row then goes back, and the document says what was asked for. */
  lemma DocStatusExactlyWhen(tables: Tables, target: Id, patch: Document, w: Status, now: int)
    requires target in tables.rows && RowOk(tables.rows[target])
    requires Requested(KindOf(tables.rows[target]), patch) == Some(w) && UpdateCall(tables, target, patch, now).Some?
    ensures
      var r, after := tables.rows[target], UpdateCall(tables, target, patch, now).value;
      && target in after.rows && target in after.docs && "status" in after.docs[target]
      && (after.docs[target]["status"] == Str(StatusText(after.rows[target].status))
          <==> !(r.status == Archived && w != Archived && w != Origin(r)))
  {
    var r := tables.rows[target];
    var canonical := Canonical(KindOf(r), patch);
    CanonicalReadsBack(KindOf(r), patch);
    DocTakesText(tables, target, canonical, now, "status", StatusText(w));
    TxRow(tables, target, canonical, now);
    var after := TxEffect(tables, target, canonical, now).value;
    var ref :| Updated(tables.rows, r, canonical, ref, now) == Some(after.rows[target]);
    UpdatedStatus(tables.rows, r, canonical, ref, w, now);
    if after.rows[target].status != w {
      StatusTextsApart(w, after.rows[target].status);
    }
  }

  /** A feedback update that asks for an outcome leaves row and document with that outcome. */
  lemma DocOutcomeAgrees(tables: Tables, target: Id, patch: Document, o: Outcome, now: int)
    requires target in tables.rows && tables.rows[target].FeedbackRow? && RequestedOutcome(Feedback, patch) == Some(o)
    requires UpdateCall(tables, target, patch, now).Some?
    ensures
      var after := UpdateCall(tables, target, patch, now).value;
      && target in after.rows && after.rows[target].FeedbackRow? && after.rows[target].outcome == o
      && target in after.docs && "outcome" in after.docs[target]
      && after.docs[target]["outcome"] == Str(OutcomeText(o))
  {
    var r := tables.rows[target];
    var canonical := Canonical(Feedback, patch);
    CanonicalReadsBack(Feedback, patch);
    DocTakesText(tables, target, canonical, now, "outcome", OutcomeText(o));
    TxRow(tables, target, canonical, now);
    var after := TxEffect(tables, target, canonical, now).value;
    var ref :| Updated(tables.rows, r, canonical, ref, now) == Some(after.rows[target]);
    UpdatedOutcome(tables.rows, r, canonical, ref, o, now);
  }

  lemma UpdatedOutcome(rows: Rows, r: Row, patch: Document, ref: Option<Id>, o: Outcome, now: int)
    requires r.FeedbackRow? && RequestedOutcome(Feedback, patch) == Some(o) && Updated(rows, r, patch, ref, now).Some?
    ensures
      var r' := Updated(rows, r, patch, ref, now).value;
      r'.FeedbackRow? && r'.outcome == o
  {
  }

  // ---------------------------------------------------------------- building blocks for runs

  function Asking(s: Status): Document {
    map["status" := Str(StatusText(s))]
  }

  lemma AskingAsks(kind: Kind, patch: Document, s: Status)
    requires kind != Feedback && s in Statuses(kind) && "status" in patch && patch["status"] == Str(StatusText(s))
    ensures Requested(kind, patch) == Some(s) && Canonical(kind, patch) == patch && ValidPatch(kind, patch)
  {
    StatusReadsBack(s);
  }

  const PROBLEM_ID: Id := "p"
  const IDEA_ID: Id := "i"
  const TASK_ID: Id := "t"
  const PROJECT_ID: Id := "x"

  const LOCKED_PROBLEM := ProblemRow(PROJECT_ID, "", Locked, None, true, 2)
  const SELECTED_IDEA := IdeaRow(PROJECT_ID, "", Selected, None, Some(PROBLEM_ID), Some(0), 2)
  const REJECTED_IDEA := IdeaRow(PROJECT_ID, "", Rejected, None, Some(PROBLEM_ID), Some(0), 3)
  const CHOSEN_TASK := TaskRow(PROJECT_ID, "", Planned, Some(IDEA_ID), None, None, None, 2)
  const SELECTION: Document := map["status" := Str(StatusText(Selected)), "selectedProblemId" := Str(PROBLEM_ID)]
  const CHOICE: Document := map["selectedIdeaId" := Str(IDEA_ID)]
  const PROBLEM_ROWS: Rows := map[PROBLEM_ID := LOCKED_PROBLEM, IDEA_ID := NewRow(Idea, PROJECT_ID, "")]
  const IDEA_ROWS: Rows :=
    map[PROBLEM_ID := LOCKED_PROBLEM, IDEA_ID := SELECTED_IDEA, TASK_ID := NewRow(Task, PROJECT_ID, "")]

  lemma EffectOf(tables: Tables, target: Id, patch: Document, now: int, refs: Refs, row: Row)
    requires target in tables.rows
    requires Gate(tables.rows, KindOf(tables.rows[target]), tables.rows[target].project, patch) == Some(refs)
    requires "linkedSources" !in patch
    requires Updated(tables.rows, tables.rows[target], patch, refs.primary, now) == Some(row)
    ensures TxEffect(tables, target, patch, now).Some?
    ensures TxEffect(tables, target, patch, now).value.rows == tables.rows[target := row]
  {
  }

  lemma LockEffect(tables: Tables)
    requires PROBLEM_ID in tables.rows && tables.rows[PROBLEM_ID] == NewRow(Problem, PROJECT_ID, "")
    ensures UpdateCall(tables, PROBLEM_ID, Asking(Locked), 0).Some?
    ensures UpdateCall(tables, PROBLEM_ID, Asking(Locked), 0).value.rows == tables.rows[PROBLEM_ID := LOCKED_PROBLEM]
  {
    AskingAsks(Problem, Asking(Locked), Locked);
    EffectOf(tables, PROBLEM_ID, Asking(Locked), 0, Refs(None, []), LOCKED_PROBLEM);
  }

  lemma SelectGate(tables: Tables)
    requires tables.rows == PROBLEM_ROWS
    ensures Gate(tables.rows, Idea, PROJECT_ID, SELECTION)
            == Some(Refs(Some(PROBLEM_ID), [Source(Problem, PROBLEM_ID)]))
  {
    assert TextOf(Str(PROBLEM_ID)) == PROBLEM_ID;
  }

  lemma SelectAccepted(tables: Tables)
    requires tables.rows == PROBLEM_ROWS
    ensures Accepts(tables.rows, IDEA_ID, SELECTION) && Canonical(Idea, SELECTION) == SELECTION
  {
    AskingAsks(Idea, SELECTION, Selected);
    assert tables.rows[IDEA_ID] == NewRow(Idea, PROJECT_ID, "");
  }

  lemma SelectSql(tables: Tables)
    requires tables.rows == PROBLEM_ROWS
    ensures Updated(tables.rows, tables.rows[IDEA_ID], SELECTION, Some(PROBLEM_ID), 0) == Some(SELECTED_IDEA)
  {
    AskingAsks(Idea, SELECTION, Selected);
    assert ToRequest(tables.rows[IDEA_ID], SELECTION, Some(PROBLEM_ID))
        == IdeaRequest(Some(Selected), Some(PROBLEM_ID));
  }

  lemma SelectEffect(tables: Tables)
    requires tables.rows == PROBLEM_ROWS
    ensures UpdateCall(tables, IDEA_ID, SELECTION, 0).Some?
    ensures UpdateCall(tables, IDEA_ID, SELECTION, 0).value.rows == tables.rows[IDEA_ID := SELECTED_IDEA]
  {
    AskingAsks(Idea, SELECTION, Selected);
    SelectGate(tables);
    SelectSql(tables);
    SelectAccepted(tables);
    EffectOf(tables, IDEA_ID, SELECTION, 0, Refs(Some(PROBLEM_ID), [Source(Problem, PROBLEM_ID)]), SELECTED_IDEA);
  }

  lemma ChooseGate(tables: Tables)
    requires tables.rows == IDEA_ROWS
    ensures Gate(tables.rows, Task, PROJECT_ID, CHOICE) == Some(Refs(Some(IDEA_ID), [Source(Idea, IDEA_ID)]))
  {
    assert TextOf(Str(IDEA_ID)) == IDEA_ID;
  }

  lemma ChooseSql(tables: Tables)
    requires tables.rows == IDEA_ROWS
    ensures Updated(tables.rows, tables.rows[TASK_ID], CHOICE, Some(IDEA_ID), 0) == Some(CHOSEN_TASK)
  {
    NoStatusAsked(Task, CHOICE);
    assert TextOf(Field(CHOICE, "deadline")) == "";
    assert ToRequest(tables.rows[TASK_ID], CHOICE, Some(IDEA_ID)) == TaskRequest(None, Some(IDEA_ID), None);
  }

  lemma ChooseEffect(tables: Tables)
    requires tables.rows == IDEA_ROWS
    ensures UpdateCall(tables, TASK_ID, CHOICE, 0).Some?
    ensures UpdateCall(tables, TASK_ID, CHOICE, 0).value.rows == tables.rows[TASK_ID := CHOSEN_TASK]
  {
    NoStatusAsked(Task, CHOICE);
    ChooseGate(tables);
    ChooseSql(tables);
    EffectOf(tables, TASK_ID, CHOICE, 0, Refs(Some(IDEA_ID), [Source(Idea, IDEA_ID)]), CHOSEN_TASK);
  }

  lemma RejectEffect(tables: Tables)
    requires IDEA_ID in tables.rows && tables.rows[IDEA_ID] == SELECTED_IDEA
    ensures TxEffect(tables, IDEA_ID, Asking(Rejected), 0).Some?
    ensures TxEffect(tables, IDEA_ID, Asking(Rejected), 0).value.rows == tables.rows[IDEA_ID := REJECTED_IDEA]
  {
    AskingAsks(Idea, Asking(Rejected), Rejected);
    EffectOf(tables, IDEA_ID, Asking(Rejected), 0, Refs(None, []), REJECTED_IDEA);
  }

  lemma OneCreated(c: Config, id: Id, kind: Kind) returns (states: seq<State>, steps: seq<Step>)
    ensures Run(c, states, steps)
    ensures states[|steps|] == State(map[id := NewRow(kind, PROJECT_ID, "")], {}, map[id := map[]], map[])
  {
    states, steps := [EMPTY], [];
    states, steps := Extend(c, states, steps, Create(id, kind, PROJECT_ID, "", map[]));
  }

  lemma LockRun(c: Config, states: seq<State>, steps: seq<Step>)
    returns (states': seq<State>, steps': seq<Step>)
    requires Run(c, states, steps) && states[|steps|].txs == map[]
    requires PROBLEM_ID in states[|steps|].rows && states[|steps|].rows[PROBLEM_ID] == NewRow(Problem, PROJECT_ID, "")
    ensures Run(c, states', steps')
    ensures states'[|steps'|].rows == states[|steps|].rows[PROBLEM_ID := LOCKED_PROBLEM]
    ensures states'[|steps'|].txs == map[]
  {
    LockEffect(TablesOf(states[|steps|]));
    states', steps' := CallIsRun(c, states, steps, 1, PROBLEM_ID, Asking(Locked), 0);
  }

  lemma SelectRun(c: Config, states: seq<State>, steps: seq<Step>)
    returns (states': seq<State>, steps': seq<Step>)
    requires !c.serialized && Run(c, states, steps) && states[|steps|].rows == PROBLEM_ROWS
    requires 2 !in states[|steps|].txs && Unlocked(states[|steps|], IDEA_ID)
    ensures Run(c, states', steps')
    ensures states'[|steps'|].rows == PROBLEM_ROWS[IDEA_ID := SELECTED_IDEA]
    ensures states'[|steps'|].txs == states[|steps|].txs
  {
    SelectEffect(TablesOf(states[|steps|]));
    states', steps' := CallIsRun(c, states, steps, 2, IDEA_ID, SELECTION, 0);
  }

  lemma ProblemGetsLocked(c: Config) returns (states: seq<State>, steps: seq<Step>)
    ensures Run(c, states, steps)
    ensures states[|steps|].rows == map[PROBLEM_ID := LOCKED_PROBLEM] && states[|steps|].txs == map[]
  {
    states, steps := OneCreated(c, PROBLEM_ID, Problem);
    states, steps := LockRun(c, states, steps);
  }

  /** A locked problem, and a considered idea whose rejection has been checked but not yet
      run. */
  lemma RejectionWaits(c: Config) returns (states: seq<State>, steps: seq<Step>)
    requires !c.serialized
    ensures Run(c, states, steps)
    ensures
      var s := states[|steps|];
      s.rows == PROBLEM_ROWS && s.txs == map[9 := Tx(IDEA_ID, NewRow(Idea, PROJECT_ID, ""), Asking(Rejected), Checked)]
  {
    states, steps := ProblemGetsLocked(c);
    states, steps := Extend(c, states, steps, Create(IDEA_ID, Idea, PROJECT_ID, "", map[]));
    AskingAsks(Idea, Asking(Rejected), Rejected);
    states, steps := Extend(c, states, steps, Begin(9, IDEA_ID, Asking(Rejected)));
  }

  lemma IdeaGetsSelected(c: Config) returns (states: seq<State>, steps: seq<Step>)
    requires !c.serialized
    ensures Run(c, states, steps)
    ensures
      var s := states[|steps|];
      s.rows == IDEA_ROWS && s.txs == map[9 := Tx(IDEA_ID, NewRow(Idea, PROJECT_ID, ""), Asking(Rejected), Checked)]
  {
    states, steps := RejectionWaits(c);
    states, steps := SelectRun(c, states, steps);
    states, steps := Extend(c, states, steps, Create(TASK_ID, Task, PROJECT_ID, "", map[]));
    assert states[|steps|].rows == IDEA_ROWS;
  }

  lemma TaskChoosesIdea(c: Config) returns (states: seq<State>, steps: seq<Step>)
    requires !c.serialized
    ensures Run(c, states, steps)
    ensures
      var s := states[|steps|];
      && s.rows == IDEA_ROWS[TASK_ID := CHOSEN_TASK]
      && s.txs == map[9 := Tx(IDEA_ID, NewRow(Idea, PROJECT_ID, ""), Asking(Rejected), Checked)]
  {
    states, steps := IdeaGetsSelected(c);
    ChooseEffect(TablesOf(states[|steps|]));
    states, steps := CallIsRun(c, states, steps, 3, TASK_ID, CHOICE, 0);
  }

  /** The idea is selected and chosen for a task, and then the waiting rejection runs: the
      task hangs on a rejected idea. */
  lemma OverlapBreaksChain(c: Config) returns (states: seq<State>, steps: seq<Step>)
    requires !c.serialized
    ensures Run(c, states, steps)
    ensures !Chained(states[|steps|])
  {
    states, steps := TaskChoosesIdea(c);
    RejectEffect(TablesOf(states[|steps|]));
    states, steps := Finish(c, states, steps, 9, 0);
    var s := states[|steps|];
    assert s.rows[TASK_ID].primary == Some(IDEA_ID) && s.rows[IDEA_ID].status == Rejected;
    assert !Chain(s, TASK_ID);
  }

  /** The chain from every task to locked evidence holds in all runs exactly when calls do
      not overlap. */
  lemma ChainedExactlyWhen(c: Config)
    ensures (forall states, steps :: Run(c, states, steps) ==>
               forall i | 0 <= i < |states| :: Chained(states[i]))
            <==> c.serialized
  {
    if c.serialized {
      forall states, steps, i | Run(c, states, steps) && 0 <= i < |states| ensures Chained(states[i]) {
        SerializedHolds(c, states, steps);
        CurrentIsChained(c, states, steps, i);
      }
    } else {
      var states, steps := OverlapBreaksChain(c);
      assert Run(c, states, steps) && !Chained(states[|steps|]);
    }
  }

  /** Settled artifacts keep their content from any state of a run to any later one. */
  ghost predicate SettledKept(states: seq<State>) {
    forall i, j, id | 0 <= i <= j < |states| && id in states[i].rows && Settled(states[i].rows[id]) ::
      id in states[j].rows && SameContent(states[i].rows[id], states[j].rows[id])
  }

  const STORY_ID: Id := "s"
  const NEW_STORY := NewRow(Story, PROJECT_ID, "")
  const LOCKED_STORY := SourceRow(Story, PROJECT_ID, "", "", 0, 0, Locked, None, 2)
  const RETITLE: Document := map["status" := Str(StatusText(Archived)), "title" := Str("n")]

  lemma LockStoryEffect(tables: Tables)
    requires STORY_ID in tables.rows && tables.rows[STORY_ID] == NEW_STORY
    ensures UpdateCall(tables, STORY_ID, Asking(Locked), 0).Some?
    ensures UpdateCall(tables, STORY_ID, Asking(Locked), 0).value.rows == tables.rows[STORY_ID := LOCKED_STORY]
  {
    AskingAsks(Story, Asking(Locked), Locked);
  }

  lemma RetitleEffect(tables: Tables)
    requires STORY_ID in tables.rows && tables.rows[STORY_ID] == LOCKED_STORY
    ensures TxEffect(tables, STORY_ID, RETITLE, 0).Some?
    ensures STORY_ID in TxEffect(tables, STORY_ID, RETITLE, 0).value.rows
    ensures TxEffect(tables, STORY_ID, RETITLE, 0).value.rows[STORY_ID].title == "n"
  {
    AskingAsks(Story, RETITLE, Archived);
    assert TextOf(Field(RETITLE, "title")) == "n";
  }

  lemma RetitleWaits(c: Config) returns (states: seq<State>, steps: seq<Step>)
    requires !c.serialized
    ensures Run(c, states, steps)
    ensures
      var s := states[|steps|];
      s.rows == map[STORY_ID := NEW_STORY] && s.txs == map[9 := Tx(STORY_ID, NEW_STORY, RETITLE, Checked)]
  {
    states, steps := OneCreated(c, STORY_ID, Story);
    AskingAsks(Story, RETITLE, Archived);
    states, steps := Extend(c, states, steps, Begin(9, STORY_ID, RETITLE));
  }

  lemma StoryGetsLocked(c: Config) returns (states: seq<State>, steps: seq<Step>)
    requires !c.serialized
    ensures Run(c, states, steps)
    ensures
      var s := states[|steps|];
      s.rows == map[STORY_ID := LOCKED_STORY] && s.txs == map[9 := Tx(STORY_ID, NEW_STORY, RETITLE, Checked)]
  {
    states, steps := RetitleWaits(c);
    states, steps := LockStoryRun(c, states, steps);
    assert states[|steps|].rows == map[STORY_ID := LOCKED_STORY];
  }

  lemma LockStoryRun(c: Config, states: seq<State>, steps: seq<Step>)
    returns (states': seq<State>, steps': seq<Step>)
    requires !c.serialized && Run(c, states, steps) && 1 !in states[|steps|].txs && Unlocked(states[|steps|], STORY_ID)
    requires STORY_ID in states[|steps|].rows && states[|steps|].rows[STORY_ID] == NEW_STORY
    ensures Run(c, states', steps')
    ensures states'[|steps'|].rows == states[|steps|].rows[STORY_ID := LOCKED_STORY]
    ensures states'[|steps'|].txs == states[|steps|].txs
  {
    LockStoryEffect(TablesOf(states[|steps|]));
    states', steps' := CallIsRun(c, states, steps, 1, STORY_ID, Asking(Locked), 0);
  }

  /** An archiving with a new title, checked on a draft, runs after the story was locked:
      the locked story is archived under another title. */
  lemma OverlapRetitlesLocked(c: Config) returns (states: seq<State>, steps: seq<Step>)
    requires !c.serialized
    ensures Run(c, states, steps) && !SettledKept(states)
  {
    var before, first := StoryGetsLocked(c);
    var i := |first|;
    RetitleEffect(TablesOf(before[i]));
    states, steps := Finish(c, before, first, 9, 0);
    assert states[i] == before[i] && Settled(LOCKED_STORY);
    assert states[|steps|].rows[STORY_ID].title == "n";
    assert !SameContent(states[i].rows[STORY_ID], states[|steps|].rows[STORY_ID]);
  }

  /** Settled artifacts keep their content in all runs exactly when calls do not overlap. */
  lemma SettledKeptExactlyWhen(c: Config)
    ensures (forall states, steps :: Run(c, states, steps) ==> SettledKept(states)) <==> c.serialized
  {
    if c.serialized {
      forall states: seq<State>, steps | Run(c, states, steps) ensures SettledKept(states) {
        forall i, j, id | 0 <= i <= j < |states| && id in states[i].rows && Settled(states[i].rows[id])
          ensures id in states[j].rows && SameContent(states[i].rows[id], states[j].rows[id])
        {
          SerializedHolds(c, states, steps);
          SettledForGood(c, states, steps, i, j, id);
        }
      }
    } else {
      var states, steps := OverlapRetitlesLocked(c);
      assert Run(c, states, steps) && !SettledKept(states);
    }
  }
}
