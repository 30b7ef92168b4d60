/**
 Calls whose checks still hold when they act.  A call checks a status before its transaction
 begins; what it relies on is safe in every run in which that status is still there when the
 UPDATE runs, however calls overlap.  Runs without overlapping calls are among them.
 */
module CurrentCalls {
  import opened Text
  import opened Patches
  import opened Lifecycle
  import opened Artifacts
  import opened ArtifactRuns

  // ---------------------------------------------------------------- what a check is for

  /** What a settled artifact's readers rely on. */
  predicate SameContent(r: Row, r': Row) {
    && KindOf(r) == KindOf(r') && r.project == r'.project && r.title == r'.title && Origin(r) == Origin(r')
    && match r
       case SourceRow(_, _, _, persona, painPoints, hypotheses, _, _, _) =>
         r'.SourceRow? && r'.persona == persona && r'.painPoints == painPoints && r'.hypotheses == hypotheses
       case ProblemRow(_, _, _, _, _, _) => r'.ProblemRow?
       case IdeaRow(_, _, _, _, primary, selectedAt, _) =>
         r'.IdeaRow? && r'.primary == primary && (Origin(r) == Selected ==> r'.selectedAt == selectedAt)
       case TaskRow(_, _, _, _, _, _, _, _) => r' == r
       case FeedbackRow(_, _, _, _, _, _, _) => r'.FeedbackRow?
  }

  predicate Frozen(r: Row) {
    Immutable(KindOf(r), r.status)
  }

  /** The service lets a frozen artifact be archived or restored, and nothing else; a frozen
      task not even that. */
  lemma FrozenTakesStatusOnly(r: Row, patch: Document)
    requires Frozen(r) && ServiceAllows(KindOf(r), r.status, patch)
    ensures KindOf(r) != Task && patch.Keys == {"status"}
  {
    var want := Requested(KindOf(r), patch);
    assert want.Some? ==> want.value in Statuses(KindOf(r));
    if "status" !in patch {
      NoStatusAsked(KindOf(r), patch);
    }
    assert patch.Keys - {"status"} == {} by {
      assert |patch.Keys - {"status"}| == 0;
    }
  }

  lemma FrozenUpdate(snapshot: Rows, r: Row, patch: Document, now: int)
    requires RowOk(r) && Frozen(r) && ServiceAllows(KindOf(r), r.status, patch)
    requires Updated(snapshot, r, patch, None, now).Some?
    ensures SameContent(r, Updated(snapshot, r, patch, None, now).value)
  {
    FrozenTakesStatusOnly(r, patch);
    assert TextOf(Field(patch, "title")) == "" && TextOf(Field(patch, "description")) == ""
           && TextOf(Field(patch, "finalStatement")) == "" && Field(patch, "persona") == Null;
    var want := Requested(KindOf(r), patch);
    assert want.Some?;
  }

  /** Every primary idea of a task is selected. */
  predicate ChosenOk(rows: Rows, r: Row) {
    r.TaskRow? && r.primary.Some? ==> r.primary.value in rows && Origin(rows[r.primary.value]) == Selected
  }

  // ---------------------------------------------------------------- checks that still hold

  /** An UPDATE of a frozen row finds the status its call has checked. */
  predicate StatusHolds(s: State, step: Step) {
    step.Execute? && step.tx in s.txs && s.txs[step.tx].target in s.rows && Frozen(s.rows[s.txs[step.tx].target])
    ==> s.rows[s.txs[step.tx].target].status == s.txs[step.tx].seen.status
  }

  /** The idea of a task is still selected when the task is committed. */
  predicate ChoiceHolds(s: State, step: Step) {
    step.Commit? && step.tx in s.txs && s.txs[step.tx].phase.Written? ==> ChosenOk(s.rows, s.txs[step.tx].phase.row)
  }

  ghost predicate StatusesHold(states: seq<State>, steps: seq<Step>) {
    forall i {:trigger steps[i]} | 0 <= i < |steps| && i < |states| :: StatusHolds(states[i], steps[i])
  }

  ghost predicate ChoicesHold(states: seq<State>, steps: seq<Step>) {
    forall i {:trigger steps[i]} | 0 <= i < |steps| && i < |states| :: ChoiceHolds(states[i], steps[i])
  }

  // ---------------------------------------------------------------- freezing

  /** What a transaction has prepared for a frozen row: a new status and nothing else. */
  predicate Harmless(r: Row, t: Tx, row: Row, relink: bool) {
    Frozen(r) ==> !r.TaskRow? && t.patch.Keys == {"status"} && SameContent(r, row) && !relink
  }

  predicate FreezeTx(rows: Rows, t: Tx) {
    && t.target in rows && ServiceAllows(KindOf(t.seen), t.seen.status, t.patch)
    && match t.phase
       case Checked => true
       case Gated(refs) => Frozen(t.seen) ==> refs == Refs(None, [])
       case Started(refs, _) => Frozen(t.seen) ==> refs == Refs(None, [])
       case Linking(row, relink, _, _) => Harmless(rows[t.target], t, row, relink)
       case Written(row, relink, _) => Harmless(rows[t.target], t, row, relink)
  }

  ghost predicate FreezeOk(s: State) {
    forall tx | tx in s.txs :: FreezeTx(s.rows, s.txs[tx])
  }

  /** What one step leaves alone: the row, the links and the document of a frozen
      artifact, its status aside. */
  ghost predicate KeepsFrozen(s: State, s': State) {
    forall id | id in s.rows && Frozen(s.rows[id]) ::
      && id in s'.rows && SameContent(s.rows[id], s'.rows[id])
      && Into(s'.links, id) == Into(s.links, id)
      && DocOf(s'.docs, id) - {"status"} == DocOf(s.docs, id) - {"status"}
      && (s.rows[id].TaskRow? ==> DocOf(s'.docs, id) == DocOf(s.docs, id))
  }

  lemma MergeStatusOnly(base: Document, patch: Document)
    requires patch.Keys == {"status"}
    ensures Merge(base, patch) - {"status"} == base - {"status"}
  {
  }

  lemma SameContentSelf(rows: Rows)
    ensures forall id | id in rows :: SameContent(rows[id], rows[id])
  {
  }

  lemma SameContentTransitive(a: Row, b: Row, c: Row)
    requires SameContent(a, b) && SameContent(b, c)
    ensures SameContent(a, c)
  {
  }

  lemma FreezeGrows(rows: Rows, rows': Rows, t: Tx)
    requires FreezeTx(rows, t) && Grows(rows, rows') && (Holding(t) ==> rows'[t.target] == rows[t.target])
    ensures FreezeTx(rows', t)
  {
  }

  lemma GateFreezes(rows: Rows, t: Tx)
    requires FreezeTx(rows, t) && Gate(rows, KindOf(t.seen), t.seen.project, t.patch).Some?
    ensures Frozen(t.seen) ==> Gate(rows, KindOf(t.seen), t.seen.project, t.patch).value == Refs(None, [])
  {
    if Frozen(t.seen) {
      FrozenTakesStatusOnly(t.seen, t.patch);
    }
  }

  /** The UPDATE of a frozen row, on a status that still holds. */
  lemma ExecuteIsHarmless(rows: Rows, t: Tx, row: Row, now: int)
    requires RowsOk(rows) && t.phase.Started? && FreezeTx(rows, t) && Evolves(t.seen, rows[t.target])
    requires Frozen(rows[t.target]) ==> rows[t.target].status == t.seen.status
    requires Updated(t.phase.snapshot, rows[t.target], t.patch, t.phase.refs.primary, now) == Some(row)
    ensures Harmless(rows[t.target], t, row, Relinks(KindOf(t.seen), t.patch, t.phase.refs))
  {
    var r := rows[t.target];
    if Frozen(r) {
      FrozenTakesStatusOnly(r, t.patch);
      FrozenUpdate(t.phase.snapshot, r, t.patch, now);
    }
  }

  lemma InsideKeepsFreeze(s: State, tx: TxId, phase: Phase)
    requires FreezeOk(s) && tx in s.txs && FreezeTx(s.rows, s.txs[tx].(phase := phase))
    ensures FreezeOk(Goto(s, tx, phase))
  {
  }

  lemma OutsideKeepsTx(c: Config, s: State, step: Step, tx: TxId)
    requires tx in s.txs && LocksExclusive(s) && FreezeTx(s.rows, s.txs[tx]) && Enabled(c, s, step)
    requires step.Create? || step.Begin? || step.Commit? || step.Abort?
    requires Grows(s.rows, Do(c, s, step).rows) && tx in Do(c, s, step).txs
    ensures FreezeTx(Do(c, s, step).rows, s.txs[tx])
  {
    if !step.Create? && !step.Commit? {
      OnlyCommitsAndCreates(c, s, step);
    } else if Holding(s.txs[tx]) {
      HeldRowStays(c, s, step, tx);
    }
    FreezeGrows(s.rows, Do(c, s, step).rows, s.txs[tx]);
  }

  lemma OutsideKeepsFreeze(c: Config, s: State, step: Step)
    requires Inv(s) && FreezeOk(s) && Enabled(c, s, step)
    requires (step.Create? || step.Begin? || step.Commit? || step.Abort?)
    ensures FreezeOk(Do(c, s, step))
  {
    var s' := Do(c, s, step);
    StepKeepsInv(c, s, step);
    forall tx | tx in s'.txs ensures FreezeTx(s'.rows, s'.txs[tx]) {
      if tx in s.txs {
        OutsideKeepsTx(c, s, step, tx);
      }
    }
  }

  lemma StepKeepsFreeze(c: Config, s: State, step: Step)
    requires Inv(s) && FreezeOk(s) && Enabled(c, s, step) && StatusHolds(s, step)
    ensures FreezeOk(Do(c, s, step))
  {
    if step.Create? || step.Begin? || step.Commit? || step.Abort? {
      OutsideKeepsFreeze(c, s, step);
    } else {
      var t, phase := s.txs[step.tx], Do(c, s, step).txs[step.tx].phase;
      assert FreezeTx(s.rows, t) && TxOk(s.rows, s.links, t);
      if step.CheckRefs? {
        GateFreezes(s.rows, t);
      } else if step.Execute? {
        ExecuteIsHarmless(s.rows, t, phase.row, step.now);
      }
      InsideKeepsFreeze(s, step.tx, phase);
    }
  }

  /** The document write of a frozen artifact's update changes its status only. */
  lemma FrozenDoc(docs: map<Id, Document>, t: Tx, r: Row, id: Id)
    requires Frozen(r) ==> !r.TaskRow? && t.patch.Keys == {"status"}
    ensures
      var docs' := docs[t.target := Merge(DocOf(docs, t.target), t.patch)];
      && (id != t.target ==> DocOf(docs', id) == DocOf(docs, id))
      && (id == t.target && Frozen(r) ==> DocOf(docs', id) - {"status"} == DocOf(docs, id) - {"status"})
  {
    if Frozen(r) {
      MergeStatusOnly(DocOf(docs, t.target), t.patch);
    }
  }

  lemma WriteDocKeepsFrozen(c: Config, s: State, tx: TxId)
    requires FreezeOk(s) && Enabled(c, s, WriteDoc(tx))
    ensures KeepsFrozen(s, Do(c, s, WriteDoc(tx)))
  {
    var s', t := Do(c, s, WriteDoc(tx)), s.txs[tx];
    assert FreezeTx(s.rows, t);
    SameContentSelf(s.rows);
    forall id | id in s.rows && Frozen(s.rows[id])
      ensures DocOf(s'.docs, id) - {"status"} == DocOf(s.docs, id) - {"status"}
      ensures s.rows[id].TaskRow? ==> DocOf(s'.docs, id) == DocOf(s.docs, id)
    {
      FrozenDoc(s.docs, t, s.rows[t.target], id);
    }
  }

  lemma CommitKeepsFrozenAt(rows: Rows, links: set<Link>, t: Tx, id: Id)
    requires LinksOk(rows, links) && TxOk(rows, links, t) && FreezeTx(rows, t) && t.phase.Written?
    requires id in rows && Frozen(rows[id])
    ensures SameContent(rows[id], rows[t.target := t.phase.row][id])
    ensures Into(LinksAfter(links, t.seen.project, Target(t), t.phase.relink, t.phase.added), id) == Into(links, id)
  {
    SameContentSelf(rows);
    CommitLinks(rows, links, t, t.phase.relink, t.phase.added, id);
  }

  lemma CommitKeepsFrozen(c: Config, s: State, tx: TxId)
    requires Inv(s) && FreezeOk(s) && Enabled(c, s, Commit(tx))
    ensures KeepsFrozen(s, Do(c, s, Commit(tx)))
  {
    var t := s.txs[tx];
    assert FreezeTx(s.rows, t) && TxOk(s.rows, s.links, t);
    forall id | id in s.rows && Frozen(s.rows[id])
      ensures SameContent(s.rows[id], s.rows[t.target := t.phase.row][id])
      ensures
        Into(LinksAfter(s.links, t.seen.project, Target(t), t.phase.relink, t.phase.added), id) == Into(s.links, id)
    {
      CommitKeepsFrozenAt(s.rows, s.links, t, id);
    }
  }

  lemma OtherStepsTouchNothing(c: Config, s: State, step: Step)
    requires Enabled(c, s, step) && !step.WriteDoc? && !step.Commit? && !step.Create?
    ensures Do(c, s, step).rows == s.rows && Do(c, s, step).links == s.links && Do(c, s, step).docs == s.docs
  {
  }

  lemma CreateKeepsFrozen(c: Config, s: State, step: Step)
    requires step.Create? && Enabled(c, s, step)
    ensures KeepsFrozen(s, Do(c, s, step))
  {
    SameContentSelf(s.rows);
  }

  lemma StepKeepsFrozen(c: Config, s: State, step: Step)
    requires Inv(s) && FreezeOk(s) && Enabled(c, s, step)
    ensures KeepsFrozen(s, Do(c, s, step))
  {
    if step.WriteDoc? {
      WriteDocKeepsFrozen(c, s, step.tx);
    } else if step.Commit? {
      CommitKeepsFrozen(c, s, step.tx);
    } else if step.Create? {
      CreateKeepsFrozen(c, s, step);
    } else {
      OtherStepsTouchNothing(c, s, step);
      SameContentSelf(s.rows);
    }
  }

  lemma {:induction false} RunIsFrozen(c: Config, states: seq<State>, steps: seq<Step>, i: nat)
    requires Run(c, states, steps) && StatusesHold(states, steps) && i < |states|
    ensures FreezeOk(states[i])
  {
    if i > 0 {
      RunIsFrozen(c, states, steps, i - 1);
      RunKeepsInv(c, states, steps, i - 1);
      assert Enabled(c, states[i - 1], steps[i - 1]);
      StepKeepsFreeze(c, states[i - 1], steps[i - 1]);
    }
  }

  lemma RunKeepsFrozen(c: Config, states: seq<State>, steps: seq<Step>, i: nat)
    requires Run(c, states, steps) && StatusesHold(states, steps) && 0 < i < |states|
    ensures KeepsFrozen(states[i - 1], states[i])
  {
    RunIsFrozen(c, states, steps, i - 1);
    RunKeepsInv(c, states, steps, i - 1);
    assert Enabled(c, states[i - 1], steps[i - 1]);
    StepKeepsFrozen(c, states[i - 1], steps[i - 1]);
  }

  /** Settled for good: frozen, and archiving leads nowhere else. */
  predicate Settled(r: Row) {
    Frozen(r) && Origin(r) in {Locked, Selected, Rejected, Completed, Abandoned}
  }

  lemma OriginSettles(r: Row, r': Row)
    requires Settled(r) && SameContent(r, r') && RowOk(r')
    ensures Settled(r')
  {
  }

  /** Once settled, an artifact keeps its content, links and document, its status aside, to
      the end of every run in which checked statuses hold, however calls overlap. */
  lemma {:induction false} SettledForGood(c: Config, states: seq<State>, steps: seq<Step>, i: nat, j: nat, id: Id)
    requires Run(c, states, steps) && StatusesHold(states, steps) && i <= j < |states|
    requires id in states[i].rows && Settled(states[i].rows[id])
    ensures id in states[j].rows && Settled(states[j].rows[id])
    ensures SameContent(states[i].rows[id], states[j].rows[id])
    ensures Into(states[j].links, id) == Into(states[i].links, id)
    ensures DocOf(states[j].docs, id) - {"status"} == DocOf(states[i].docs, id) - {"status"}
  {
    if i < j {
      SettledForGood(c, states, steps, i, j - 1, id);
      RunKeepsFrozen(c, states, steps, j);
      RunKeepsInv(c, states, steps, j);
      SameContentTransitive(states[i].rows[id], states[j - 1].rows[id], states[j].rows[id]);
      OriginSettles(states[j - 1].rows[id], states[j].rows[id]);
    } else {
      SameContentSelf(states[i].rows);
    }
  }

  // ---------------------------------------------------------------- the chain

  /** From a task to its evidence: its primary idea is selected, the idea's problem exists
      and is locked, and so is every story and journey the problem cites; any of them may
      be archived. */
  ghost predicate Chain(s: State, task: Id)
    requires task in s.rows && s.rows[task].TaskRow? && s.rows[task].primary.Some?
  {
    var idea := s.rows[task].primary.value;
    && idea in s.rows && s.rows[idea].IdeaRow? && Origin(s.rows[idea]) == Selected
    && s.rows[idea].primary.Some?
    && OnceLocked(s.rows, Source(Problem, s.rows[idea].primary.value))
    && forall l | l in s.links && l.target == Source(Problem, s.rows[idea].primary.value) ::
         OnceLocked(s.rows, l.source)
  }

  ghost predicate Chained(s: State) {
    forall task | task in s.rows && s.rows[task].TaskRow? && s.rows[task].primary.Some? :: Chain(s, task)
  }

  ghost predicate ChosenRows(rows: Rows) {
    forall id | id in rows :: ChosenOk(rows, rows[id])
  }

  lemma ChosenIsChained(s: State)
    requires Inv(s) && ChosenRows(s.rows)
    ensures Chained(s)
  {
    forall task | task in s.rows && s.rows[task].TaskRow? && s.rows[task].primary.Some?
      ensures Chain(s, task)
    {
      assert PrimaryOk(s.rows, s.rows[task]) && ChosenOk(s.rows, s.rows[task]);
      var idea := s.rows[task].primary.value;
      assert RowOk(s.rows[idea]) && PrimaryOk(s.rows, s.rows[idea]);
    }
  }

  /** A commit does not take the selection from an idea. */
  lemma CommitKeepsSelected(rows: Rows, links: set<Link>, t: Tx, idea: Id)
    requires RowsOk(rows) && TxOk(rows, links, t) && FreezeTx(rows, t) && t.phase.Written?
    requires idea in rows && Origin(rows[idea]) == Selected
    ensures Origin(rows[t.target := t.phase.row][idea]) == Selected
  {
    assert RowOk(rows[idea]);
    assert Frozen(rows[idea]);
  }

  lemma CommitKeepsChosen(rows: Rows, links: set<Link>, t: Tx)
    requires RowsOk(rows) && TxOk(rows, links, t) && FreezeTx(rows, t) && t.phase.Written?
    requires ChosenRows(rows) && ChosenOk(rows, t.phase.row)
    ensures ChosenRows(rows[t.target := t.phase.row])
  {
    var rows' := rows[t.target := t.phase.row];
    forall id | id in rows' ensures ChosenOk(rows', rows'[id]) {
      assert ChosenOk(rows, rows'[id]);
      if rows'[id].TaskRow? && rows'[id].primary.Some? {
        CommitKeepsSelected(rows, links, t, rows'[id].primary.value);
      }
    }
  }

  lemma StepKeepsChosen(c: Config, s: State, step: Step)
    requires Inv(s) && FreezeOk(s) && ChosenRows(s.rows) && Enabled(c, s, step) && ChoiceHolds(s, step)
    ensures ChosenRows(Do(c, s, step).rows)
  {
    if step.Commit? {
      var t := s.txs[step.tx];
      assert FreezeTx(s.rows, t) && TxOk(s.rows, s.links, t);
      CommitKeepsChosen(s.rows, s.links, t);
    } else if step.Create? {
      var rows' := Do(c, s, step).rows;
      forall id | id in rows' ensures ChosenOk(rows', rows'[id]) {
        assert id in s.rows ==> ChosenOk(s.rows, rows'[id]);
      }
    } else {
      OnlyCommitsAndCreates(c, s, step);
    }
  }

  lemma {:induction false} RunIsChosen(c: Config, states: seq<State>, steps: seq<Step>, i: nat)
    requires Run(c, states, steps) && StatusesHold(states, steps) && ChoicesHold(states, steps) && i < |states|
    ensures ChosenRows(states[i].rows)
  {
    if i > 0 {
      RunIsChosen(c, states, steps, i - 1);
      RunIsFrozen(c, states, steps, i - 1);
      RunKeepsInv(c, states, steps, i - 1);
      assert Enabled(c, states[i - 1], steps[i - 1]);
      ChosenNext(c, states[i - 1], steps[i - 1], states[i]);
    }
  }

  lemma ChosenNext(c: Config, s: State, step: Step, s': State)
    requires Inv(s) && FreezeOk(s) && ChosenRows(s.rows) && ChoiceHolds(s, step)
    requires Enabled(c, s, step) && s' == Do(c, s, step)
    ensures ChosenRows(s'.rows)
  {
    StepKeepsChosen(c, s, step);
  }

  /** The chain holds in all states of every run, overlapping or not, in which an UPDATE of a
      frozen row finds the status its call has checked, and a task is committed only while its
      idea is selected. */
  lemma CurrentIsChained(c: Config, states: seq<State>, steps: seq<Step>, i: nat)
    requires Run(c, states, steps) && StatusesHold(states, steps) && ChoicesHold(states, steps) && i < |states|
    ensures Chained(states[i])
  {
    RunIsChosen(c, states, steps, i);
    RunKeepsInv(c, states, steps, i);
    ChosenIsChained(states[i]);
  }

  // ---------------------------------------------------------------- when calls do not overlap

  predicate ChosenRef(rows: Rows, t: Tx, refs: Refs) {
    KindOf(t.seen) == Task && refs.primary.Some? ==>
      refs.primary.value in rows && Origin(rows[refs.primary.value]) == Selected
  }

  ghost predicate SerialTx(rows: Rows, t: Tx) {
    && t.target in rows && t.seen == rows[t.target]
    && match t.phase
       case Checked => true
       case Gated(refs) => ChosenRef(rows, t, refs)
       case Started(refs, _) => ChosenRef(rows, t, refs)
       case Linking(row, _, _, _) => ChosenOk(rows, row)
       case Written(row, _, _) => ChosenOk(rows, row)
  }

  /** One call at a time, and it sees what is committed. */
  ghost predicate Serial(s: State) {
    && (forall a, b | a in s.txs && b in s.txs :: a == b)
    && (forall tx | tx in s.txs :: SerialTx(s.rows, s.txs[tx]))
  }

  /** Then every check still holds. */
  lemma SerialHolds(c: Config, s: State, step: Step)
    requires Serial(s) && Enabled(c, s, step)
    ensures StatusHolds(s, step) && ChoiceHolds(s, step)
  {
    if step.Execute? || step.Commit? {
      assert SerialTx(s.rows, s.txs[step.tx]);
    }
  }

  lemma SerialExecute(rows: Rows, t: Tx, now: int)
    requires RowsOk(rows) && ChosenRows(rows) && t.phase.Started? && SerialTx(rows, t)
    requires Updated(t.phase.snapshot, t.seen, t.patch, t.phase.refs.primary, now).Some?
    ensures ChosenOk(rows, Updated(t.phase.snapshot, t.seen, t.patch, t.phase.refs.primary, now).value)
  {
    assert RowOk(t.seen) && ChosenOk(rows, t.seen);
    UpdatedRow(t.phase.snapshot, t.seen, t.patch, t.phase.refs.primary, now);
  }

  lemma InsideKeepsSerial(s: State, tx: TxId, phase: Phase)
    requires Serial(s) && tx in s.txs && SerialTx(s.rows, s.txs[tx].(phase := phase))
    ensures Serial(Goto(s, tx, phase))
  {
  }

  lemma CreateKeepsSerial(c: Config, s: State, step: Step)
    requires Serial(s) && step.Create? && Enabled(c, s, step)
    ensures Serial(Do(c, s, step))
  {
    var s' := Do(c, s, step);
    forall tx | tx in s'.txs ensures SerialTx(s'.rows, s'.txs[tx]) {
      assert SerialTx(s.rows, s.txs[tx]);
    }
  }

  lemma EndKeepsSerial(c: Config, s: State, step: Step)
    requires Serial(s) && (step.Commit? || step.Abort?) && Enabled(c, s, step)
    ensures Serial(Do(c, s, step))
  {
    assert Do(c, s, step).txs == map[];
  }

  lemma StepKeepsSerial(c: Config, s: State, step: Step)
    requires c.serialized && Inv(s) && ChosenRows(s.rows) && Serial(s) && Enabled(c, s, step)
    ensures Serial(Do(c, s, step))
  {
    if step.Create? {
      CreateKeepsSerial(c, s, step);
    } else if step.Commit? || step.Abort? {
      EndKeepsSerial(c, s, step);
    } else if !step.Begin? {
      var t := s.txs[step.tx];
      assert SerialTx(s.rows, t);
      if step.Execute? {
        SerialExecute(s.rows, t, step.now);
      }
      InsideKeepsSerial(s, step.tx, Do(c, s, step).txs[step.tx].phase);
    }
  }

  lemma {:induction false} SerialUpTo(c: Config, states: seq<State>, steps: seq<Step>, i: nat)
    requires c.serialized && Run(c, states, steps) && i < |states|
    ensures Serial(states[i]) && FreezeOk(states[i]) && ChosenRows(states[i].rows)
  {
    if i > 0 {
      SerialUpTo(c, states, steps, i - 1);
      RunKeepsInv(c, states, steps, i - 1);
      assert Enabled(c, states[i - 1], steps[i - 1]);
      SerialStep(c, states[i - 1], steps[i - 1], states[i]);
    }
  }

  lemma SerialStep(c: Config, s: State, step: Step, s': State)
    requires c.serialized && Inv(s) && Serial(s) && FreezeOk(s) && ChosenRows(s.rows)
    requires Enabled(c, s, step) && s' == Do(c, s, step)
    ensures Serial(s') && FreezeOk(s') && ChosenRows(s'.rows)
  {
    SerialHolds(c, s, step);
    StepKeepsSerial(c, s, step);
    StepKeepsFreeze(c, s, step);
    StepKeepsChosen(c, s, step);
  }

  /** In a run without overlapping calls every check still holds when its call acts. */
  lemma SerializedHolds(c: Config, states: seq<State>, steps: seq<Step>)
    requires c.serialized && Run(c, states, steps)
    ensures StatusesHold(states, steps) && ChoicesHold(states, steps)
  {
    forall i | 0 <= i < |steps| ensures StatusHolds(states[i], steps[i]) && ChoiceHolds(states[i], steps[i]) {
      SerialUpTo(c, states, steps, i);
      SerialHolds(c, states[i], steps[i]);
    }
  }
}
