/**
 Two-store writes of one artifact: its row lives in Postgres, its content in a Mongo
 document.  An update takes the row lock, reads the document, merges the patch, writes the
 document and only then commits or rolls the transaction back.  Any number of updates
 interleave, document writes and commits may fail, and processes may crash anywhere.
 */
module Documents {
  import opened Text
  import opened Patches

  /** lateWrites: a document write whose call failed may still land after its transaction
      has released the row lock. */
  datatype Config = Config(lateWrites: bool)

  type TxId = nat

  datatype Phase =
    | Begun
    | Updated(ticket: nat, revision: nat)
    | Loaded(ticket: nat, revision: nat, base: Document)
    | Written(ticket: nat, revision: nat)
    | Failed(ticket: nat)
    | Committed(ticket: nat)
    | RolledBack

  datatype Tx = Tx(patch: Document, phase: Phase)

  datatype Doc = Doc(revision: nat, content: Document)

  /** A document write that was sent and whose answer never came. */
  datatype Pending = Pending(ticket: nat, doc: Doc)

  /** rowRevision is the committed document_revision.  order and landed are history: the
      patches in the order their transactions took the row lock, and the tickets whose
      document write took effect. */
  datatype State = State(
    rowRevision: nat,
    doc: Doc,
    rowLock: Option<TxId>,
    txs: map<TxId, Tx>,
    inFlight: set<Pending>,
    order: seq<Document>,
    landed: seq<nat>)

  datatype Step =
    | Begin(tx: TxId, patch: Document)
    | UpdateRow(tx: TxId)
    | RejectRow(tx: TxId)
    | Load(tx: TxId)
    | Write(tx: TxId)
    | WriteLost(tx: TxId)
    | WriteLandedWithError(tx: TxId)
    | Commit(tx: TxId)
    | CommitFailed(tx: TxId)
    | Rollback(tx: TxId)
    | Crash(tx: TxId)
    | LateLanding(late: Pending)

  /** A committed artifact right after its creation. */
  function Created(content: Document): State {
    State(1, Doc(1, content), None, map[], {}, [], [])
  }

  predicate Enabled(c: Config, s: State, step: Step) {
    match step
    case Begin(tx, _) => tx !in s.txs
    case UpdateRow(tx) => tx in s.txs && s.txs[tx].phase.Begun? && s.rowLock.None?
    case RejectRow(tx) => tx in s.txs && s.txs[tx].phase.Begun?
    case Load(tx) => tx in s.txs && s.txs[tx].phase.Updated?
    case Write(tx) => tx in s.txs && s.txs[tx].phase.Loaded?
    case WriteLost(tx) => tx in s.txs && s.txs[tx].phase.Loaded?
    case WriteLandedWithError(tx) => tx in s.txs && s.txs[tx].phase.Loaded?
    case Commit(tx) => tx in s.txs && s.txs[tx].phase.Written?
    case CommitFailed(tx) => tx in s.txs && s.txs[tx].phase.Written?
    case Rollback(tx) => tx in s.txs && s.txs[tx].phase.Failed?
    case Crash(tx) => tx in s.txs && !s.txs[tx].phase.Committed? && !s.txs[tx].phase.RolledBack?
    case LateLanding(late) => c.lateWrites && late in s.inFlight
  }

  function Goto(s: State, tx: TxId, phase: Phase): State
    requires tx in s.txs
  {
    s.(txs := s.txs[tx := s.txs[tx].(phase := phase)])
  }

  function Release(s: State, tx: TxId): State {
    s.(rowLock := if s.rowLock == Some(tx) then None else s.rowLock)
  }

  /** The document an update writes. */
  function NewDoc(t: Tx): Doc
    requires t.phase.Loaded?
  {
    Doc(t.phase.revision, Merge(t.phase.base, t.patch))
  }

  function Do(c: Config, s: State, step: Step): State
    requires Enabled(c, s, step)
  {
    match step
    case Begin(tx, patch) => s.(txs := s.txs[tx := Tx(patch, Begun)])
    case UpdateRow(tx) =>
      Goto(s, tx, Updated(|s.order|, s.rowRevision + 1))
        .(rowLock := Some(tx), order := s.order + [s.txs[tx].patch])
    case RejectRow(tx) => Goto(s, tx, RolledBack)
    case Load(tx) =>
      Goto(s, tx, Loaded(s.txs[tx].phase.ticket, s.txs[tx].phase.revision, s.doc.content))
    case Write(tx) =>
      Goto(s, tx, Written(s.txs[tx].phase.ticket, s.txs[tx].phase.revision))
        .(doc := NewDoc(s.txs[tx]), landed := s.landed + [s.txs[tx].phase.ticket])
    case WriteLost(tx) =>
      Goto(s, tx, Failed(s.txs[tx].phase.ticket))
        .(inFlight := s.inFlight + {Pending(s.txs[tx].phase.ticket, NewDoc(s.txs[tx]))})
    case WriteLandedWithError(tx) =>
      Goto(s, tx, Failed(s.txs[tx].phase.ticket))
        .(doc := NewDoc(s.txs[tx]), landed := s.landed + [s.txs[tx].phase.ticket])
    case Commit(tx) =>
      Release(Goto(s, tx, Committed(s.txs[tx].phase.ticket)), tx).(rowRevision := s.txs[tx].phase.revision)
    case CommitFailed(tx) => Release(Goto(s, tx, RolledBack), tx)
    case Rollback(tx) => Release(Goto(s, tx, RolledBack), tx)
    case Crash(tx) => Release(Goto(s, tx, RolledBack), tx)
    case LateLanding(late) =>
      s.(doc := late.doc, landed := s.landed + [late.ticket], inFlight := s.inFlight - {late})
  }

  ghost predicate Run(c: Config, content: Document, states: seq<State>, steps: seq<Step>) {
    && |states| == |steps| + 1
    && states[0] == Created(content)
    && forall i {:trigger steps[i]} | 0 <= i < |steps| ::
         Enabled(c, states[i], steps[i]) && states[i + 1] == Do(c, states[i], steps[i])
  }

  // ---------------------------------------------------------------- what holds

  predicate Tickets(s: State) {
    && (forall i | 0 <= i < |s.landed| :: s.landed[i] < |s.order|)
    && (forall i, j | 0 <= i < j < |s.landed| :: s.landed[i] < s.landed[j])
  }

  /** The patches whose document write took effect, in row-lock order. */
  function LandedPatches(order: seq<Document>, landed: seq<nat>): (r: seq<Document>)
    requires forall i | 0 <= i < |landed| :: landed[i] < |order|
    ensures |r| == |landed| && forall i | 0 <= i < |r| :: r[i] == order[landed[i]]
  {
    seq(|landed|, i requires 0 <= i < |landed| => order[landed[i]])
  }

  predicate RevisionsAgree(s: State) {
    s.rowRevision <= s.doc.revision <= s.rowRevision + 1
  }

  /** The content is the fold of the patches that landed, in the order their transactions
      took the row lock. */
  predicate ContentIsFold(content: Document, s: State) {
    Tickets(s) && s.doc.content == FoldMerge(content, LandedPatches(s.order, s.landed))
  }

  /** A committed update is part of the content. */
  predicate CommittedLanded(s: State) {
    forall tx | tx in s.txs && s.txs[tx].phase.Committed? ::
      var ticket := s.txs[tx].phase.ticket;
      ticket in s.landed && ticket < |s.order| && s.order[ticket] == s.txs[tx].patch
  }

  ghost predicate Safe(content: Document, s: State) {
    RevisionsAgree(s) && ContentIsFold(content, s) && CommittedLanded(s)
  }

  /** The lock holder's ticket is the newest; it has landed exactly if its write succeeded
      or failed after taking effect. */
  predicate HolderOk(s: State, t: Tx) {
    match t.phase
    case Updated(ticket, revision) =>
      ticket == |s.order| - 1 && s.order[ticket] == t.patch && revision == s.rowRevision + 1 && ticket !in s.landed
    case Loaded(ticket, revision, base) =>
      ticket == |s.order| - 1 && s.order[ticket] == t.patch && revision == s.rowRevision + 1 && ticket !in s.landed
      && base == s.doc.content
    case Written(ticket, revision) =>
      ticket == |s.order| - 1 && s.order[ticket] == t.patch && revision == s.rowRevision + 1 && ticket in s.landed
      && s.doc.revision == revision
    case Failed(ticket) => true
    case _ => false
  }

  predicate Holding(phase: Phase) {
    phase.Updated? || phase.Loaded? || phase.Written? || phase.Failed?
  }

  predicate LockOk(s: State) {
    && (forall tx | tx in s.txs && Holding(s.txs[tx].phase) :: s.rowLock == Some(tx))
    && (s.rowLock.Some? ==> s.rowLock.value in s.txs && HolderOk(s, s.txs[s.rowLock.value]))
  }

  lemma LandedPatchesSnoc(order: seq<Document>, landed: seq<nat>, ticket: nat)
    requires forall i | 0 <= i < |landed| :: landed[i] < |order|
    requires ticket < |order|
    ensures LandedPatches(order, landed + [ticket]) == LandedPatches(order, landed) + [order[ticket]]
  {
  }

  lemma LandedPatchesGrow(order: seq<Document>, landed: seq<nat>, patch: Document)
    requires forall i | 0 <= i < |landed| :: landed[i] < |order|
    ensures LandedPatches(order + [patch], landed) == LandedPatches(order, landed)
  {
  }

  lemma FoldSnoc(content: Document, patches: seq<Document>, patch: Document)
    ensures FoldMerge(content, patches + [patch]) == Merge(FoldMerge(content, patches), patch)
  {
    assert (patches + [patch])[..|patches|] == patches;
  }

  lemma NewestLandsLast(s: State, ticket: nat)
    requires Tickets(s) && ticket == |s.order| - 1 && ticket !in s.landed
    ensures forall i | 0 <= i < |s.landed| :: s.landed[i] < ticket
  {
  }

  /** The lock holder's write appends its patch to the fold. */
  lemma WriteKeeps(content: Document, s: State, tx: TxId)
    requires ContentIsFold(content, s) && LockOk(s) && tx in s.txs && s.txs[tx].phase.Loaded?
    ensures
      var s' := s.(doc := NewDoc(s.txs[tx]), landed := s.landed + [s.txs[tx].phase.ticket]);
      ContentIsFold(content, s')
  {
    var ticket := s.txs[tx].phase.ticket;
    NewestLandsLast(s, ticket);
    LandedPatchesSnoc(s.order, s.landed, ticket);
    FoldSnoc(content, LandedPatches(s.order, s.landed), s.txs[tx].patch);
  }

  lemma StepKeepsRevisions(c: Config, s: State, step: Step)
    requires !c.lateWrites && RevisionsAgree(s) && LockOk(s) && Enabled(c, s, step)
    ensures RevisionsAgree(Do(c, s, step))
  {
  }

  lemma StepKeepsFold(c: Config, content: Document, s: State, step: Step)
    requires !c.lateWrites && ContentIsFold(content, s) && LockOk(s) && Enabled(c, s, step)
    ensures ContentIsFold(content, Do(c, s, step))
  {
    match step
    case UpdateRow(tx) => LandedPatchesGrow(s.order, s.landed, s.txs[tx].patch);
    case Write(tx) => WriteKeeps(content, s, tx);
    case WriteLandedWithError(tx) => WriteKeeps(content, s, tx);
    case _ =>
  }

  lemma StepKeepsCommitted(c: Config, s: State, step: Step)
    requires !c.lateWrites && CommittedLanded(s) && LockOk(s) && Enabled(c, s, step)
    ensures CommittedLanded(Do(c, s, step))
  {
    var s' := Do(c, s, step);
    assert s.order <= s'.order && s.landed <= s'.landed;
    forall tx | tx in s'.txs && s'.txs[tx].phase.Committed?
      ensures s'.txs[tx].phase.ticket in s'.landed && s'.txs[tx].phase.ticket < |s'.order|
      ensures s'.order[s'.txs[tx].phase.ticket] == s'.txs[tx].patch
    {
      assert tx in s.txs;
      if !s.txs[tx].phase.Committed? {
        assert step == Commit(tx);
      }
    }
  }

  lemma StepKeepsLock(c: Config, s: State, step: Step)
    requires !c.lateWrites && Tickets(s) && LockOk(s) && Enabled(c, s, step)
    ensures LockOk(Do(c, s, step))
  {
    var s' := Do(c, s, step);
    forall tx | tx in s'.txs && Holding(s'.txs[tx].phase) ensures s'.rowLock == Some(tx) {
    }
    if s'.rowLock.Some? {
      var tx := s'.rowLock.value;
      assert tx in s'.txs;
      if step.UpdateRow? {
        assert |s.order| !in s.landed;
      }
    }
  }

  lemma StepKeepsSafe(c: Config, content: Document, s: State, step: Step)
    requires !c.lateWrites && Safe(content, s) && LockOk(s) && Enabled(c, s, step)
    ensures Safe(content, Do(c, s, step)) && LockOk(Do(c, s, step))
  {
    StepKeepsRevisions(c, s, step);
    StepKeepsFold(c, content, s, step);
    StepKeepsCommitted(c, s, step);
    StepKeepsLock(c, s, step);
  }

  /** Across failed document writes, failed commits and crashes: the document is at most one
      revision ahead of the row, its content is the fold of every patch that landed in
      row-lock order, and no committed patch is ever lost. */
  lemma {:induction false} RunIsSafe(c: Config, content: Document, states: seq<State>, steps: seq<Step>, i: nat)
    requires !c.lateWrites && Run(c, content, states, steps) && i < |states|
    ensures Safe(content, states[i]) && LockOk(states[i])
  {
    if i > 0 {
      RunIsSafe(c, content, states, steps, i - 1);
      assert Enabled(c, states[i - 1], steps[i - 1]);
      StepKeepsSafe(c, content, states[i - 1], steps[i - 1]);
    }
  }

  // ---------------------------------------------------------------- revisions

  /** Only a write that takes effect changes the document: by the patch, field by field, on what
      is stored, under the revision after the row's. */
  lemma DocEffects(c: Config, s: State, step: Step)
    requires LockOk(s) && Enabled(c, s, step)
    ensures
      var doc := Do(c, s, step).doc;
      if step.Write? || step.WriteLandedWithError?
      then MergeLaw(s.doc.content, s.txs[step.tx].patch, doc.content) && doc.revision == s.rowRevision + 1
      else doc == if step.LateLanding? then step.late.doc else s.doc
  {
    if step.Write? || step.WriteLandedWithError? {
      assert HolderOk(s, s.txs[step.tx]);
      MergeIsLawful(s.doc.content, s.txs[step.tx].patch);
    }
  }

  /** A commit raises the row's revision by one, to that of the document; nothing else does. */
  lemma RowEffects(c: Config, s: State, step: Step)
    requires LockOk(s) && Enabled(c, s, step)
    ensures
      var s' := Do(c, s, step);
      if step.Commit? then s'.rowRevision == s.rowRevision + 1 == s'.doc.revision else s'.rowRevision == s.rowRevision
  {
    if step.Commit? {
      assert HolderOk(s, s.txs[step.tx]);
    }
  }

  function CommittedTxs(s: State): set<TxId> {
    set tx | tx in s.txs && s.txs[tx].phase.Committed?
  }

  lemma CommittedBy(c: Config, s: State, step: Step)
    requires Enabled(c, s, step)
    ensures CommittedTxs(Do(c, s, step)) == CommittedTxs(s) + if step.Commit? then {step.tx} else {}
    ensures step.Commit? ==> step.tx !in CommittedTxs(s)
  {
    var s' := Do(c, s, step);
    forall tx ensures tx in CommittedTxs(s') <==> tx in CommittedTxs(s) || (step.Commit? && tx == step.tx) {
    }
  }

  /** The revision of the row counts the committed updates. */
  lemma {:induction false} RevisionCounts(c: Config, content: Document, states: seq<State>, steps: seq<Step>, i: nat)
    requires !c.lateWrites && Run(c, content, states, steps) && i < |states|
    ensures states[i].rowRevision == 1 + |CommittedTxs(states[i])|
  {
    if i == 0 {
      assert CommittedTxs(states[0]) == {};
    } else {
      RevisionCounts(c, content, states, steps, i - 1);
      RunIsSafe(c, content, states, steps, i - 1);
      assert Enabled(c, states[i - 1], steps[i - 1]);
      RowEffects(c, states[i - 1], steps[i - 1]);
      CommittedBy(c, states[i - 1], steps[i - 1]);
    }
  }

  // ---------------------------------------------------------------- rule tables

  /** Every request was validated before its transaction began. */
  predicate Validated(steps: seq<Step>, rules: Rules) {
    forall i | 0 <= i < |steps| && steps[i].Begin? :: Conforms(steps[i].patch, rules)
  }

  /** Whatever can still become the stored document conforms. */
  ghost predicate AllConform(s: State, rules: Rules) {
    && Conforms(s.doc.content, rules)
    && (forall tx | tx in s.txs ::
          && Conforms(s.txs[tx].patch, rules)
          && (s.txs[tx].phase.Loaded? ==> Conforms(s.txs[tx].phase.base, rules)))
    && (forall late | late in s.inFlight :: Conforms(late.doc.content, rules))
  }

  lemma WrittenConforms(s: State, tx: TxId, rules: Rules)
    requires AllConform(s, rules) && tx in s.txs && s.txs[tx].phase.Loaded?
    ensures Conforms(NewDoc(s.txs[tx]).content, rules)
  {
    MergeConforms(s.txs[tx].phase.base, s.txs[tx].patch, rules);
  }

  lemma StepKeepsConform(c: Config, s: State, step: Step, rules: Rules)
    requires AllConform(s, rules) && Enabled(c, s, step)
    requires step.Begin? ==> Conforms(step.patch, rules)
    ensures AllConform(Do(c, s, step), rules)
  {
    if step.Write? || step.WriteLost? || step.WriteLandedWithError? {
      WrittenConforms(s, step.tx, rules);
    }
  }

  lemma {:induction false} RunConforms(
    c: Config, content: Document, rules: Rules, states: seq<State>, steps: seq<Step>, i: nat)
    requires Run(c, content, states, steps) && i < |states|
    requires Conforms(content, rules) && Validated(steps, rules)
    ensures AllConform(states[i], rules)
  {
    if i > 0 {
      RunConforms(c, content, rules, states, steps, i - 1);
      assert Enabled(c, states[i - 1], steps[i - 1]);
      StepKeepsConform(c, states[i - 1], steps[i - 1], rules);
    }
  }

  /** Every stored document conforms to its rule table in every run, even where late writes
      lose patches. */
  lemma StoredConforms(c: Config, content: Document, rules: Rules, states: seq<State>, steps: seq<Step>, i: nat)
    requires Run(c, content, states, steps) && i < |states|
    requires Conforms(content, rules) && Validated(steps, rules)
    ensures Conforms(states[i].doc.content, rules)
  {
    RunConforms(c, content, rules, states, steps, i);
  }

  // ---------------------------------------------------------------- when it fails

  lemma Extend(c: Config, content: Document, states: seq<State>, steps: seq<Step>, step: Step)
    returns (states': seq<State>, steps': seq<Step>)
    requires Run(c, content, states, steps) && Enabled(c, states[|steps|], step)
    ensures Run(c, content, states', steps')
    ensures states'[|steps'|] == Do(c, states[|steps|], step)
  {
    states', steps' := states + [Do(c, states[|steps|], step)], steps + [step];
  }

  const PATCH_A: Document := map["a" := Num(1)]
  const PATCH_B: Document := map["b" := Num(2)]
  const LATE_A := Pending(0, Doc(2, PATCH_A))

  /** The first update's document write is lost and its transaction rolls back. */
  lemma LostWrite(c: Config) returns (states: seq<State>, steps: seq<Step>)
    ensures Run(c, map[], states, steps)
    ensures states[|steps|] ==
            Created(map[]).(txs := map[0 := Tx(PATCH_A, RolledBack)], inFlight := {LATE_A}, order := [PATCH_A])
  {
    states, steps := [Created(map[])], [];
    states, steps := Extend(c, map[], states, steps, Begin(0, PATCH_A));
    states, steps := Extend(c, map[], states, steps, UpdateRow(0));
    states, steps := Extend(c, map[], states, steps, Load(0));
    assert states[|steps|].txs[0] == Tx(PATCH_A, Loaded(0, 2, map[]));
    assert Merge(map[], PATCH_A) == PATCH_A;
    states, steps := Extend(c, map[], states, steps, WriteLost(0));
    states, steps := Extend(c, map[], states, steps, Rollback(0));
    assert states[|steps|].txs == map[0 := Tx(PATCH_A, RolledBack)];
  }

  /** Then a second update runs to its commit. */
  lemma LostThenCommitted(c: Config) returns (states: seq<State>, steps: seq<Step>)
    ensures Run(c, map[], states, steps)
    ensures
      var s := states[|steps|];
      && 1 in s.txs && s.txs[1] == Tx(PATCH_B, Committed(1)) && s.landed == [1]
      && LATE_A in s.inFlight && s.order == [PATCH_A, PATCH_B]
  {
    states, steps := LostWrite(c);
    states, steps := Extend(c, map[], states, steps, Begin(1, PATCH_B));
    states, steps := Extend(c, map[], states, steps, UpdateRow(1));
    assert states[|steps|].txs[1] == Tx(PATCH_B, Updated(1, 2));
    states, steps := Extend(c, map[], states, steps, Load(1));
    states, steps := Extend(c, map[], states, steps, Write(1));
    assert states[|steps|].txs[1] == Tx(PATCH_B, Written(1, 2));
    states, steps := Extend(c, map[], states, steps, Commit(1));
  }

  /** A write that lands after its lock was released wipes out a committed patch. */
  lemma LateWriteLosesPatch(c: Config) returns (states: seq<State>, steps: seq<Step>)
    requires c.lateWrites
    ensures Run(c, map[], states, steps)
    ensures
      var s := states[|steps|];
      && 1 in s.txs && s.txs[1] == Tx(PATCH_B, Committed(1)) && "b" !in s.doc.content
      && !Safe(map[], s)
  {
    states, steps := LostThenCommitted(c);
    states, steps := Extend(c, map[], states, steps, LateLanding(LATE_A));
    assert states[|steps|].landed == [1, 0];
  }

  /** The exact condition for the two stores to stay together in every run. */
  lemma SafeExactlyWhen(c: Config)
    ensures (forall content, states, steps :: Run(c, content, states, steps) ==>
               forall i | 0 <= i < |states| :: Safe(content, states[i]))
            <==> !c.lateWrites
  {
    if c.lateWrites {
      var states, steps := LateWriteLosesPatch(c);
      assert Run(c, map[], states, steps) && !Safe(map[], states[|steps|]);
    } else {
      forall content, states, steps, i | Run(c, content, states, steps) && 0 <= i < |states|
        ensures Safe(content, states[i])
      {
        RunIsSafe(c, content, states, steps, i);
      }
    }
  }

  // ---------------------------------------------------------------- the transaction scope

  datatype TxState = Open | Done | Aborted | CommitRefused

  /** How the callback passed to WithTx ends. */
  datatype Callback = Returns | Fails(error: string) | Panics(reason: string)

  datatype Outcome = Succeeded | Error(error: string) | Panicked(reason: string)

  /** A database transaction and how often it was ended. */
  class Transaction {
    var state: TxState
    var endings: nat

    constructor ()
      ensures state == Open && endings == 0
    {
      state, endings := Open, 0;
    }

    method Commit(accepted: bool) returns (ok: bool)
      requires state == Open
      modifies this
      ensures ok == accepted && state == (if accepted then Done else CommitRefused)
      ensures endings == old(endings) + 1
    {
      state, endings := if accepted then Done else CommitRefused, endings + 1;
      ok := accepted;
    }

    method Rollback()
      requires state == Open
      modifies this
      ensures state == Aborted && endings == old(endings) + 1
    {
      state, endings := Aborted, endings + 1;
    }
  }

  /** WithTx: the transaction is ended exactly once; it takes effect if and only if the
      callback returned and the database accepted the commit, and only then does the caller
      see success.  A panic is passed on after the rollback. */
  method WithTx(tx: Transaction, callback: Callback, commitAccepted: bool) returns (outcome: Outcome)
    requires tx.state == Open && tx.endings == 0
    modifies tx
    ensures tx.endings == 1
    ensures tx.state == Done <==> outcome.Succeeded?
    ensures outcome.Succeeded? <==> callback.Returns? && commitAccepted
    ensures !callback.Returns? <==> tx.state == Aborted
    ensures callback.Panics? ==> outcome == Panicked(callback.reason)
    ensures callback.Fails? ==> outcome == Error(callback.error)
    ensures outcome.Error? ==> callback.Fails? || !commitAccepted
  {
    var shouldRollback := true;
    match callback {
      case Panics(reason) =>
        outcome := Panicked(reason);
      case Fails(error) =>
        outcome := Error(error);
      case Returns =>
        shouldRollback := false;
        var ok := tx.Commit(commitAccepted);
        outcome := if ok then Succeeded else Error("commit tx");
    }
    if shouldRollback {
      tx.Rollback();
    }
  }
}
