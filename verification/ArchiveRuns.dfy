/**
 Archiving and restoring over whole runs: however calls overlap, an archived artifact keeps the
 status it came from until a restore brings it back to that status.
 */
module ArchiveRuns {
  import opened Text
  import opened Patches
  import opened Lifecycle
  import opened Artifacts
  import opened ArtifactRuns

  /** Between two versions of a row, one of them archived, the status it came from stays. */
  predicate OriginKept(r: Row, r': Row) {
    r.status == Archived || r'.status == Archived ==> Origin(r') == Origin(r)
  }

  /** What a transaction has prepared keeps it. */
  predicate OriginTx(rows: Rows, t: Tx) {
    && t.target in rows
    && match t.phase
       case Linking(row, _, _, _) => OriginKept(rows[t.target], row)
       case Written(row, _, _) => OriginKept(rows[t.target], row)
       case _ => true
  }

  ghost predicate OriginsOk(s: State) {
    forall tx | tx in s.txs :: OriginTx(s.rows, s.txs[tx])
  }

  ghost predicate KeepsOrigins(rows: Rows, rows': Rows) {
    forall id | id in rows :: id in rows' && OriginKept(rows[id], rows'[id])
  }

  lemma InsideKeepsOrigins(s: State, tx: TxId, phase: Phase)
    requires OriginsOk(s) && tx in s.txs && OriginTx(s.rows, s.txs[tx].(phase := phase))
    ensures OriginsOk(Goto(s, tx, phase))
  {
  }

  lemma ExecuteKeepsOrigin(rows: Rows, t: Tx, row: Row, now: int)
    requires RowsOk(rows) && t.phase.Started? && t.target in rows
    requires Updated(t.phase.snapshot, rows[t.target], t.patch, t.phase.refs.primary, now) == Some(row)
    ensures OriginKept(rows[t.target], row)
  {
    var r := rows[t.target];
    RequestFits(r, t.patch, t.phase.refs.primary);
    UpdateKeepsOrigin(t.phase.snapshot, r, ToRequest(r, t.patch, t.phase.refs.primary), now);
  }

  lemma OwnStepKeepsOrigins(c: Config, s: State, step: Step)
    requires Inv(s) && OriginsOk(s) && Enabled(c, s, step)
    requires step.CheckRefs? || step.Start? || step.Execute? || step.LinkSource? || step.WriteDoc?
    ensures OriginsOk(Do(c, s, step))
  {
    var t, phase := s.txs[step.tx], Do(c, s, step).txs[step.tx].phase;
    assert OriginTx(s.rows, t);
    if step.Execute? {
      ExecuteKeepsOrigin(s.rows, t, phase.row, step.now);
    }
    InsideKeepsOrigins(s, step.tx, phase);
  }

  lemma OutsideKeepsOrigin(c: Config, s: State, step: Step, tx: TxId)
    requires LocksExclusive(s) && tx in s.txs && OriginTx(s.rows, s.txs[tx]) && Enabled(c, s, step)
    requires step.Create? || step.Begin? || step.Commit? || step.Abort?
    requires tx in Do(c, s, step).txs
    ensures OriginTx(Do(c, s, step).rows, s.txs[tx])
  {
    if !step.Create? && !step.Commit? {
      OnlyCommitsAndCreates(c, s, step);
    } else if Holding(s.txs[tx]) {
      HeldRowStays(c, s, step, tx);
    }
  }

  lemma OutsideKeepsOrigins(c: Config, s: State, step: Step)
    requires Inv(s) && OriginsOk(s) && Enabled(c, s, step)
    requires step.Create? || step.Begin? || step.Commit? || step.Abort?
    ensures OriginsOk(Do(c, s, step))
  {
    var s' := Do(c, s, step);
    assert LocksExclusive(s);
    forall tx | tx in s'.txs ensures OriginTx(s'.rows, s'.txs[tx]) {
      if tx in s.txs {
        OutsideKeepsOrigin(c, s, step, tx);
      }
    }
  }

  lemma StepKeepsOrigins(c: Config, s: State, step: Step, s': State)
    requires Inv(s) && OriginsOk(s) && Enabled(c, s, step) && s' == Do(c, s, step)
    ensures OriginsOk(s') && KeepsOrigins(s.rows, s'.rows)
  {
    if step.Create? || step.Begin? || step.Commit? || step.Abort? {
      OutsideKeepsOrigins(c, s, step);
    } else {
      OwnStepKeepsOrigins(c, s, step);
    }
    if step.Commit? {
      assert OriginTx(s.rows, s.txs[step.tx]);
    } else if !step.Create? {
      OnlyCommitsAndCreates(c, s, step);
    }
  }

  lemma {:induction false} RunKeepsOrigins(c: Config, states: seq<State>, steps: seq<Step>, i: nat)
    requires Run(c, states, steps) && i < |states|
    ensures OriginsOk(states[i])
    ensures i > 0 ==> KeepsOrigins(states[i - 1].rows, states[i].rows)
  {
    if i > 0 {
      RunKeepsOrigins(c, states, steps, i - 1);
      RunKeepsInv(c, states, steps, i - 1);
      assert Enabled(c, states[i - 1], steps[i - 1]);
      StepKeepsOrigins(c, states[i - 1], steps[i - 1], states[i]);
    }
  }

  ghost predicate ArchivedThroughout(states: seq<State>, from: nat, to: nat, id: Id) {
    forall k {:trigger states[k]} | from <= k < to && k < |states| ::
      id in states[k].rows && states[k].rows[id].status == Archived
  }

  /** While a row stays archived, the status it came from stays. */
  lemma {:induction false} ArchivedKeepsOrigin(
    c: Config, states: seq<State>, steps: seq<Step>, i: nat, j: nat, id: Id)
    requires Run(c, states, steps) && i <= j < |states| && ArchivedThroughout(states, i, j + 1, id)
    ensures Origin(states[j].rows[id]) == Origin(states[i].rows[id])
  {
    if i < j {
      ArchivedKeepsOrigin(c, states, steps, i, j - 1, id);
      RunKeepsOrigins(c, states, steps, j);
    }
  }

  /** In every interleaving a restore returns the status from before the archiving, whatever
      happened to the row in between and whatever status was asked for. */
  lemma RestoreReturns(c: Config, states: seq<State>, steps: seq<Step>, i: nat, j: nat, id: Id)
    requires Run(c, states, steps) && i + 1 < j < |states|
    requires id in states[i].rows && states[i].rows[id].status != Archived
    requires ArchivedThroughout(states, i + 1, j, id)
    requires id in states[j].rows && states[j].rows[id].status != Archived
    ensures states[j].rows[id].status == states[i].rows[id].status
  {
    assert states[i + 1].rows[id].status == Archived && states[j - 1].rows[id].status == Archived;
    RunKeepsOrigins(c, states, steps, i + 1);
    ArchivedKeepsOrigin(c, states, steps, i + 1, j - 1, id);
    RunKeepsOrigins(c, states, steps, j);
  }
}
