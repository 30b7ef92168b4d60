/**
 Runs of update calls on artifacts.  A call checks the committed row, opens a transaction,
 resolves its references, runs its UPDATE under the row lock, rewrites its links, writes its
 document and commits.  Every statement of every call is one step, and a call may stop
 anywhere.
 */
module ArtifactRuns {
  import opened Text
  import opened Patches
  import opened Lifecycle
  import opened Artifacts

  /** serialized: a call begins only when no other call is under way. */
  datatype Config = Config(serialized: bool)

  type TxId = nat

  /** snapshot is what the subqueries of the UPDATE see; row and added are what the
      transaction has written and nobody else sees before its commit. */
  datatype Phase =
    | Checked
    | Gated(refs: Refs)
    | Started(refs: Refs, snapshot: Rows)
    | Linking(row: Row, relink: bool, added: set<Link>, todo: seq<Value>)
    | Written(row: Row, relink: bool, added: set<Link>)

  datatype Tx = Tx(target: Id, seen: Row, patch: Document, phase: Phase)

  /** rows and links are the committed tables; documents are not part of any transaction. */
  datatype State = State(rows: Rows, links: set<Link>, docs: map<Id, Document>, txs: map<TxId, Tx>)

  datatype Step =
    | Create(id: Id, kind: Kind, project: Id, title: string, content: Document)
    | Begin(tx: TxId, target: Id, patch: Document)
    | CheckRefs(tx: TxId)
    | Start(tx: TxId)
    | Execute(tx: TxId, now: int)
    | LinkSource(tx: TxId)
    | WriteDoc(tx: TxId)
    | Commit(tx: TxId)
    | Abort(tx: TxId)

  const EMPTY := State(map[], {}, map[], map[])

  // ---------------------------------------------------------------- steps

  /** The row lock is taken by the UPDATE and held to the end of the transaction. */
  predicate Holding(t: Tx) {
    t.phase.Linking? || t.phase.Written?
  }

  predicate Unlocked(s: State, id: Id) {
    forall tx | tx in s.txs && Holding(s.txs[tx]) :: s.txs[tx].target != id
  }

  function Updated(rows: Rows, r: Row, patch: Document, ref: Option<Id>, now: int): Option<Row> {
    RequestFits(r, patch, ref);
    SqlUpdate(rows, r, ToRequest(r, patch, ref), now)
  }

  /** linkedSources must be an array when a problem's patch has it. */
  predicate SourcesWellFormed(kind: Kind, patch: Document) {
    kind == Problem && "linkedSources" in patch ==> patch["linkedSources"].Array?
  }

  function SourceItems(kind: Kind, patch: Document): seq<Value> {
    if kind == Problem && "linkedSources" in patch then ItemsOf(patch["linkedSources"]) else []
  }

  /** The links a request names other than a problem's sources. */
  function RefLinks(kind: Kind, project: Id, target: Id, refs: Refs): set<Link> {
    LinksTo(project, Source(kind, target), refs.sources, kind != Feedback)
  }

  function Target(t: Tx): Source {
    Source(KindOf(t.seen), t.target)
  }

  predicate Enabled(c: Config, s: State, step: Step) {
    match step
    case Create(id, _, _, _, _) => id !in s.rows
    case Begin(tx, target, patch) =>
      && tx !in s.txs && target in s.rows && (c.serialized ==> s.txs == map[])
      && var kind := KindOf(s.rows[target]);
         ValidPatch(kind, patch) && ServiceAllows(kind, s.rows[target].status, Canonical(kind, patch))
    case CheckRefs(tx) =>
      && tx in s.txs && s.txs[tx].phase.Checked?
      && Gate(s.rows, KindOf(s.txs[tx].seen), s.txs[tx].seen.project, s.txs[tx].patch).Some?
    case Start(tx) => tx in s.txs && s.txs[tx].phase.Gated?
    case Execute(tx, now) =>
      && tx in s.txs && s.txs[tx].phase.Started? && s.txs[tx].target in s.rows && Unlocked(s, s.txs[tx].target)
      && var t := s.txs[tx];
         && SourcesWellFormed(KindOf(t.seen), t.patch)
         && Updated(t.phase.snapshot, s.rows[t.target], t.patch, t.phase.refs.primary, now).Some?
    case LinkSource(tx) =>
      && tx in s.txs && s.txs[tx].phase.Linking? && s.txs[tx].phase.todo != []
      && var source := ProblemSource(s.txs[tx].phase.todo[0]);
         source.Some? && ExistsWith(s.rows, s.txs[tx].seen.project, source.value, Locked)
    case WriteDoc(tx) => tx in s.txs && s.txs[tx].phase.Linking? && s.txs[tx].phase.todo == []
    case Commit(tx) => tx in s.txs && s.txs[tx].phase.Written?
    case Abort(tx) => tx in s.txs
  }

  function Goto(s: State, tx: TxId, phase: Phase): State
    requires tx in s.txs
  {
    s.(txs := s.txs[tx := s.txs[tx].(phase := phase)])
  }

  function DocOf(docs: map<Id, Document>, id: Id): Document {
    if id in docs then docs[id] else map[]
  }

  function LinksAfter(links: set<Link>, project: Id, target: Source, relink: bool, added: set<Link>): set<Link> {
    if relink then Relinked(links, project, target, added) else links
  }

  function Do(c: Config, s: State, step: Step): State
    requires Enabled(c, s, step)
  {
    match step
    case Create(id, kind, project, title, content) =>
      s.(rows := s.rows[id := NewRow(kind, project, title)], docs := s.docs[id := content])
    case Begin(tx, target, patch) =>
      var r := s.rows[target];
      s.(txs := s.txs[tx := Tx(target, r, Canonical(KindOf(r), patch), Checked)])
    case CheckRefs(tx) =>
      var t := s.txs[tx];
      Goto(s, tx, Gated(Gate(s.rows, KindOf(t.seen), t.seen.project, t.patch).value))
    case Start(tx) => Goto(s, tx, Started(s.txs[tx].phase.refs, s.rows))
    case Execute(tx, now) =>
      var t := s.txs[tx];
      var kind, refs := KindOf(t.seen), t.phase.refs;
      Goto(s, tx, Linking(Updated(t.phase.snapshot, s.rows[t.target], t.patch, refs.primary, now).value,
                          Relinks(kind, t.patch, refs), RefLinks(kind, t.seen.project, t.target, refs),
                          SourceItems(kind, t.patch)))
    case LinkSource(tx) =>
      var t := s.txs[tx];
      var link := Link(t.seen.project, ProblemSource(t.phase.todo[0]).value, Target(t), false);
      Goto(s, tx, t.phase.(added := t.phase.added + {link}, todo := t.phase.todo[1..]))
    case WriteDoc(tx) =>
      var t := s.txs[tx];
      Goto(s, tx, Written(t.phase.row, t.phase.relink, t.phase.added))
        .(docs := s.docs[t.target := Merge(DocOf(s.docs, t.target), t.patch)])
    case Commit(tx) =>
      var t := s.txs[tx];
      State(s.rows[t.target := t.phase.row],
            LinksAfter(s.links, t.seen.project, Target(t), t.phase.relink, t.phase.added),
            s.docs, s.txs - {tx})
    case Abort(tx) => s.(txs := s.txs - {tx})
  }

  ghost predicate Run(c: Config, states: seq<State>, steps: seq<Step>) {
    && |states| == |steps| + 1
    && states[0] == EMPTY
    && forall i {:trigger steps[i]} | 0 <= i < |steps| ::
         Enabled(c, states[i], steps[i]) && states[i + 1] == Do(c, states[i], steps[i])
  }

  // ---------------------------------------------------------------- what only grows

  /** Rows stay, and each evolves. */
  predicate Grows(rows: Rows, rows': Rows) {
    forall id | id in rows :: id in rows' && Evolves(rows[id], rows'[id])
  }

  /** Locked, or archived from Locked. */
  predicate OnceLocked(rows: Rows, source: Source) {
    source.id in rows && KindOf(rows[source.id]) == source.kind && Origin(rows[source.id]) == Locked
  }

  predicate OnceSelected(rows: Rows, id: Id) {
    id in rows && rows[id].IdeaRow? && rows[id].selectedAt.Some?
  }

  /** A row's primary reference is of the right kind, in the same project, and was in the
      demanded status when it was set. */
  predicate PrimaryOk(rows: Rows, r: Row) {
    match r
    case IdeaRow(project, _, _, _, Some(p), _, _) =>
      Exists(rows, project, Source(Problem, p)) && OnceLocked(rows, Source(Problem, p))
    case TaskRow(project, _, _, Some(i), _, _, _, _) =>
      Exists(rows, project, Source(Idea, i)) && OnceSelected(rows, i)
    case FeedbackRow(project, _, _, _, Some(t), _, _) => Exists(rows, project, Source(Task, t))
    case _ => true
  }

  /** No link crosses projects, and a problem's sources are locked for good. */
  predicate LinkOk(rows: Rows, l: Link) {
    && l.source.kind in SourceKinds(l.target.kind)
    && Exists(rows, l.project, l.source) && Exists(rows, l.project, l.target)
    && (l.target.kind == Problem ==> OnceLocked(rows, l.source))
  }

  predicate RefsOk(rows: Rows, kind: Kind, project: Id, refs: Refs) {
    match kind
    case Idea =>
      && (refs.primary.None? ==> refs.sources == [])
      && (refs.primary.Some? ==>
            && refs.sources == [Source(Problem, refs.primary.value)]
            && Exists(rows, project, refs.sources[0]) && OnceLocked(rows, refs.sources[0]))
    case Task =>
      && (refs.primary.None? ==> refs.sources == [])
      && (refs.primary.Some? ==>
            && refs.sources == [Source(Idea, refs.primary.value)]
            && Exists(rows, project, refs.sources[0]) && OnceSelected(rows, refs.primary.value))
    case Feedback =>
      && refs.primary == FirstTask(refs.sources)
      && forall source | source in refs.sources ::
           source.kind in SourceKinds(Feedback) && Exists(rows, project, source)
    case _ => refs == Refs(None, [])
  }

  lemma GrowsTransitive(a: Rows, b: Rows, c: Rows)
    requires Grows(a, b) && Grows(b, c)
    ensures Grows(a, c)
  {
  }

  lemma GrowthKeeps(rows: Rows, rows': Rows)
    requires Grows(rows, rows')
    ensures forall r :: PrimaryOk(rows, r) ==> PrimaryOk(rows', r)
    ensures forall l :: LinkOk(rows, l) ==> LinkOk(rows', l)
    ensures forall kind, project, refs :: RefsOk(rows, kind, project, refs) ==> RefsOk(rows', kind, project, refs)
  {
  }

  lemma {:induction false} ResolvedLinksExist(rows: Rows, project: Id, items: seq<Value>)
    requires ResolveLinks(rows, project, items).Some?
    ensures forall source | source in ResolveLinks(rows, project, items).value ::
              source.kind in SourceKinds(Feedback) && Exists(rows, project, source)
  {
    if items != [] {
      ResolvedLinksExist(rows, project, items[..|items| - 1]);
    }
  }

  ghost predicate RowsOk(rows: Rows) {
    forall id | id in rows :: RowOk(rows[id]) && PrimaryOk(rows, rows[id])
  }

  lemma GateOk(rows: Rows, kind: Kind, project: Id, patch: Document)
    requires RowsOk(rows) && Gate(rows, kind, project, patch).Some?
    ensures RefsOk(rows, kind, project, Gate(rows, kind, project, patch).value)
  {
    if kind == Feedback {
      ResolvedLinksExist(rows, project, ItemsOf(Field(patch, "linkedArtifacts")));
    }
  }

  // ---------------------------------------------------------------- links and primary columns

  function Into(links: set<Link>, id: Id): set<Link> {
    set l | l in links && l.target.id == id
  }

  /** The problem links of an idea and the idea links of a task are exactly the primary
      column; feedback has a primary task exactly when a task is linked, and it is one of
      the linked ones. */
  predicate Agree(id: Id, r: Row, into: set<Link>) {
    match r
    case IdeaRow(project, _, _, _, primary, _, _) =>
      into == (if primary.None? then {} else {Link(project, Source(Problem, primary.value), Source(Idea, id), true)})
    case TaskRow(project, _, _, primary, _, _, _, _) =>
      into == (if primary.None? then {} else {Link(project, Source(Idea, primary.value), Source(Task, id), true)})
    case FeedbackRow(project, _, _, _, primary, _, _) =>
      if primary.None? then forall l | l in into :: l.source.kind != Task
      else Link(project, Source(Task, primary.value), Source(Feedback, id), false) in into
    case _ => true
  }

  ghost predicate LinksOk(rows: Rows, links: set<Link>) {
    && (forall l | l in links :: LinkOk(rows, l))
    && (forall id | id in rows :: Agree(id, rows[id], Into(links, id)))
  }

  lemma {:induction false} FirstTaskIsFirst(sources: seq<Source>)
    ensures FirstTask(sources).None? ==> forall source | source in sources :: source.kind != Task
    ensures FirstTask(sources).Some? ==> Source(Task, FirstTask(sources).value) in sources
  {
    if sources != [] {
      FirstTaskIsFirst(sources[1..]);
    }
  }

  function Primary(r: Row): Option<Id> {
    match r
    case IdeaRow(_, _, _, _, primary, _, _) => primary
    case TaskRow(_, _, _, primary, _, _, _, _) => primary
    case FeedbackRow(_, _, _, _, primary, _, _) => primary
    case _ => None
  }

  /** What an UPDATE makes of the row's identity and primary column. */
  lemma UpdatedRow(rows: Rows, r: Row, patch: Document, ref: Option<Id>, now: int)
    requires RowOk(r) && Updated(rows, r, patch, ref, now).Some?
    ensures
      var r' := Updated(rows, r, patch, ref, now).value;
      && RowOk(r') && Evolves(r, r')
      && Primary(r') == match KindOf(r)
                        case Idea => CoalesceOption(ref, Primary(r))
                        case Task => CoalesceOption(ref, Primary(r))
                        case Feedback => ref
                        case _ => None
  {
    RequestFits(r, patch, ref);
    UpdateKeepsRowOk(rows, r, ToRequest(r, patch, ref), now);
  }

  /** The row and the links an UPDATE leads to agree again. */
  lemma RefLinksAgree(rows: Rows, id: Id, r: Row, r': Row, refs: Refs, patch: Document, links: set<Link>)
    requires RefsOk(rows, KindOf(r), r.project, refs) && id in rows && rows[id] == r
    requires Agree(id, r, Into(links, id)) && PrimaryOk(rows, r)
    requires RowOk(r) && RowOk(r') && KindOf(r') == KindOf(r) && r'.project == r.project
    requires Primary(r') == match KindOf(r)
                            case Idea => CoalesceOption(refs.primary, Primary(r))
                            case Task => CoalesceOption(refs.primary, Primary(r))
                            case Feedback => refs.primary
                            case _ => None
    ensures
      var added := RefLinks(KindOf(r), r.project, id, refs);
      && PrimaryOk(rows, r')
      && Agree(id, r', if Relinks(KindOf(r), patch, refs) then added else Into(links, id))
      && forall l | l in added :: l.project == r.project && l.target == Source(KindOf(r), id) && LinkOk(rows, l)
  {
    FirstTaskIsFirst(refs.sources);
    var added := RefLinks(KindOf(r), r.project, id, refs);
    match r
    case IdeaRow(_, _, _, _, _, _, _) =>
      assert refs.primary.Some? ==> added == {Link(r.project, refs.sources[0], Source(Idea, id), true)};
    case TaskRow(_, _, _, _, _, _, _, _) =>
      assert refs.primary.Some? ==> added == {Link(r.project, refs.sources[0], Source(Task, id), true)};
    case _ =>
  }

  // ---------------------------------------------------------------- transactions

  ghost predicate TxOk(rows: Rows, links: set<Link>, t: Tx) {
    && t.target in rows && Evolves(t.seen, rows[t.target])
    && match t.phase
       case Checked => true
       case Gated(refs) => RefsOk(rows, KindOf(t.seen), t.seen.project, refs)
       case Started(refs, snapshot) => RefsOk(rows, KindOf(t.seen), t.seen.project, refs) && Grows(snapshot, rows)
       case Linking(row, relink, added, todo) => PendingOk(rows, links, t, row, relink, added)
       case Written(row, relink, added) => PendingOk(rows, links, t, row, relink, added)
  }

  /** What a transaction has written fits the committed state it will be added to. */
  ghost predicate PendingOk(rows: Rows, links: set<Link>, t: Tx, row: Row, relink: bool, added: set<Link>) {
    && t.target in rows && Evolves(rows[t.target], row) && RowOk(row) && PrimaryOk(rows, row)
    && (forall l | l in added :: l.project == t.seen.project && l.target == Target(t) && LinkOk(rows, l))
    && Agree(t.target, row, if relink then added else Into(links, t.target))
    && (t.phase.Linking? && t.phase.todo != [] ==> row.ProblemRow? && relink)
  }

  predicate LocksExclusive(s: State) {
    forall a, b | a in s.txs && b in s.txs && Holding(s.txs[a]) && Holding(s.txs[b]) && a != b ::
      s.txs[a].target != s.txs[b].target
  }

  ghost predicate Inv(s: State) {
    && RowsOk(s.rows) && LinksOk(s.rows, s.links) && LocksExclusive(s)
    && forall tx | tx in s.txs :: TxOk(s.rows, s.links, s.txs[tx])
  }

  /** A transaction is not disturbed by growth elsewhere. */
  lemma GrowthKeepsTx(rows: Rows, links: set<Link>, rows': Rows, links': set<Link>, t: Tx)
    requires TxOk(rows, links, t) && Grows(rows, rows')
    requires Holding(t) ==> rows'[t.target] == rows[t.target] && Into(links', t.target) == Into(links, t.target)
    ensures TxOk(rows', links', t)
  {
    GrowthKeeps(rows, rows');
    EvolvesTransitive(t.seen, rows[t.target], rows'[t.target]);
    if t.phase.Started? {
      GrowsTransitive(t.phase.snapshot, rows, rows');
    }
  }

  lemma EvolvesSelf(rows: Rows)
    ensures Grows(rows, rows)
  {
  }

  lemma CreatedTables(rows: Rows, links: set<Link>, id: Id, kind: Kind, project: Id, title: string)
    requires RowsOk(rows) && LinksOk(rows, links) && id !in rows
    ensures
      var rows' := rows[id := NewRow(kind, project, title)];
      RowsOk(rows') && LinksOk(rows', links) && Grows(rows, rows')
  {
    var rows' := rows[id := NewRow(kind, project, title)];
    GrowthKeeps(rows, rows');
    NewRowOk(kind, project, title);
    forall l | l in links ensures l.target.id != id && LinkOk(rows', l) {
      assert LinkOk(rows, l);
    }
    assert Into(links, id) == {};
  }

  lemma CreateKeepsInv(c: Config, s: State, step: Step)
    requires Inv(s) && step.Create? && Enabled(c, s, step)
    ensures Inv(Do(c, s, step)) && Grows(s.rows, Do(c, s, step).rows)
  {
    var s' := Do(c, s, step);
    CreatedTables(s.rows, s.links, step.id, step.kind, step.project, step.title);
    forall tx | tx in s'.txs ensures TxOk(s'.rows, s'.links, s'.txs[tx]) {
      GrowthKeepsTx(s.rows, s.links, s'.rows, s'.links, s.txs[tx]);
    }
  }

  /** A step inside one transaction: only that transaction has to be looked at. */
  lemma InsideKeepsInv(s: State, tx: TxId, phase: Phase)
    requires Inv(s) && tx in s.txs
    requires
      var t' := s.txs[tx].(phase := phase);
      TxOk(s.rows, s.links, t') && (Holding(t') ==> Holding(s.txs[tx]) || Unlocked(s, t'.target))
    ensures Inv(Goto(s, tx, phase))
  {
    var s' := Goto(s, tx, phase);
    assert LocksExclusive(s');
  }

  lemma ExecuteKeepsInv(c: Config, s: State, step: Step)
    requires Inv(s) && step.Execute? && Enabled(c, s, step)
    ensures Inv(Do(c, s, step))
  {
    var t := s.txs[step.tx];
    assert TxOk(s.rows, s.links, t);
    var phase := Do(c, s, step).txs[step.tx].phase;
    ExecutedTxOk(s.rows, s.links, t, phase, step.now);
    InsideKeepsInv(s, step.tx, phase);
  }

  lemma ExecutedTxOk(rows: Rows, links: set<Link>, t: Tx, phase: Phase, now: int)
    requires RowsOk(rows) && LinksOk(rows, links) && TxOk(rows, links, t) && t.phase.Started?
    requires
      var refs := t.phase.refs;
      var row := Updated(t.phase.snapshot, rows[t.target], t.patch, refs.primary, now);
      && row.Some?
      && phase == Linking(row.value, Relinks(KindOf(t.seen), t.patch, refs),
                          RefLinks(KindOf(t.seen), t.seen.project, t.target, refs),
                          SourceItems(KindOf(t.seen), t.patch))
    ensures TxOk(rows, links, t.(phase := phase))
  {
    var r, refs := rows[t.target], t.phase.refs;
    UpdatedRow(t.phase.snapshot, r, t.patch, refs.primary, now);
    RefLinksAgree(rows, t.target, r, phase.row, refs, t.patch, links);
  }

  lemma LinkSourceKeepsInv(c: Config, s: State, step: Step)
    requires Inv(s) && step.LinkSource? && Enabled(c, s, step)
    ensures Inv(Do(c, s, step))
  {
    var t := s.txs[step.tx];
    var link := Link(t.seen.project, ProblemSource(t.phase.todo[0]).value, Target(t), false);
    assert TxOk(s.rows, s.links, t);
    NewSourceOk(s.rows, s.links, t, link);
    InsideKeepsInv(s, step.tx, t.phase.(added := t.phase.added + {link}, todo := t.phase.todo[1..]));
  }

  lemma NewSourceOk(rows: Rows, links: set<Link>, t: Tx, link: Link)
    requires RowsOk(rows) && TxOk(rows, links, t) && t.phase.Linking? && t.phase.todo != []
    requires link.project == t.seen.project && link.target == Target(t)
    requires link.source.kind in SourceKinds(Problem) && ExistsWith(rows, link.project, link.source, Locked)
    ensures TxOk(rows, links, t.(phase := t.phase.(added := t.phase.added + {link}, todo := t.phase.todo[1..])))
  {
    assert KindOf(t.phase.row) == Problem;
    assert LinkOk(rows, link);
  }

  /** What a commit does to the links: those into its target become what the transaction
      prepared, all others stay. */
  lemma CommitLinks(rows: Rows, links: set<Link>, t: Tx, relink: bool, added: set<Link>, id: Id)
    requires t.target in rows && KindOf(rows[t.target]) == KindOf(t.seen) && rows[t.target].project == t.seen.project
    requires forall l | l in links :: LinkOk(rows, l)
    requires forall l | l in added :: l.target == Target(t)
    ensures Into(LinksAfter(links, t.seen.project, Target(t), relink, added), id)
            == if id == t.target && relink then added else Into(links, id)
  {
  }

  lemma CommittedRows(rows: Rows, links: set<Link>, t: Tx)
    requires RowsOk(rows) && TxOk(rows, links, t) && t.phase.Written?
    ensures
      var rows' := rows[t.target := t.phase.row];
      RowsOk(rows') && Grows(rows, rows')
  {
    EvolvesSelf(rows);
    GrowthKeeps(rows, rows[t.target := t.phase.row]);
  }

  lemma CommittedLinks(rows: Rows, links: set<Link>, t: Tx)
    requires LinksOk(rows, links) && TxOk(rows, links, t) && t.phase.Written?
    requires Grows(rows, rows[t.target := t.phase.row])
    ensures LinksOk(rows[t.target := t.phase.row],
                    LinksAfter(links, t.seen.project, Target(t), t.phase.relink, t.phase.added))
  {
    var rows' := rows[t.target := t.phase.row];
    var links' := LinksAfter(links, t.seen.project, Target(t), t.phase.relink, t.phase.added);
    GrowthKeeps(rows, rows');
    forall l | l in links' ensures LinkOk(rows', l) {
      assert LinkOk(rows, l);
    }
    forall id | id in rows' ensures Agree(id, rows'[id], Into(links', id)) {
      CommitLinks(rows, links, t, t.phase.relink, t.phase.added, id);
    }
  }

  lemma OtherTxOk(rows: Rows, links: set<Link>, t: Tx, u: Tx)
    requires LinksOk(rows, links) && TxOk(rows, links, t) && t.phase.Written? && TxOk(rows, links, u)
    requires Holding(u) ==> u.target != t.target
    requires Grows(rows, rows[t.target := t.phase.row])
    ensures TxOk(rows[t.target := t.phase.row],
                 LinksAfter(links, t.seen.project, Target(t), t.phase.relink, t.phase.added), u)
  {
    CommitLinks(rows, links, t, t.phase.relink, t.phase.added, u.target);
    GrowthKeepsTx(rows, links, rows[t.target := t.phase.row],
                  LinksAfter(links, t.seen.project, Target(t), t.phase.relink, t.phase.added), u);
  }

  lemma CommitKeepsInv(c: Config, s: State, step: Step)
    requires Inv(s) && step.Commit? && Enabled(c, s, step)
    ensures Inv(Do(c, s, step)) && Grows(s.rows, Do(c, s, step).rows)
  {
    var s', t := Do(c, s, step), s.txs[step.tx];
    assert TxOk(s.rows, s.links, t);
    CommittedRows(s.rows, s.links, t);
    CommittedLinks(s.rows, s.links, t);
    forall tx | tx in s'.txs ensures TxOk(s'.rows, s'.links, s'.txs[tx]) {
      assert TxOk(s.rows, s.links, s.txs[tx]);
      OtherTxOk(s.rows, s.links, t, s.txs[tx]);
    }
  }

  lemma BeginKeepsInv(c: Config, s: State, step: Step)
    requires Inv(s) && step.Begin? && Enabled(c, s, step)
    ensures Inv(Do(c, s, step))
  {
    EvolvesSelf(s.rows);
    assert LocksExclusive(Do(c, s, step));
  }

  lemma AbortKeepsInv(c: Config, s: State, step: Step)
    requires Inv(s) && step.Abort? && Enabled(c, s, step)
    ensures Inv(Do(c, s, step))
  {
  }

  /** Resolving references, taking the snapshot, writing the document. */
  lemma OwnStepKeepsInv(c: Config, s: State, step: Step)
    requires Inv(s) && (step.CheckRefs? || step.Start? || step.WriteDoc?) && Enabled(c, s, step)
    ensures Inv(Do(c, s, step))
  {
    var t := s.txs[step.tx];
    assert TxOk(s.rows, s.links, t);
    if step.CheckRefs? {
      GateOk(s.rows, KindOf(t.seen), t.seen.project, t.patch);
    }
    InsideKeepsInv(s, step.tx, Do(c, s, step).txs[step.tx].phase);
  }

  lemma OnlyCommitsAndCreates(c: Config, s: State, step: Step)
    requires Enabled(c, s, step) && !step.Commit? && !step.Create?
    ensures Do(c, s, step).rows == s.rows
  {
  }

  lemma StepKeepsInv(c: Config, s: State, step: Step)
    requires Inv(s) && Enabled(c, s, step)
    ensures Inv(Do(c, s, step)) && Grows(s.rows, Do(c, s, step).rows)
  {
    if step.Commit? {
      CommitKeepsInv(c, s, step);
    } else if step.Create? {
      CreateKeepsInv(c, s, step);
    } else {
      OnlyCommitsAndCreates(c, s, step);
      EvolvesSelf(s.rows);
      if step.Execute? {
        ExecuteKeepsInv(c, s, step);
      } else if step.LinkSource? {
        LinkSourceKeepsInv(c, s, step);
      } else if step.Begin? {
        BeginKeepsInv(c, s, step);
      } else if step.Abort? {
        AbortKeepsInv(c, s, step);
      } else {
        OwnStepKeepsInv(c, s, step);
      }
    }
  }

  lemma {:induction false} RunKeepsInv(c: Config, states: seq<State>, steps: seq<Step>, i: nat)
    requires Run(c, states, steps) && i < |states|
    ensures Inv(states[i])
  {
    if i > 0 {
      RunKeepsInv(c, states, steps, i - 1);
      assert Enabled(c, states[i - 1], steps[i - 1]);
      StepKeepsInv(c, states[i - 1], steps[i - 1]);
    }
  }

  /** A row that a transaction holds is not written by any other. */
  lemma HeldRowStays(c: Config, s: State, step: Step, tx: TxId)
    requires LocksExclusive(s) && Enabled(c, s, step) && tx in s.txs && tx in Do(c, s, step).txs
    requires Holding(s.txs[tx]) && s.txs[tx].target in s.rows && (step.Create? || step.Commit?)
    ensures s.txs[tx].target in Do(c, s, step).rows
    ensures Do(c, s, step).rows[s.txs[tx].target] == s.rows[s.txs[tx].target]
  {
  }

  // ---------------------------------------------------------------- in every interleaving

  lemma {:induction false} RunGrows(c: Config, states: seq<State>, steps: seq<Step>, i: nat, j: nat)
    requires Run(c, states, steps) && i <= j < |states|
    ensures Grows(states[i].rows, states[j].rows)
  {
    if i < j {
      RunGrows(c, states, steps, i, j - 1);
      LastStepGrows(c, states, steps, j);
      GrowsTransitive(states[i].rows, states[j - 1].rows, states[j].rows);
    }
  }

  lemma LastStepGrows(c: Config, states: seq<State>, steps: seq<Step>, j: nat)
    requires Run(c, states, steps) && 0 < j < |states|
    ensures Grows(states[j - 1].rows, states[j].rows)
  {
    RunKeepsInv(c, states, steps, j - 1);
    assert Enabled(c, states[j - 1], steps[j - 1]);
    StepKeepsInv(c, states[j - 1], steps[j - 1]);
  }

  /** A selected idea, archived or not, has a locked problem, archived or not, and a
      selection time that no later step changes. */
  lemma SelectedIdeaStands(c: Config, states: seq<State>, steps: seq<Step>, i: nat, j: nat, id: Id)
    requires Run(c, states, steps) && i <= j < |states|
    requires id in states[i].rows && states[i].rows[id].IdeaRow? && Origin(states[i].rows[id]) == Selected
    ensures
      var r := states[i].rows[id];
      && r.primary.Some? && OnceLocked(states[j].rows, Source(Problem, r.primary.value))
      && r.selectedAt.Some? && id in states[j].rows && states[j].rows[id].IdeaRow?
      && states[j].rows[id].selectedAt == r.selectedAt
  {
    RunKeepsInv(c, states, steps, i);
    RunGrows(c, states, steps, i, j);
  }

  /** Locked is for good: later versions are locked or archived from locked. */
  lemma LockedForGood(c: Config, states: seq<State>, steps: seq<Step>, i: nat, j: nat, id: Id)
    requires Run(c, states, steps) && i <= j < |states|
    requires id in states[i].rows && states[i].rows[id].status == Locked
    ensures
      && id in states[j].rows && !states[j].rows[id].TaskRow?
      && var r := states[j].rows[id];
         r.status == Locked || (r.status == Archived && r.archivedFrom == Some(Locked))
  {
    RunKeepsInv(c, states, steps, i);
    RunKeepsInv(c, states, steps, j);
    RunGrows(c, states, steps, i, j);
  }

  /** What links into a row. */
  function SourcesOf(links: set<Link>, target: Source): set<Source> {
    set l | l in links && l.target == target :: l.source
  }

  lemma SourcesAreInto(s: State, id: Id)
    requires LinksOk(s.rows, s.links) && id in s.rows
    ensures SourcesOf(s.links, Source(KindOf(s.rows[id]), id)) == set l | l in Into(s.links, id) :: l.source
    ensures forall source | source in SourcesOf(s.links, Source(KindOf(s.rows[id]), id)) ::
              && Exists(s.rows, s.rows[id].project, source)
              && (s.rows[id].ProblemRow? ==> OnceLocked(s.rows, source))
  {
    forall l | l in Into(s.links, id) ensures l.target == Source(KindOf(s.rows[id]), id) {
      assert LinkOk(s.rows, l);
    }
  }

  lemma AgreeSources(id: Id, r: Row, into: set<Link>)
    requires RowOk(r) && Agree(id, r, into)
    ensures
      var sources := set l | l in into :: l.source;
      && (r.IdeaRow? ==> sources == if r.primary.None? then {} else {Source(Problem, r.primary.value)})
      && (r.TaskRow? ==> sources == if r.primary.None? then {} else {Source(Idea, r.primary.value)})
      && (r.FeedbackRow? && r.primary.None? ==> forall source | source in sources :: source.kind != Task)
      && (r.FeedbackRow? && r.primary.Some? ==> Source(Task, r.primary.value) in sources)
  {
    if r.FeedbackRow? && r.primary.Some? {
      assert Link(r.project, Source(Task, r.primary.value), Source(Feedback, id), false) in into;
    }
  }

  /** The link table says what the primary columns say, in every reachable state; no link
      crosses projects, and a problem's sources are locked for good. */
  lemma LinksSayPrimaries(c: Config, states: seq<State>, steps: seq<Step>, i: nat, id: Id)
    requires Run(c, states, steps) && i < |states| && id in states[i].rows
    ensures
      var r := states[i].rows[id];
      var sources := SourcesOf(states[i].links, Source(KindOf(r), id));
      && (r.IdeaRow? ==> sources == if r.primary.None? then {} else {Source(Problem, r.primary.value)})
      && (r.TaskRow? ==> sources == if r.primary.None? then {} else {Source(Idea, r.primary.value)})
      && (r.FeedbackRow? && r.primary.None? ==> forall source | source in sources :: source.kind != Task)
      && (r.FeedbackRow? && r.primary.Some? ==> Source(Task, r.primary.value) in sources)
      && (r.ProblemRow? ==> forall source | source in sources :: OnceLocked(states[i].rows, source))
      && (forall source | source in sources :: Exists(states[i].rows, r.project, source))
  {
    RunKeepsInv(c, states, steps, i);
    SourcesAreInto(states[i], id);
    AgreeSources(id, states[i].rows[id], Into(states[i].links, id));
  }

  // ---------------------------------------------------------------- completed tasks

  predicate StartedIfDone(r: Row) {
    r.TaskRow? && r.status == Completed ==> r.startedAt.Some?
  }

  /** What a call's own check guarantees about the task it completes, however late it runs. */
  predicate DoneTx(t: Tx) {
    && RowOk(t.seen) && StartedIfDone(t.seen) && ServiceAllows(KindOf(t.seen), t.seen.status, t.patch)
    && (t.phase.Linking? ==> StartedIfDone(t.phase.row))
    && (t.phase.Written? ==> StartedIfDone(t.phase.row))
  }

  ghost predicate AllStarted(s: State) {
    && (forall id | id in s.rows :: StartedIfDone(s.rows[id]))
    && (forall tx | tx in s.txs :: DoneTx(s.txs[tx]))
  }

  /** The service lets a task be completed only when it saw it in progress; by then it had
      been started, and a start time stays. */
  lemma CompletesStarted(snapshot: Rows, r: Row, seen: Row, patch: Document, ref: Option<Id>, now: int)
    requires RowOk(seen) && StartedIfDone(seen) && Evolves(seen, r) && RowOk(r) && StartedIfDone(r)
    requires ServiceAllows(KindOf(seen), seen.status, patch) && Updated(snapshot, r, patch, ref, now).Some?
    ensures StartedIfDone(Updated(snapshot, r, patch, ref, now).value)
  {
    UpdatedRow(snapshot, r, patch, ref, now);
  }

  lemma InsideKeepsStarted(s: State, tx: TxId, phase: Phase)
    requires AllStarted(s) && tx in s.txs && DoneTx(s.txs[tx].(phase := phase))
    ensures AllStarted(Goto(s, tx, phase))
  {
  }

  lemma ExecuteKeepsStarted(c: Config, s: State, step: Step)
    requires Inv(s) && AllStarted(s) && step.Execute? && Enabled(c, s, step)
    ensures AllStarted(Do(c, s, step))
  {
    var t, phase := s.txs[step.tx], Do(c, s, step).txs[step.tx].phase;
    assert DoneTx(t) && TxOk(s.rows, s.links, t);
    CompletesStarted(t.phase.snapshot, s.rows[t.target], t.seen, t.patch, t.phase.refs.primary, step.now);
    InsideKeepsStarted(s, step.tx, phase);
  }

  lemma StepKeepsStarted(c: Config, s: State, step: Step)
    requires Inv(s) && AllStarted(s) && Enabled(c, s, step)
    ensures AllStarted(Do(c, s, step))
  {
    if step.Execute? {
      ExecuteKeepsStarted(c, s, step);
    } else if step.Create? {
      CreateStarted(c, s, step);
    } else if step.Begin? {
      BeginStarted(c, s, step);
    } else {
      LaterStarted(c, s, step);
    }
  }

  lemma CreateStarted(c: Config, s: State, step: Step)
    requires AllStarted(s) && step.Create? && Enabled(c, s, step)
    ensures AllStarted(Do(c, s, step))
  {
  }

  lemma BeginStarted(c: Config, s: State, step: Step)
    requires RowsOk(s.rows) && AllStarted(s) && step.Begin? && Enabled(c, s, step)
    ensures AllStarted(Do(c, s, step))
  {
    var r := s.rows[step.target];
    assert DoneTx(Tx(step.target, r, Canonical(KindOf(r), step.patch), Checked));
  }

  lemma LaterStarted(c: Config, s: State, step: Step)
    requires AllStarted(s) && !step.Create? && !step.Begin? && !step.Execute? && Enabled(c, s, step)
    ensures AllStarted(Do(c, s, step))
  {
    if !step.Commit? {
      OnlyCommitsAndCreates(c, s, step);
    }
    assert DoneTx(s.txs[step.tx]);
  }

  /** In every interleaving a completed task has been started. */
  lemma {:induction false} CompletedWasStarted(c: Config, states: seq<State>, steps: seq<Step>, i: nat)
    requires Run(c, states, steps) && i < |states|
    ensures AllStarted(states[i])
  {
    if i > 0 {
      CompletedWasStarted(c, states, steps, i - 1);
      RunKeepsInv(c, states, steps, i - 1);
      assert Enabled(c, states[i - 1], steps[i - 1]);
      StepKeepsStarted(c, states[i - 1], steps[i - 1]);
    }
  }
}
