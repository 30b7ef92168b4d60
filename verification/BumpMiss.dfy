/**
 The bump-miss cache protocol: readers read the versions of their tags, build a key from
 them, look the key up, run the handler on a miss and store the answer under the key built
 first; writers commit to the database and then increment the version of each of their
 tags, one Redis command after the other.  Every command is one atomic step and the steps
 of any number of requests interleave freely.
 */
module BumpMiss {

  type Tag = string
  type Id = nat

  /** tokenTtl is the lifetime of in-process token cache entries (0 or less: no cache);
      versionsEvictable says whether Redis may drop a version counter. */
  datatype Config = Config(tokenTtl: int, versionsEvictable: bool)

  /** The tag token: the version read for each resolved tag. */
  type Token = map<Tag, nat>

  /** A read key: everything the canonical string holds besides the tags, and the token. */
  datatype Key = Key(vary: string, token: Token)

  /** A response, described by the database states its handler's queries saw.  A database
      state is a prefix of the commit log and is given by its length. */
  datatype Response = Response(snapshots: seq<nat>)

  /** A write request; bumped counts the tags whose increment was sent so far, whether it took
      effect or was lost. */
  datatype Writer = Writer(process: Id, tags: seq<Tag>, committed: bool, bumped: nat)

  datatype Phase =
    | Resolving
    | Fetched(token: Token)
    | Keyed(key: Key)
    | Handling(key: Key, seen: seq<nat>)
    | Served(key: Key, response: Response, hit: bool)

  datatype Reader = Reader(process: Id, vary: string, tags: set<Tag>, phase: Phase)

  datatype CachedToken = CachedToken(token: Token, expiresAt: int)

  /** log, versions and entries are the database and Redis; tokens are the in-process token
      caches.  bumps is history only: for each tag, the writers whose increment ran, in
      order.  No step reads it. */
  datatype State = State(
    now: int,
    log: seq<Id>,
    versions: map<Tag, nat>,
    entries: map<Key, Response>,
    tokens: map<(Id, set<Tag>), CachedToken>,
    writers: map<Id, Writer>,
    readers: map<Id, Reader>,
    bumps: map<Tag, seq<Id>>)

  datatype Step =
    | Tick(elapsed: nat)
    | StartWriter(w: Id, process: Id, wtags: seq<Tag>)
    | Commit(w: Id)
    | Increment(w: Id)
    | LoseIncrement(w: Id)
    | ClearTokens(w: Id)
    | StartReader(r: Id, process: Id, vary: string, rtags: set<Tag>)
    | ReadVersions(r: Id)
    | ReuseToken(r: Id)
    | BuildKey(r: Id)
    | Lookup(r: Id)
    | Query(r: Id)
    | Store(r: Id)
    | Finish(r: Id)
    | EvictEntry(k: Key)
    | EvictVersion(t: Tag)

  const INIT := State(0, [], map[], map[], map[], map[], map[], map[])

  function Version(s: State, t: Tag): nat {
    if t in s.versions then s.versions[t] else 0
  }

  function Bumps(s: State, t: Tag): seq<Id> {
    if t in s.bumps then s.bumps[t] else []
  }

  function CurrentToken(s: State, tags: set<Tag>): Token {
    map t | t in tags :: Version(s, t)
  }

  predicate TokenUsable(c: Config, s: State, process: Id, tags: set<Tag>) {
    && c.tokenTtl > 0
    && (process, tags) in s.tokens
    && s.now <= s.tokens[(process, tags)].expiresAt
  }

  predicate Enabled(c: Config, s: State, step: Step) {
    match step
    case Tick(_) => true
    case StartWriter(w, _, _) => w !in s.writers
    case Commit(w) => w in s.writers && !s.writers[w].committed
    case Increment(w) =>
      w in s.writers && s.writers[w].committed && s.writers[w].bumped < |s.writers[w].tags|
    case LoseIncrement(w) =>
      w in s.writers && s.writers[w].committed && s.writers[w].bumped < |s.writers[w].tags|
    case ClearTokens(w) => w in s.writers && s.writers[w].bumped == |s.writers[w].tags|
    case StartReader(r, _, _, _) => r !in s.readers
    case ReadVersions(r) =>
      && r in s.readers && s.readers[r].phase.Resolving?
      && !TokenUsable(c, s, s.readers[r].process, s.readers[r].tags)
    case ReuseToken(r) =>
      && r in s.readers && s.readers[r].phase.Resolving?
      && TokenUsable(c, s, s.readers[r].process, s.readers[r].tags)
    case BuildKey(r) => r in s.readers && s.readers[r].phase.Fetched?
    case Lookup(r) => r in s.readers && s.readers[r].phase.Keyed?
    case Query(r) => r in s.readers && s.readers[r].phase.Handling?
    case Store(r) => r in s.readers && s.readers[r].phase.Handling?
    case Finish(r) => r in s.readers && s.readers[r].phase.Handling?
    case EvictEntry(k) => k in s.entries
    case EvictVersion(t) => c.versionsEvictable && t in s.versions
  }

  function Goto(s: State, r: Id, phase: Phase): State
    requires r in s.readers
  {
    s.(readers := s.readers[r := s.readers[r].(phase := phase)])
  }

  function Do(c: Config, s: State, step: Step): State
    requires Enabled(c, s, step)
  {
    match step
    case Tick(elapsed) => s.(now := s.now + elapsed)
    case StartWriter(w, process, wtags) =>
      s.(writers := s.writers[w := Writer(process, wtags, false, 0)])
    case Commit(w) =>
      s.(log := s.log + [w], writers := s.writers[w := s.writers[w].(committed := true)])
    case Increment(w) =>
      var writer := s.writers[w];
      var t := writer.tags[writer.bumped];
      s.(versions := s.versions[t := Version(s, t) + 1],
         bumps := s.bumps[t := Bumps(s, t) + [w]],
         writers := s.writers[w := writer.(bumped := writer.bumped + 1)])
    case LoseIncrement(w) =>
      var writer := s.writers[w];
      s.(writers := s.writers[w := writer.(bumped := writer.bumped + 1)])
    case ClearTokens(w) =>
      s.(tokens := map p | p in s.tokens && p.0 != s.writers[w].process :: s.tokens[p])
    case StartReader(r, process, vary, rtags) =>
      s.(readers := s.readers[r := Reader(process, vary, rtags, Resolving)])
    case ReadVersions(r) =>
      Goto(s, r, Fetched(CurrentToken(s, s.readers[r].tags)))
    case ReuseToken(r) =>
      var reader := s.readers[r];
      Goto(s, r, Keyed(Key(reader.vary, s.tokens[(reader.process, reader.tags)].token)))
    case BuildKey(r) =>
      var reader := s.readers[r];
      var s' := Goto(s, r, Keyed(Key(reader.vary, reader.phase.token)));
      if c.tokenTtl > 0
      then s'.(tokens := s.tokens[(reader.process, reader.tags) :=
                                  CachedToken(reader.phase.token, s.now + c.tokenTtl)])
      else s'
    case Lookup(r) =>
      var k := s.readers[r].phase.key;
      if k in s.entries then Goto(s, r, Served(k, s.entries[k], true))
      else Goto(s, r, Handling(k, []))
    case Query(r) =>
      var phase := s.readers[r].phase;
      Goto(s, r, phase.(seen := phase.seen + [|s.log|]))
    case Store(r) =>
      var phase := s.readers[r].phase;
      var answer := Response(phase.seen);
      Goto(s, r, Served(phase.key, answer, false)).(entries := s.entries[phase.key := answer])
    case Finish(r) =>
      var phase := s.readers[r].phase;
      Goto(s, r, Served(phase.key, Response(phase.seen), false))
    case EvictEntry(k) => s.(entries := s.entries - {k})
    case EvictVersion(t) => s.(versions := s.versions - {t})
  }

  /** A run: states linked by enabled steps, from the empty system. */
  ghost predicate Run(c: Config, states: seq<State>, steps: seq<Step>) {
    && |states| == |steps| + 1
    && states[0] == INIT
    && forall i {:trigger steps[i]} | 0 <= i < |steps| ::
         Enabled(c, states[i], steps[i]) && states[i + 1] == Do(c, states[i], steps[i])
  }

  predicate BumpedBy(s: State, t: Tag, w: Id) {
    w in Bumps(s, t)
  }

  /** Reader r has not read its versions yet. */
  predicate BeforeVersionRead(s: State, r: Id) {
    r !in s.readers || s.readers[r].phase.Resolving?
  }

  predicate HitOn(s: State, r: Id, t: Tag) {
    r in s.readers && s.readers[r].phase.Served? && s.readers[r].phase.hit
    && t in s.readers[r].phase.key.token
  }

  /** Every query behind the response saw a database state containing w's commit. */
  predicate Contains(log: seq<Id>, snapshots: seq<nat>, w: Id) {
    forall n | n in snapshots :: n <= |log| && w in log[..n]
  }

  /** The promise of the cache: a hit served to a reader whose version read follows w's
      increment of one of the reader's tags contains w's commit. */
  ghost predicate HitsAreFresh(states: seq<State>) {
    forall i, j, r, w, t ::
      0 <= i <= j < |states| && BumpedBy(states[i], t, w) && BeforeVersionRead(states[i], r)
      && HitOn(states[j], r, t)
      ==> Contains(states[j].log, states[j].readers[r].phase.response.snapshots, w)
  }

  // ---------------------------------------------------------------- invariant

  /** What a token read at these versions may be used for: the writers it has counted. */
  ghost predicate Covers(s: State, token: Token, snapshots: seq<nat>) {
    forall t, w | t in token && token[t] <= |Bumps(s, t)| && w in Bumps(s, t)[..token[t]] ::
      Contains(s.log, snapshots, w)
  }

  ghost predicate TokenBound(s: State, token: Token) {
    forall t | t in token :: token[t] <= |Bumps(s, t)|
  }

  ghost predicate PhaseOk(s: State, phase: Phase) {
    match phase
    case Resolving => true
    case Fetched(token) => TokenBound(s, token)
    case Keyed(key) => TokenBound(s, key.token)
    case Handling(key, seen) => TokenBound(s, key.token) && Covers(s, key.token, seen)
    case Served(key, response, hit) =>
      TokenBound(s, key.token) && Covers(s, key.token, response.snapshots)
  }

  /** Counters count exactly the increments that ran. */
  ghost predicate CountersOk(s: State) {
    forall t :: Version(s, t) == |Bumps(s, t)|
  }

  /** Every increment follows its writer's commit. */
  ghost predicate WritersOk(s: State) {
    && (forall t, w | w in Bumps(s, t) :: w in s.log)
    && (forall w | w in s.writers && s.writers[w].committed :: w in s.log)
  }

  /** No stored response is older than a writer its key has counted. */
  ghost predicate EntriesOk(s: State) {
    forall k | k in s.entries ::
      TokenBound(s, k.token) && Covers(s, k.token, s.entries[k].snapshots)
  }

  ghost predicate TokensOk(s: State) {
    forall p | p in s.tokens :: TokenBound(s, s.tokens[p].token)
  }

  ghost predicate ReadersOk(s: State) {
    forall r | r in s.readers :: PhaseOk(s, s.readers[r].phase)
  }

  ghost predicate Inv(s: State) {
    CountersOk(s) && WritersOk(s) && EntriesOk(s) && TokensOk(s) && ReadersOk(s)
  }

  /** Nothing that counts is ever taken back. */
  ghost predicate Grows(s: State, s': State) {
    && s.log <= s'.log
    && forall t :: Bumps(s, t) <= Bumps(s', t)
  }

  lemma StepGrows(c: Config, s: State, step: Step)
    requires Enabled(c, s, step)
    ensures Grows(s, Do(c, s, step))
  {
  }

  lemma ContainsGrows(s: State, s': State, snapshots: seq<nat>, w: Id)
    requires Grows(s, s') && Contains(s.log, snapshots, w)
    ensures Contains(s'.log, snapshots, w)
  {
    forall n | n in snapshots ensures n <= |s'.log| && w in s'.log[..n] {
      assert s'.log[..n] == s.log[..n];
    }
  }

  lemma CoversGrows(s: State, s': State, token: Token, snapshots: seq<nat>)
    requires Grows(s, s') && TokenBound(s, token) && Covers(s, token, snapshots)
    ensures TokenBound(s', token) && Covers(s', token, snapshots)
  {
    forall t | t in token ensures token[t] <= |Bumps(s', t)| {
      assert Bumps(s, t) <= Bumps(s', t);
    }
    forall t, w | t in token && w in Bumps(s', t)[..token[t]]
      ensures Contains(s'.log, snapshots, w)
    {
      assert Bumps(s', t)[..token[t]] == Bumps(s, t)[..token[t]];
      ContainsGrows(s, s', snapshots, w);
    }
  }

  lemma PhaseGrows(s: State, s': State, phase: Phase)
    requires Grows(s, s') && PhaseOk(s, phase)
    ensures PhaseOk(s', phase)
  {
    match phase
    case Resolving =>
    case Fetched(token) => CoversGrows(s, s', token, []);
    case Keyed(key) => CoversGrows(s, s', key.token, []);
    case Handling(key, seen) => CoversGrows(s, s', key.token, seen);
    case Served(key, response, hit) => CoversGrows(s, s', key.token, response.snapshots);
  }

  /** A query run now sees every commit whose increment any token has counted. */
  lemma QueryCovers(s: State, token: Token, seen: seq<nat>)
    requires WritersOk(s) && TokenBound(s, token) && Covers(s, token, seen)
    ensures Covers(s, token, seen + [|s.log|])
  {
    forall t, w | t in token && w in Bumps(s, t)[..token[t]]
      ensures Contains(s.log, seen + [|s.log|], w)
    {
      assert w in Bumps(s, t);
      assert Contains(s.log, seen, w);
      assert s.log[..|s.log|] == s.log;
    }
  }

  lemma CountersUntouched(c: Config, s: State, step: Step)
    requires !c.versionsEvictable && Enabled(c, s, step) && !step.Increment?
    ensures Do(c, s, step).versions == s.versions && Do(c, s, step).bumps == s.bumps
  {
    match step
    case ClearTokens(_) =>
    case BuildKey(_) =>
    case Lookup(_) =>
    case _ =>
  }

  lemma CommitsLogged(c: Config, s: State, step: Step)
    requires WritersOk(s) && Enabled(c, s, step)
    ensures s.log <= Do(c, s, step).log
    ensures forall w | w in Do(c, s, step).writers && Do(c, s, step).writers[w].committed :: w in Do(c, s, step).log
  {
    match step
    case StartWriter(_, _, _) =>
    case Commit(_) =>
    case Increment(_) =>
    case _ =>
  }

  lemma StepKeepsCounters(c: Config, s: State, step: Step)
    requires !c.versionsEvictable && CountersOk(s) && WritersOk(s) && Enabled(c, s, step)
    ensures CountersOk(Do(c, s, step)) && WritersOk(Do(c, s, step))
  {
    if step.Increment? {
      IncrementCounts(c, s, step.w);
    } else {
      var s' := Do(c, s, step);
      CountersUntouched(c, s, step);
      CommitsLogged(c, s, step);
      assert forall t :: Version(s', t) == Version(s, t) && Bumps(s', t) == Bumps(s, t);
    }
  }

  lemma IncrementCounts(c: Config, s: State, w: Id)
    requires CountersOk(s) && WritersOk(s) && Enabled(c, s, Increment(w))
    ensures CountersOk(Do(c, s, Increment(w))) && WritersOk(Do(c, s, Increment(w)))
  {
    var s', own := Do(c, s, Increment(w)), s.writers[w].tags[s.writers[w].bumped];
    forall t
      ensures Version(s', t) == |Bumps(s', t)|
      ensures forall v | v in Bumps(s', t) :: v in s'.log
    {
      assert Version(s, t) == |Bumps(s, t)|;
      assert Bumps(s', t) == if t == own then Bumps(s, t) + [w] else Bumps(s, t);
    }
  }

  lemma StepKeepsEntries(c: Config, s: State, step: Step)
    requires EntriesOk(s) && ReadersOk(s) && Enabled(c, s, step)
    ensures EntriesOk(Do(c, s, step))
  {
    var s' := Do(c, s, step);
    StepGrows(c, s, step);
    forall k | k in s'.entries
      ensures TokenBound(s', k.token) && Covers(s', k.token, s'.entries[k].snapshots)
    {
      if step.Store? && k == s.readers[step.r].phase.key {
        PhaseGrows(s, s', s.readers[step.r].phase);
      } else {
        CoversGrows(s, s', k.token, s.entries[k].snapshots);
      }
    }
  }

  lemma StepKeepsTokens(c: Config, s: State, step: Step)
    requires TokensOk(s) && ReadersOk(s) && Enabled(c, s, step)
    ensures TokensOk(Do(c, s, step))
  {
    var s' := Do(c, s, step);
    StepGrows(c, s, step);
    forall p | p in s'.tokens ensures TokenBound(s', s'.tokens[p].token) {
      if p in s.tokens && s'.tokens[p] == s.tokens[p] {
        CoversGrows(s, s', s.tokens[p].token, []);
      } else {
        CoversGrows(s, s', s.readers[step.r].phase.token, []);
      }
    }
  }

  predicate ReaderStep(step: Step) {
    step.StartReader? || step.ReadVersions? || step.ReuseToken? || step.BuildKey?
    || step.Lookup? || step.Query? || step.Store? || step.Finish?
  }

  lemma OnlyOwnReader(c: Config, s: State, step: Step, r: Id)
    requires Enabled(c, s, step) && r in Do(c, s, step).readers
    requires ReaderStep(step) ==> r != step.r
    ensures r in s.readers && Do(c, s, step).readers[r] == s.readers[r]
  {
  }

  lemma StepKeepsReaders(c: Config, s: State, step: Step)
    requires Inv(s) && Enabled(c, s, step)
    ensures ReadersOk(Do(c, s, step))
  {
    var s' := Do(c, s, step);
    StepGrows(c, s, step);
    forall r | r in s'.readers ensures PhaseOk(s', s'.readers[r].phase) {
      if ReaderStep(step) && r == step.r {
        ReaderStepOk(c, s, step, s'.readers[r].phase);
      } else {
        OnlyOwnReader(c, s, step, r);
      }
      PhaseGrows(s, s', s'.readers[r].phase);
    }
  }

  /** The phase a reader's own step takes it to is sound already before the step. */
  lemma ReaderStepOk(c: Config, s: State, step: Step, phase: Phase)
    requires Inv(s) && Enabled(c, s, step) && ReaderStep(step)
    requires step.r in Do(c, s, step).readers && phase == Do(c, s, step).readers[step.r].phase
    ensures PhaseOk(s, phase)
  {
    if !step.StartReader? {
      NextPhaseOk(c, s, step, s.readers[step.r].phase, phase);
    }
  }

  lemma NextPhaseOk(c: Config, s: State, step: Step, before: Phase, phase: Phase)
    requires CountersOk(s) && WritersOk(s) && EntriesOk(s) && TokensOk(s) && Enabled(c, s, step)
    requires ReaderStep(step) && !step.StartReader? && step.r in s.readers && before == s.readers[step.r].phase
    requires step.r in Do(c, s, step).readers && phase == Do(c, s, step).readers[step.r].phase
    requires PhaseOk(s, before)
    ensures PhaseOk(s, phase)
  {
    if step.ReadVersions? || step.ReuseToken? || step.BuildKey? {
      EarlyPhaseIs(c, s, step);
    } else {
      LatePhaseIs(c, s, step);
      if step.Query? {
        QueryCovers(s, before.key.token, before.seen);
      }
    }
  }

  /** The phase each step of a reader leads to. */
  lemma EarlyPhaseIs(c: Config, s: State, step: Step)
    requires Enabled(c, s, step) && (step.ReadVersions? || step.ReuseToken? || step.BuildKey?)
    ensures step.r in Do(c, s, step).readers
    ensures
      var reader, phase := s.readers[step.r], Do(c, s, step).readers[step.r].phase;
      && (step.ReadVersions? ==> phase == Fetched(CurrentToken(s, reader.tags)))
      && (step.ReuseToken? ==> phase == Keyed(Key(reader.vary, s.tokens[(reader.process, reader.tags)].token)))
      && (step.BuildKey? ==> phase == Keyed(Key(reader.vary, reader.phase.token)))
  {
  }

  lemma LatePhaseIs(c: Config, s: State, step: Step)
    requires Enabled(c, s, step) && (step.Lookup? || step.Query? || step.Store? || step.Finish?)
    ensures step.r in Do(c, s, step).readers
    ensures
      var before, phase := s.readers[step.r].phase, Do(c, s, step).readers[step.r].phase;
      && (step.Lookup? ==>
            phase == if before.key in s.entries then Served(before.key, s.entries[before.key], true)
                     else Handling(before.key, []))
      && (step.Query? ==> phase == before.(seen := before.seen + [|s.log|]))
      && (step.Store? || step.Finish? ==> phase == Served(before.key, Response(before.seen), false))
  {
  }

  lemma StepKeepsInv(c: Config, s: State, step: Step)
    requires !c.versionsEvictable && Inv(s) && Enabled(c, s, step)
    ensures Inv(Do(c, s, step))
  {
    StepKeepsCounters(c, s, step);
    StepKeepsEntries(c, s, step);
    StepKeepsTokens(c, s, step);
    StepKeepsReaders(c, s, step);
  }

  lemma {:induction false} RunKeepsInv(c: Config, states: seq<State>, steps: seq<Step>, i: nat)
    requires !c.versionsEvictable && Run(c, states, steps) && i < |states|
    ensures Inv(states[i])
  {
    if i > 0 {
      RunKeepsInv(c, states, steps, i - 1);
      assert Enabled(c, states[i - 1], steps[i - 1]);
      StepKeepsInv(c, states[i - 1], steps[i - 1]);
    }
  }

  // ---------------------------------------------------------------- freshness

  lemma {:induction false} RunGrows(c: Config, states: seq<State>, steps: seq<Step>, i: nat, j: nat)
    requires Run(c, states, steps) && i <= j < |states|
    ensures Grows(states[i], states[j])
  {
    if i < j {
      RunGrows(c, states, steps, i, j - 1);
      assert Enabled(c, states[j - 1], steps[j - 1]);
      StepGrows(c, states[j - 1], steps[j - 1]);
      assert forall t :: Bumps(states[i], t) <= Bumps(states[j - 1], t) <= Bumps(states[j], t);
    }
  }

  /** The token a reader has read so far, if any. */
  function TokenOf(phase: Phase): Token {
    match phase
    case Resolving => map[]
    case Fetched(token) => token
    case Keyed(key) => key.token
    case Handling(key, _) => key.token
    case Served(key, _, _) => key.token
  }

  /** Reader r has either not read its versions yet or has counted w's increment of t. */
  predicate Counted(s: State, r: Id, t: Tag, w: Id) {
    r in s.readers && t in TokenOf(s.readers[r].phase) ==>
      && TokenOf(s.readers[r].phase)[t] <= |Bumps(s, t)|
      && w in Bumps(s, t)[..TokenOf(s.readers[r].phase)[t]]
  }

  lemma StepKeepsCounted(c: Config, s: State, step: Step, r: Id, t: Tag, w: Id)
    requires c.tokenTtl <= 0 && CountersOk(s) && Enabled(c, s, step)
    requires BumpedBy(s, t, w) && Counted(s, r, t, w)
    ensures Counted(Do(c, s, step), r, t, w)
  {
    var s' := Do(c, s, step);
    StepGrows(c, s, step);
    assert Bumps(s, t) <= Bumps(s', t);
    assert Version(s, t) == |Bumps(s, t)|;
    if r in s'.readers && t in TokenOf(s'.readers[r].phase) {
      var n := TokenOf(s'.readers[r].phase)[t];
      assert n <= |Bumps(s, t)|;
      assert Bumps(s', t)[..n] == Bumps(s, t)[..n];
    }
  }

  lemma CountedFrom(c: Config, states: seq<State>, steps: seq<Step>, i: nat, j: nat, r: Id, t: Tag, w: Id)
    requires c.tokenTtl <= 0 && !c.versionsEvictable && Run(c, states, steps) && i <= j < |states|
    requires BumpedBy(states[i], t, w) && BeforeVersionRead(states[i], r)
    ensures Counted(states[j], r, t, w)
  {
    if i < j {
      CountedFrom(c, states, steps, i, j - 1, r, t, w);
      RunKeepsInv(c, states, steps, j - 1);
      RunGrows(c, states, steps, i, j - 1);
      assert Bumps(states[i], t) <= Bumps(states[j - 1], t);
      assert Enabled(c, states[j - 1], steps[j - 1]);
      StepKeepsCounted(c, states[j - 1], steps[j - 1], r, t, w);
    }
  }

  /** With the token cache off and version counters kept, every hit is fresh, in every
      interleaving, although the increments of one writer are not atomic. */
  lemma TokenCacheOffIsFresh(c: Config, states: seq<State>, steps: seq<Step>)
    requires c.tokenTtl <= 0 && !c.versionsEvictable && Run(c, states, steps)
    ensures HitsAreFresh(states)
  {
    forall i, j, r, w, t |
      0 <= i <= j < |states| && BumpedBy(states[i], t, w) && BeforeVersionRead(states[i], r)
      && HitOn(states[j], r, t)
      ensures Contains(states[j].log, states[j].readers[r].phase.response.snapshots, w)
    {
      CountedFrom(c, states, steps, i, j, r, t, w);
      RunKeepsInv(c, states, steps, j);
      assert PhaseOk(states[j], states[j].readers[r].phase);
    }
  }

  // ---------------------------------------------------------------- when it is not fresh

  lemma Extend(c: Config, states: seq<State>, steps: seq<Step>, step: Step)
    returns (states': seq<State>, steps': seq<Step>)
    requires Run(c, states, steps) && Enabled(c, states[|steps|], step)
    ensures Run(c, states', steps') && |states'| == |states| + 1
    ensures forall k | 0 <= k < |states| :: states'[k] == states[k]
    ensures states'[|steps'|] == Do(c, states[|steps|], step)
  {
    states', steps' := states + [Do(c, states[|steps|], step)], steps + [step];
  }

  function TokensAfterRead(c: Config): map<(Id, set<Tag>), CachedToken> {
    if c.tokenTtl > 0 then map[(0, {"t"}) := CachedToken(map["t" := 0], c.tokenTtl)] else map[]
  }

  const OLD_KEY := Key("v", map["t" := 0])

  /** Reader 0 reads version 0 of tag "t". */
  lemma VersionRead(c: Config) returns (states: seq<State>, steps: seq<Step>)
    ensures Run(c, states, steps)
    ensures states[|steps|] == INIT.(readers := map[0 := Reader(0, "v", {"t"}, Fetched(map["t" := 0]))])
  {
    states, steps := [INIT], [];
    states, steps := Extend(c, states, steps, StartReader(0, 0, "v", {"t"}));
    states, steps := Extend(c, states, steps, ReadVersions(0));
    assert states[|steps|].readers[0].phase == Fetched(map["t" := 0]);
  }

  /** Then it misses. */
  lemma Missed(c: Config) returns (states: seq<State>, steps: seq<Step>)
    ensures Run(c, states, steps)
    ensures states[|steps|] == INIT.(readers := map[0 := Reader(0, "v", {"t"}, Handling(OLD_KEY, []))],
                                     tokens := TokensAfterRead(c))
  {
    states, steps := VersionRead(c);
    states, steps := Extend(c, states, steps, BuildKey(0));
    states, steps := Extend(c, states, steps, Lookup(0));
  }

  /** Reader 0 caches the empty database's answer under version 0. */
  lemma CachedFirst(c: Config) returns (states: seq<State>, steps: seq<Step>)
    ensures Run(c, states, steps)
    ensures
      states[|steps|] ==
      INIT.(readers := map[0 := Reader(0, "v", {"t"}, Served(OLD_KEY, Response([0]), false))],
            tokens := TokensAfterRead(c), entries := map[OLD_KEY := Response([0])])
  {
    states, steps := Missed(c);
    states, steps := Extend(c, states, steps, Query(0));
    assert states[|steps|].readers[0].phase == Handling(OLD_KEY, [0]);
    states, steps := Extend(c, states, steps, Store(0));
  }

  /** Then writer 0, in another process, commits and increments "t". */
  lemma CachedThenWritten(c: Config) returns (states: seq<State>, steps: seq<Step>)
    ensures Run(c, states, steps)
    ensures
      var s := states[|steps|];
      && s.now == 0 && s.log == [0] && s.versions == map["t" := 1] && s.bumps == map["t" := [0]]
      && s.entries == map[OLD_KEY := Response([0])] && s.tokens == TokensAfterRead(c)
      && 1 !in s.readers
  {
    states, steps := CachedFirst(c);
    states, steps := Extend(c, states, steps, StartWriter(0, 1, ["t"]));
    states, steps := Extend(c, states, steps, Commit(0));
    assert states[|steps|].writers[0] == Writer(1, ["t"], true, 0);
    states, steps := Extend(c, states, steps, Increment(0));
  }

  lemma StaleHit(states: seq<State>, i: nat)
    requires i < |states| && BumpedBy(states[i], "t", 0) && BeforeVersionRead(states[i], 1)
    requires
      var s := states[|states| - 1];
      && 1 in s.readers && s.log == [0]
      && s.readers[1].phase == Served(OLD_KEY, Response([0]), true)
    ensures !HitsAreFresh(states)
  {
    var j := |states| - 1;
    assert HitOn(states[j], 1, "t");
    assert 0 in states[j].readers[1].phase.response.snapshots;
    assert !Contains(states[j].log, states[j].readers[1].phase.response.snapshots, 0);
  }

  /** With the token cache on, another process still serves the old version. */
  lemma TokenCacheServesStale(c: Config) returns (states: seq<State>, steps: seq<Step>)
    requires c.tokenTtl > 0
    ensures Run(c, states, steps) && !HitsAreFresh(states)
  {
    states, steps := CachedThenWritten(c);
    var i := |steps|;
    ghost var before := states;
    states, steps := Extend(c, states, steps, StartReader(1, 0, "v", {"t"}));
    states, steps := Extend(c, states, steps, ReuseToken(1));
    states, steps := Extend(c, states, steps, Lookup(1));
    assert states[i] == before[i];
    StaleHit(states, i);
  }

  /** A dropped version counter starts again at 0 and old keys come back to life. */
  lemma EvictedVersionServesStale(c: Config) returns (states: seq<State>, steps: seq<Step>)
    requires c.tokenTtl <= 0 && c.versionsEvictable
    ensures Run(c, states, steps) && !HitsAreFresh(states)
  {
    states, steps := CachedThenWritten(c);
    var i := |steps|;
    ghost var before := states;
    states, steps := Extend(c, states, steps, EvictVersion("t"));
    states, steps := Extend(c, states, steps, StartReader(1, 0, "v", {"t"}));
    states, steps := Extend(c, states, steps, ReadVersions(1));
    assert states[|steps|].readers[1].phase == Fetched(map["t" := 0]);
    states, steps := Extend(c, states, steps, BuildKey(1));
    states, steps := Extend(c, states, steps, Lookup(1));
    assert states[i] == before[i];
    StaleHit(states, i);
  }

  /** The exact condition: hits are fresh in every run if and only if the in-process token
      cache is off and Redis never drops a version counter. */
  lemma FreshExactlyWhen(c: Config)
    ensures (forall states, steps :: Run(c, states, steps) ==> HitsAreFresh(states))
            <==> c.tokenTtl <= 0 && !c.versionsEvictable
  {
    if c.tokenTtl > 0 {
      var states, steps := TokenCacheServesStale(c);
    } else if c.versionsEvictable {
      var states, steps := EvictedVersionServesStale(c);
    } else {
      forall states, steps | Run(c, states, steps) ensures HitsAreFresh(states) {
        TokenCacheOffIsFresh(c, states, steps);
      }
    }
  }
}
