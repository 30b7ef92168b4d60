/**
 How old a version token from the in-process cache can be, in every interleaving of readers and
 writers, and which step of the protocol changes what.
 */
module TokenAges {
  import opened BumpMiss

  /** Only a commit writes to the database, and only an increment that is not lost or a dropped
      counter changes a version. */
  lemma VersionEffects(c: Config, s: State, step: Step, t: Tag)
    requires Enabled(c, s, step)
    ensures Do(c, s, step).log == s.log + (if step.Commit? then [step.w] else [])
    ensures Version(Do(c, s, step), t) ==
            if step.Increment? && t == s.writers[step.w].tags[s.writers[step.w].bumped] then Version(s, t) + 1
            else if step.EvictVersion? && t == step.t then 0 else Version(s, t)
  {
    if !step.Increment? && !step.EvictVersion? {
      assert Do(c, s, step).versions == s.versions;
    }
  }

  /** Only the handler of a miss stores a response, what its queries saw, under the key it missed;
      only an eviction drops one. */
  lemma EntryEffects(c: Config, s: State, step: Step, k: Key)
    requires Enabled(c, s, step)
    ensures
      var entries := Do(c, s, step).entries;
      if step.Store? && s.readers[step.r].phase.key == k
      then k in entries && entries[k].snapshots == s.readers[step.r].phase.seen
      else if step.EvictEntry? && step.k == k then k !in entries
      else (k in entries <==> k in s.entries) && (k in entries ==> entries[k] == s.entries[k])
  {
    if !step.Store? && !step.EvictEntry? {
      assert Do(c, s, step).entries == s.entries;
    }
  }

  /** The tokens a step leaves: only a reader that has read its versions adds one, which lives for
      the configured time; only a writer that has sent all its increments drops any, those of
      its own process. */
  lemma TokenEffects(c: Config, s: State, step: Step, p: (Id, set<Tag>))
    requires Enabled(c, s, step) && p in Do(c, s, step).tokens
    ensures !(step.ClearTokens? && s.writers[step.w].process == p.0)
    ensures
      var token := Do(c, s, step).tokens[p];
      if Adds(c, s, step, p)
      then token == CachedToken(s.readers[step.r].phase.token, s.now + c.tokenTtl)
      else p in s.tokens && token == s.tokens[p]
  {
    if !step.BuildKey? && !step.ClearTokens? {
      assert Do(c, s, step).tokens == s.tokens;
    }
  }

  /** Only waiting takes time. */
  lemma ClockEffects(c: Config, s: State, step: Step)
    requires Enabled(c, s, step)
    ensures Do(c, s, step).now == if step.Tick? then s.now + step.elapsed else s.now
  {
  }

  /** A reader of this process and these tags puts the token it has read into the cache. */
  predicate Adds(c: Config, s: State, step: Step, p: (Id, set<Tag>)) {
    && c.tokenTtl > 0 && step.BuildKey? && step.r in s.readers && s.readers[step.r].phase.Fetched?
    && (s.readers[step.r].process, s.readers[step.r].tags) == p
  }

  predicate Clears(s: State, step: Step, process: Id) {
    step.ClearTokens? && step.w in s.writers && s.writers[step.w].process == process
  }

  /** The cached token was added at step i, and its process has finished no bump since. */
  ghost predicate AddedAt(c: Config, states: seq<State>, steps: seq<Step>, i: nat, j: nat, p: (Id, set<Tag>)) {
    && i < j < |states| && |states| == |steps| + 1 && p in states[j].tokens
    && Adds(c, states[i], steps[i], p)
    && states[j].tokens[p] == CachedToken(states[i].readers[steps[i].r].phase.token, states[i].now + c.tokenTtl)
    && forall k | i < k < j :: !Clears(states[k], steps[k], p.0)
  }

  lemma AddedNow(c: Config, states: seq<State>, steps: seq<Step>, i: nat, p: (Id, set<Tag>))
    requires Run(c, states, steps) && i < |steps| && p in states[i + 1].tokens
    requires Adds(c, states[i], steps[i], p)
    ensures AddedAt(c, states, steps, i, i + 1, p)
  {
    assert Enabled(c, states[i], steps[i]);
    TokenEffects(c, states[i], steps[i], p);
  }

  lemma AddedStays(c: Config, states: seq<State>, steps: seq<Step>, j: nat, p: (Id, set<Tag>))
    requires Run(c, states, steps) && j < |steps| && p in states[j + 1].tokens
    requires !Adds(c, states[j], steps[j], p)
    ensures p in states[j].tokens
    ensures forall i | AddedAt(c, states, steps, i, j, p) :: AddedAt(c, states, steps, i, j + 1, p)
  {
    assert Enabled(c, states[j], steps[j]);
    TokenEffects(c, states[j], steps[j], p);
  }

  lemma {:induction false} CachedWasAdded(c: Config, states: seq<State>, steps: seq<Step>, j: nat, p: (Id, set<Tag>))
    returns (i: nat)
    requires Run(c, states, steps) && j < |states| && p in states[j].tokens
    ensures AddedAt(c, states, steps, i, j, p)
  {
    assert j > 0;
    if Adds(c, states[j - 1], steps[j - 1], p) {
      i := j - 1;
      AddedNow(c, states, steps, i, p);
    } else {
      AddedStays(c, states, steps, j - 1, p);
      i := CachedWasAdded(c, states, steps, j - 1, p);
    }
  }

  /** A reader that reuses a token gets one that a reader of its own process, for the same tags,
      cached at most the configured time ago; that process has finished no bump since. */
  lemma ReusedIsRecent(c: Config, states: seq<State>, steps: seq<Step>, j: nat) returns (i: nat)
    requires Run(c, states, steps) && j < |steps| && steps[j].ReuseToken?
    ensures steps[j].r in states[j].readers && steps[j].r in states[j + 1].readers
    ensures
      var reader := states[j].readers[steps[j].r];
      && i < j && Adds(c, states[i], steps[i], (reader.process, reader.tags))
      && states[j + 1].readers[steps[j].r].phase
         == Keyed(Key(reader.vary, states[i].readers[steps[i].r].phase.token))
      && states[j].now <= states[i].now + c.tokenTtl
      && forall k | i < k < j :: !Clears(states[k], steps[k], reader.process)
  {
    assert Enabled(c, states[j], steps[j]);
    var reader := states[j].readers[steps[j].r];
    i := CachedWasAdded(c, states, steps, j, (reader.process, reader.tags));
  }

  /** And it reads them anew exactly when there is no such token. */
  lemma ReadsExactlyWhen(c: Config, s: State, r: Id)
    requires r in s.readers && s.readers[r].phase.Resolving?
    ensures
      var p := (s.readers[r].process, s.readers[r].tags);
      Enabled(c, s, ReadVersions(r))
      <==> c.tokenTtl <= 0 || p !in s.tokens || s.tokens[p].expiresAt < s.now
  {
  }
}
