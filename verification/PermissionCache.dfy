/**
 The permission resolver: effective masks from relational rows, and the per-user cache map
 that concurrent backfills edit under WATCH and MULTI.
 */
module PermissionCache {
  import opened Text

  datatype Resolution = Resolution(project: string, role: string, mask: nat, custom: bool, updated: int)

  datatype Failure = MembershipNotFound | MaskInconsistent | DependencyFailure

  datatype Answer = Resolved(value: Resolution) | Refused(failure: Failure)

  // ---------------------------------------------------------------- relational fallback

  /** The joined row; roleMask is NULL when the role has no mask of its own. */
  datatype Member = Member(project: string, role: string, custom: bool, memberMask: int, roleMask: Option<int>,
                           memberUpdated: int, roleUpdated: int)

  datatype Query = NoRow | QueryFailed | Found(row: Member)

  /** Which rows yield a mask.  A NULL role mask cannot be scanned into an integer, so it
      fails the query even for a custom member, whose mask does not depend on it. */
  predicate Usable(row: Member) {
    row.roleMask.Some? && row.memberMask >= 0 && (row.custom || row.roleMask.value >= 0) && Trim(row.project) != ""
  }

  /** RelationalResolver.Resolve. */
  method ResolveMember(user: string, project: string, query: Query, now: int) returns (answer: Answer)
    ensures answer.Resolved? <==> Trim(user) != "" && Trim(project) != "" && query.Found? && Usable(query.row)
    ensures answer.Resolved? ==>
              var row, r := query.row, answer.value;
              && r.project == Trim(row.project) && r.role == row.role && r.custom == row.custom
              && r.mask == (if row.custom then row.memberMask else row.roleMask.value)
              && (var newest := if row.custom || row.memberUpdated >= row.roleUpdated then row.memberUpdated
                                else row.roleUpdated;
                  r.updated == if newest <= 0 then now else newest)
    ensures answer.Refused? ==>
              answer.failure ==
                if Trim(user) == "" || Trim(project) == "" then MaskInconsistent
                else if query.NoRow? then MembershipNotFound
                else if query.QueryFailed? || query.row.roleMask.None? then DependencyFailure
                else MaskInconsistent
  {
    if Trim(user) == "" || Trim(project) == "" {
      return Refused(MaskInconsistent);
    }
    if query.NoRow? {
      return Refused(MembershipNotFound);
    }
    if query.QueryFailed? || query.row.roleMask.None? {
      return Refused(DependencyFailure);
    }
    var row := query.row;
    if row.memberMask < 0 {
      return Refused(MaskInconsistent);
    }
    if !row.custom && row.roleMask.value < 0 {
      return Refused(MaskInconsistent);
    }
    if Trim(row.project) == "" {
      return Refused(MaskInconsistent);
    }
    var effectiveMask: nat := row.memberMask;
    var updatedAt := row.memberUpdated;
    if !row.custom {
      effectiveMask := row.roleMask.value;
      if row.roleUpdated > updatedAt {
        updatedAt := row.roleUpdated;
      }
    }
    if updatedAt <= 0 {
      updatedAt := now;
    }
    answer := Resolved(Resolution(Trim(row.project), row.role, effectiveMask, row.custom, updatedAt));
  }

  // ---------------------------------------------------------------- the cache map

  /** The value under a user's key; Garbage is a payload that does not decode. */
  datatype Payload = Absent | Garbage | Entries(entries: map<string, Resolution>)

  /** An answer of the fallback for a requested project, on its way into the cache. */
  datatype Grant = Grant(requested: string, resolved: Resolution)

  /** What is stored for a grant. */
  function EntryOf(g: Grant): Resolution {
    g.resolved.(project := Trim(g.resolved.project))
  }

  function Decoded(p: Payload): map<string, Resolution> {
    if p.Entries? then p.entries else map[]
  }

  /** The keys a grant is stored under: the project as requested, and its own id unless it
      differs from that in case only. */
  function Keys(g: Grant): seq<string> {
    var canonical := Trim(g.resolved.project);
    [g.requested] + if canonical != "" && !EqualFold(canonical, g.requested) then [canonical] else []
  }

  predicate Newer(m: map<string, Resolution>, key: string, g: Grant) {
    key in m && m[key].updated > g.resolved.updated
  }

  predicate Writes(m: map<string, Resolution>, key: string, g: Grant) {
    key in Keys(g) && key != "" && !Newer(m, key, g)
  }

  /** The keys a backfill sets. */
  function Written(m: map<string, Resolution>, g: Grant): set<string> {
    set key | key in Keys(g) && Writes(m, key, g)
  }

  function Overlay(m: map<string, Resolution>, keys: set<string>, entry: Resolution): map<string, Resolution> {
    map key | key in m.Keys + keys :: if key in keys then entry else m[key]
  }

  /** The map after a backfill: newer entries stay, other entries are untouched. */
  function Backfilled(m: map<string, Resolution>, g: Grant): map<string, Resolution> {
    Overlay(m, Written(m, g), EntryOf(g))
  }

  /** An entry carries the answer: mask, role, origin of the mask and time stamp as they are,
      the project without the blanks around it. */
  predicate Says(entry: Resolution, answer: Resolution) {
    && entry.mask == answer.mask && entry.role == answer.role
    && entry.custom == answer.custom && entry.updated == answer.updated
    && entry.project == Trim(answer.project)
  }

  /** The names an answer is kept under: the requested one, and the project's id where the two
      differ in more than case. */
  predicate Own(g: Grant, key: string) {
    key != "" && (key == g.requested || (key == Trim(g.resolved.project) && !EqualFold(key, g.requested)))
  }

  /** What a backfill must make of the map: the answer under its own names unless a newer entry
      is there, and nothing else; it reports whether it set any. */
  ghost predicate BackfillLaw(m: map<string, Resolution>, g: Grant, m': map<string, Resolution>, changed: bool) {
    && (forall key | !Own(g, key) :: key in m' <==> key in m)
    && (forall key | !Own(g, key) && key in m :: m'[key] == m[key])
    && (forall key | Own(g, key) ::
          key in m' && if Newer(m, key, g) then m'[key] == m[key] else Says(m'[key], g.resolved))
    && (changed <==> exists key :: Own(g, key) && !Newer(m, key, g))
  }

  lemma OwnAreKeys(g: Grant, key: string)
    ensures Own(g, key) <==> key != "" && key in Keys(g)
  {
  }

  lemma BackfilledIsLawful(m: map<string, Resolution>, g: Grant)
    ensures BackfillLaw(m, g, Backfilled(m, g), Written(m, g) != {})
  {
    forall key ensures Own(g, key) <==> key != "" && key in Keys(g) {
      OwnAreKeys(g, key);
    }
    forall key ensures key in Written(m, g) <==> Own(g, key) && !Newer(m, key, g) {
    }
  }

  lemma OverlayGrows(m: map<string, Resolution>, keys: set<string>, key: string, entry: Resolution)
    ensures Overlay(m, keys, entry)[key := entry] == Overlay(m, keys + {key}, entry)
  {
  }

  lemma WritesDecided(m: map<string, Resolution>, done: set<string>, g: Grant, key: string)
    requires key in Keys(g) && forall k | k in done :: Writes(m, k, g)
    ensures Writes(m, key, g) <==> key != "" && !Newer(Overlay(m, done, EntryOf(g)), key, g)
  {
  }

  lemma TakeOneMore(keys: seq<string>, i: nat, m: map<string, Resolution>, g: Grant)
    requires i < |keys|
    ensures (set key | key in keys[..i + 1] && Writes(m, key, g))
            == (set key | key in keys[..i] && Writes(m, key, g)) + if Writes(m, keys[i], g) then {keys[i]} else {}
  {
    assert keys[..i + 1] == keys[..i] + [keys[i]];
  }

  predicate Trimmed(g: Grant) {
    Trim(g.requested) == g.requested
  }

  /** The loop of backfillOnce. */
  method Backfill(m: map<string, Resolution>, g: Grant) returns (m': map<string, Resolution>, changed: bool)
    requires Trimmed(g)
    ensures BackfillLaw(m, g, m', changed)
    ensures m' == Backfilled(m, g) && (changed <==> Written(m, g) != {})
  {
    m', changed := m, false;
    var keys := Keys(g);
    ghost var done: set<string> := {};
    TrimTwice(g.resolved.project);
    for i := 0 to |keys|
      invariant forall key | key in keys :: Trim(key) == key
      invariant done == set key | key in keys[..i] && Writes(m, key, g)
      invariant changed <==> done != {}
      invariant m' == Overlay(m, done, EntryOf(g))
    {
      var key := Trim(keys[i]);
      WritesDecided(m, done, g, key);
      TakeOneMore(keys, i, m, g);
      if key == "" {
        continue;
      }
      if key in m' && m'[key].updated > g.resolved.updated {
        continue;
      }
      OverlayGrows(m, done, key, EntryOf(g));
      m' := m'[key := EntryOf(g)];
      done := done + {key};
      changed := true;
    }
    assert keys[..|keys|] == keys && done == Written(m, g);
    BackfilledIsLawful(m, g);
  }

  // ---------------------------------------------------------------- concurrent backfills

  /** expiryAborts: a watched key that expires makes EXEC fail, as it does in current
      versions of Redis. */
  datatype Config = Config(expiryAborts: bool)

  /** Where a backfill stands: not started, watching the key at a version, or holding the
      payload it read. */
  datatype Phase = Waiting | Watching(version: nat) | Read(version: nat, seen: Payload)

  /** One user's key.  history lists every answer of the fallback; a backfill goes by the
      index of its grant there. */
  datatype State = State(payload: Payload, version: nat, history: seq<Grant>, backfills: map<nat, Phase>)

  datatype Step = Answered(g: Grant) | Watch(b: nat) | Get(b: nat) | Exec(b: nat) | Drop(b: nat) | Delete | Expire

  predicate Initial(s: State) {
    !s.payload.Entries? && s.history == [] && s.backfills == map[]
  }

  /** The fallback answers for a trimmed project and names the project's id. */
  predicate ProperGrant(g: Grant) {
    Trimmed(g) && g.requested != "" && Trim(g.resolved.project) != ""
  }

  predicate Enabled(c: Config, s: State, step: Step) {
    match step
    case Answered(g) => ProperGrant(g)
    case Watch(b) => b in s.backfills && s.backfills[b].Waiting?
    case Get(b) => b in s.backfills && s.backfills[b].Watching?
    case Exec(b) => b in s.backfills && s.backfills[b].Read? && b < |s.history|
    case Drop(b) => b in s.backfills
    case Delete => true
    case Expire => !s.payload.Absent?
  }

  function Do(c: Config, s: State, step: Step): State
    requires Enabled(c, s, step)
  {
    match step
    case Answered(g) => s.(history := s.history + [g], backfills := s.backfills[|s.history| := Waiting])
    case Watch(b) => s.(backfills := s.backfills[b := Watching(s.version)])
    case Get(b) => s.(backfills := s.backfills[b := Read(s.backfills[b].version, s.payload)])
    case Exec(b) =>
      var m, g := Decoded(s.backfills[b].seen), s.history[b];
      var s' := s.(backfills := s.backfills - {b});
      if s.backfills[b].version == s.version && Written(m, g) != {}
      then s'.(payload := Entries(Backfilled(m, g)), version := s.version + 1)
      else s'
    case Drop(b) => s.(backfills := s.backfills - {b})
    case Delete => if s.payload.Absent? then s else s.(payload := Absent, version := s.version + 1)
    case Expire => s.(payload := Absent, version := if c.expiryAborts then s.version + 1 else s.version)
  }

  /** Consecutive states from anywhere. */
  ghost predicate Path(c: Config, states: seq<State>, steps: seq<Step>) {
    && |states| == |steps| + 1
    && forall i {:trigger steps[i]} | 0 <= i < |steps| ::
         Enabled(c, states[i], steps[i]) && states[i + 1] == Do(c, states[i], steps[i])
  }

  ghost predicate Run(c: Config, states: seq<State>, steps: seq<Step>) {
    Path(c, states, steps) && Initial(states[0])
  }

  /** The entry stored under a key is some answer, from the n-th on, for this user and an
      alias of the project. */
  ghost predicate FromAnswer(history: seq<Grant>, n: nat, key: string, entry: Resolution) {
    exists j | n <= j < |history| :: Own(history[j], key) && Says(entry, history[j].resolved)
  }

  ghost predicate AllFrom(history: seq<Grant>, n: nat, m: map<string, Resolution>) {
    forall key | key in m :: FromAnswer(history, n, key, m[key])
  }

  predicate PhaseOk(c: Config, s: State, p: Phase) {
    match p
    case Waiting => true
    case Watching(version) => version <= s.version
    case Read(version, seen) =>
      version <= s.version &&
      (version == s.version ==> seen == s.payload || (s.payload.Absent? && !c.expiryAborts))
  }

  ghost predicate Inv(c: Config, s: State) {
    && AllFrom(s.history, 0, Decoded(s.payload))
    && (forall g | g in s.history :: ProperGrant(g))
    && forall b | b in s.backfills ::
         && b < |s.history| && PhaseOk(c, s, s.backfills[b])
         && (s.backfills[b].Read? ==> AllFrom(s.history, 0, Decoded(s.backfills[b].seen)))
  }

  lemma MoreAnswers(history: seq<Grant>, n: nat, m: map<string, Resolution>, g: Grant)
    requires AllFrom(history, n, m)
    ensures AllFrom(history + [g], n, m)
  {
    forall key | key in m ensures FromAnswer(history + [g], n, key, m[key]) {
      var j :| n <= j < |history| && Own(history[j], key) && Says(m[key], history[j].resolved);
      assert (history + [g])[j] == history[j];
    }
  }

  lemma BackfilledFrom(history: seq<Grant>, n: nat, m: map<string, Resolution>, b: nat)
    requires AllFrom(history, n, m) && n <= b < |history|
    ensures AllFrom(history, n, Backfilled(m, history[b]))
  {
    BackfilledIsLawful(m, history[b]);
  }

  lemma StepKeepsInv(c: Config, s: State, step: Step)
    requires Inv(c, s) && Enabled(c, s, step)
    ensures Inv(c, Do(c, s, step))
  {
    match step
    case Answered(g) =>
      MoreAnswers(s.history, 0, Decoded(s.payload), g);
      forall b | b in s.backfills && s.backfills[b].Read?
        ensures AllFrom(s.history + [g], 0, Decoded(s.backfills[b].seen))
      {
        MoreAnswers(s.history, 0, Decoded(s.backfills[b].seen), g);
      }
    case Exec(b) => BackfilledFrom(s.history, 0, Decoded(s.backfills[b].seen), b);
    case _ =>
  }

  lemma {:induction false} RunKeepsInv(c: Config, states: seq<State>, steps: seq<Step>, i: nat)
    requires Run(c, states, steps) && i < |states|
    ensures Inv(c, states[i])
  {
    if i > 0 {
      RunKeepsInv(c, states, steps, i - 1);
      assert Enabled(c, states[i - 1], steps[i - 1]);
      StepKeepsInv(c, states[i - 1], steps[i - 1]);
    }
  }

  // ---------------------------------------------------------------- reading

  /** resolveFromCache. */
  function Hit(p: Payload, project: string): Option<Resolution> {
    if project !in Decoded(p) then None
    else
      var entry := Decoded(p)[project];
      Some(entry.(project := if Trim(entry.project) != "" then Trim(entry.project) else Trim(project)))
  }

  /** Whatever a reader gets from the cache, the fallback answered for this user, under the
      requested name or for the project with that id. */
  lemma HitWasAnswered(c: Config, states: seq<State>, steps: seq<Step>, i: nat, project: string)
    requires Run(c, states, steps) && i < |states| && Hit(states[i].payload, project).Some?
    ensures
      var hit := Hit(states[i].payload, project).value;
      exists j | 0 <= j < |states[i].history| ::
        var g := states[i].history[j];
        && Says(hit, g.resolved)
        && (project == g.requested || project == hit.project)
  {
    RunKeepsInv(c, states, steps, i);
    var s := states[i];
    var entry := Decoded(s.payload)[project];
    var j :| 0 <= j < |s.history| && Own(s.history[j], project) && Says(entry, s.history[j].resolved);
    assert s.history[j] in s.history;
    TrimTwice(s.history[j].resolved.project);
  }

  /** HybridResolver.Resolve, given what the cache and the fallback say; the grant is what
      goes to the background backfill. */
  function Resolve(user: string, project: string, cache: Option<Payload>, fallback: Answer): (Answer, Option<Grant>)
  {
    var id := Trim(project);
    if Trim(user) == "" || id == "" then (Refused(MaskInconsistent), None)
    else if cache.Some? && Hit(cache.value, id).Some? then (Resolved(Hit(cache.value, id).value), None)
    else if fallback.Resolved? && cache.Some? then (fallback, Some(Grant(id, fallback.value)))
    else (fallback, None)
  }

  /** A resolution is the cached answer where there is one, and otherwise the fallback's, which
      then goes to a backfill under the requested name; a cached answer is an earlier one of
      the fallback's. */
  lemma ResolveIsAnswer(c: Config, states: seq<State>, steps: seq<Step>, i: nat, user: string, project: string,
                        fallback: Answer)
    requires Run(c, states, steps) && i < |states|
    requires fallback.Resolved? ==> Trim(fallback.value.project) != ""
    ensures
      var (answer, grant) := Resolve(user, project, Some(states[i].payload), fallback);
      var asks := Trim(user) != "" && Trim(project) != "";
      var cached := Trim(project) in Decoded(states[i].payload);
      && (!asks ==> answer == Refused(MaskInconsistent) && grant.None?)
      && (asks && !cached ==> answer == fallback && (grant.Some? <==> fallback.Resolved?))
      && (grant.Some? ==>
            grant == Some(Grant(Trim(project), fallback.value)) && Enabled(c, states[i], Answered(grant.value)))
      && (asks && cached ==>
            answer.Resolved? && grant.None? &&
            exists j | 0 <= j < |states[i].history| ::
              var g := states[i].history[j];
              && Says(answer.value, g.resolved)
              && (Trim(project) == g.requested || Trim(project) == answer.value.project))
  {
    TrimTwice(project);
    if Hit(states[i].payload, Trim(project)).Some? {
      HitWasAnswered(c, states, steps, i, Trim(project));
    }
  }

  // ---------------------------------------------------------------- a warm cache

  /** A backfill whose EXEC takes effect makes each of its own names hit with its answer where
      what it read held no newer entry, whatever was interleaved with it. */
  lemma ExecMakesHits(c: Config, s: State, b: nat, key: string)
    requires Inv(c, s) && Enabled(c, s, Exec(b)) && s.backfills[b].version == s.version
    requires Own(s.history[b], key) && !Newer(Decoded(s.backfills[b].seen), key, s.history[b])
    ensures
      var hit := Hit(Do(c, s, Exec(b)).payload, key);
      hit.Some? && Says(hit.value, s.history[b].resolved)
  {
    var g, m := s.history[b], Decoded(s.backfills[b].seen);
    assert g in s.history && PhaseOk(c, s, s.backfills[b]);
    BackfilledIsLawful(m, g);
    TrimTwice(g.resolved.project);
  }

  /** An answer and its backfill with nothing in between. */
  function Warmed(c: Config, s: State, g: Grant): State
    requires Inv(c, s) && ProperGrant(g)
  {
    var n := |s.history|;
    Do(c, Do(c, Do(c, Do(c, s, Answered(g)), Watch(n)), Get(n)), Exec(n))
  }

  /** After an undisturbed backfill the requested name, and the project's id where it differs in
      more than case, hit with the answer's mask, role and time stamp; no other name does that
      did not before, and entries newer than the answer stay. */
  lemma WarmedHits(c: Config, s: State, g: Grant, key: string)
    requires Inv(c, s) && ProperGrant(g)
    ensures
      var m, m' := Decoded(s.payload), Decoded(Warmed(c, s, g).payload);
      if !Own(g, key) || Newer(m, key, g)
      then (key in m' <==> key in m) && (key in m ==> m'[key] == m[key])
      else Hit(Warmed(c, s, g).payload, key).Some? && Says(Hit(Warmed(c, s, g).payload, key).value, g.resolved)
  {
    var n := |s.history|;
    var ready := Do(c, Do(c, Do(c, s, Answered(g)), Watch(n)), Get(n));
    assert ready.history[n] == g && ready.backfills[n] == Read(s.version, s.payload);
    BackfilledIsLawful(Decoded(s.payload), g);
    TrimTwice(g.resolved.project);
  }

  /** Resolving twice with an undisturbed backfill in between gives the same mask, role and
      time stamp twice; the second time without asking the fallback. */
  lemma ResolvedTwice(c: Config, s: State, user: string, project: string, fallback: Answer, later: Answer)
    requires Inv(c, s) && Resolve(user, project, Some(s.payload), fallback).1.Some?
    requires Trim(fallback.value.project) != ""
    ensures
      var (first, grant) := Resolve(user, project, Some(s.payload), fallback);
      && ProperGrant(grant.value) && first.Resolved?
      && var (second, again) := Resolve(user, project, Some(Warmed(c, s, grant.value).payload), later);
         second.Resolved? && again.None? && Says(second.value, first.value)
  {
    TrimTwice(project);
    WarmedHits(c, s, Grant(Trim(project), fallback.value), Trim(project));
  }

  // ---------------------------------------------------------------- what backfills keep

  /** Entries stay and their time stamps do not go back. */
  predicate KeepsEntries(s: State, s': State) {
    s.payload.Entries? ==>
      && s'.payload.Entries?
      && forall key | key in s.payload.entries ::
           key in s'.payload.entries && s'.payload.entries[key].updated >= s.payload.entries[key].updated
  }

  lemma StepKeepsEntries(c: Config, s: State, step: Step)
    requires Inv(c, s) && Enabled(c, s, step) && !step.Delete? && !step.Expire?
    ensures KeepsEntries(s, Do(c, s, step))
  {
  }

  /** Between deletions no entry is lost and no time stamp goes back, in every interleaving
      of backfills. */
  lemma {:induction false} EntriesStay(c: Config, states: seq<State>, steps: seq<Step>, i: nat, j: nat)
    requires Run(c, states, steps) && i <= j < |states|
    requires forall k | i <= k < j :: !steps[k].Delete? && !steps[k].Expire?
    ensures KeepsEntries(states[i], states[j])
  {
    if i < j {
      EntriesStay(c, states, steps, i, j - 1);
      RunKeepsInv(c, states, steps, j - 1);
      assert Enabled(c, states[j - 1], steps[j - 1]);
      StepKeepsEntries(c, states[j - 1], steps[j - 1]);
    }
  }

  /** A backfill that takes effect sets the requested key or the project's own to its grant
      and changes no other entry. */
  predicate OnlyOwn(s: State, b: nat, s': State)
    requires b < |s.history|
  {
    s'.payload != s.payload ==>
      var g, m, m' := s.history[b], Decoded(s.payload), Decoded(s'.payload);
      && (forall key | key in m.Keys + m'.Keys && !Own(g, key) :: key in m && key in m' && m'[key] == m[key])
      && (forall key | key in m' && Own(g, key) ::
            Says(m'[key], g.resolved) || (key in m && m'[key] == m[key] && m[key].updated > g.resolved.updated))
  }

  ghost predicate AllOnlyOwn(states: seq<State>, steps: seq<Step>) {
    forall i | 0 <= i < |steps| && i + 1 < |states| && steps[i].Exec? && steps[i].b < |states[i].history| ::
      OnlyOwn(states[i], steps[i].b, states[i + 1])
  }

  lemma BackfilledIsOwn(m: map<string, Resolution>, g: Grant)
    requires g.requested != ""
    ensures
      var m' := Backfilled(m, g);
      && (forall key | key in m.Keys + m'.Keys && !Own(g, key) :: key in m && key in m' && m'[key] == m[key])
      && (forall key | key in m' && Own(g, key) ::
            Says(m'[key], g.resolved) || (key in m && m'[key] == m[key] && m[key].updated > g.resolved.updated))
  {
    forall key | key in Keys(g) && key in m && key !in Written(m, g)
      ensures m[key].updated > g.resolved.updated
    {
      assert !Writes(m, key, g);
    }
  }

  lemma ExecIsOnlyOwn(c: Config, s: State, b: nat)
    requires c.expiryAborts && Inv(c, s) && Enabled(c, s, Exec(b))
    ensures OnlyOwn(s, b, Do(c, s, Exec(b)))
  {
    assert PhaseOk(c, s, s.backfills[b]) && s.history[b] in s.history;
    BackfilledIsOwn(Decoded(s.backfills[b].seen), s.history[b]);
  }

  lemma Extend(c: Config, states: seq<State>, steps: seq<Step>, step: Step)
    returns (states': seq<State>, steps': seq<Step>)
    requires Path(c, states, steps) && Enabled(c, states[|steps|], step)
    ensures Path(c, states', steps') && states'[0] == states[0]
    ensures states'[|steps'|] == Do(c, states[|steps|], step) && steps' == steps + [step] && states <= states'
  {
    states', steps' := states + [Do(c, states[|steps|], step)], steps + [step];
  }

  const GRANT_A := Grant("a", Resolution("a", "Owner", 1, false, 1))
  const GRANT_B := Grant("b", Resolution("b", "Owner", 1, false, 1))

  /** A backfill reads an entry, the key expires unnoticed, and the backfill brings the
      expired entry back. */
  lemma ExpiredEntryReturns(c: Config) returns (states: seq<State>, steps: seq<Step>)
    requires !c.expiryAborts
    ensures Run(c, states, steps) && !AllOnlyOwn(states, steps)
  {
    states, steps := [State(Absent, 0, [], map[])], [];
    states, steps := Extend(c, states, steps, Answered(GRANT_A));
    states, steps := Extend(c, states, steps, Watch(0));
    states, steps := Extend(c, states, steps, Get(0));
    assert states[|steps|].backfills == map[0 := Read(0, Absent)];
    assert Trim("a") == "a";
    assert "a" in Keys(GRANT_A) && "a" in Written(map[], GRANT_A);
    states, steps := Extend(c, states, steps, Exec(0));
    var m := Backfilled(map[], GRANT_A);
    assert states[|steps|] == State(Entries(m), 1, [GRANT_A], map[]);
    states, steps := ExpiredThenWritten(c, states, steps, m);
  }

  lemma ExpiredThenWritten(c: Config, states: seq<State>, steps: seq<Step>, m: map<string, Resolution>)
    returns (states': seq<State>, steps': seq<Step>)
    requires !c.expiryAborts && Run(c, states, steps) && "a" in m && "b" !in m
    requires states[|steps|] == State(Entries(m), 1, [GRANT_A], map[])
    ensures Run(c, states', steps') && !AllOnlyOwn(states', steps')
  {
    states', steps' := Extend(c, states, steps, Answered(GRANT_B));
    states', steps' := Extend(c, states', steps', Watch(1));
    states', steps' := Extend(c, states', steps', Get(1));
    assert states'[|steps'|].backfills == map[1 := Read(1, Entries(m))];
    states', steps' := Extend(c, states', steps', Expire);
    assert Trim("b") == "b";
    assert Keys(GRANT_B) == ["b"] && "b" in Written(m, GRANT_B);
    var s := states'[|steps'|];
    states', steps' := Extend(c, states', steps', Exec(1));
    assert !OnlyOwn(s, 1, states'[|steps'|]) by {
      assert "a" in Decoded(states'[|steps'|].payload) && s.payload == Absent;
    }
  }

  /** Backfills change only their own entries in all runs exactly when the expiry of a
      watched key makes EXEC fail. */
  lemma OnlyOwnExactlyWhen(c: Config)
    ensures (forall states, steps :: Run(c, states, steps) ==> AllOnlyOwn(states, steps)) <==> c.expiryAborts
  {
    if c.expiryAborts {
      forall states: seq<State>, steps: seq<Step> | Run(c, states, steps) ensures AllOnlyOwn(states, steps) {
        forall i | 0 <= i < |steps| && steps[i].Exec? && steps[i].b < |states[i].history|
          ensures OnlyOwn(states[i], steps[i].b, states[i + 1])
        {
          RunKeepsInv(c, states, steps, i);
          ExecIsOnlyOwn(c, states[i], steps[i].b);
        }
      }
    } else {
      var states, steps := ExpiredEntryReturns(c);
      assert Run(c, states, steps) && !AllOnlyOwn(states, steps);
    }
  }

  // ---------------------------------------------------------------- after an invalidation

  /** A backfill that can still write once the key is at this version: it has not looked yet,
      or it watches that version and its grant is not outdated by what it has read. */
  predicate CanWrite(s: State, b: nat, version: nat)
    requires b in s.backfills
  {
    match s.backfills[b]
    case Waiting => true
    case Watching(watched) => watched >= version
    case Read(watched, seen) => watched >= version && b < |s.history| && Written(Decoded(seen), s.history[b]) != {}
  }

  predicate Quiet(s: State, version: nat) {
    forall b | b in s.backfills :: !CanWrite(s, b, version)
  }

  /** Every entry was answered after the first n answers. */
  ghost predicate FreshSince(n: nat, s: State) {
    AllFrom(s.history, n, Decoded(s.payload))
  }

  ghost predicate StaysFresh(n: nat, s: State) {
    && n <= |s.history| && FreshSince(n, s)
    && forall b | b in s.backfills ::
         && b < |s.history|
         && (b < n ==> !CanWrite(s, b, s.version))
         && (b >= n && s.backfills[b].Read? ==> AllFrom(s.history, n, Decoded(s.backfills[b].seen)))
  }

  lemma StepStaysFresh(c: Config, n: nat, s: State, step: Step)
    requires StaysFresh(n, s) && Enabled(c, s, step)
    ensures StaysFresh(n, Do(c, s, step))
  {
    match step
    case Answered(g) =>
      MoreAnswers(s.history, n, Decoded(s.payload), g);
      forall b | b in s.backfills && b >= n && s.backfills[b].Read?
        ensures AllFrom(s.history + [g], n, Decoded(s.backfills[b].seen))
      {
        MoreAnswers(s.history, n, Decoded(s.backfills[b].seen), g);
      }
    case Exec(b) =>
      if b >= n {
        BackfilledFrom(s.history, n, Decoded(s.backfills[b].seen), b);
      }
    case _ =>
  }

  lemma {:induction false} PathStaysFresh(c: Config, n: nat, states: seq<State>, steps: seq<Step>, i: nat)
    requires Path(c, states, steps) && i < |states| && StaysFresh(n, states[0])
    ensures StaysFresh(n, states[i])
  {
    if i > 0 {
      PathStaysFresh(c, n, states, steps, i - 1);
      assert Enabled(c, states[i - 1], steps[i - 1]);
      StepStaysFresh(c, n, states[i - 1], steps[i - 1]);
    }
  }

  lemma StaleExec(c: Config, s: State, b: nat)
    requires Inv(c, s) && Enabled(c, s, Exec(b)) && s.backfills[b].version == s.version
    requires Written(Decoded(s.backfills[b].seen), s.history[b]) != {}
    ensures !FreshSince(|s.history|, Do(c, s, Exec(b)))
  {
    var m, g := Decoded(s.backfills[b].seen), s.history[b];
    var key :| key in Written(m, g);
    assert key in Backfilled(m, g);
  }

  lemma EmptyIsWritten(g: Grant)
    requires ProperGrant(g)
    ensures g.requested in Written(map[], g)
  {
  }

  /** The rest of a backfill that can still write, with nothing in its way. */
  lemma StaleBackfillLands(c: Config, s: State, b: nat) returns (states: seq<State>, steps: seq<Step>)
    requires Inv(c, s) && s.payload.Absent? && b in s.backfills && CanWrite(s, b, s.version)
    ensures Path(c, states, steps) && states[0] == s && !FreshSince(|s.history|, states[|steps|])
  {
    states, steps := [s], [];
    assert s.history[b] in s.history;
    EmptyIsWritten(s.history[b]);
    if s.backfills[b].Waiting? {
      StepKeepsInv(c, states[|steps|], Watch(b));
      states, steps := Extend(c, states, steps, Watch(b));
    }
    if states[|steps|].backfills[b].Watching? {
      StepKeepsInv(c, states[|steps|], Get(b));
      states, steps := Extend(c, states, steps, Get(b));
    }
    StaleExec(c, states[|steps|], b);
    states, steps := Extend(c, states, steps, Exec(b));
  }

  /** After an invalidation every cached entry stems from an answer given afterwards, exactly
      when no backfill that could still write was under way. */
  lemma FreshExactlyWhen(c: Config, s: State)
    requires Inv(c, s)
    ensures (forall states, steps :: Path(c, states, steps) && states[0] == Do(c, s, Delete) ==>
               forall i | 0 <= i < |states| :: FreshSince(|s.history|, states[i]))
            <==> Quiet(s, Do(c, s, Delete).version)
  {
    var n, s' := |s.history|, Do(c, s, Delete);
    StepKeepsInv(c, s, Delete);
    if Quiet(s, s'.version) {
      forall b | b in s'.backfills ensures !CanWrite(s', b, s'.version) {
        assert !CanWrite(s, b, s'.version);
      }
      forall states: seq<State>, steps: seq<Step>, i | Path(c, states, steps) && states[0] == s' && 0 <= i < |states|
        ensures FreshSince(n, states[i])
      {
        PathStaysFresh(c, n, states, steps, i);
      }
    } else {
      var b :| b in s.backfills && CanWrite(s, b, s'.version);
      var states, steps := StaleBackfillLands(c, s', b);
      assert !FreshSince(n, states[|steps|]);
    }
  }

  // ---------------------------------------------------------------- invalidation

  function RbacKey(user: string): string {
    "rbac:" + Trim(user)
  }

  /** Users share a key if and only if they differ in surrounding blanks only. */
  lemma RbacKeyExactlyWhen(user: string, other: string)
    ensures RbacKey(user) == RbacKey(other) <==> Trim(user) == Trim(other)
  {
    assert RbacKey(user)[5..] == Trim(user);
  }

  /** InvalidateResolverUserCache: the keys of the DEL are those of the users, each once. */
  method InvalidationKeys(users: seq<string>) returns (keys: seq<string>)
    ensures forall key :: key in keys <==> exists i | 0 <= i < |users| :: key == RbacKey(users[i])
    ensures forall i, j | 0 <= i < j < |keys| :: keys[i] != keys[j]
  {
    keys := [];
    var seen: set<string> := {};
    for i := 0 to |users|
      invariant forall key :: key in keys <==> exists j | 0 <= j < i :: key == RbacKey(users[j])
      invariant forall key :: key in keys <==> key in seen
      invariant forall j, k | 0 <= j < k < |keys| :: keys[j] != keys[k]
    {
      var key := RbacKey(users[i]);
      if key in seen {
        continue;
      }
      seen := seen + {key};
      keys := keys + [key];
    }
  }
}
