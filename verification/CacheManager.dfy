/**
 The cache manager of one process: tag normalization, version tokens with their in-process
 cache, version bumps, and the response writer that decides what may be stored.
 */
module CacheManager {
  import opened Text
  import opened CacheTags
  import BumpMiss

  datatype TokenEntry = TokenEntry(token: string, expiresAt: int)

  predicate Distinct(s: seq<string>) {
    forall i, j | 0 <= i < j < |s| :: s[i] != s[j]
  }

  lemma DistinctSortsStrictly(s: seq<string>)
    requires Distinct(s)
    ensures StrictlySorted(Sort(s)) && forall t :: t in Sort(s) <==> t in s
  {
    var r := Sort(s);
    SortSorted(s);
    forall t ensures t in r <==> t in s {
      assert t in r <==> t in multiset(r);
    }
    forall i, j | 0 <= i < j < |r| ensures Less(r[i], r[j]) {
      if r[i] == r[j] {
        CountDistinct(s, r[i]);
        CountTwice(r, i, j);
      }
    }
  }

  lemma CountDistinct(s: seq<string>, x: string)
    requires Distinct(s)
    ensures multiset(s)[x] <= 1
  {
    if s != [] {
      assert s == [s[0]] + s[1..];
      CountDistinct(s[1..], x);
      if s[0] == x {
        assert x !in s[1..];
      }
    }
  }

  lemma CountTwice(s: seq<string>, i: nat, j: nat)
    requires i < j < |s| && s[i] == s[j]
    ensures multiset(s)[s[i]] >= 2
  {
    assert s == s[..j] + s[j..];
    assert s[..j][i] == s[i] && s[j..][0] == s[j];
    assert multiset(s) == multiset(s[..j]) + multiset(s[j..]);
  }

  class Manager {
    /** Redis: one counter per tag; a missing counter reads as 0. */
    var versions: map<string, nat>
    /** This process: tokens by joined tag list. */
    var tokenCache: map<string, TokenEntry>
    const tokenTtl: int

    constructor (tokenTtl: int)
      ensures this.tokenTtl == (if tokenTtl < 0 then 0 else tokenTtl)
      ensures versions == map[] && tokenCache == map[]
    {
      this.tokenTtl := if tokenTtl < 0 then 0 else tokenTtl;
      versions := map[];
      tokenCache := map[];
    }

    /** normalizeResolvedTags: each distinct trimmed non-blank tag once, in byte order. */
    static method NormalizeResolvedTags(tags: seq<string>) returns (out: seq<string>)
      ensures NormalForm(tags, out)
    {
      var seen: set<string> := {};
      out := [];
      for i := 0 to |tags|
        invariant Distinct(out)
        invariant seen == TagSet(tags[..i])
        invariant forall t :: t in out <==> t in seen
      {
        assert tags[..i + 1] == tags[..i] + [tags[i]];
        var trimmed := Trim(tags[i]);
        if trimmed == "" || trimmed in seen {
          continue;
        }
        seen := seen + {trimmed};
        out := out + [trimmed];
      }
      assert tags[..|tags|] == tags;
      DistinctSortsStrictly(out);
      out := Sort(out);
    }

    /** tagVersionTokenNormalized: the cached token while it lives, otherwise a fresh one,
        which is then cached; no other cached token is touched.  When Redis does not answer
        there is no token, and an expired one is dropped. */
    method TagVersionToken(tags: seq<string>, now: int, reachable: bool) returns (token: Option<string>)
      modifies this
      ensures versions == old(versions)
      ensures
        var key := Join(tags, '\U{00001F}');
        if tags == [] then token == Some("") && tokenCache == old(tokenCache)
        else if tokenTtl > 0 && Trim(key) != "" && key in old(tokenCache) && now <= old(tokenCache)[key].expiresAt
        then token == Some(old(tokenCache)[key].token) && tokenCache == old(tokenCache)
        else if !reachable
        then token == None
             && tokenCache == if tokenTtl > 0 && Trim(key) != "" then old(tokenCache) - {key} else old(tokenCache)
        else
          && token == Some(TokenText(tags, old(versions)))
          && tokenCache == if tokenTtl > 0 && Trim(key) != ""
                           then old(tokenCache)[key := TokenEntry(token.value, now + tokenTtl)]
                           else old(tokenCache)
    {
      if tags == [] {
        return Some("");
      }
      var key := Join(tags, '\U{00001F}');
      if tokenTtl > 0 && Trim(key) != "" && key in tokenCache {
        if now <= tokenCache[key].expiresAt {
          return Some(tokenCache[key].token);
        }
        tokenCache := tokenCache - {key};
      }
      ghost var kept := tokenCache;
      if !reachable {
        return None;
      }
      var parts := [];
      for i := 0 to |tags|
        invariant |parts| == i
        invariant parts == TokenParts(tags, versions)[..i]
        invariant versions == old(versions) && tokenCache == kept
      {
        parts := parts + [tags[i] + "=" + Decimal(VersionOf(versions, tags[i]))];
      }
      assert parts == TokenParts(tags, versions);
      var text := Join(parts, ',');
      if tokenTtl > 0 && Trim(key) != "" {
        tokenCache := tokenCache[key := TokenEntry(text, now + tokenTtl)];
      }
      token := Some(text);
    }

    /** BumpTags: every distinct tag is incremented exactly once.  An error from Redis says
        nothing about which increments took effect (applied): none, some, or all of them with
        the answer lost; the token cache then stays. */
    method BumpTags(tags: seq<string>, error: bool, applied: set<string>) returns (normalized: seq<string>, ok: bool)
      modifies this
      ensures NormalForm(tags, normalized)
      ensures ok <==> normalized == [] || !error
      ensures forall t ::
                VersionOf(versions, t) ==
                VersionOf(old(versions), t) + (if t in normalized && (ok || t in applied) then 1 else 0)
      ensures tokenCache == if ok && normalized != [] then map[] else old(tokenCache)
    {
      normalized := NormalizeResolvedTags(tags);
      StrictIsDistinct(normalized);
      ok := normalized == [] || !error;
      for i := 0 to |normalized|
        invariant tokenCache == old(tokenCache)
        invariant forall t ::
                    VersionOf(versions, t) ==
                    VersionOf(old(versions), t) + (if t in normalized[..i] && (ok || t in applied) then 1 else 0)
      {
        var tag := normalized[i];
        TakeOneMoreTag(normalized, i, tag);
        assert normalized[..i + 1] == normalized[..i] + [tag];
        if ok || tag in applied {
          versions := versions[tag := VersionOf(versions, tag) + 1];
        }
      }
      assert normalized[..|normalized|] == normalized;
      if ok && normalized != [] {
        tokenCache := map[];
      }
    }
  }

  lemma StrictIsDistinct(s: seq<string>)
    requires StrictlySorted(s)
    ensures Distinct(s)
  {
    forall i, j | 0 <= i < j < |s| ensures s[i] != s[j] {
      LessIrreflexive(s[i]);
    }
  }

  // ---------------------------------------------------------------- the protocol's steps

  /** Writer w goes through its first n tags in the interleaving model, and the increments of
      the applied ones take effect. */
  ghost function Incremented(
    c: BumpMiss.Config, s: BumpMiss.State, w: BumpMiss.Id, n: nat, applied: set<string>): (s': BumpMiss.State)
    requires w in s.writers && s.writers[w].committed && s.writers[w].bumped + n <= |s.writers[w].tags|
    ensures w in s'.writers && s'.writers[w] == s.writers[w].(bumped := s.writers[w].bumped + n)
    decreases n
  {
    if n == 0 then s
    else
      var before := Incremented(c, s, w, n - 1, applied);
      if before.writers[w].tags[before.writers[w].bumped] in applied
      then BumpMiss.Do(c, before, BumpMiss.Increment(w))
      else BumpMiss.Do(c, before, BumpMiss.LoseIncrement(w))
  }

  lemma IncrementCounts(c: BumpMiss.Config, s: BumpMiss.State, w: BumpMiss.Id, t: string)
    requires BumpMiss.Enabled(c, s, BumpMiss.Increment(w))
    ensures BumpMiss.Version(BumpMiss.Do(c, s, BumpMiss.Increment(w)), t)
            == BumpMiss.Version(s, t) + if t == s.writers[w].tags[s.writers[w].bumped] then 1 else 0
    ensures BumpMiss.Version(BumpMiss.Do(c, s, BumpMiss.LoseIncrement(w)), t) == BumpMiss.Version(s, t)
  {
  }

  lemma TakeOneMoreTag(tags: seq<string>, n: nat, t: string)
    requires n < |tags| && Distinct(tags)
    ensures t in tags[..n + 1] <==> t in tags[..n] || t == tags[n]
    ensures tags[n] !in tags[..n]
  {
    assert tags[..n + 1] == tags[..n] + [tags[n]];
  }

  /** The increments of a writer do to the counters exactly what BumpTags promises, whichever
      of them take effect. */
  lemma {:induction false} IncrementsRefineBump(
    c: BumpMiss.Config, s: BumpMiss.State, w: BumpMiss.Id, n: nat, applied: set<string>, t: string)
    requires w in s.writers && s.writers[w].committed && s.writers[w].bumped == 0
    requires n <= |s.writers[w].tags| && Distinct(s.writers[w].tags)
    ensures BumpMiss.Version(Incremented(c, s, w, n, applied), t)
            == BumpMiss.Version(s, t) + (if t in s.writers[w].tags[..n] && t in applied then 1 else 0)
  {
    if n > 0 {
      IncrementsRefineBump(c, s, w, n - 1, applied, t);
      IncrementCounts(c, Incremented(c, s, w, n - 1, applied), w, t);
      TakeOneMoreTag(s.writers[w].tags, n - 1, t);
    }
  }

  // ---------------------------------------------------------------- what may be stored

  /** cachingResponseWriter; written is everything the handler sent. */
  class CachingResponseWriter {
    const maxBytes: int
    const cacheStatuses: set<int>
    var statusCode: int
    var body: seq<char>
    var tooLarge: bool
    var streaming: bool
    ghost var written: seq<char>

    ghost predicate Valid()
      reads this
    {
      if maxBytes > 0 then (tooLarge <==> |written| > maxBytes) && (!tooLarge ==> body == written)
      else body == [] && !tooLarge
    }

    constructor (maxBytes: int, cacheStatuses: set<int>)
      ensures Valid() && this.maxBytes == maxBytes && this.cacheStatuses == cacheStatuses
      ensures statusCode == 200 && written == [] && !streaming
    {
      this.maxBytes := maxBytes;
      this.cacheStatuses := cacheStatuses;
      statusCode, body, tooLarge, streaming, written := 200, [], false, false, [];
    }

    method WriteHeader(status: int)
      requires Valid()
      modifies this`statusCode
      ensures Valid() && statusCode == status
    {
      statusCode := status;
    }

    method Write(p: seq<char>)
      requires Valid()
      modifies this`body, this`tooLarge, this`written
      ensures Valid() && written == old(written) + p
    {
      written := written + p;
      if maxBytes <= 0 || tooLarge {
        return;
      }
      if |body| + |p| > maxBytes {
        tooLarge := true;
        return;
      }
      body := body + p;
    }

    method Flush()
      requires Valid()
      modifies this`streaming
      ensures Valid() && streaming
    {
      streaming := true;
    }

    /** A stored body is the whole response, at most maxBytes long; a response that fits and
        has a cacheable status is stored unless it streamed or set a cookie.  Without a limit
        nothing is buffered. */
    method Cacheable(setCookie: string) returns (ok: bool)
      requires Valid()
      ensures ok ==> body == if maxBytes > 0 then written else []
      ensures ok <==> !streaming && (maxBytes > 0 ==> |written| <= maxBytes) && setCookie == ""
                      && statusCode in cacheStatuses
    {
      ok := !streaming && !tooLarge && setCookie == "" && statusCode in cacheStatuses;
    }
  }
}
