/**
 Cache tags: how a request resolves a prepared tag spec to a tag name, and how the versions
 of the resolved tags become the token that ends a read key.
 */
module CacheTags {
  import opened Text

  // ---------------------------------------------------------------- escaping

  predicate Unreserved(c: char) {
    'a' <= c <= 'z' || 'A' <= c <= 'Z' || '0' <= c <= '9' || c == '-' || c == '_' || c == '.' || c == '~'
  }

  function HexDigit(n: nat): char
    requires n < 16
  {
    if n < 10 then '0' + n as char else 'A' + (n - 10) as char
  }

  function HexValue(c: char): nat {
    if '0' <= c <= '9' then (c - '0') as nat
    else if 'A' <= c <= 'F' then (c - 'A') as nat + 10
    else 0
  }

  function EscapeChar(c: char): string {
    if Unreserved(c) then [c]
    else if c == ' ' then "+"
    else ['%', HexDigit(c as nat / 16 % 16), HexDigit(c as nat % 16)]
  }

  /** url.QueryEscape. */
  function QueryEscape(s: string): (r: string)
    ensures forall c | c in r :: Unreserved(c) || c == '+' || c == '%'
  {
    if s == "" then "" else EscapeChar(s[0]) + QueryEscape(s[1..])
  }

  function Unescape(s: string): string {
    if s == "" then ""
    else if s[0] == '%' && |s| >= 3 then
      [(HexValue(s[1]) * 16 + HexValue(s[2])) as char] + Unescape(s[3..])
    else if s[0] == '+' then [' '] + Unescape(s[1..])
    else [s[0]] + Unescape(s[1..])
  }

  lemma HexRoundTrip(n: nat)
    requires n < 16
    ensures HexValue(HexDigit(n)) == n
  {
  }

  lemma PercentRoundTrip(c: char, rest: string)
    requires c as nat < 256 && !Unreserved(c) && c != ' '
    ensures Unescape(EscapeChar(c) + rest) == [c] + Unescape(rest)
  {
    var hi, lo := c as nat / 16, c as nat % 16;
    HexRoundTrip(hi);
    HexRoundTrip(lo);
    var e := EscapeChar(c) + rest;
    assert e[0] == '%' && e[1] == HexDigit(hi) && e[2] == HexDigit(lo) && e[3..] == rest;
  }

  lemma CharRoundTrip(c: char, rest: string)
    requires c as nat < 256
    ensures Unescape(EscapeChar(c) + rest) == [c] + Unescape(rest)
  {
    if Unreserved(c) || c == ' ' {
      assert (EscapeChar(c) + rest)[1..] == rest;
    } else {
      PercentRoundTrip(c, rest);
    }
  }

  lemma {:induction false} EscapeRoundTrip(s: string)
    requires IsBytes(s)
    ensures Unescape(QueryEscape(s)) == s
  {
    if s != "" {
      assert s[0] in s;
      CharRoundTrip(s[0], QueryEscape(s[1..]));
      assert forall c | c in s[1..] :: c in s;
      EscapeRoundTrip(s[1..]);
      assert s == [s[0]] + s[1..];
    }
  }

  /** escapeTagValue. */
  function EscapeTagValue(v: string): string {
    QueryEscape(Trim(v))
  }

  lemma TrimPart(s: string)
    ensures forall c | c in Trim(s) :: c in s
  {
    var i, j := TrimCuts(s);
  }

  lemma TrimBytes(s: string)
    requires IsBytes(s)
    ensures IsBytes(Trim(s))
  {
    TrimPart(s);
    forall i | 0 <= i < |Trim(s)| ensures Trim(s)[i] as nat < 256 {
      assert Trim(s)[i] in s;
    }
  }

  lemma EscapedSame(a: string, b: string)
    requires IsBytes(a) && IsBytes(b) && EscapeTagValue(a) == EscapeTagValue(b)
    ensures Trim(a) == Trim(b)
  {
    TrimBytes(a);
    TrimBytes(b);
    EscapeRoundTrip(Trim(a));
    EscapeRoundTrip(Trim(b));
  }

  // ---------------------------------------------------------------- tag names

  datatype Literal = Literal(key: string, value: string)

  datatype TagSpec = TagSpec(
    name: string, pathParams: seq<string>, projectID: bool, userID: bool, literals: seq<Literal>)

  /** What a request contributes to its tags; absent path parameters read as "". */
  datatype Scope = Scope(path: map<string, string>, project: string, user: string)

  function PathParam(scope: Scope, name: string): string {
    if name in scope.path then scope.path[name] else ""
  }

  /** The dimensions a spec appends to its name.  A literal carries its constant value. */
  datatype ScopeKey = PathKey(param: string) | ProjectKey | UserKey | LiteralKey(literal: Literal)

  function KeyText(k: ScopeKey): string {
    match k
    case PathKey(param) => "path." + param
    case ProjectKey => "project"
    case UserKey => "user"
    case LiteralKey(literal) => "lit." + literal.key
  }

  function ValueOf(scope: Scope, k: ScopeKey): string {
    match k
    case PathKey(param) => PathParam(scope, param)
    case ProjectKey => scope.project
    case UserKey => scope.user
    case LiteralKey(literal) => literal.value
  }

  function Keys(spec: TagSpec): seq<ScopeKey> {
    seq(|spec.pathParams|, i requires 0 <= i < |spec.pathParams| => PathKey(spec.pathParams[i]))
    + (if spec.projectID then [ProjectKey] else [])
    + (if spec.userID then [UserKey] else [])
    + seq(|spec.literals|, i requires 0 <= i < |spec.literals| => LiteralKey(spec.literals[i]))
  }

  function Part(scope: Scope, k: ScopeKey): string {
    KeyText(k) + ("=" + EscapeTagValue(ValueOf(scope, k)))
  }

  function Parts(keys: seq<ScopeKey>, scope: Scope): (r: seq<string>)
    ensures |r| == |keys| && forall i | 0 <= i < |keys| :: r[i] == Part(scope, keys[i])
  {
    seq(|keys|, i requires 0 <= i < |keys| => Part(scope, keys[i]))
  }

  /** What a spec is scoped by, from its fields. */
  predicate ScopedBy(spec: TagSpec, k: ScopeKey) {
    match k
    case PathKey(param) => param in spec.pathParams
    case ProjectKey => spec.projectID
    case UserKey => spec.userID
    case LiteralKey(literal) => literal in spec.literals
  }

  lemma KeysAre(spec: TagSpec)
    ensures forall k :: k in Keys(spec) <==> ScopedBy(spec, k)
  {
    var params := seq(|spec.pathParams|, i requires 0 <= i < |spec.pathParams| => PathKey(spec.pathParams[i]));
    var literals := seq(|spec.literals|, i requires 0 <= i < |spec.literals| => LiteralKey(spec.literals[i]));
    forall k ensures k in Keys(spec) <==> ScopedBy(spec, k) {
      if k.PathKey? && k.param in spec.pathParams {
        var i :| 0 <= i < |spec.pathParams| && spec.pathParams[i] == k.param;
        assert params[i] == k;
      }
      if k.LiteralKey? && k.literal in spec.literals {
        var i :| 0 <= i < |spec.literals| && spec.literals[i] == k.literal;
        assert literals[i] == k;
      }
    }
  }

  /** Every scoped value the spec needs is present. */
  predicate Complete(spec: TagSpec, scope: Scope) {
    forall k | k in Keys(spec) && !k.LiteralKey? :: Trim(ValueOf(scope, k)) != ""
  }

  /** resolveTagName. */
  function ResolveTagName(spec: TagSpec, scope: Scope): Result<string> {
    if spec.name == "" then Ok("")
    else if !Complete(spec, scope) then Err("missing scope value for cache tag")
    else if Keys(spec) == [] then Ok(spec.name)
    else Ok(spec.name + ("|" + Join(Sort(Parts(Keys(spec), scope)), '|')))
  }

  /** What route configuration gives: a named spec with no tag separator inside a configured
      name. */
  predicate Prepared(spec: TagSpec) {
    && spec.name != ""
    && (forall param | param in spec.pathParams :: Free(param, '|'))
    && (forall literal | literal in spec.literals :: Free(literal.key, '|'))
  }

  predicate ByteScope(spec: TagSpec, scope: Scope) {
    forall k | k in Keys(spec) :: IsBytes(ValueOf(scope, k))
  }

  /** The requests agree on every value the spec is scoped by. */
  predicate Agree(spec: TagSpec, a: Scope, b: Scope) {
    && (forall param | param in spec.pathParams :: Trim(PathParam(a, param)) == Trim(PathParam(b, param)))
    && (spec.projectID ==> Trim(a.project) == Trim(b.project))
    && (spec.userID ==> Trim(a.user) == Trim(b.user))
  }

  lemma KeysFree(spec: TagSpec)
    requires Prepared(spec)
    ensures forall k | k in Keys(spec) :: Free(KeyText(k), '|')
  {
    KeysAre(spec);
    forall k | k in Keys(spec) ensures Free(KeyText(k), '|') {
      assert ScopedBy(spec, k);
    }
  }

  lemma EscapedFree(v: string)
    ensures Free(EscapeTagValue(v), '|') && Free(EscapeTagValue(v), '=') && Free(EscapeTagValue(v), ',')
  {
  }

  /** Two characters tell the kinds of dimension apart. */
  lemma KeyShape(k: ScopeKey)
    ensures |KeyText(k)| >= 4
    ensures k.PathKey? <==> KeyText(k)[0] == 'p' && KeyText(k)[3] == 'h'
    ensures k.ProjectKey? <==> KeyText(k)[0] == 'p' && KeyText(k)[3] == 'j'
    ensures k.UserKey? <==> KeyText(k)[0] == 'u'
  {
  }

  lemma KeyTextUnique(k: ScopeKey, l: ScopeKey)
    requires KeyText(k) == KeyText(l) && !k.LiteralKey?
    ensures k == l
  {
    KeyShape(k);
    KeyShape(l);
    if k.PathKey? {
      assert k.param == KeyText(k)[5..] && l.param == KeyText(l)[5..];
    }
  }

  /** A configured name may contain '=', an escaped value cannot: a part splits at its last
      '=' into what it names and the value. */
  lemma PartUnique(a: Scope, k: ScopeKey, b: Scope, l: ScopeKey)
    requires IsBytes(ValueOf(a, k)) && IsBytes(ValueOf(b, l))
    requires Part(a, k) == Part(b, l)
    ensures KeyText(k) == KeyText(l) && Trim(ValueOf(a, k)) == Trim(ValueOf(b, l))
  {
    var u, v := EscapeTagValue(ValueOf(a, k)), EscapeTagValue(ValueOf(b, l));
    PartSplits(a, k);
    PartSplits(b, l);
    assert u == v;
    assert KeyText(k) == Part(a, k)[..|KeyText(k)|] && KeyText(l) == Part(b, l)[..|KeyText(l)|];
    EscapedSame(ValueOf(a, k), ValueOf(b, l));
  }

  lemma PartSplits(scope: Scope, k: ScopeKey)
    ensures AfterLast(Part(scope, k), '=') == EscapeTagValue(ValueOf(scope, k))
  {
    var v := EscapeTagValue(ValueOf(scope, k));
    EscapedFree(ValueOf(scope, k));
    AfterLastOf(KeyText(k), v, '=');
    assert Part(scope, k) == KeyText(k) + ['='] + v;
  }

  lemma SamePartAgrees(a: Scope, k: ScopeKey, b: Scope, l: ScopeKey)
    requires IsBytes(ValueOf(a, k)) && IsBytes(ValueOf(b, l))
    requires Part(a, k) == Part(b, l)
    ensures Trim(ValueOf(a, k)) == Trim(ValueOf(b, k))
  {
    PartUnique(a, k, b, l);
    if !k.LiteralKey? {
      KeyTextUnique(k, l);
    }
  }

  lemma CounterPart(keys: seq<ScopeKey>, a: Scope, b: Scope, k: ScopeKey) returns (l: ScopeKey)
    requires multiset(Parts(keys, a)) == multiset(Parts(keys, b)) && k in keys
    ensures l in keys && Part(b, l) == Part(a, k)
  {
    var i :| 0 <= i < |keys| && keys[i] == k;
    assert Parts(keys, a)[i] in multiset(Parts(keys, b));
    var j :| 0 <= j < |keys| && Parts(keys, b)[j] == Parts(keys, a)[i];
    l := keys[j];
  }

  lemma SamePartsAgree(spec: TagSpec, a: Scope, b: Scope)
    requires Prepared(spec) && ByteScope(spec, a) && ByteScope(spec, b)
    requires multiset(Parts(Keys(spec), a)) == multiset(Parts(Keys(spec), b))
    ensures Agree(spec, a, b)
  {
    KeysAre(spec);
    KeysFree(spec);
    forall param | param in spec.pathParams ensures PathKey(param) in Keys(spec) {
    }
    forall k | k in Keys(spec) ensures Trim(ValueOf(a, k)) == Trim(ValueOf(b, k)) {
      var l := CounterPart(Keys(spec), a, b, k);
      SamePartAgrees(a, k, b, l);
    }
    forall param | param in spec.pathParams ensures Trim(PathParam(a, param)) == Trim(PathParam(b, param)) {
      assert PathKey(param) in Keys(spec);
      assert ValueOf(a, PathKey(param)) == PathParam(a, param);
    }
    assert spec.projectID ==> ProjectKey in Keys(spec);
    assert spec.userID ==> UserKey in Keys(spec);
  }

  lemma AgreeSameParts(spec: TagSpec, a: Scope, b: Scope)
    requires Agree(spec, a, b)
    ensures Parts(Keys(spec), a) == Parts(Keys(spec), b)
  {
    KeysAre(spec);
    var keys := Keys(spec);
    forall i | 0 <= i < |keys| ensures Part(a, keys[i]) == Part(b, keys[i]) {
      assert keys[i] in keys;
    }
  }

  lemma PartsFree(spec: TagSpec, scope: Scope, c: char)
    requires c == '|' || c == ','
    requires forall k | k in Keys(spec) :: Free(KeyText(k), c)
    ensures AllFree(Sort(Parts(Keys(spec), scope)), c)
  {
    var parts := Parts(Keys(spec), scope);
    forall x | x in Sort(parts) ensures Free(x, c) {
      assert x in multiset(parts);
      var i :| 0 <= i < |parts| && parts[i] == x;
      assert Keys(spec)[i] in Keys(spec);
      EscapedFree(ValueOf(scope, Keys(spec)[i]));
    }
  }

  lemma SortLength(s: seq<string>)
    ensures |Sort(s)| == |s|
  {
    assert |Sort(s)| == |multiset(Sort(s))| == |multiset(s)| == |s|;
  }

  /** Two requests resolve one prepared spec to the same tag if and only if they agree on
      every value it is scoped by. */
  lemma SameTagExactlyWhenAgree(spec: TagSpec, a: Scope, b: Scope)
    requires Prepared(spec) && ByteScope(spec, a) && ByteScope(spec, b)
    requires Complete(spec, a) && Complete(spec, b)
    ensures ResolveTagName(spec, a) == ResolveTagName(spec, b) <==> Agree(spec, a, b)
  {
    if Agree(spec, a, b) {
      AgreeSameParts(spec, a, b);
    }
    if ResolveTagName(spec, a) == ResolveTagName(spec, b) && Keys(spec) != [] {
      var f, g := Parts(Keys(spec), a), Parts(Keys(spec), b);
      var fs, gs := Sort(f), Sort(g);
      var r, s := "|" + Join(fs, '|'), "|" + Join(gs, '|');
      assert r == (spec.name + r)[|spec.name|..] && s == (spec.name + s)[|spec.name|..];
      assert r[1..] == s[1..];
      SortLength(f);
      SortLength(g);
      KeysFree(spec);
      PartsFree(spec, a, '|');
      PartsFree(spec, b, '|');
      JoinInjective(fs, gs, '|');
      SamePartsAgree(spec, a, b);
    }
  }

  /** A named spec fails to resolve exactly if a path parameter it names is blank or missing, or
      it needs the project or user and the request has none. */
  lemma FailsExactlyWhen(spec: TagSpec, scope: Scope)
    ensures ResolveTagName(spec, scope).Err?
            <==>
            spec.name != "" &&
            ((exists param | param in spec.pathParams :: Trim(PathParam(scope, param)) == "")
             || (spec.projectID && Trim(scope.project) == "")
             || (spec.userID && Trim(scope.user) == ""))
  {
    KeysAre(spec);
    if param :| param in spec.pathParams && Trim(PathParam(scope, param)) == "" {
      assert PathKey(param) in Keys(spec) && ValueOf(scope, PathKey(param)) == PathParam(scope, param);
    }
    assert spec.projectID ==> ProjectKey in Keys(spec) && ValueOf(scope, ProjectKey) == scope.project;
    assert spec.userID ==> UserKey in Keys(spec) && ValueOf(scope, UserKey) == scope.user;
    forall k | k in Keys(spec) ensures ScopedBy(spec, k) {
    }
  }

  lemma TagStarts(spec: TagSpec, scope: Scope) returns (rest: string)
    requires Prepared(spec) && Complete(spec, scope)
    ensures Tail(rest, '|') && ResolveTagName(spec, scope) == Ok(spec.name + rest)
    ensures rest == if Keys(spec) == [] then "" else "|" + Join(Sort(Parts(Keys(spec), scope)), '|')
  {
    rest := if Keys(spec) == [] then "" else "|" + Join(Sort(Parts(Keys(spec), scope)), '|');
    assert spec.name + "" == spec.name;
  }

  /** Tags tell specs apart: equal tags come from specs of one name with equal parts, each a
      dimension and its value. */
  lemma SameTagExactlyWhen(specA: TagSpec, a: Scope, specB: TagSpec, b: Scope)
    requires Prepared(specA) && Prepared(specB) && Free(specA.name, '|') && Free(specB.name, '|')
    requires Complete(specA, a) && Complete(specB, b)
    ensures ResolveTagName(specA, a) == ResolveTagName(specB, b)
            <==> specA.name == specB.name && multiset(Parts(Keys(specA), a)) == multiset(Parts(Keys(specB), b))
  {
    var f, g := Parts(Keys(specA), a), Parts(Keys(specB), b);
    var r := TagStarts(specA, a);
    var s := TagStarts(specB, b);
    SortExactlyWhen(f, g);
    SortLength(f);
    SortLength(g);
    if ResolveTagName(specA, a) == ResolveTagName(specB, b) {
      FirstPieceUnique(specA.name, r, specB.name, s, '|');
      if Keys(specA) != [] && Keys(specB) != [] {
        assert r[1..] == Join(Sort(f), '|') && s[1..] == Join(Sort(g), '|');
        KeysFree(specA);
        KeysFree(specB);
        PartsFree(specA, a, '|');
        PartsFree(specB, b, '|');
        JoinInjective(Sort(f), Sort(g), '|');
      }
    }
    if multiset(f) == multiset(g) {
      assert |Keys(specA)| == |multiset(f)| == |multiset(g)| == |Keys(specB)|;
    }
  }

  // ---------------------------------------------------------------- names with a tag separator

  lemma LessAfter(head: string, x: string, y: string)
    requires Less(x, y)
    ensures Less(head + x, head + y)
  {
    if head == "" {
      assert head + x == x && head + y == y;
    } else {
      assert (head + x)[1..] == head[1..] + x && (head + y)[1..] == head[1..] + y;
      LessAfter(head[1..], x, y);
    }
  }

  lemma SortTwo(x: string, y: string)
    requires Less(x, y)
    ensures Sort([x, y]) == [x, y] && Sort([y, x]) == [x, y]
  {
    LessIrreflexive(x);
    if LessEq(y, x) {
      LessTransitive(x, y, x);
    }
    assert [x, y][1..] == [y] && [y, x][1..] == [x];
    assert Sort([y]) == [y] && Sort([x]) == [x];
  }

  lemma JoinTwo(x: string, y: string)
    ensures Join([x, y], '|') == x + ['|'] + y
  {
    assert [x, y][1..] == [y];
  }

  lemma LessLonger(u: string, v: string)
    ensures Less(u, u + ['|'] + v)
  {
    LessAfter(u, "", ['|'] + v);
    assert u + "" == u && u + (['|'] + v) == u + ['|'] + v;
  }

  lemma Reassociate(u: string, v: string)
    ensures u + ['|'] + (u + ['|'] + v) == (u + ['|'] + u) + ['|'] + v
  {
  }

  lemma JoinSorted(x: string, y: string)
    requires Less(x, y)
    ensures Join(Sort([x, y]), '|') == x + ['|'] + y && Join(Sort([y, x]), '|') == x + ['|'] + y
  {
    SortTwo(x, y);
    JoinTwo(x, y);
  }

  /** Parts that carry the separator can be regrouped. */
  lemma Regrouped(u: string, v: string)
    requires Less(u + ['|'] + u, v)
    ensures Join(Sort([u, u + ['|'] + v]), '|') == Join(Sort([v, u + ['|'] + u]), '|')
  {
    LessLonger(u, v);
    JoinSorted(u, u + ['|'] + v);
    JoinSorted(u + ['|'] + u, v);
    Reassociate(u, v);
  }

  /** The path parameter p, and one whose name reads like p with the value x and p again. */
  function PipeSpec(p: string, x: string): TagSpec {
    TagSpec("tag", [p, p + ("=" + x) + ("|path." + p)], false, false, [])
  }

  function PipeScope(p: string, x: string, first: string, second: string): Scope {
    Scope(map[p := first, p + ("=" + x) + ("|path." + p) := second], "", "")
  }

  lemma PipeParts(p: string, x: string, first: string, second: string)
    requires EscapeTagValue(first) == first && EscapeTagValue(second) == second
    ensures
      var head := "path." + p;
      Parts(Keys(PipeSpec(p, x)), PipeScope(p, x, first, second))
      == [head + ("=" + first), head + ("=" + x) + ['|'] + (head + ("=" + second))]
  {
    var q := p + ("=" + x) + ("|path." + p);
    var scope := PipeScope(p, x, first, second);
    assert |q| > |p|;
    assert Keys(PipeSpec(p, x)) == [PathKey(p), PathKey(q)];
    assert ValueOf(scope, PathKey(p)) == first && ValueOf(scope, PathKey(q)) == second;
    LongPart(p, x, second);
  }

  lemma LongPart(p: string, x: string, second: string)
    ensures "path." + (p + ("=" + x) + ("|path." + p)) + ("=" + second)
         == "path." + p + ("=" + x) + ['|'] + ("path." + p + ("=" + second))
  {
    assert "|path." + p == ['|'] + ("path." + p);
  }

  /** Why names with the tag separator are excluded: with such a path parameter two requests
      that disagree on both values resolve to one tag. */
  lemma PipeMerges(p: string, x: string, y: string)
    requires EscapeTagValue(x) == x && EscapeTagValue(y) == y && Trim(x) != "" && Trim(y) != "" && Trim(x) != Trim(y)
    requires var u := "path." + p + ("=" + x); Less(u + ['|'] + u, "path." + p + ("=" + y))
    ensures
      var spec, a, b := PipeSpec(p, x), PipeScope(p, x, x, y), PipeScope(p, x, y, x);
      ResolveTagName(spec, a).Ok? && ResolveTagName(spec, a) == ResolveTagName(spec, b) && !Agree(spec, a, b)
  {
    var spec, a, b := PipeSpec(p, x), PipeScope(p, x, x, y), PipeScope(p, x, y, x);
    PipeParts(p, x, x, y);
    PipeParts(p, x, y, x);
    Regrouped("path." + p + ("=" + x), "path." + p + ("=" + y));
    PipeComplete(p, x, x, y);
    PipeComplete(p, x, y, x);
  }

  lemma PipeComplete(p: string, x: string, first: string, second: string)
    requires Trim(first) != "" && Trim(second) != ""
    ensures Complete(PipeSpec(p, x), PipeScope(p, x, first, second))
    ensures PathKey(p) in Keys(PipeSpec(p, x)) && ValueOf(PipeScope(p, x, first, second), PathKey(p)) == first
  {
    var q := p + ("=" + x) + ("|path." + p);
    assert |q| > |p|;
    assert Keys(PipeSpec(p, x)) == [PathKey(p), PathKey(q)];
  }

  // ---------------------------------------------------------------- normalized tag lists

  /** The distinct trimmed non-blank tags. */
  function TagSet(tags: seq<string>): set<string> {
    set t | t in tags && Trim(t) != "" :: Trim(t)
  }

  /** What normalizeResolvedTags returns. */
  ghost predicate NormalForm(tags: seq<string>, out: seq<string>) {
    StrictlySorted(out) && forall t :: t in out <==> t in TagSet(tags)
  }

  /** Order and duplicates do not matter: the set decides. */
  lemma NormalFormUnique(tags: seq<string>, out: seq<string>, tags': seq<string>, out': seq<string>)
    requires NormalForm(tags, out) && NormalForm(tags', out')
    ensures out == out' <==> TagSet(tags) == TagSet(tags')
  {
    if TagSet(tags) == TagSet(tags') {
      StrictlySortedUnique(out, out');
    }
  }

  // ---------------------------------------------------------------- the token

  function VersionOf(versions: map<string, nat>, tag: string): nat {
    if tag in versions then versions[tag] else 0
  }

  function TokenPart(tag: string, version: nat): string {
    tag + "=" + Decimal(version)
  }

  function TokenParts(tags: seq<string>, versions: map<string, nat>): (r: seq<string>)
    ensures |r| == |tags|
    ensures forall i | 0 <= i < |tags| :: r[i] == TokenPart(tags[i], VersionOf(versions, tags[i]))
  {
    seq(|tags|, i requires 0 <= i < |tags| => TokenPart(tags[i], VersionOf(versions, tags[i])))
  }

  /** The version token of a normalized tag list. */
  function TokenText(tags: seq<string>, versions: map<string, nat>): string {
    Join(TokenParts(tags, versions), ',')
  }

  /** A tag may itself contain '='; the version is what follows the last one. */
  lemma TokenPartUnique(t: string, m: nat, u: string, n: nat)
    requires TokenPart(t, m) == TokenPart(u, n)
    ensures t == u && m == n
  {
    assert Free(Decimal(m), '=') && Free(Decimal(n), '=');
    AfterLastOf(t, Decimal(m), '=');
    AfterLastOf(u, Decimal(n), '=');
    DecimalInjective(m, n);
    assert t == TokenPart(t, m)[..|t|] && u == TokenPart(u, n)[..|u|];
  }

  lemma TokenPartFree(tag: string, version: nat)
    requires Free(tag, ',')
    ensures Free(TokenPart(tag, version), ',')
  {
    assert Free(Decimal(version), ',');
  }

  /** Equal tokens come from the same tags at the same versions. */
  lemma TokenInjective(tags: seq<string>, versions: map<string, nat>,
                       tags': seq<string>, versions': map<string, nat>)
    requires tags != [] && tags' != []
    requires AllFree(tags, ',') && AllFree(tags', ',')
    requires TokenText(tags, versions) == TokenText(tags', versions')
    ensures tags == tags'
    ensures forall t | t in tags :: VersionOf(versions, t) == VersionOf(versions', t)
  {
    var f, g := TokenParts(tags, versions), TokenParts(tags', versions');
    forall x | x in f ensures Free(x, ',') {
      var i :| 0 <= i < |tags| && f[i] == x;
      TokenPartFree(tags[i], VersionOf(versions, tags[i]));
    }
    forall x | x in g ensures Free(x, ',') {
      var i :| 0 <= i < |tags'| && g[i] == x;
      TokenPartFree(tags'[i], VersionOf(versions', tags'[i]));
    }
    JoinInjective(f, g, ',');
    forall i | 0 <= i < |tags|
      ensures tags[i] == tags'[i] && VersionOf(versions, tags[i]) == VersionOf(versions', tags[i])
    {
      TokenPartUnique(tags[i], VersionOf(versions, tags[i]), tags'[i], VersionOf(versions', tags'[i]));
    }
  }

  /** Resolved tags never contain the token's own separator. */
  lemma ResolvedTagFree(spec: TagSpec, scope: Scope)
    requires Complete(spec, scope) && Free(spec.name, ',')
    requires forall k | k in Keys(spec) :: Free(KeyText(k), ',')
    ensures Free(ResolveTagName(spec, scope).value, ',')
  {
    PartsFree(spec, scope, ',');
    JoinFree(Sort(Parts(Keys(spec), scope)), '|', ',');
  }

  lemma JoinFree(parts: seq<string>, sep: char, c: char)
    requires AllFree(parts, c) && sep != c
    ensures Free(Join(parts, sep), c)
  {
    if |parts| > 0 {
      assert Free(parts[0], c);
      JoinFree(parts[1..], sep, c);
    }
  }
}
