/**
 Read keys: the canonical string built from a route's vary dimensions and its tag token.
 Hashing is a parameter that is taken to be injective.
 */
module ReadKeys {
  import opened Text
  import Tags = CacheTags

  datatype Template = Template(
    varyMethod: bool, projectID: bool, userID: bool, role: bool,
    pathParams: seq<string>, headers: seq<string>, queryParams: seq<string>,
    allowAuthenticated: bool)

  datatype Request = Request(
    verb: string, hasPrincipal: bool, project: string, user: string, role: string,
    path: map<string, string>, headers: map<string, seq<string>>, query: map<string, seq<string>>)

  /** The tags a request resolved and the versions read for them. */
  datatype TagRead = TagRead(tags: seq<string>, versions: map<string, nat>)

  function Values(m: map<string, seq<string>>, name: string): seq<string> {
    if name in m then m[name] else []
  }

  /** url.Values.Get: the first value, or "". */
  function Get(m: map<string, seq<string>>, name: string): string {
    if Values(m, name) == [] then "" else Values(m, name)[0]
  }

  function PathValue(req: Request, param: string): string {
    if param in req.path then req.path[param] else ""
  }

  // ---------------------------------------------------------------- query parameters

  predicate IsCursorLike(name: string) {
    var n := Lower(Trim(name));
    n == "cursor" || (|n| >= 7 && n[|n| - 7..] == ".cursor")
  }

  predicate AnyNonBlank(values: seq<string>) {
    exists v :: v in values && Trim(v) != ""
  }

  function QueryValues(query: map<string, seq<string>>, name: string): seq<string> {
    var values := Values(query, name);
    if !IsCursorLike(name) then values
    else if AnyNonBlank(values) then ["__present__"]
    else []
  }

  function QueryText(query: map<string, seq<string>>, name: string): string {
    Join(Sort(QueryValues(query, name)), ',')
  }

  function QueryParts(query: map<string, seq<string>>, names: seq<string>): (r: seq<string>)
    ensures |r| == |names|
    ensures forall i | 0 <= i < |names| :: r[i] == names[i] + ("=" + QueryText(query, names[i]))
  {
    seq(|names|, i requires 0 <= i < |names| => names[i] + ("=" + QueryText(query, names[i])))
  }

  function CanonicalQuery(query: map<string, seq<string>>, names: seq<string>): string {
    Join(QueryParts(query, names), '&')
  }

  /** shouldBypassCursorCache: requests past the first page are never cached. */
  predicate Bypassed(t: Template, req: Request) {
    && (exists name :: name in t.queryParams && Lower(Trim(name)) in ["cursor", "pagination.cursor"])
    && (Trim(Get(req.query, "pagination.cursor")) != "" || Trim(Get(req.query, "cursor")) != "")
  }

  // ---------------------------------------------------------------- dimensions

  datatype Dim = Route | Method | Project | User | Role | Path(param: string) | Header(name: string)
               | QueryHash

  function DimText(d: Dim): string {
    match d
    case Route => "route="
    case Method => "method="
    case Project => "project="
    case User => "user="
    case Role => "role="
    case Path(param) => "path." + param + "="
    case Header(name) => "header." + name + "="
    case QueryHash => "query_hash="
  }

  function If(b: bool, d: Dim): seq<Dim> {
    if b then [d] else []
  }

  function Dims(t: Template): seq<Dim> {
    [Route] + If(t.varyMethod, Method) + If(t.projectID, Project) + If(t.userID, User) + If(t.role, Role)
    + seq(|t.pathParams|, i requires 0 <= i < |t.pathParams| => Path(t.pathParams[i]))
    + seq(|t.headers|, i requires 0 <= i < |t.headers| => Header(t.headers[i]))
    + If(t.queryParams != [], QueryHash)
  }

  function DimValue(t: Template, route: string, req: Request, hash: string -> string, d: Dim): string {
    match d
    case Route => route
    case Method => Upper(Trim(req.verb))
    case Project => Trim(req.project)
    case User => Trim(req.user)
    case Role => Trim(req.role)
    case Path(param) => Trim(PathValue(req, param))
    case Header(name) => Join(Values(req.headers, name), ',')
    case QueryHash => hash(CanonicalQuery(req.query, t.queryParams))
  }

  function DimParts(t: Template, route: string, req: Request, hash: string -> string): (r: seq<string>)
    ensures |r| == |Dims(t)|
    ensures forall i | 0 <= i < |Dims(t)| ::
              r[i] == DimText(Dims(t)[i]) + DimValue(t, route, req, hash, Dims(t)[i])
  {
    var dims := Dims(t);
    seq(|dims|, i requires 0 <= i < |dims| => DimText(dims[i]) + DimValue(t, route, req, hash, dims[i]))
  }

  function AuthTail(t: Template, req: Request): string {
    if req.hasPrincipal && t.allowAuthenticated then "|auth=allowed" else ""
  }

  function TagTail(read: TagRead): string {
    if read.tags == [] then "" else "|tags=" + Tags.TokenText(read.tags, read.versions)
  }

  /** The text BuildReadKeyWithTemplate hashes. */
  function Canonical(t: Template, route: string, req: Request, read: TagRead, hash: string -> string): string {
    Join(DimParts(t, route, req, hash), '|') + (AuthTail(t, req) + TagTail(read))
  }

  // ---------------------------------------------------------------- injectivity

  ghost predicate Injective(hash: string -> string) {
    (forall x, y :: hash(x) == hash(y) ==> x == y) && forall x :: Free(hash(x), '|')
  }

  /** The configured names hold no separator. */
  predicate SeparatorFree(t: Template, route: string) {
    && Free(route, '|')
    && (forall d | d in Dims(t) :: Free(DimText(d), '|'))
    && (forall name | name in t.queryParams :: Free(name, '&'))
  }

  /** Cursors go by the names the bypass knows. */
  predicate KnownCursors(t: Template) {
    forall name | name in t.queryParams && IsCursorLike(name) :: name in ["cursor", "pagination.cursor"]
  }

  predicate PlainTemplate(t: Template, route: string) {
    SeparatorFree(t, route) && KnownCursors(t)
  }

  /** What the template selects holds no separator; nothing else about the request matters. */
  predicate PlainRequest(t: Template, req: Request) {
    && (t.varyMethod ==> Free(req.verb, '|'))
    && (t.projectID ==> Free(req.project, '|'))
    && (t.userID ==> Free(req.user, '|'))
    && (t.role ==> Free(req.role, '|'))
    && (forall p | p in t.pathParams && p in req.path :: Free(req.path[p], '|'))
    && (forall h | h in t.headers && h in req.headers :: AllFree(req.headers[h], '|'))
    && (forall q | q in t.queryParams && q in req.query && !IsCursorLike(q) :: AllFree(req.query[q], '&'))
  }

  /** Values of one name are joined with commas: either both requests have at most one, or no
      value holds a comma. */
  predicate CommaSafe(u: seq<string>, v: seq<string>) {
    (|u| <= 1 && |v| <= 1) || (AllFree(u, ',') && AllFree(v, ','))
  }

  predicate Comparable(t: Template, a: Request, b: Request) {
    && (forall h | h in t.headers :: CommaSafe(Values(a.headers, h), Values(b.headers, h)))
    && (forall q | q in t.queryParams && !IsCursorLike(q) :: CommaSafe(Values(a.query, q), Values(b.query, q)))
  }

  /** No value, or one empty value. */
  predicate Blank(values: seq<string>) {
    values == [] || values == [""]
  }

  /** Header values count in order, query values in any. */
  predicate SameList(u: seq<string>, v: seq<string>) {
    u == v || (Blank(u) && Blank(v))
  }

  predicate SameBag(u: seq<string>, v: seq<string>) {
    multiset(u) == multiset(v) || (Blank(u) && Blank(v))
  }

  /** Both requests ask for the same values, or for the same page. */
  predicate SameQuery(a: Request, b: Request, name: string) {
    if IsCursorLike(name) then
      && (AnyNonBlank(Values(a.query, name)) <==> AnyNonBlank(Values(b.query, name)))
      && (Get(a.query, name) == Get(b.query, name)
          || (Trim(Get(a.query, name)) == "" && Trim(Get(b.query, name)) == ""))
    else SameBag(Values(a.query, name), Values(b.query, name))
  }

  predicate SameDim(t: Template, a: Request, b: Request, d: Dim) {
    match d
    case Route => true
    case Method => Upper(Trim(a.verb)) == Upper(Trim(b.verb))
    case Project => Trim(a.project) == Trim(b.project)
    case User => Trim(a.user) == Trim(b.user)
    case Role => Trim(a.role) == Trim(b.role)
    case Path(param) => Trim(PathValue(a, param)) == Trim(PathValue(b, param))
    case Header(name) => SameList(Values(a.headers, name), Values(b.headers, name))
    case QueryHash => forall name | name in t.queryParams :: SameQuery(a, b, name)
  }

  /** The requests agree on everything the template varies by. */
  predicate SameSelected(t: Template, a: Request, b: Request) {
    && (t.varyMethod ==> Upper(Trim(a.verb)) == Upper(Trim(b.verb)))
    && (t.projectID ==> Trim(a.project) == Trim(b.project))
    && (t.userID ==> Trim(a.user) == Trim(b.user))
    && (t.role ==> Trim(a.role) == Trim(b.role))
    && (forall p | p in t.pathParams :: Trim(PathValue(a, p)) == Trim(PathValue(b, p)))
    && (forall h | h in t.headers :: SameList(Values(a.headers, h), Values(b.headers, h)))
    && (forall q | q in t.queryParams :: SameQuery(a, b, q))
    && (t.allowAuthenticated ==> a.hasPrincipal == b.hasPrincipal)
  }

  /** The same tags at the same versions. */
  predicate SameTags(ra: TagRead, rb: TagRead) {
    && ra.tags == rb.tags
    && forall tag | tag in ra.tags :: Tags.VersionOf(ra.versions, tag) == Tags.VersionOf(rb.versions, tag)
  }

  lemma PathSelected(t: Template, i: nat)
    requires i < |t.pathParams|
    ensures Path(t.pathParams[i]) in Dims(t)
  {
    var names := seq(|t.pathParams|, j requires 0 <= j < |t.pathParams| => Path(t.pathParams[j]));
    assert names[i] == Path(t.pathParams[i]);
  }

  lemma HeaderSelected(t: Template, i: nat)
    requires i < |t.headers|
    ensures Header(t.headers[i]) in Dims(t)
  {
    var names := seq(|t.headers|, j requires 0 <= j < |t.headers| => Header(t.headers[j]));
    assert names[i] == Header(t.headers[i]);
  }

  lemma FlagsSelected(t: Template)
    ensures t.varyMethod ==> Method in Dims(t)
    ensures t.projectID ==> Project in Dims(t)
    ensures t.userID ==> User in Dims(t)
    ensures t.role ==> Role in Dims(t)
    ensures t.queryParams != [] ==> QueryHash in Dims(t)
  {
  }

  lemma DimsHavePaths(t: Template, a: Request, b: Request)
    requires forall d | d in Dims(t) :: SameDim(t, a, b, d)
    ensures forall p | p in t.pathParams :: Trim(PathValue(a, p)) == Trim(PathValue(b, p))
  {
    forall p | p in t.pathParams ensures Trim(PathValue(a, p)) == Trim(PathValue(b, p)) {
      var i :| 0 <= i < |t.pathParams| && t.pathParams[i] == p;
      PathSelected(t, i);
      assert SameDim(t, a, b, Path(p));
    }
  }

  lemma DimsHaveHeaders(t: Template, a: Request, b: Request)
    requires forall d | d in Dims(t) :: SameDim(t, a, b, d)
    ensures forall h | h in t.headers :: SameList(Values(a.headers, h), Values(b.headers, h))
  {
    forall h | h in t.headers ensures SameList(Values(a.headers, h), Values(b.headers, h)) {
      var i :| 0 <= i < |t.headers| && t.headers[i] == h;
      HeaderSelected(t, i);
      assert SameDim(t, a, b, Header(h));
    }
  }

  lemma DimsHaveFlags(t: Template, a: Request, b: Request)
    requires forall d | d in Dims(t) :: SameDim(t, a, b, d)
    ensures t.varyMethod ==> Upper(Trim(a.verb)) == Upper(Trim(b.verb))
    ensures t.projectID ==> Trim(a.project) == Trim(b.project)
    ensures t.userID ==> Trim(a.user) == Trim(b.user)
    ensures t.role ==> Trim(a.role) == Trim(b.role)
    ensures forall q | q in t.queryParams :: SameQuery(a, b, q)
  {
    FlagsSelected(t);
    if t.varyMethod {
      assert SameDim(t, a, b, Method);
    }
    if t.projectID {
      assert SameDim(t, a, b, Project);
    }
    if t.userID {
      assert SameDim(t, a, b, User);
    }
    if t.role {
      assert SameDim(t, a, b, Role);
    }
    if t.queryParams != [] {
      assert SameDim(t, a, b, QueryHash);
    }
  }

  lemma SelectedHasDim(t: Template, a: Request, b: Request, d: Dim)
    requires SameSelected(t, a, b) && d in Dims(t)
    ensures SameDim(t, a, b, d)
  {
    DimSelected(t, d);
  }

  /** The dimensions are those the template selects, all of them and no other. */
  lemma SameDimsExactlyWhen(t: Template, a: Request, b: Request)
    ensures SameSelected(t, a, b)
            <==> (forall d | d in Dims(t) :: SameDim(t, a, b, d))
                 && (t.allowAuthenticated ==> a.hasPrincipal == b.hasPrincipal)
  {
    if forall d | d in Dims(t) :: SameDim(t, a, b, d) {
      DimsHavePaths(t, a, b);
      DimsHaveHeaders(t, a, b);
      DimsHaveFlags(t, a, b);
    }
    if SameSelected(t, a, b) {
      forall d | d in Dims(t) ensures SameDim(t, a, b, d) {
        SelectedHasDim(t, a, b, d);
      }
    }
  }

  // ---------------------------------------------------------------- joined values

  lemma JoinNonBlank(values: seq<string>)
    requires AllFree(values, ',') && Join(values, ',') == ""
    ensures Blank(values)
  {
  }

  lemma JoinExactlyWhen(u: seq<string>, v: seq<string>)
    requires CommaSafe(u, v)
    ensures Join(u, ',') == Join(v, ',') <==> SameList(u, v)
  {
    if Join(u, ',') == Join(v, ',') {
      if |u| <= 1 && |v| <= 1 {
        assert u == [] || u == [Join(u, ',')];
        assert v == [] || v == [Join(v, ',')];
      } else if u == [] || v == [] {
        JoinNonBlank(u);
        JoinNonBlank(v);
      } else {
        JoinInjective(u, v, ',');
      }
    }
  }

  lemma SortedBag(values: seq<string>, c: char)
    ensures AllFree(values, c) ==> AllFree(Sort(values), c)
    ensures |Sort(values)| == |values|
    ensures Blank(Sort(values)) ==> Blank(values)
  {
    Tags.SortLength(values);
    forall x | x in Sort(values) ensures x in values {
      assert x in multiset(Sort(values));
    }
    if Sort(values) == [""] {
      assert multiset(values) == multiset{""};
      assert values[0] in multiset(values);
      assert values == [values[0]];
    }
  }

  lemma BlankSorted(values: seq<string>)
    ensures Blank(values) ==> Join(Sort(values), ',') == ""
  {
  }

  lemma SortedExactlyWhen(u: seq<string>, v: seq<string>)
    requires CommaSafe(u, v)
    ensures Join(Sort(u), ',') == Join(Sort(v), ',') <==> SameBag(u, v)
  {
    SortedBag(u, ',');
    SortedBag(v, ',');
    JoinExactlyWhen(Sort(u), Sort(v));
    SortExactlyWhen(u, v);
    BlankSorted(u);
    BlankSorted(v);
  }

  lemma TrimFree(s: string, c: char)
    requires Free(s, c)
    ensures Free(Trim(s), c)
  {
    Tags.TrimPart(s);
  }

  lemma UpperFree(s: string)
    requires Free(s, '|')
    ensures Free(Upper(s), '|')
  {
    forall i | 0 <= i < |s| ensures Upper(s)[i] != '|' {
      assert s[i] in s;
    }
  }

  /** A dimension is only there if the template selects it. */
  lemma DimSelected(t: Template, d: Dim)
    requires d in Dims(t)
    ensures d.Method? ==> t.varyMethod
    ensures d.Project? ==> t.projectID
    ensures d.User? ==> t.userID
    ensures d.Role? ==> t.role
    ensures d.Path? ==> d.param in t.pathParams
    ensures d.Header? ==> d.name in t.headers
    ensures d.QueryHash? ==> t.queryParams != []
  {
  }

  lemma HeaderFree(t: Template, req: Request, name: string)
    requires PlainRequest(t, req) && name in t.headers
    ensures Free(Join(Values(req.headers, name), ','), '|')
  {
    Tags.JoinFree(Values(req.headers, name), ',', '|');
  }

  lemma DimValueFree(t: Template, route: string, req: Request, hash: string -> string, d: Dim)
    requires Injective(hash) && PlainTemplate(t, route) && PlainRequest(t, req) && d in Dims(t)
    ensures Free(DimValue(t, route, req, hash, d), '|')
  {
    DimSelected(t, d);
    match d
    case Method =>
      TrimFree(req.verb, '|');
      UpperFree(Trim(req.verb));
    case Project => TrimFree(req.project, '|');
    case User => TrimFree(req.user, '|');
    case Role => TrimFree(req.role, '|');
    case Path(param) => TrimFree(PathValue(req, param), '|');
    case Header(name) => HeaderFree(t, req, name);
    case _ =>
  }

  lemma DimPartsFree(t: Template, route: string, req: Request, hash: string -> string)
    requires Injective(hash) && PlainTemplate(t, route) && PlainRequest(t, req)
    ensures AllFree(DimParts(t, route, req, hash), '|')
  {
    var parts := DimParts(t, route, req, hash);
    forall x | x in parts ensures Free(x, '|') {
      var i :| 0 <= i < |parts| && parts[i] == x;
      assert Dims(t)[i] in Dims(t);
      DimValueFree(t, route, req, hash, Dims(t)[i]);
    }
  }

  lemma CursorNames()
    ensures Lower(Trim("cursor")) == "cursor" && Lower(Trim("pagination.cursor")) == "pagination.cursor"
  {
    TrimTrimmed("cursor");
    TrimTrimmed("pagination.cursor");
  }

  lemma NotBypassedBlank(t: Template, route: string, req: Request, name: string)
    requires PlainTemplate(t, route) && !Bypassed(t, req)
    requires name in t.queryParams && IsCursorLike(name)
    ensures Trim(Get(req.query, name)) == ""
  {
    CursorNames();
    assert name in ["cursor", "pagination.cursor"];
    assert Lower(Trim(name)) in ["cursor", "pagination.cursor"];
  }

  /** Requests are kept from the cache exactly where the template varies by a cursor and the
      request holds one under either known name: first pages never are. */
  lemma BypassedExactlyWhen(t: Template, req: Request)
    requires KnownCursors(t)
    ensures Bypassed(t, req)
            <==> (exists name :: name in t.queryParams && IsCursorLike(name))
                 && (Trim(Get(req.query, "cursor")) != "" || Trim(Get(req.query, "pagination.cursor")) != "")
  {
    CursorNames();
    if Bypassed(t, req) {
      var name :| name in t.queryParams && Lower(Trim(name)) in ["cursor", "pagination.cursor"];
      KnownIsCursorLike(name);
    }
  }

  lemma KnownIsCursorLike(name: string)
    requires Lower(Trim(name)) in ["cursor", "pagination.cursor"]
    ensures IsCursorLike(name)
  {
    assert "pagination.cursor"[10..] == ".cursor";
  }

  /** Every name that ends in .cursor is collapsed. */
  lemma SuffixIsCursorLike(head: string)
    requires head != "" ==> !IsSpace(head[0])
    ensures IsCursorLike(head + ".cursor")
  {
    var name := head + ".cursor";
    TrimTrimmed(name);
    assert Lower(name)[|head|..] == ".cursor";
  }

  lemma QueryTextFree(req: Request, name: string)
    requires name in req.query && !IsCursorLike(name) ==> AllFree(req.query[name], '&')
    ensures Free(QueryText(req.query, name), '&')
  {
    if IsCursorLike(name) {
      assert QueryText(req.query, name) in ["", "__present__"];
    } else {
      SortedBag(Values(req.query, name), '&');
      Tags.JoinFree(Sort(Values(req.query, name)), ',', '&');
    }
  }

  lemma QueryPartsFree(t: Template, route: string, req: Request)
    requires PlainTemplate(t, route) && PlainRequest(t, req)
    ensures AllFree(QueryParts(req.query, t.queryParams), '&')
  {
    var parts := QueryParts(req.query, t.queryParams);
    forall x | x in parts ensures Free(x, '&') {
      var i :| 0 <= i < |parts| && parts[i] == x;
      assert t.queryParams[i] in t.queryParams;
      QueryTextFree(req, t.queryParams[i]);
    }
  }

  lemma CursorText(query: map<string, seq<string>>, name: string)
    requires IsCursorLike(name)
    ensures QueryText(query, name) == if AnyNonBlank(Values(query, name)) then "__present__" else ""
  {
  }

  /** Two requests that reach key building show the same text for a parameter if and only if they
      ask for the same values or page. */
  lemma QueryTextExactlyWhen(t: Template, route: string, a: Request, b: Request, name: string)
    requires PlainTemplate(t, route) && Comparable(t, a, b) && name in t.queryParams
    requires !Bypassed(t, a) && !Bypassed(t, b)
    ensures QueryText(a.query, name) == QueryText(b.query, name) <==> SameQuery(a, b, name)
  {
    if IsCursorLike(name) {
      NotBypassedBlank(t, route, a, name);
      NotBypassedBlank(t, route, b, name);
      CursorText(a.query, name);
      CursorText(b.query, name);
    } else {
      SortedExactlyWhen(Values(a.query, name), Values(b.query, name));
    }
  }

  lemma SamePartSameText(name: string, u: string, v: string)
    requires name + ("=" + u) == name + ("=" + v)
    ensures u == v
  {
    SameRest(name, "=" + u, "=" + v);
    assert ("=" + u)[1..] == u && ("=" + v)[1..] == v;
  }

  lemma SameQueryParts(a: Request, b: Request, names: seq<string>, i: nat)
    requires i < |names| && QueryParts(a.query, names) == QueryParts(b.query, names)
    ensures QueryText(a.query, names[i]) == QueryText(b.query, names[i])
  {
    assert QueryParts(a.query, names)[i] == QueryParts(b.query, names)[i];
    SamePartSameText(names[i], QueryText(a.query, names[i]), QueryText(b.query, names[i]));
  }

  lemma SameQueryTexts(a: Request, b: Request, names: seq<string>)
    requires forall name | name in names :: QueryText(a.query, name) == QueryText(b.query, name)
    ensures QueryParts(a.query, names) == QueryParts(b.query, names)
  {
    forall i | 0 <= i < |names| ensures QueryParts(a.query, names)[i] == QueryParts(b.query, names)[i] {
      assert names[i] in names;
    }
  }

  lemma QueryExactlyWhen(t: Template, route: string, a: Request, b: Request)
    requires PlainTemplate(t, route) && PlainRequest(t, a) && PlainRequest(t, b) && t.queryParams != []
    ensures CanonicalQuery(a.query, t.queryParams) == CanonicalQuery(b.query, t.queryParams)
            <==> forall name | name in t.queryParams :: QueryText(a.query, name) == QueryText(b.query, name)
  {
    var names := t.queryParams;
    if CanonicalQuery(a.query, names) == CanonicalQuery(b.query, names) {
      QueryPartsFree(t, route, a);
      QueryPartsFree(t, route, b);
      JoinInjective(QueryParts(a.query, names), QueryParts(b.query, names), '&');
      forall name | name in names ensures QueryText(a.query, name) == QueryText(b.query, name) {
        var i :| 0 <= i < |names| && names[i] == name;
        SameQueryParts(a, b, names, i);
      }
    }
    if forall name | name in names :: QueryText(a.query, name) == QueryText(b.query, name) {
      SameQueryTexts(a, b, names);
    }
  }

  lemma QueryHashExactlyWhen(t: Template, route: string, a: Request, b: Request)
    requires PlainTemplate(t, route) && PlainRequest(t, a) && PlainRequest(t, b) && Comparable(t, a, b)
    requires !Bypassed(t, a) && !Bypassed(t, b) && t.queryParams != []
    ensures CanonicalQuery(a.query, t.queryParams) == CanonicalQuery(b.query, t.queryParams)
            <==> SameDim(t, a, b, QueryHash)
  {
    QueryExactlyWhen(t, route, a, b);
    forall name | name in t.queryParams
      ensures QueryText(a.query, name) == QueryText(b.query, name) <==> SameQuery(a, b, name) {
      QueryTextExactlyWhen(t, route, a, b, name);
    }
  }

  lemma SameRest(head: string, u: string, v: string)
    requires head + u == head + v
    ensures u == v
  {
    assert u == (head + u)[|head|..] && v == (head + v)[|head|..];
  }

  lemma DimValueExactlyWhen(t: Template, route: string, a: Request, b: Request, hash: string -> string, d: Dim)
    requires Injective(hash) && PlainTemplate(t, route)
    requires PlainRequest(t, a) && PlainRequest(t, b) && Comparable(t, a, b)
    requires !Bypassed(t, a) && !Bypassed(t, b) && d in Dims(t)
    ensures DimValue(t, route, a, hash, d) == DimValue(t, route, b, hash, d) <==> SameDim(t, a, b, d)
  {
    DimSelected(t, d);
    match d
    case QueryHash => QueryHashExactlyWhen(t, route, a, b);
    case Header(name) => JoinExactlyWhen(Values(a.headers, name), Values(b.headers, name));
    case _ =>
  }

  /** What follows the dimensions says whether the caller was authenticated and which tag
      versions were read. */
  lemma TailsUnique(t: Template, a: Request, ra: TagRead, b: Request, rb: TagRead)
    requires AuthTail(t, a) + TagTail(ra) == AuthTail(t, b) + TagTail(rb)
    ensures AuthTail(t, a) == AuthTail(t, b) && TagTail(ra) == TagTail(rb)
  {
    var x, y := AuthTail(t, a) + TagTail(ra), AuthTail(t, b) + TagTail(rb);
    if AuthTail(t, a) != "" {
      assert x[1] == 'a';
    } else if TagTail(ra) != "" {
      assert x[1] == 't';
    }
    if AuthTail(t, b) != "" {
      assert y[1] == 'a';
    } else if TagTail(rb) != "" {
      assert y[1] == 't';
    }
    assert AuthTail(t, a) == AuthTail(t, b);
    assert TagTail(ra) == x[|AuthTail(t, a)|..] && TagTail(rb) == y[|AuthTail(t, b)|..];
  }

  /** The parts of two requests are the same if and only if the requests agree on every
      dimension. */
  lemma PartsExactlyWhen(t: Template, route: string, a: Request, b: Request, hash: string -> string)
    requires Injective(hash) && PlainTemplate(t, route)
    requires PlainRequest(t, a) && PlainRequest(t, b) && Comparable(t, a, b)
    requires !Bypassed(t, a) && !Bypassed(t, b)
    ensures DimParts(t, route, a, hash) == DimParts(t, route, b, hash)
            <==> forall d | d in Dims(t) :: SameDim(t, a, b, d)
  {
    var f, g := DimParts(t, route, a, hash), DimParts(t, route, b, hash);
    if f == g {
      forall d | d in Dims(t) ensures SameDim(t, a, b, d) {
        var i :| 0 <= i < |Dims(t)| && Dims(t)[i] == d;
        assert f[i] == g[i];
        SameRest(DimText(d), DimValue(t, route, a, hash, d), DimValue(t, route, b, hash, d));
        DimValueExactlyWhen(t, route, a, b, hash, d);
      }
    }
    if forall d | d in Dims(t) :: SameDim(t, a, b, d) {
      forall i | 0 <= i < |Dims(t)| ensures f[i] == g[i] {
        assert Dims(t)[i] in Dims(t);
        DimValueExactlyWhen(t, route, a, b, hash, Dims(t)[i]);
      }
    }
  }

  lemma SameRoute(t: Template, routeA: string, a: Request, routeB: string, b: Request, hash: string -> string)
    requires DimParts(t, routeA, a, hash) == DimParts(t, routeB, b, hash)
    ensures routeA == routeB
  {
    var f, g := DimParts(t, routeA, a, hash), DimParts(t, routeB, b, hash);
    assert f[0] == g[0];
    SameRest(DimText(Route), routeA, routeB);
  }

  lemma SameCanonical(t: Template, routeA: string, a: Request, ra: TagRead, routeB: string, b: Request, rb: TagRead,
                      hash: string -> string)
    requires Injective(hash) && PlainTemplate(t, routeA) && PlainTemplate(t, routeB)
    requires PlainRequest(t, a) && PlainRequest(t, b)
    requires AllFree(ra.tags, ',') && AllFree(rb.tags, ',')
    requires Canonical(t, routeA, a, ra, hash) == Canonical(t, routeB, b, rb, hash)
    ensures DimParts(t, routeA, a, hash) == DimParts(t, routeB, b, hash)
    ensures routeA == routeB && AuthTail(t, a) == AuthTail(t, b) && SameTags(ra, rb)
  {
    DimPartsFree(t, routeA, a, hash);
    DimPartsFree(t, routeB, b, hash);
    JoinUnique(DimParts(t, routeA, a, hash), AuthTail(t, a) + TagTail(ra),
               DimParts(t, routeB, b, hash), AuthTail(t, b) + TagTail(rb), '|');
    SameRoute(t, routeA, a, routeB, b, hash);
    TailsUnique(t, a, ra, b, rb);
    SameTagTail(ra, rb);
  }

  /** Two requests share a canonical key if and only if they are for one route, agree on
      everything the template varies by, and have read the same tags at the same versions. */
  lemma SameKeyExactlyWhen(t: Template, routeA: string, a: Request, ra: TagRead,
                           routeB: string, b: Request, rb: TagRead, hash: string -> string)
    requires Injective(hash) && PlainTemplate(t, routeA) && PlainTemplate(t, routeB)
    requires PlainRequest(t, a) && PlainRequest(t, b) && Comparable(t, a, b)
    requires !Bypassed(t, a) && !Bypassed(t, b)
    requires AllFree(ra.tags, ',') && AllFree(rb.tags, ',')
    ensures Canonical(t, routeA, a, ra, hash) == Canonical(t, routeB, b, rb, hash)
            <==> routeA == routeB && SameSelected(t, a, b) && SameTags(ra, rb)
  {
    SameDimsExactlyWhen(t, a, b);
    PartsExactlyWhen(t, routeA, a, b, hash);
    if Canonical(t, routeA, a, ra, hash) == Canonical(t, routeB, b, rb, hash) {
      SameCanonical(t, routeA, a, ra, routeB, b, rb, hash);
    }
    if SameTags(ra, rb) {
      assert Tags.TokenParts(ra.tags, ra.versions) == Tags.TokenParts(rb.tags, rb.versions);
    }
  }

  lemma SameTagTail(ra: TagRead, rb: TagRead)
    requires AllFree(ra.tags, ',') && AllFree(rb.tags, ',') && TagTail(ra) == TagTail(rb)
    ensures SameTags(ra, rb)
  {
    if ra.tags != [] {
      assert TagTail(rb) != "";
      var u, v := Tags.TokenText(ra.tags, ra.versions), Tags.TokenText(rb.tags, rb.versions);
      assert u == TagTail(ra)[6..] && v == TagTail(rb)[6..];
      Tags.TokenInjective(ra.tags, ra.versions, rb.tags, rb.versions);
    } else {
      assert TagTail(rb) == "";
    }
  }

  // ---------------------------------------------------------------- which cursors may be collapsed

  /** Plain requests that reach key building and share a key agree on all the template selects. */
  ghost predicate KeysSeparate(t: Template, route: string, hash: string -> string) {
    forall a: Request, ra: TagRead, b: Request, rb: TagRead ::
      && PlainRequest(t, a) && PlainRequest(t, b) && Comparable(t, a, b) && !Bypassed(t, a) && !Bypassed(t, b)
      && AllFree(ra.tags, ',') && AllFree(rb.tags, ',')
      && Canonical(t, route, a, ra, hash) == Canonical(t, route, b, rb, hash)
      ==> SameSelected(t, a, b)
  }

  function PageRequest(name: string, page: string): Request {
    Request("GET", false, "", "", "", map[], map[], map[name := [page]])
  }

  lemma PresentIsCollapsed(name: string, page: string)
    requires IsCursorLike(name) && Trim(page) != ""
    ensures QueryText(PageRequest(name, page).query, name) == "__present__"
  {
    assert page in Values(PageRequest(name, page).query, name);
    assert QueryValues(PageRequest(name, page).query, name) == ["__present__"];
  }

  lemma PagesLookAlike(name: string, x: string, y: string, other: string)
    requires IsCursorLike(name) && Trim(x) != "" && Trim(y) != ""
    ensures QueryText(PageRequest(name, x).query, other) == QueryText(PageRequest(name, y).query, other)
  {
    if other == name {
      PresentIsCollapsed(name, x);
      PresentIsCollapsed(name, y);
    } else {
      assert Values(PageRequest(name, x).query, other) == Values(PageRequest(name, y).query, other);
    }
  }

  lemma PagesShareKey(t: Template, route: string, name: string, x: string, y: string, hash: string -> string)
    requires IsCursorLike(name) && Trim(x) != "" && Trim(y) != ""
    ensures Canonical(t, route, PageRequest(name, x), TagRead([], map[]), hash)
         == Canonical(t, route, PageRequest(name, y), TagRead([], map[]), hash)
  {
    var a, b := PageRequest(name, x), PageRequest(name, y);
    forall other ensures QueryText(a.query, other) == QueryText(b.query, other) {
      PagesLookAlike(name, x, y, other);
    }
    assert QueryParts(a.query, t.queryParams) == QueryParts(b.query, t.queryParams);
    forall d ensures DimValue(t, route, a, hash, d) == DimValue(t, route, b, hash, d) {
    }
    assert DimParts(t, route, a, hash) == DimParts(t, route, b, hash);
  }

  lemma UnknownNotBypassed(t: Template, name: string, page: string)
    requires IsCursorLike(name) && name !in ["cursor", "pagination.cursor"]
    ensures PlainRequest(t, PageRequest(name, page)) && !Bypassed(t, PageRequest(name, page))
  {
    var req := PageRequest(name, page);
    assert Get(req.query, "cursor") == "" && Get(req.query, "pagination.cursor") == "";
  }

  /** A cursor the bypass does not know is collapsed all the same: any two of its pages share
      one key. */
  lemma UnknownCursorMerges(t: Template, route: string, name: string, x: string, y: string, hash: string -> string)
    requires name in t.queryParams && IsCursorLike(name) && name !in ["cursor", "pagination.cursor"]
    requires Trim(x) != "" && Trim(y) != "" && x != y
    ensures
      var a, b := PageRequest(name, x), PageRequest(name, y);
      && PlainRequest(t, a) && PlainRequest(t, b) && Comparable(t, a, b) && !Bypassed(t, a) && !Bypassed(t, b)
      && Canonical(t, route, a, TagRead([], map[]), hash) == Canonical(t, route, b, TagRead([], map[]), hash)
      && !SameSelected(t, a, b)
  {
    UnknownNotBypassed(t, name, x);
    UnknownNotBypassed(t, name, y);
    PagesShareKey(t, route, name, x, y, hash);
    PagesDiffer(t, name, x, y);
  }

  lemma PagesDiffer(t: Template, name: string, x: string, y: string)
    requires name in t.queryParams && Trim(x) != "" && x != y
    ensures !SameSelected(t, PageRequest(name, x), PageRequest(name, y))
  {
    assert !SameQuery(PageRequest(name, x), PageRequest(name, y), name);
  }

  /** Collapsing cursors never merges two pages if and only if every cursor-like parameter of
      the template has one of the two names the bypass knows. */
  lemma KeysSeparateExactlyWhen(t: Template, route: string, hash: string -> string)
    requires Injective(hash) && SeparatorFree(t, route)
    ensures KeysSeparate(t, route, hash) <==> KnownCursors(t)
  {
    if KnownCursors(t) {
      forall a: Request, ra: TagRead, b: Request, rb: TagRead |
        && PlainRequest(t, a) && PlainRequest(t, b) && Comparable(t, a, b) && !Bypassed(t, a) && !Bypassed(t, b)
        && AllFree(ra.tags, ',') && AllFree(rb.tags, ',')
        && Canonical(t, route, a, ra, hash) == Canonical(t, route, b, rb, hash)
        ensures SameSelected(t, a, b)
      {
        SameKeyExactlyWhen(t, route, a, ra, route, b, rb, hash);
      }
    } else {
      var name :| name in t.queryParams && IsCursorLike(name) && name !in ["cursor", "pagination.cursor"];
      assert Trim("1") == "1" && Trim("2") == "2";
      UnknownCursorMerges(t, route, name, "1", "2", hash);
    }
  }

  // ---------------------------------------------------------------- values with a separator

  function HeaderRequest(name: string, values: seq<string>): Request {
    Request("GET", false, "", "", "", map[], map[name := values], map[])
  }

  lemma HeaderValuesAlike(t: Template, route: string, a: Request, b: Request, hash: string -> string, d: Dim)
    requires b == a.(headers := b.headers)
    requires forall name :: Join(Values(a.headers, name), ',') == Join(Values(b.headers, name), ',')
    ensures DimValue(t, route, a, hash, d) == DimValue(t, route, b, hash, d)
  {
  }

  lemma HeadersShareKey(t: Template, route: string, a: Request, b: Request, hash: string -> string)
    requires b == a.(headers := b.headers)
    requires forall name :: Join(Values(a.headers, name), ',') == Join(Values(b.headers, name), ',')
    ensures Canonical(t, route, a, TagRead([], map[]), hash) == Canonical(t, route, b, TagRead([], map[]), hash)
  {
    forall d ensures DimValue(t, route, a, hash, d) == DimValue(t, route, b, hash, d) {
      HeaderValuesAlike(t, route, a, b, hash, d);
    }
    assert DimParts(t, route, a, hash) == DimParts(t, route, b, hash);
  }

  lemma JoinedAlike(name: string, values: seq<string>, other: string)
    ensures Join(Values(HeaderRequest(name, values).headers, other), ',')
         == Join(Values(HeaderRequest(name, [Join(values, ',')]).headers, other), ',')
  {
  }

  lemma JoinedDiffer(t: Template, name: string, values: seq<string>, joined: string)
    requires |values| > 1 && name in t.headers
    ensures !SameSelected(t, HeaderRequest(name, values), HeaderRequest(name, [joined]))
  {
  }

  /** Why repeated values must hold no comma: several values of a header share a key with the
      one value that joins them. */
  lemma CommasMerge(t: Template, route: string, name: string, values: seq<string>, hash: string -> string)
    requires name in t.headers && |values| > 1
    ensures
      var a, b := HeaderRequest(name, values), HeaderRequest(name, [Join(values, ',')]);
      && Canonical(t, route, a, TagRead([], map[]), hash) == Canonical(t, route, b, TagRead([], map[]), hash)
      && !SameSelected(t, a, b)
  {
    var a, b := HeaderRequest(name, values), HeaderRequest(name, [Join(values, ',')]);
    forall other ensures Join(Values(a.headers, other), ',') == Join(Values(b.headers, other), ',') {
      JoinedAlike(name, values, other);
    }
    HeadersShareKey(t, route, a, b, hash);
    JoinedDiffer(t, name, values, Join(values, ','));
  }

  function PairRequest(a: string, b: string): Request {
    Request("GET", false, "", "", "", map["a" := a, "b" := b], map[], map[])
  }

  const PAIR_TEMPLATE := Template(false, false, false, false, ["a", "b"], [], [], false)

  lemma JoinThree(x: string, y: string, z: string)
    ensures Join([x, y, z], '|') == x + ['|'] + (y + ['|'] + z)
  {
    var p := [x, y, z];
    var q := p[1..];
    assert Join(q[1..], '|') == z;
    assert Join(q, '|') == y + ['|'] + z;
  }

  lemma PairCanonical(route: string, a: string, b: string, hash: string -> string)
    requires Trim(a) == a && Trim(b) == b
    ensures Canonical(PAIR_TEMPLATE, route, PairRequest(a, b), TagRead([], map[]), hash)
            == "route=" + route + ['|'] + (DimText(Path("a")) + a + ['|'] + (DimText(Path("b")) + b))
  {
    var req := PairRequest(a, b);
    assert Dims(PAIR_TEMPLATE) == [Route, Path("a"), Path("b")];
    assert DimParts(PAIR_TEMPLATE, route, req, hash)
        == ["route=" + route, DimText(Path("a")) + a, DimText(Path("b")) + b];
    JoinThree("route=" + route, DimText(Path("a")) + a, DimText(Path("b")) + b);
    assert AuthTail(PAIR_TEMPLATE, req) + TagTail(TagRead([], map[])) == "";
    NothingAfter(Join(DimParts(PAIR_TEMPLATE, route, req, hash), '|'));
  }

  lemma NothingAfter(s: string)
    ensures s + "" == s
  {
  }

  lemma Regroup(head: string, pa: string, u: string, bar: string, pb: string, v: string, w: string)
    ensures head + bar + (pa + u + bar + (pb + (v + (bar + pb) + w)))
         == head + bar + (pa + (u + (bar + pb) + v) + bar + (pb + w))
  {
    assert pb + (v + (bar + pb) + w) == pb + v + bar + pb + w;
    assert pa + u + bar + (pb + v + bar + pb + w) == pa + u + bar + pb + v + bar + pb + w;
    assert pa + (u + (bar + pb) + v) == pa + u + bar + pb + v;
  }

  predicate Merge(u: string, v: string, w: string, x: string, y: string) {
    var mid := ['|'] + DimText(Path("b"));
    x == v + mid + w && y == u + mid + v
  }

  /** A separator inside a value does merge requests: whenever one path parameter carries
      the text of the next, two different requests share one canonical key. */
  lemma SeparatorsMerge(route: string, u: string, v: string, w: string, x: string, y: string, hash: string -> string)
    requires Merge(u, v, w, x, y)
    requires Trim(u) == u && Trim(w) == w && Trim(x) == x && Trim(y) == y
    ensures Canonical(PAIR_TEMPLATE, route, PairRequest(u, x), TagRead([], map[]), hash)
         == Canonical(PAIR_TEMPLATE, route, PairRequest(y, w), TagRead([], map[]), hash)
    ensures !SameSelected(PAIR_TEMPLATE, PairRequest(u, x), PairRequest(y, w))
  {
    PairCanonical(route, u, x, hash);
    PairCanonical(route, y, w, hash);
    Regroup("route=" + route, DimText(Path("a")), u, ['|'], DimText(Path("b")), v, w);
    assert |y| > |u| && PathValue(PairRequest(y, w), "a") == y && PathValue(PairRequest(u, x), "a") == u;
    assert "a" in PAIR_TEMPLATE.pathParams;
  }
}
