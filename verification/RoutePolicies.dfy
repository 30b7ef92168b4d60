/**
 Route policies: what each one does to a request, how they are composed, and the static
 validator, which is shown to be a sound (and for caching an exact) check of the composition.
 */
module RoutePolicies {
  import opened Text
  import opened PermissionBits

  // ---------------------------------------------------------------- policies and requests

  datatype PolicyType =
    | NoopType | RequireJsonType | WithHeaderType | CustomType | AuthRequiredType | ProjectRequiredType
    | ProjectMatchType | ResolvePermissionsType | RequirePermissionType | RequireAnyType | RequireAllType
    | RateLimitType | CacheReadType | CacheInvalidateType | CacheControlType

  /** What a cache policy was configured with, as far as validation and safety go. */
  datatype CacheConfig = CacheConfig(shared: bool, varyUser: bool, varyProject: bool, methods: seq<string>)

  datatype Policy =
    | Nil
    | Plain(kind: PolicyType)
    | AuthRequired
    | ProjectRequired
    | ProjectMatch(param: string)
    | ResolvePermissions
    | RequirePermission(perm: bv64)
    | RequireAny(perms: seq<bv64>)
    | RequireAll(perms: seq<bv64>)
    | RateLimit
    | CacheRead(config: CacheConfig)

  /** What the constructors insist on, and that no policy is missing; Plain stands for the
      policies that pass the principal on as it is. */
  predicate WellFormed(p: Policy) {
    match p
    case Nil => false
    case Plain(kind) =>
      kind in {NoopType, RequireJsonType, WithHeaderType, CustomType, CacheInvalidateType, CacheControlType}
    case ProjectMatch(param) => Trim(param) == param && param != ""
    case RequirePermission(perm) => perm != 0
    case RequireAny(perms) => Required(perms) != []
    case RequireAll(perms) => Required(perms) != []
    case _ => true
  }

  /** normalizeRequiredPermissions. */
  function Required(perms: seq<bv64>): seq<bv64> {
    if perms == [] then []
    else if perms[0] != 0 then [perms[0]] + Required(perms[1..])
    else Required(perms[1..])
  }

  lemma {:induction false} RequiredAreNonZero(perms: seq<bv64>)
    ensures forall perm :: perm in Required(perms) <==> perm in perms && perm != 0
  {
    if perms != [] {
      RequiredAreNonZero(perms[1..]);
      assert perms == [perms[0]] + perms[1..];
    }
  }

  datatype Principal = Principal(user: string, project: string, role: string, mask: bv64)

  /** Path parameters as the router and as the server see them. */
  datatype Request = Request(verb: string, urlParam: string -> string, pathValue: string -> string)

  datatype Credentials = Credentials(user: string, role: string, mask: bv64)

  datatype Resolution = Resolution(project: string, role: string, mask: bv64)

  datatype Answer = Resolved(value: Resolution) | Unresolved(status: nat)

  datatype CacheAnswer = Hit | Miss | Bypass | Unavailable(failOpen: bool)

  /** What the outside says to each policy, by its position. */
  datatype World = World(
    credentials: Option<Credentials>,
    resolver: (nat, string, string) -> Answer,
    limiter: nat -> Option<nat>,
    cache: nat -> CacheAnswer,
    other: nat -> Option<nat>)

  datatype Verdict = Forward(principal: Option<Principal>) | Reject(status: nat) | FromCache | Panic

  // ---------------------------------------------------------------- what a policy does

  function FirstNonBlank(values: seq<string>): Option<string> {
    if values == [] then None
    else if Trim(values[0]) != "" then Some(Trim(values[0]))
    else FirstNonBlank(values[1..])
  }

  /** requestProjectID. */
  function PathProject(req: Request): Option<string> {
    FirstNonBlank([req.urlParam("project_id"), req.pathValue("project_id"),
                   req.urlParam("projectId"), req.pathValue("projectId")])
  }

  predicate SameProject(a: string, b: string) {
    Trim(a) != "" && Trim(a) == Trim(b)
  }

  function MaskOf(principal: Option<Principal>): bv64 {
    if principal.Some? then principal.value.mask else 0
  }

  predicate HasPrincipal(principal: Option<Principal>) {
    principal.Some? &&
    (Trim(principal.value.user) != "" || Trim(principal.value.project) != "" || Trim(principal.value.role) != "")
  }

  function Methods(configured: seq<string>): (r: set<string>)
    ensures r != {}
  {
    var named := set m | m in configured && Trim(m) != "" :: Upper(Trim(m));
    if named == {} then {"GET", "HEAD"} else named
  }

  predicate NeedsAnonymous(config: CacheConfig) {
    !config.shared && !config.varyUser && !config.varyProject
  }

  function AfterResolve(p: Principal, r: Resolution): Principal {
    Principal(p.user, if Trim(r.project) != "" then Trim(r.project) else Trim(p.project),
              if Trim(r.role) != "" then Trim(r.role) else p.role, r.mask)
  }

  /** One policy at position i, given the principal in the request context. */
  function Pass(p: Policy, i: nat, principal: Option<Principal>, req: Request, world: World): Verdict {
    match p
    case Nil => Forward(principal)
    case Plain(_) =>
      if world.other(i).Some? then Reject(world.other(i).value) else Forward(principal)
    case AuthRequired =>
      if world.credentials.None? || Trim(world.credentials.value.user) == "" then Reject(401)
      else
        var c := world.credentials.value;
        Forward(Some(Principal(c.user, "", c.role, c.mask)))
    case ProjectRequired =>
      if principal.None? || Trim(principal.value.user) == "" then Reject(401)
      else if PathProject(req).None? then Reject(403)
      else if Trim(principal.value.project) != "" && !SameProject(principal.value.project, PathProject(req).value)
      then Reject(403)
      else Forward(Some(principal.value.(project := PathProject(req).value)))
    case ProjectMatch(param) =>
      if principal.None? then Reject(401)
      else if Trim(req.urlParam(param)) == "" then Reject(400)
      else if Trim(principal.value.project) == "" then Reject(403)
      else if !SameProject(principal.value.project, Trim(req.urlParam(param))) then Reject(403)
      else Forward(principal)
    case ResolvePermissions =>
      if principal.None? || Trim(principal.value.user) == "" then Reject(401)
      else if Trim(principal.value.project) == "" then Reject(403)
      else
        var answer := world.resolver(i, principal.value.user, Trim(principal.value.project));
        if answer.Unresolved? then Reject(answer.status)
        else Forward(Some(AfterResolve(principal.value, answer.value)))
    case RequirePermission(perm) =>
      if HasPerm(MaskOf(principal), perm) then Forward(principal) else Reject(403)
    case RequireAny(perms) =>
      if exists perm | perm in Required(perms) :: HasPerm(MaskOf(principal), perm) then Forward(principal)
      else Reject(403)
    case RequireAll(perms) =>
      if forall perm | perm in Required(perms) :: HasPerm(MaskOf(principal), perm) then Forward(principal)
      else Reject(403)
    case RateLimit =>
      if world.limiter(i).Some? then Reject(world.limiter(i).value) else Forward(principal)
    case CacheRead(config) =>
      if Upper(Trim(req.verb)) !in Methods(config.methods) then Forward(principal)
      else if NeedsAnonymous(config) && HasPrincipal(principal) then Panic
      else
        match world.cache(i)
        case Hit => FromCache
        case Miss => Forward(principal)
        case Bypass => Forward(principal)
        case Unavailable(failOpen) => if failOpen then Forward(principal) else Reject(503)
  }

  // ---------------------------------------------------------------- composition

  datatype Outcome =
    | Handled(principal: Option<Principal>)
    | Rejected(at: nat, status: nat)
    | ServedFromCache(at: nat)
    | Panicked(at: nat)

  /** The policies from position i on, in front of the handler. */
  function Serve(policies: seq<Policy>, i: nat, principal: Option<Principal>, req: Request, world: World): Outcome
    requires i <= |policies|
    decreases |policies| - i
  {
    if i == |policies| then Handled(principal)
    else
      match Pass(policies[i], i, principal, req, world)
      case Forward(next) => Serve(policies, i + 1, next, req, world)
      case Reject(status) => Rejected(i, status)
      case FromCache => ServedFromCache(i)
      case Panic => Panicked(i)
  }

  type Handler = Option<Principal> -> Outcome

  function Wrap(p: Policy, i: nat, next: Handler, req: Request, world: World): Handler {
    (principal: Option<Principal>) =>
      match Pass(p, i, principal, req, world)
      case Forward(passed) => next(passed)
      case Reject(status) => Rejected(i, status)
      case FromCache => ServedFromCache(i)
      case Panic => Panicked(i)
  }

  /** Chain: wrapping from the last policy to the first runs them from the first to the last,
      and missing policies are skipped. */
  method Chain(policies: seq<Policy>, req: Request, world: World) returns (h: Handler)
    ensures forall principal :: h(principal) == Serve(policies, 0, principal, req, world)
  {
    h := (principal: Option<Principal>) => Handled(principal);
    var i: nat := |policies|;
    while i > 0
      invariant i <= |policies|
      invariant forall principal :: h(principal) == Serve(policies, i, principal, req, world)
    {
      i := i - 1;
      if policies[i].Nil? {
        continue;
      }
      h := Wrap(policies[i], i, h, req, world);
    }
  }

  /** The context after the first n policies, if they all passed the request on. */
  function Passed(policies: seq<Policy>, n: nat, req: Request, world: World): Option<Option<Principal>>
    requires n <= |policies|
  {
    if n == 0 then Some(None)
    else
      var before := Passed(policies, n - 1, req, world);
      if before.None? then None
      else
        var verdict := Pass(policies[n - 1], n - 1, before.value, req, world);
        if verdict.Forward? then Some(verdict.principal) else None
  }

  lemma {:induction false} PassedEarlier(policies: seq<Policy>, i: nat, n: nat, req: Request, world: World)
    requires i <= n <= |policies| && Passed(policies, n, req, world).Some?
    ensures Passed(policies, i, req, world).Some?
  {
    if i < n {
      PassedEarlier(policies, i, n - 1, req, world);
    }
  }

  /** Where the composed chain stops: all policies before that position passed the request
      on, and the one at it decided. */
  predicate StopsAt(policies: seq<Policy>, outcome: Outcome, req: Request, world: World) {
    match outcome
    case Handled(principal) => Passed(policies, |policies|, req, world) == Some(principal)
    case Rejected(at, status) => Decides(policies, at, Reject(status), req, world)
    case ServedFromCache(at) => Decides(policies, at, FromCache, req, world)
    case Panicked(at) => Decides(policies, at, Panic, req, world)
  }

  predicate Decides(policies: seq<Policy>, at: nat, verdict: Verdict, req: Request, world: World) {
    && at < |policies| && Passed(policies, at, req, world).Some?
    && Pass(policies[at], at, Passed(policies, at, req, world).value, req, world) == verdict
  }

  lemma {:induction false} ServeStops(policies: seq<Policy>, i: nat, req: Request, world: World)
    requires i <= |policies| && Passed(policies, i, req, world).Some?
    ensures StopsAt(policies, Serve(policies, i, Passed(policies, i, req, world).value, req, world), req, world)
    decreases |policies| - i
  {
    if i < |policies| && Pass(policies[i], i, Passed(policies, i, req, world).value, req, world).Forward? {
      ServeStops(policies, i + 1, req, world);
    }
  }

  // ---------------------------------------------------------------- the validator

  datatype Metadata = Metadata(kind: PolicyType, param: string, shared: bool, varyUser: bool, varyProject: bool)

  /** What a policy is annotated with. */
  function Describe(p: Policy): Metadata {
    match p
    case Nil => Metadata(NoopType, "", false, false, false)
    case Plain(kind) => Metadata(kind, "", false, false, false)
    case AuthRequired => Metadata(AuthRequiredType, "", false, false, false)
    case ProjectRequired => Metadata(ProjectRequiredType, "", false, false, false)
    case ProjectMatch(param) => Metadata(ProjectMatchType, param, false, false, false)
    case ResolvePermissions => Metadata(ResolvePermissionsType, "", false, false, false)
    case RequirePermission(_) => Metadata(RequirePermissionType, "", false, false, false)
    case RequireAny(_) => Metadata(RequireAnyType, "", false, false, false)
    case RequireAll(_) => Metadata(RequireAllType, "", false, false, false)
    case RateLimit => Metadata(RateLimitType, "", false, false, false)
    case CacheRead(c) => Metadata(CacheReadType, "", c.shared, c.varyUser, c.varyProject)
  }

  function DescribeAll(policies: seq<Policy>): (metas: seq<Metadata>)
    ensures |metas| == |policies| && forall i | 0 <= i < |metas| :: metas[i] == Describe(policies[i])
  {
    seq(|policies|, i requires 0 <= i < |policies| => Describe(policies[i]))
  }

  /** policyOrderStage. */
  function Stage(kind: PolicyType): nat {
    match kind
    case AuthRequiredType => 1
    case ProjectRequiredType => 2
    case ProjectMatchType => 2
    case ResolvePermissionsType => 3
    case RequirePermissionType => 4
    case RequireAnyType => 4
    case RequireAllType => 4
    case RateLimitType => 5
    case CacheReadType => 6
    case CacheInvalidateType => 6
    case CacheControlType => 7
    case _ => 0
  }

  predicate IsAt(metas: seq<Metadata>, i: int, kind: PolicyType) {
    0 <= i < |metas| && metas[i].kind == kind
  }

  ghost predicate Has(metas: seq<Metadata>, kind: PolicyType) {
    exists i :: IsAt(metas, i, kind)
  }

  ghost predicate HasRbac(metas: seq<Metadata>) {
    Has(metas, RequirePermissionType) || Has(metas, RequireAnyType) || Has(metas, RequireAllType)
  }

  /** Stages never go down, and the first project match has a project requirement before it
      if the route has one at all. */
  ghost predicate Ordered(metas: seq<Metadata>) {
    StagesAscend(metas) && MatchesAfterRequired(metas)
  }

  predicate InOrder(metas: seq<Metadata>, i: int, j: int) {
    0 <= i < j < |metas| && Stage(metas[i].kind) > 0 && Stage(metas[j].kind) > 0 ==>
      Stage(metas[i].kind) <= Stage(metas[j].kind)
  }

  ghost predicate StagesAscend(metas: seq<Metadata>) {
    forall i, j :: InOrder(metas, i, j)
  }

  ghost predicate MatchesAfterRequired(metas: seq<Metadata>) {
    Has(metas, ProjectRequiredType) ==>
      forall j | IsAt(metas, j, ProjectMatchType) :: exists i | i < j :: IsAt(metas, i, ProjectRequiredType)
  }

  datatype OrderError = OutOfOrder(at: nat, after: PolicyType) | MatchBeforeRequired

  lemma AscendSnoc(metas: seq<Metadata>, last: Metadata, highest: nat)
    requires StagesAscend(metas) && forall i | 0 <= i < |metas| :: Stage(metas[i].kind) <= highest
    requires Stage(last.kind) == 0 || highest <= Stage(last.kind)
    ensures StagesAscend(metas + [last])
  {
    forall i, j ensures InOrder(metas + [last], i, j) {
      assert InOrder(metas, i, j);
    }
  }

  lemma FirstOfSnoc(metas: seq<Metadata>, last: Metadata, kind: PolicyType, index: int)
    requires FirstOf(metas, kind, index)
    ensures FirstOf(metas + [last], kind, if last.kind == kind && index == -1 then |metas| else index)
  {
  }

  lemma OneMoreOrdered(metas: seq<Metadata>, i: nat, highest: nat, required: int, matched: int)
    requires i < |metas| && StagesAscend(metas[..i]) && forall j | 0 <= j < i :: Stage(metas[j].kind) <= highest
    requires Stage(metas[i].kind) == 0 || highest <= Stage(metas[i].kind)
    requires FirstOf(metas[..i], ProjectRequiredType, required) && FirstOf(metas[..i], ProjectMatchType, matched)
    ensures StagesAscend(metas[..i + 1])
    ensures FirstOf(metas[..i + 1], ProjectRequiredType,
                    if metas[i].kind == ProjectRequiredType && required == -1 then i else required)
    ensures FirstOf(metas[..i + 1], ProjectMatchType,
                    if metas[i].kind == ProjectMatchType && matched == -1 then i else matched)
  {
    assert metas[..i + 1] == metas[..i] + [metas[i]];
    AscendSnoc(metas[..i], metas[i], highest);
    FirstOfSnoc(metas[..i], metas[i], ProjectRequiredType, required);
    FirstOfSnoc(metas[..i], metas[i], ProjectMatchType, matched);
  }

  lemma DescentBreaks(metas: seq<Metadata>, j: nat, at: nat)
    requires j < at < |metas| && 0 < Stage(metas[at].kind) < Stage(metas[j].kind)
    ensures !StagesAscend(metas) && Overtakes(metas, at, metas[j].kind)
  {
    assert !InOrder(metas, j, at);
  }

  lemma FirstsDecide(metas: seq<Metadata>, required: int, matched: int)
    requires FirstOf(metas, ProjectRequiredType, required) && FirstOf(metas, ProjectMatchType, matched)
    ensures MatchesAfterRequired(metas) <==> !(required >= 0 && matched >= 0 && matched < required)
  {
    assert required >= 0 ==> IsAt(metas, required, ProjectRequiredType);
    assert matched >= 0 ==> IsAt(metas, matched, ProjectMatchType);
  }

  /** A policy of the given, later stage comes before the one at this position. */
  predicate Overtakes(metas: seq<Metadata>, at: nat, kind: PolicyType)
    requires at < |metas|
  {
    0 < Stage(metas[at].kind) < Stage(kind) && exists j | 0 <= j < at :: metas[j].kind == kind
  }

  /** validatePolicyOrdering. */
  method ValidateOrdering(metas: seq<Metadata>) returns (error: Option<OrderError>)
    ensures error.None? <==> Ordered(metas)
    ensures error.Some? && error.value.OutOfOrder? ==>
              var at := error.value.at;
              at < |metas| && StagesAscend(metas[..at]) && Overtakes(metas, at, error.value.after)
    ensures error.Some? && error.value.MatchBeforeRequired? ==> StagesAscend(metas) && !MatchesAfterRequired(metas)
  {
    var previousStage, previousType := 0, NoopType;
    ghost var previous := 0;
    var required, matched := -1, -1;
    for i := 0 to |metas|
      invariant StagesAscend(metas[..i])
      invariant forall j | 0 <= j < i :: Stage(metas[j].kind) <= previousStage
      invariant previousStage > 0 ==>
                  0 <= previous < i && metas[previous].kind == previousType && Stage(previousType) == previousStage
      invariant FirstOf(metas[..i], ProjectRequiredType, required) && FirstOf(metas[..i], ProjectMatchType, matched)
    {
      var stage := Stage(metas[i].kind);
      if stage > 0 && stage < previousStage {
        DescentBreaks(metas, previous, i);
        return Some(OutOfOrder(i, previousType));
      }
      OneMoreOrdered(metas, i, previousStage, required, matched);
      if stage > 0 {
        previousStage, previousType, previous := stage, metas[i].kind, i;
      }
      if metas[i].kind == ProjectRequiredType {
        if required == -1 {
          required := i;
        }
      } else if metas[i].kind == ProjectMatchType {
        if matched == -1 {
          matched := i;
        }
      }
    }
    assert metas[..|metas|] == metas;
    FirstsDecide(metas, required, matched);
    if required >= 0 && matched >= 0 && matched < required {
      return Some(MatchBeforeRequired);
    }
    return None;
  }

  predicate FirstOf(metas: seq<Metadata>, kind: PolicyType, index: int) {
    && (index == -1 ==> forall i | 0 <= i < |metas| :: metas[i].kind != kind)
    && (index != -1 ==>
          && 0 <= index < |metas| && metas[index].kind == kind
          && forall i | 0 <= i < index :: metas[i].kind != kind)
  }

  predicate Contains(s: string, part: string) {
    |part| <= |s| && (s[..|part|] == part || (s != "" && Contains(s[1..], part)))
  }

  /** routeProjectPathParam. */
  function RouteParam(pattern: string): Option<string> {
    var lowered := Lower(Trim(pattern));
    if Contains(lowered, "{project_id}") then Some("project_id")
    else if Contains(lowered, "{projectid}") then Some("projectid")
    else None
  }

  ghost predicate AuthDependencies(metas: seq<Metadata>) {
    Has(metas, AuthRequiredType)
    || !(HasRbac(metas) || Has(metas, ProjectRequiredType) || Has(metas, ResolvePermissionsType))
  }

  ghost predicate ProjectRules(pattern: string, metas: seq<Metadata>) {
    var path := RouteParam(pattern);
    && (Has(metas, ProjectRequiredType) ==> path.Some? && Has(metas, ProjectMatchType))
    && (Has(metas, ProjectMatchType) ==> Has(metas, ProjectRequiredType))
    && (path.Some? ==>
          && Has(metas, ProjectRequiredType) && Has(metas, ProjectMatchType)
          && forall i | IsAt(metas, i, ProjectMatchType) :: Lower(Trim(metas[i].param)) == path.value)
  }

  ghost predicate ResolverRules(metas: seq<Metadata>) {
    && (Has(metas, ResolvePermissionsType) ==> Has(metas, ProjectRequiredType))
    && (HasRbac(metas) ==> Has(metas, ResolvePermissionsType))
  }

  ghost predicate CacheSafety(metas: seq<Metadata>) {
    Has(metas, AuthRequiredType) ==>
      forall i | IsAt(metas, i, CacheReadType) ::
        metas[i].shared || metas[i].varyUser || metas[i].varyProject
  }

  /** validateRouteRules but for the caching rule. */
  ghost predicate AcceptsButCache(pattern: string, metas: seq<Metadata>) {
    Ordered(metas) && AuthDependencies(metas) && ProjectRules(pattern, metas) && ResolverRules(metas)
  }

  /** ValidateRouteMetadata; an empty list is accepted on any pattern. */
  ghost predicate Accepts(pattern: string, metas: seq<Metadata>) {
    Trim(pattern) != "" && (metas == [] || (AcceptsButCache(pattern, metas) && CacheSafety(metas)))
  }

  // ---------------------------------------------------------------- soundness

  predicate AllWellFormed(policies: seq<Policy>) {
    forall p | p in policies :: WellFormed(p)
  }

  /** The types of the first n policies. */
  function KindsBefore(policies: seq<Policy>, n: nat): set<PolicyType>
    requires n <= |policies|
  {
    if n == 0 then {} else KindsBefore(policies, n - 1) + {Describe(policies[n - 1]).kind}
  }

  predicate HasBefore(policies: seq<Policy>, n: nat, kind: PolicyType)
    requires n <= |policies|
  {
    kind in KindsBefore(policies, n)
  }

  lemma {:induction false} HasBeforeAt(policies: seq<Policy>, n: nat, kind: PolicyType)
    requires n <= |policies|
    ensures HasBefore(policies, n, kind) <==> exists i | 0 <= i < n :: Describe(policies[i]).kind == kind
  {
    if n > 0 {
      HasBeforeAt(policies, n - 1, kind);
    }
  }

  predicate IsRbac(p: Policy) {
    p.RequirePermission? || p.RequireAny? || p.RequireAll?
  }

  function AnsweredProject(answer: Answer, asked: string): string {
    if answer.Resolved? && Trim(answer.value.project) != "" then Trim(answer.value.project) else asked
  }

  /** The project in effect after n policies, for this user: the one in the path, or what
      the resolver has made of it. */
  function Scope(policies: seq<Policy>, n: nat, user: string, req: Request, world: World): string
    requires n <= |policies|
  {
    if n == 0 then (if PathProject(req).Some? then PathProject(req).value else "")
    else
      var before := Scope(policies, n - 1, user, req, world);
      if policies[n - 1].ResolvePermissions? then AnsweredProject(world.resolver(n - 1, user, before), before)
      else before
  }

  /** The mask in the resolver's last answer for this user and the project in effect. */
  function Granted(policies: seq<Policy>, n: nat, user: string, req: Request, world: World): Option<bv64>
    requires n <= |policies|
  {
    if n == 0 then None
    else if !policies[n - 1].ResolvePermissions? then Granted(policies, n - 1, user, req, world)
    else
      var answer := world.resolver(n - 1, user, Scope(policies, n - 1, user, req, world));
      if answer.Resolved? then Some(answer.value.mask) else None
  }

  /** With one resolution only, that is its answer for the project in the path. */
  lemma {:induction false} GrantedForPath(
    policies: seq<Policy>, k: nat, n: nat, user: string, req: Request, world: World)
    requires k < n <= |policies| && policies[k].ResolvePermissions? && PathProject(req).Some?
    requires forall i | 0 <= i < n && i != k :: !policies[i].ResolvePermissions?
    ensures Scope(policies, k, user, req, world) == PathProject(req).value
    ensures
      var answer := world.resolver(k, user, PathProject(req).value);
      Granted(policies, n, user, req, world) == if answer.Resolved? then Some(answer.value.mask) else None
  {
    if n == k + 1 {
      UnresolvedScope(policies, k, user, req, world);
    } else {
      GrantedForPath(policies, k, n - 1, user, req, world);
    }
  }

  lemma {:induction false} UnresolvedScope(policies: seq<Policy>, n: nat, user: string, req: Request, world: World)
    requires n <= |policies| && PathProject(req).Some?
    requires forall i | 0 <= i < n :: !policies[i].ResolvePermissions?
    ensures Scope(policies, n, user, req, world) == PathProject(req).value
  {
    if n > 0 {
      UnresolvedScope(policies, n - 1, user, req, world);
    }
  }

  /** What the first n policies have established about the request. */
  predicate Established(policies: seq<Policy>, n: nat, principal: Option<Principal>, req: Request, world: World)
    requires n <= |policies|
  {
    && (!HasBefore(policies, n, AuthRequiredType) ==> principal.None?)
    && (HasBefore(policies, n, AuthRequiredType) ==>
          && principal.Some? && world.credentials.Some?
          && principal.value.user == world.credentials.value.user && Trim(principal.value.user) != "")
    && (HasBefore(policies, n, ProjectRequiredType) ==>
          && principal.Some? && PathProject(req).Some?
          && principal.value.project == Trim(principal.value.project)
          && principal.value.project == Scope(policies, n, principal.value.user, req, world))
    && (HasBefore(policies, n, ResolvePermissionsType) ==>
          principal.Some? && Granted(policies, n, principal.value.user, req, world) == Some(principal.value.mask))
  }

  /** Nothing of a later stage comes before a policy. */
  lemma NothingLater(policies: seq<Policy>, n: nat, kind: PolicyType)
    requires StagesAscend(DescribeAll(policies)) && n < |policies| && HasBefore(policies, n, kind)
    requires Stage(Describe(policies[n]).kind) > 0
    ensures Stage(kind) <= Stage(Describe(policies[n]).kind)
  {
    HasBeforeAt(policies, n, kind);
    var i :| 0 <= i < n && Describe(policies[i]).kind == kind;
    assert InOrder(DescribeAll(policies), i, n);
  }

  /** A requirement of an earlier stage somewhere in the list is before the policy. */
  lemma EarlierIsBefore(policies: seq<Policy>, n: nat, kind: PolicyType)
    requires StagesAscend(DescribeAll(policies)) && n < |policies| && Has(DescribeAll(policies), kind)
    requires 0 < Stage(kind) < Stage(Describe(policies[n]).kind)
    ensures HasBefore(policies, n, kind)
  {
    var metas := DescribeAll(policies);
    var i :| IsAt(metas, i, kind);
    assert InOrder(metas, n, i);
    assert i < n && Describe(policies[i]).kind == kind;
    HasBeforeAt(policies, n, kind);
  }

  lemma {:induction false} FirstNonBlankTrimmed(values: seq<string>)
    ensures FirstNonBlank(values).Some? ==>
              Trim(FirstNonBlank(values).value) == FirstNonBlank(values).value && FirstNonBlank(values).value != ""
  {
    if values != [] {
      TrimTwice(values[0]);
      FirstNonBlankTrimmed(values[1..]);
    }
  }

  lemma NotBefore(policies: seq<Policy>, n: nat, kind: PolicyType)
    requires StagesAscend(DescribeAll(policies)) && n < |policies|
    requires 0 < Stage(Describe(policies[n]).kind) < Stage(kind)
    ensures !HasBefore(policies, n, kind)
  {
    if HasBefore(policies, n, kind) {
      NothingLater(policies, n, kind);
    }
  }

  lemma MatchedIsRequired(policies: seq<Policy>, n: nat)
    requires MatchesAfterRequired(DescribeAll(policies)) && Has(DescribeAll(policies), ProjectRequiredType)
    requires n < |policies| && policies[n].ProjectMatch?
    ensures HasBefore(policies, n, ProjectRequiredType)
  {
    var metas := DescribeAll(policies);
    assert IsAt(metas, n, ProjectMatchType);
    var i :| i < n && IsAt(metas, i, ProjectRequiredType);
    assert Describe(policies[i]).kind == ProjectRequiredType;
    HasBeforeAt(policies, n, ProjectRequiredType);
  }

  // ---------------------------------------------------------------- typing

  /** What the policies before a policy must have established for it, and must not have. */
  predicate NeedsOk(p: Policy, before: set<PolicyType>) {
    match p
    case AuthRequired => ProjectRequiredType !in before && ResolvePermissionsType !in before
    case ProjectRequired => AuthRequiredType in before && ResolvePermissionsType !in before
    case ProjectMatch(_) => AuthRequiredType in before && ProjectRequiredType in before
    case ResolvePermissions => AuthRequiredType in before && ProjectRequiredType in before
    case RequirePermission(_) =>
      AuthRequiredType in before && ProjectRequiredType in before && ResolvePermissionsType in before
    case RequireAny(_) =>
      AuthRequiredType in before && ProjectRequiredType in before && ResolvePermissionsType in before
    case RequireAll(_) =>
      AuthRequiredType in before && ProjectRequiredType in before && ResolvePermissionsType in before
    case _ => true
  }

  predicate CacheOk(p: Policy, before: set<PolicyType>) {
    p.CacheRead? && NeedsAnonymous(p.config) ==> AuthRequiredType !in before
  }

  /** The first n policies are well-typed, one after the other. */
  predicate Typed(policies: seq<Policy>, n: nat)
    requires n <= |policies|
  {
    n == 0 ||
    (Typed(policies, n - 1) && WellFormed(policies[n - 1]) && NeedsOk(policies[n - 1], KindsBefore(policies, n - 1)))
  }

  predicate CacheTyped(policies: seq<Policy>, n: nat)
    requires n <= |policies|
  {
    n == 0 || (CacheTyped(policies, n - 1) && CacheOk(policies[n - 1], KindsBefore(policies, n - 1)))
  }

  lemma Present(policies: seq<Policy>, n: nat)
    requires n < |policies|
    ensures Has(DescribeAll(policies), Describe(policies[n]).kind)
  {
    assert IsAt(DescribeAll(policies), n, Describe(policies[n]).kind);
  }

  lemma AuthOnlyEarly(policies: seq<Policy>, n: nat)
    requires StagesAscend(DescribeAll(policies)) && n < |policies| && policies[n].AuthRequired?
    ensures !HasBefore(policies, n, ProjectRequiredType)
  {
    NotBefore(policies, n, ProjectRequiredType);
  }

  lemma ScopeSetEarly(policies: seq<Policy>, n: nat)
    requires StagesAscend(DescribeAll(policies)) && n < |policies|
    requires policies[n].AuthRequired? || policies[n].ProjectRequired?
    ensures !HasBefore(policies, n, ResolvePermissionsType)
  {
    NotBefore(policies, n, ResolvePermissionsType);
  }

  lemma AuthIsBefore(policies: seq<Policy>, n: nat)
    requires StagesAscend(DescribeAll(policies)) && Has(DescribeAll(policies), AuthRequiredType) && n < |policies|
    requires policies[n].ProjectRequired? || policies[n].ProjectMatch? || policies[n].ResolvePermissions?
             || IsRbac(policies[n])
    ensures HasBefore(policies, n, AuthRequiredType)
  {
    EarlierIsBefore(policies, n, AuthRequiredType);
  }

  lemma ProjectIsBefore(policies: seq<Policy>, n: nat)
    requires StagesAscend(DescribeAll(policies)) && Has(DescribeAll(policies), ProjectRequiredType) && n < |policies|
    requires policies[n].ResolvePermissions? || IsRbac(policies[n])
    ensures HasBefore(policies, n, ProjectRequiredType)
  {
    EarlierIsBefore(policies, n, ProjectRequiredType);
  }

  lemma ResolveIsBefore(policies: seq<Policy>, n: nat)
    requires StagesAscend(DescribeAll(policies)) && Has(DescribeAll(policies), ResolvePermissionsType) && n < |policies|
    requires IsRbac(policies[n])
    ensures HasBefore(policies, n, ResolvePermissionsType)
  {
    EarlierIsBefore(policies, n, ResolvePermissionsType);
  }

  /** What the rules say about a list that has a policy of some type. */
  lemma RulesDemand(pattern: string, metas: seq<Metadata>, kind: PolicyType)
    requires AcceptsButCache(pattern, metas) && Has(metas, kind)
    ensures Ordered(metas)
    ensures kind in {ProjectRequiredType, ProjectMatchType, ResolvePermissionsType, RequirePermissionType,
                     RequireAnyType, RequireAllType}
            ==> Has(metas, AuthRequiredType) && Has(metas, ProjectRequiredType)
    ensures kind in {RequirePermissionType, RequireAnyType, RequireAllType} ==> Has(metas, ResolvePermissionsType)
  {
  }

  lemma RulesGive(pattern: string, policies: seq<Policy>, n: nat)
    requires AcceptsButCache(pattern, DescribeAll(policies)) && n < |policies|
    ensures Ordered(DescribeAll(policies))
    ensures IsRbac(policies[n]) || policies[n].ProjectRequired? || policies[n].ProjectMatch?
            || policies[n].ResolvePermissions?
            ==> Has(DescribeAll(policies), AuthRequiredType) && Has(DescribeAll(policies), ProjectRequiredType)
    ensures IsRbac(policies[n]) ==> Has(DescribeAll(policies), ResolvePermissionsType)
  {
    Present(policies, n);
    RulesDemand(pattern, DescribeAll(policies), Describe(policies[n]).kind);
  }

  lemma RulesMeetNeeds(pattern: string, policies: seq<Policy>, n: nat)
    requires AcceptsButCache(pattern, DescribeAll(policies)) && n < |policies|
    ensures NeedsOk(policies[n], KindsBefore(policies, n))
  {
    RulesGive(pattern, policies, n);
    OrderMeetsNeeds(policies, n);
  }

  lemma OrderMeetsNeeds(policies: seq<Policy>, n: nat)
    requires Ordered(DescribeAll(policies)) && n < |policies|
    requires IsRbac(policies[n]) || policies[n].ProjectRequired? || policies[n].ProjectMatch?
             || policies[n].ResolvePermissions?
             ==> Has(DescribeAll(policies), AuthRequiredType) && Has(DescribeAll(policies), ProjectRequiredType)
    requires IsRbac(policies[n]) ==> Has(DescribeAll(policies), ResolvePermissionsType)
    ensures NeedsOk(policies[n], KindsBefore(policies, n))
  {
    var p := policies[n];
    if p.AuthRequired? {
      AuthOnlyEarly(policies, n);
      ScopeSetEarly(policies, n);
    } else if p.ProjectRequired? {
      ScopeSetEarly(policies, n);
      AuthIsBefore(policies, n);
    } else if p.ProjectMatch? {
      AuthIsBefore(policies, n);
      MatchedIsRequired(policies, n);
    } else if p.ResolvePermissions? || IsRbac(p) {
      AuthIsBefore(policies, n);
      ProjectIsBefore(policies, n);
      if IsRbac(p) {
        ResolveIsBefore(policies, n);
      }
    }
  }

  lemma TypedNext(policies: seq<Policy>, n: nat)
    requires n < |policies| && Typed(policies, n) && AllWellFormed(policies)
    requires NeedsOk(policies[n], KindsBefore(policies, n))
    ensures Typed(policies, n + 1)
  {
    assert policies[n] in policies;
  }

  lemma {:induction false} RulesType(pattern: string, policies: seq<Policy>, n: nat)
    requires AllWellFormed(policies) && AcceptsButCache(pattern, DescribeAll(policies)) && n <= |policies|
    ensures Typed(policies, n)
  {
    if n > 0 {
      RulesType(pattern, policies, n - 1);
      RulesMeetNeeds(pattern, policies, n - 1);
      TypedNext(policies, n - 1);
    }
  }

  lemma BeforeIsPresent(policies: seq<Policy>, n: nat, kind: PolicyType)
    requires n <= |policies| && !Has(DescribeAll(policies), kind)
    ensures !HasBefore(policies, n, kind)
  {
    HasBeforeAt(policies, n, kind);
    forall i | 0 <= i < n ensures Describe(policies[i]).kind != kind {
      assert !IsAt(DescribeAll(policies), i, kind);
    }
  }

  lemma UnsafeMeansPublic(policies: seq<Policy>, n: nat)
    requires CacheSafety(DescribeAll(policies)) && n < |policies|
    requires policies[n].CacheRead? && NeedsAnonymous(policies[n].config)
    ensures !Has(DescribeAll(policies), AuthRequiredType)
  {
    assert IsAt(DescribeAll(policies), n, CacheReadType);
  }

  lemma CacheRuleMeets(policies: seq<Policy>, n: nat)
    requires CacheSafety(DescribeAll(policies)) && n < |policies|
    ensures CacheOk(policies[n], KindsBefore(policies, n))
  {
    if policies[n].CacheRead? && NeedsAnonymous(policies[n].config) {
      UnsafeMeansPublic(policies, n);
      BeforeIsPresent(policies, n, AuthRequiredType);
    }
  }

  lemma {:induction false} CacheRulesType(policies: seq<Policy>, n: nat)
    requires CacheSafety(DescribeAll(policies)) && n <= |policies|
    ensures CacheTyped(policies, n)
  {
    if n > 0 {
      CacheRulesType(policies, n - 1);
      CacheRuleMeets(policies, n - 1);
    }
  }

  /** The validator accepts well-typed lists only. */
  lemma AcceptedIsTyped(pattern: string, policies: seq<Policy>)
    requires AllWellFormed(policies) && Accepts(pattern, DescribeAll(policies))
    ensures Typed(policies, |policies|) && CacheTyped(policies, |policies|)
  {
    if policies != [] {
      RulesType(pattern, policies, |policies|);
      CacheRulesType(policies, |policies|);
    }
  }

  lemma {:induction false} TypedAt(policies: seq<Policy>, i: nat, n: nat)
    requires i < n <= |policies| && Typed(policies, n)
    ensures Typed(policies, i) && NeedsOk(policies[i], KindsBefore(policies, i))
  {
    if i < n - 1 {
      TypedAt(policies, i, n - 1);
    }
  }

  lemma {:induction false} CacheTypedAt(policies: seq<Policy>, i: nat, n: nat)
    requires i < n <= |policies| && CacheTyped(policies, n)
    ensures CacheOk(policies[i], KindsBefore(policies, i))
  {
    if i < n - 1 {
      CacheTypedAt(policies, i, n - 1);
    }
  }

  // ---------------------------------------------------------------- soundness of the typing

  lemma PathIsTrimmed(req: Request)
    ensures PathProject(req).Some? ==> Trim(PathProject(req).value) == PathProject(req).value
  {
    FirstNonBlankTrimmed([req.urlParam("project_id"), req.pathValue("project_id"),
                          req.urlParam("projectId"), req.pathValue("projectId")]);
  }

  lemma ResolveEstablishes(policies: seq<Policy>, n: nat, before: Option<Principal>, after: Option<Principal>,
                           req: Request, world: World)
    requires n < |policies| && policies[n].ResolvePermissions? && NeedsOk(policies[n], KindsBefore(policies, n))
    requires Pass(policies[n], n, before, req, world) == Forward(after)
    requires Established(policies, n, before, req, world)
    ensures Established(policies, n + 1, after, req, world)
  {
    TrimTwice(after.value.project);
    TrimTwice(world.resolver(n, before.value.user, Trim(before.value.project)).value.project);
  }

  lemma OtherEstablishes(policies: seq<Policy>, n: nat, principal: Option<Principal>, req: Request, world: World)
    requires n < |policies| && Established(policies, n, principal, req, world)
    requires Describe(policies[n]).kind !in {AuthRequiredType, ProjectRequiredType, ResolvePermissionsType}
    ensures Established(policies, n + 1, principal, req, world)
  {
  }

  lemma AuthEstablishes(policies: seq<Policy>, n: nat, before: Option<Principal>, after: Option<Principal>,
                        req: Request, world: World)
    requires n < |policies| && policies[n].AuthRequired? && NeedsOk(policies[n], KindsBefore(policies, n))
    requires Pass(policies[n], n, before, req, world) == Forward(after)
    ensures Established(policies, n + 1, after, req, world)
  {
  }

  lemma ProjectEstablishes(policies: seq<Policy>, n: nat, before: Option<Principal>, after: Option<Principal>,
                           req: Request, world: World)
    requires n < |policies| && policies[n].ProjectRequired? && NeedsOk(policies[n], KindsBefore(policies, n))
    requires Pass(policies[n], n, before, req, world) == Forward(after)
    requires Established(policies, n, before, req, world)
    ensures Established(policies, n + 1, after, req, world)
  {
    PathIsTrimmed(req);
    NoneResolved(policies, n);
    UnresolvedScope(policies, n, after.value.user, req, world);
  }

  lemma {:induction false} NoneResolved(policies: seq<Policy>, n: nat)
    requires n <= |policies| && !HasBefore(policies, n, ResolvePermissionsType)
    ensures forall i | 0 <= i < n :: !policies[i].ResolvePermissions?
  {
    if n > 0 {
      NoneResolved(policies, n - 1);
    }
  }

  lemma OthersKeepPrincipal(p: Policy, i: nat, before: Option<Principal>, after: Option<Principal>,
                            req: Request, world: World)
    requires WellFormed(p) && !p.ResolvePermissions? && !p.AuthRequired? && !p.ProjectRequired?
    requires Pass(p, i, before, req, world) == Forward(after)
    ensures after == before
    ensures Describe(p).kind !in {AuthRequiredType, ProjectRequiredType, ResolvePermissionsType}
  {
  }

  lemma StepEstablishes(policies: seq<Policy>, n: nat, before: Option<Principal>, after: Option<Principal>,
                        req: Request, world: World)
    requires n < |policies| && WellFormed(policies[n]) && NeedsOk(policies[n], KindsBefore(policies, n))
    requires Pass(policies[n], n, before, req, world) == Forward(after)
    requires Established(policies, n, before, req, world)
    ensures Established(policies, n + 1, after, req, world)
  {
    if policies[n].ResolvePermissions? {
      ResolveEstablishes(policies, n, before, after, req, world);
    } else if policies[n].AuthRequired? {
      AuthEstablishes(policies, n, before, after, req, world);
    } else if policies[n].ProjectRequired? {
      ProjectEstablishes(policies, n, before, after, req, world);
    } else {
      OthersKeepPrincipal(policies[n], n, before, after, req, world);
      OtherEstablishes(policies, n, before, req, world);
    }
  }

  lemma {:induction false} PrefixEstablishes(policies: seq<Policy>, n: nat, req: Request, world: World)
    requires n <= |policies| && Typed(policies, n) && Passed(policies, n, req, world).Some?
    ensures Established(policies, n, Passed(policies, n, req, world).value, req, world)
  {
    if n > 0 {
      PrefixEstablishes(policies, n - 1, req, world);
      var before, after := Passed(policies, n - 1, req, world).value, Passed(policies, n, req, world).value;
      StepEstablishes(policies, n - 1, before, after, req, world);
    }
  }

  /** The principal is the authenticated user, the project came from the path, and the mask
      is exactly the one the resolver last returned for them. */
  predicate Vouched(policies: seq<Policy>, r: nat, p: Principal, req: Request, world: World)
    requires r <= |policies|
  {
    && world.credentials.Some? && p.user == world.credentials.value.user && Trim(p.user) != ""
    && PathProject(req).Some? && p.project == Scope(policies, r, p.user, req, world)
    && Granted(policies, r, p.user, req, world) == Some(p.mask)
  }

  /** What a permission policy demands of a mask, bit by bit. */
  ghost predicate Permits(p: Policy, mask: bv64) {
    match p
    case RequirePermission(perm) => Shares(mask, perm)
    case RequireAny(perms) => exists perm | perm in perms :: Shares(mask, perm)
    case RequireAll(perms) => forall perm | perm in perms && perm != 0 :: Shares(mask, perm)
    case _ => true
  }

  lemma ZeroMaskFails(p: Policy)
    requires IsRbac(p) && WellFormed(p)
    ensures !Permits(p, 0)
  {
    match p
    case RequirePermission(perm) => HasPermExactlyWhen(0, perm);
    case RequireAny(perms) =>
      forall perm ensures !Shares(0, perm) {
        HasPermExactlyWhen(0, perm);
      }
    case RequireAll(perms) =>
      RequiredAreNonZero(perms);
      assert Required(perms)[0] in Required(perms);
      HasPermExactlyWhen(0, Required(perms)[0]);
  }

  lemma NoPermissionIsZero(perm: bv64)
    ensures perm == 0 ==> forall mask :: !Shares(mask, perm)
  {
    forall i: nat ensures !Bit(0, i) {
      ZeroHasNoBit(i);
    }
  }

  /** A permission check lets a request through, unchanged, exactly if the mask of its
      principal has the bits; without a principal the mask is zero. */
  lemma PassPermitsExactlyWhen(p: Policy, i: nat, principal: Option<Principal>, req: Request, world: World)
    requires IsRbac(p)
    ensures Pass(p, i, principal, req, world)
            == if Permits(p, if principal.Some? then principal.value.mask else 0)
               then Forward(principal) else Reject(403)
  {
    forall mask, perm ensures HasPerm(mask, perm) <==> Shares(mask, perm) {
      HasPermExactlyWhen(mask, perm);
    }
    match p
    case RequireAny(perms) =>
      RequiredAreNonZero(perms);
      NoPermissionIsZero(0);
    case RequireAll(perms) => RequiredAreNonZero(perms);
    case _ =>
  }

  /** The r-th policy, a permission check, saw a vouched principal and was satisfied. */
  ghost predicate Guarded(policies: seq<Policy>, r: nat, req: Request, world: World)
    requires r < |policies|
  {
    var before := Passed(policies, r, req, world);
    && before.Some? && before.value.Some?
    && Vouched(policies, r, before.value.value, req, world) && Permits(policies[r], before.value.value.mask)
  }

  lemma EstablishedIsVouched(policies: seq<Policy>, r: nat, principal: Option<Principal>, req: Request, world: World)
    requires r < |policies| && IsRbac(policies[r]) && NeedsOk(policies[r], KindsBefore(policies, r))
    requires Established(policies, r, principal, req, world)
    ensures principal.Some? && Vouched(policies, r, principal.value, req, world)
  {
  }

  /** In a well-typed list, a permission check that let a request through saw an
      authenticated user, a project taken from the path, and exactly the mask the resolver
      returned for that user and project. */
  lemma TypedRbacIsGuarded(policies: seq<Policy>, r: nat, req: Request, world: World)
    requires r < |policies| && Typed(policies, |policies|) && IsRbac(policies[r])
    requires Passed(policies, r + 1, req, world).Some?
    ensures Guarded(policies, r, req, world)
  {
    TypedAt(policies, r, |policies|);
    PrefixEstablishes(policies, r, req, world);
    var principal := Passed(policies, r, req, world).value;
    EstablishedIsVouched(policies, r, principal, req, world);
    PassPermitsExactlyWhen(policies[r], r, principal, req, world);
  }

  lemma StopTells(policies: seq<Policy>, req: Request, world: World, n: nat)
    requires n <= |policies|
    requires
      var outcome := Serve(policies, 0, None, req, world);
      outcome.Handled? || (outcome.ServedFromCache? && n <= outcome.at)
    ensures Passed(policies, n, req, world).Some?
  {
    ServeStops(policies, 0, req, world);
    var outcome := Serve(policies, 0, None, req, world);
    PassedEarlier(policies, n, if outcome.Handled? then |policies| else outcome.at, req, world);
  }

  /** On an accepted route the handler runs only after every permission check of the route
      was satisfied by a mask the resolver returned for the authenticated user and the
      project in the path. */
  lemma HandlerIsGuarded(pattern: string, policies: seq<Policy>, req: Request, world: World, r: nat)
    requires AllWellFormed(policies) && Accepts(pattern, DescribeAll(policies))
    requires Serve(policies, 0, None, req, world).Handled? && r < |policies| && IsRbac(policies[r])
    ensures Guarded(policies, r, req, world)
  {
    AcceptedIsTyped(pattern, policies);
    TypedHandlerIsGuarded(policies, req, world, r);
  }

  lemma TypedHandlerIsGuarded(policies: seq<Policy>, req: Request, world: World, r: nat)
    requires r < |policies| && Typed(policies, |policies|) && IsRbac(policies[r])
    requires Serve(policies, 0, None, req, world).Handled?
    ensures Guarded(policies, r, req, world)
  {
    StopTells(policies, req, world, r + 1);
    TypedRbacIsGuarded(policies, r, req, world);
  }

  // ---------------------------------------------------------------- caching

  predicate IsGuard(p: Policy) {
    || p.AuthRequired? || p.ProjectRequired? || p.ProjectMatch? || p.ResolvePermissions?
    || p.RequirePermission? || p.RequireAny? || p.RequireAll? || p.RateLimit?
  }

  /** A cached response is served only after every authentication, project, permission and
      rate limit policy of the route let the request through. */
  lemma CacheBehindGuards(pattern: string, policies: seq<Policy>, req: Request, world: World, j: nat)
    requires Accepts(pattern, DescribeAll(policies)) && Serve(policies, 0, None, req, world).ServedFromCache?
    requires j < |policies| && IsGuard(policies[j])
    ensures
      var at := Serve(policies, 0, None, req, world).at;
      && j < at < |policies| && policies[at].CacheRead?
      && Passed(policies, j + 1, req, world).Some?
  {
    OrderedBehindGuards(policies, req, world, j);
  }

  lemma OrderedBehindGuards(policies: seq<Policy>, req: Request, world: World, j: nat)
    requires StagesAscend(DescribeAll(policies)) && Serve(policies, 0, None, req, world).ServedFromCache?
    requires j < |policies| && IsGuard(policies[j])
    ensures
      var at := Serve(policies, 0, None, req, world).at;
      && j < at < |policies| && policies[at].CacheRead?
      && Passed(policies, j + 1, req, world).Some?
  {
    ServedAt(policies, req, world);
    GuardsComeFirst(policies, j, Serve(policies, 0, None, req, world).at);
    StopTells(policies, req, world, j + 1);
  }

  lemma ServedAt(policies: seq<Policy>, req: Request, world: World)
    requires Serve(policies, 0, None, req, world).ServedFromCache?
    ensures
      var at := Serve(policies, 0, None, req, world).at;
      at < |policies| && policies[at].CacheRead?
  {
    ServeStops(policies, 0, req, world);
    OnlyCacheServes(policies, Serve(policies, 0, None, req, world).at, req, world);
  }

  lemma GuardsComeFirst(policies: seq<Policy>, j: nat, at: nat)
    requires StagesAscend(DescribeAll(policies)) && j < |policies| && at < |policies|
    requires IsGuard(policies[j]) && policies[at].CacheRead?
    ensures j < at
  {
    assert InOrder(DescribeAll(policies), at, j);
  }

  lemma OnlyCacheServes(policies: seq<Policy>, at: nat, req: Request, world: World)
    requires Decides(policies, at, FromCache, req, world) || Decides(policies, at, Panic, req, world)
    ensures policies[at].CacheRead?
    ensures Decides(policies, at, Panic, req, world) ==>
              NeedsAnonymous(policies[at].config) && HasPrincipal(Passed(policies, at, req, world).value)
  {
  }

  /** ensureAuthCacheSafety never fires on an accepted route. */
  lemma AcceptedNeverPanics(pattern: string, policies: seq<Policy>, req: Request, world: World)
    requires AllWellFormed(policies) && Accepts(pattern, DescribeAll(policies))
    ensures !Serve(policies, 0, None, req, world).Panicked?
  {
    AcceptedIsTyped(pattern, policies);
    TypedNeverPanics(policies, req, world);
  }

  lemma TypedNeverPanics(policies: seq<Policy>, req: Request, world: World)
    requires Typed(policies, |policies|) && CacheTyped(policies, |policies|)
    ensures !Serve(policies, 0, None, req, world).Panicked?
  {
    ServeStops(policies, 0, req, world);
    var outcome := Serve(policies, 0, None, req, world);
    if outcome.Panicked? {
      PanicIsIllTyped(policies, outcome.at, req, world);
    }
  }

  lemma PanicIsIllTyped(policies: seq<Policy>, at: nat, req: Request, world: World)
    requires Decides(policies, at, Panic, req, world) && Typed(policies, |policies|)
    ensures !CacheTyped(policies, |policies|)
  {
    OnlyCacheServes(policies, at, req, world);
    TypedAt(policies, at, |policies|);
    PrefixEstablishes(policies, at, req, world);
    if CacheTyped(policies, |policies|) {
      CacheTypedAt(policies, at, |policies|);
    }
  }

  // ---------------------------------------------------------------- exactness

  lemma {:induction false} ServeReaches(policies: seq<Policy>, i: nat, req: Request, world: World)
    requires i <= |policies| && Passed(policies, i, req, world).Some?
    ensures Serve(policies, 0, None, req, world)
            == Serve(policies, i, Passed(policies, i, req, world).value, req, world)
  {
    if i > 0 {
      ServeReaches(policies, i - 1, req, world);
    }
  }

  /** A request and a world in which every policy lets a member through and caches miss. */
  function FriendlyRequest(verb: string): Request {
    Request(verb, _ => "p", _ => "p")
  }

  function FriendlyWorld(): World {
    World(Some(Credentials("u", "r", ALL_PERMISSIONS)), (_, _, _) => Resolved(Resolution("p", "r", ALL_PERMISSIONS)),
          _ => None, _ => Miss, _ => None)
  }

  /** The principal of the friendly world after n policies. */
  predicate Friendly(policies: seq<Policy>, n: nat, principal: Option<Principal>)
    requires n <= |policies|
  {
    if !HasBefore(policies, n, AuthRequiredType) then principal.None?
    else
      && principal.Some? && principal.value.user == "u" && principal.value.mask == ALL_PERMISSIONS
      && principal.value.project in {"", "p"}
      && (HasBefore(policies, n, ProjectRequiredType) ==> principal.value.project == "p")
  }

  lemma LettersAreTrimmed()
    ensures Trim("p") == "p" && Trim("u") == "u" && Trim("") == ""
  {
  }

  /** In the friendly world a well-formed policy whose needs are met lets the request
      through, unless it is a cache that insists on anonymous callers. */
  lemma FriendlyPass(policies: seq<Policy>, n: nat, before: Option<Principal>, verb: string)
    requires n < |policies| && WellFormed(policies[n]) && NeedsOk(policies[n], KindsBefore(policies, n))
    requires policies[n].CacheRead? ==> !NeedsAnonymous(policies[n].config)
    requires Friendly(policies, n, before)
    ensures Pass(policies[n], n, before, FriendlyRequest(verb), FriendlyWorld()).Forward?
    ensures Friendly(policies, n + 1, Pass(policies[n], n, before, FriendlyRequest(verb), FriendlyWorld()).principal)
  {
    LettersAreTrimmed();
    var req, world := FriendlyRequest(verb), FriendlyWorld();
    match policies[n]
    case RequirePermission(perm) => OnesHaveAll(perm);
    case RequireAny(perms) =>
      RequiredAreNonZero(perms);
      assert Required(perms)[0] in Required(perms);
      OnesHaveAll(Required(perms)[0]);
    case RequireAll(perms) =>
      RequiredAreNonZero(perms);
      forall perm | perm in Required(perms) ensures HasPerm(ALL_PERMISSIONS, perm) {
        OnesHaveAll(perm);
      }
    case _ =>
  }

  lemma PassedNext(policies: seq<Policy>, n: nat, before: Option<Principal>, req: Request, world: World)
    requires n < |policies| && Passed(policies, n, req, world) == Some(before)
    requires Pass(policies[n], n, before, req, world).Forward?
    ensures Passed(policies, n + 1, req, world) == Some(Pass(policies[n], n, before, req, world).principal)
  {
  }

  lemma {:induction false} FriendlyPrefix(policies: seq<Policy>, n: nat, verb: string)
    returns (principal: Option<Principal>)
    requires n <= |policies| && Typed(policies, n)
    requires forall i | 0 <= i < n && policies[i].CacheRead? :: !NeedsAnonymous(policies[i].config)
    ensures Passed(policies, n, FriendlyRequest(verb), FriendlyWorld()) == Some(principal)
    ensures Friendly(policies, n, principal)
  {
    if n == 0 {
      principal := None;
    } else {
      var before := FriendlyPrefix(policies, n - 1, verb);
      FriendlyPass(policies, n - 1, before, verb);
      PassedNext(policies, n - 1, before, FriendlyRequest(verb), FriendlyWorld());
      principal := Pass(policies[n - 1], n - 1, before, FriendlyRequest(verb), FriendlyWorld()).principal;
    }
  }

  lemma MethodsAreNormal(configured: seq<string>, m: string)
    requires m in Methods(configured)
    ensures Upper(Trim(m)) == m
  {
    var named := set x | x in configured && Trim(x) != "" :: Upper(Trim(x));
    if named == {} {
      assert Upper(Trim("GET")) == "GET" && Upper(Trim("HEAD")) == "HEAD";
    } else {
      var x :| x in configured && Trim(x) != "" && m == Upper(Trim(x));
      TrimmedEnds(x);
      TrimTrimmed(m);
    }
  }

  lemma FirstUnsafe(policies: seq<Policy>, n: nat) returns (at: nat)
    requires n < |policies| && policies[n].CacheRead? && NeedsAnonymous(policies[n].config)
    ensures at <= n && policies[at].CacheRead? && NeedsAnonymous(policies[at].config)
    ensures forall i | 0 <= i < at && policies[i].CacheRead? :: !NeedsAnonymous(policies[i].config)
  {
    at := n;
    if i :| 0 <= i < n && policies[i].CacheRead? && NeedsAnonymous(policies[i].config) {
      at := FirstUnsafe(policies, i);
    }
  }

  lemma FriendlyPanic(policies: seq<Policy>, at: nat, verb: string)
    requires at < |policies| && policies[at].CacheRead? && NeedsAnonymous(policies[at].config)
    requires Upper(Trim(verb)) in Methods(policies[at].config.methods)
    requires HasBefore(policies, at, AuthRequiredType)
    requires Passed(policies, at, FriendlyRequest(verb), FriendlyWorld()).Some?
    requires Friendly(policies, at, Passed(policies, at, FriendlyRequest(verb), FriendlyWorld()).value)
    ensures Serve(policies, 0, None, FriendlyRequest(verb), FriendlyWorld()) == Panicked(at)
  {
    LettersAreTrimmed();
    ServeReaches(policies, at, FriendlyRequest(verb), FriendlyWorld());
  }

  lemma AuthBeforeCache(policies: seq<Policy>, at: nat)
    requires StagesAscend(DescribeAll(policies)) && Has(DescribeAll(policies), AuthRequiredType)
    requires at < |policies| && policies[at].CacheRead?
    ensures HasBefore(policies, at, AuthRequiredType)
  {
    EarlierIsBefore(policies, at, AuthRequiredType);
  }

  /** A route the validator turns down for its caching alone does panic, on some request. */
  lemma UnsafePanics(pattern: string, policies: seq<Policy>) returns (req: Request, world: World)
    requires AllWellFormed(policies) && AcceptsButCache(pattern, DescribeAll(policies))
    requires !CacheSafety(DescribeAll(policies))
    ensures Serve(policies, 0, None, req, world).Panicked?
  {
    var metas := DescribeAll(policies);
    var n :| IsAt(metas, n, CacheReadType)
             && !(metas[n].shared || metas[n].varyUser || metas[n].varyProject);
    assert WellFormed(policies[n]) && metas[n] == Describe(policies[n]);
    var at := FirstUnsafe(policies, n);
    var verb :| verb in Methods(policies[at].config.methods);
    MethodsAreNormal(policies[at].config.methods, verb);
    RulesType(pattern, policies, at);
    var principal := FriendlyPrefix(policies, at, verb);
    AuthBeforeCache(policies, at);
    FriendlyPanic(policies, at, verb);
    req, world := FriendlyRequest(verb), FriendlyWorld();
  }

  /** The static caching rule is exact: the run-time check can never fire if and only if the
      validator accepts. */
  lemma CacheSafetyExactlyWhen(pattern: string, policies: seq<Policy>)
    requires AllWellFormed(policies) && AcceptsButCache(pattern, DescribeAll(policies))
    ensures (forall req, world :: !Serve(policies, 0, None, req, world).Panicked?)
            <==> CacheSafety(DescribeAll(policies))
  {
    if CacheSafety(DescribeAll(policies)) {
      forall req, world ensures !Serve(policies, 0, None, req, world).Panicked? {
        RulesType(pattern, policies, |policies|);
        CacheRulesType(policies, |policies|);
        TypedNeverPanics(policies, req, world);
      }
    } else {
      var req, world := UnsafePanics(pattern, policies);
    }
  }
}
