/**
 What comes out of whole routes: the answer of every standard project route, where a failing
 permission check stops a request, which project a handler works on, and the validator's
 acceptance as well-typedness.
 */
module RouteOutcomes {
  import opened Text
  import opened PermissionBits
  import opened RoutePolicies

  // ---------------------------------------------------------------- refusals

  /** A permission check whose bits are missing answers 403 and nothing behind it runs. */
  lemma MissingBitsStop(policies: seq<Policy>, r: nat, req: Request, world: World)
    requires r < |policies| && IsRbac(policies[r]) && Passed(policies, r, req, world).Some?
    requires
      var principal := Passed(policies, r, req, world).value;
      !Permits(policies[r], if principal.Some? then principal.value.mask else 0)
    ensures Serve(policies, 0, None, req, world) == Rejected(r, 403)
  {
    PassPermitsExactlyWhen(policies[r], r, Passed(policies, r, req, world).value, req, world);
    ServeReaches(policies, r, req, world);
  }

  /** What a rate limiter, or a policy that passes the principal on, is told to answer, if
      anything; where it is told nothing it lets the request through as it is. */
  function Told(policies: seq<Policy>, r: nat, world: World): Option<nat>
    requires r < |policies|
  {
    if policies[r].RateLimit? then world.limiter(r) else if policies[r].Plain? then world.other(r) else None
  }

  lemma ToldStops(policies: seq<Policy>, r: nat, req: Request, world: World)
    requires r < |policies| && (policies[r].RateLimit? || policies[r].Plain?)
    requires Passed(policies, r, req, world).Some?
    ensures
      var told := Told(policies, r, world);
      if told.Some? then Serve(policies, 0, None, req, world) == Rejected(r, told.value)
      else Passed(policies, r + 1, req, world) == Passed(policies, r, req, world)
  {
    ServeReaches(policies, r, req, world);
  }

  // ---------------------------------------------------------------- the project in the path

  /** The four places a project can be named in, in the order they are asked. */
  function Named(req: Request): seq<string> {
    [req.urlParam("project_id"), req.pathValue("project_id"), req.urlParam("projectId"), req.pathValue("projectId")]
  }

  lemma {:induction false} FirstNonBlankIs(values: seq<string>, v: string)
    ensures FirstNonBlank(values) == Some(v)
            <==> exists i | 0 <= i < |values| ::
                   && Trim(values[i]) == v && v != ""
                   && forall j | 0 <= j < i :: Trim(values[j]) == ""
  {
    if values != [] {
      FirstNonBlankIs(values[1..], v);
      if i :| 0 <= i < |values[1..]| && Trim(values[1..][i]) == v && v != ""
              && forall j | 0 <= j < i :: Trim(values[1..][j]) == "" {
        assert values[i + 1] == values[1..][i];
        assert forall j | 1 <= j < i + 1 :: values[j] == values[1..][j - 1];
      }
    }
  }

  /** The project of a request is the first of these that is not blank, without the blanks
      around it. */
  lemma PathProjectIs(req: Request, project: string)
    ensures PathProject(req) == Some(project)
            <==> exists i | 0 <= i < 4 ::
                   && Trim(Named(req)[i]) == project && project != ""
                   && forall j | 0 <= j < i :: Trim(Named(req)[j]) == ""
  {
    FirstNonBlankIs(Named(req), project);
  }

  // ---------------------------------------------------------------- the standard project route

  /** What the project routes of the service start with; those that take a body check its type
      before the permission. */
  function ProjectRoute(param: string, json: bool, perm: bv64, rest: seq<Policy>): seq<Policy> {
    [AuthRequired, ProjectRequired, ProjectMatch(param), ResolvePermissions]
    + (if json then [Plain(RequireJsonType)] else []) + ([RequirePermission(perm)] + rest)
  }

  predicate LoggedIn(world: World) {
    world.credentials.Some? && Trim(world.credentials.value.user) != ""
  }

  /** What the resolver says about the caller and the project in the path. */
  function Asked(req: Request, world: World): Answer
    requires LoggedIn(world) && PathProject(req).Some?
  {
    world.resolver(3, world.credentials.value.user, PathProject(req).value)
  }

  /** Who the handler then sees: the caller, in the resolver's project and role where it
      names them, with the resolver's mask. */
  predicate IsCaller(p: Principal, req: Request, world: World)
    requires LoggedIn(world) && PathProject(req).Some? && Asked(req, world).Resolved?
  {
    var answer := Asked(req, world).value;
    && p.user == world.credentials.value.user && p.mask == answer.mask
    && p.project == (if Trim(answer.project) == "" then PathProject(req).value else Trim(answer.project))
    && p.role == (if Trim(answer.role) == "" then world.credentials.value.role else Trim(answer.role))
  }

  /** The caller, in the project of the path. */
  function Scoped(req: Request, world: World): Principal
    requires LoggedIn(world) && PathProject(req).Some?
  {
    var c := world.credentials.value;
    Principal(c.user, PathProject(req).value, c.role, c.mask)
  }

  lemma Onward(policies: seq<Policy>, i: nat, principal: Option<Principal>, next: Option<Principal>,
               req: Request, world: World)
    requires i < |policies| && Pass(policies[i], i, principal, req, world) == Forward(next)
    ensures Serve(policies, i, principal, req, world) == Serve(policies, i + 1, next, req, world)
  {
  }

  lemma UnscopedOutcome(param: string, policies: seq<Policy>, req: Request, world: World)
    requires |policies| > 3 && policies[..3] == [AuthRequired, ProjectRequired, ProjectMatch(param)]
    ensures
      var outcome := Serve(policies, 0, None, req, world);
      var matched := Trim(req.urlParam(param));
      if !LoggedIn(world) then outcome == Rejected(0, 401)
      else if PathProject(req).None? then outcome == Rejected(1, 403)
      else if matched == "" then outcome == Rejected(2, 400)
      else if matched != PathProject(req).value then outcome == Rejected(2, 403)
      else outcome == Serve(policies, 3, Some(Scoped(req, world)), req, world)
  {
    PathIsTrimmed(req);
    PathIsNotBlank(req);
    TrimTwice(req.urlParam(param));
    assert policies[0] == AuthRequired && policies[1] == ProjectRequired && policies[2] == ProjectMatch(param);
    if LoggedIn(world) {
      var c := world.credentials.value;
      var entered := Principal(c.user, "", c.role, c.mask);
      Onward(policies, 0, None, Some(entered), req, world);
      if PathProject(req).Some? {
        Onward(policies, 1, Some(entered), Some(Scoped(req, world)), req, world);
      }
    }
  }

  lemma ResolvedOutcome(policies: seq<Policy>, req: Request, world: World) returns (caller: Principal)
    requires |policies| > 3 && policies[3] == ResolvePermissions && LoggedIn(world) && PathProject(req).Some?
    ensures
      var outcome := Serve(policies, 3, Some(Scoped(req, world)), req, world);
      if Asked(req, world).Unresolved? then outcome == Rejected(3, Asked(req, world).status)
      else IsCaller(caller, req, world) && outcome == Serve(policies, 4, Some(caller), req, world)
  {
    PathIsTrimmed(req);
    PathIsNotBlank(req);
    caller := Scoped(req, world);
    if Asked(req, world).Resolved? {
      caller := AfterResolve(caller, Asked(req, world).value);
    }
  }

  lemma PermittedOutcome(policies: seq<Policy>, r: nat, perm: bv64, caller: Principal, req: Request, world: World)
    requires r < |policies| && policies[r] == RequirePermission(perm)
    ensures
      var outcome := Serve(policies, r, Some(caller), req, world);
      outcome == if Shares(caller.mask, perm) then Serve(policies, r + 1, Some(caller), req, world)
                 else Rejected(r, 403)
  {
    PassPermitsExactlyWhen(RequirePermission(perm), r, Some(caller), req, world);
  }

  lemma JsonOutcome(policies: seq<Policy>, r: nat, caller: Principal, req: Request, world: World)
    requires r < |policies| && policies[r] == Plain(RequireJsonType)
    ensures
      var outcome := Serve(policies, r, Some(caller), req, world);
      outcome == if world.other(r).Some? then Rejected(r, world.other(r).value)
                 else Serve(policies, r + 1, Some(caller), req, world)
  {
  }

  lemma RouteIs(param: string, json: bool, perm: bv64, rest: seq<Policy>)
    ensures
      var policies := ProjectRoute(param, json, perm, rest);
      && |policies| > (if json then 5 else 4)
      && policies[..3] == [AuthRequired, ProjectRequired, ProjectMatch(param)]
      && policies[3] == ResolvePermissions
      && (json ==> policies[4] == Plain(RequireJsonType))
      && policies[if json then 5 else 4] == RequirePermission(perm)
  {
  }

  /** Every request to a standard project route: 401 without a caller, 403 without a project in
      the path, 400 and 403 for a blank and a different route parameter, the resolver's status
      if it has no answer, the refusal of a wrong body type, 403 without a permission bit; and
      otherwise the rest of the route sees exactly the caller. */
  lemma ProjectRouteOutcome(param: string, json: bool, perm: bv64, rest: seq<Policy>, req: Request, world: World)
    returns (caller: Principal)
    ensures
      var policies := ProjectRoute(param, json, perm, rest);
      var outcome := Serve(policies, 0, None, req, world);
      var matched := Trim(req.urlParam(param));
      var check := if json then 5 else 4;
      if !LoggedIn(world) then outcome == Rejected(0, 401)
      else if PathProject(req).None? then outcome == Rejected(1, 403)
      else if matched == "" then outcome == Rejected(2, 400)
      else if matched != PathProject(req).value then outcome == Rejected(2, 403)
      else if Asked(req, world).Unresolved? then outcome == Rejected(3, Asked(req, world).status)
      else if json && world.other(4).Some? then outcome == Rejected(4, world.other(4).value)
      else if !Shares(Asked(req, world).value.mask, perm) then outcome == Rejected(check, 403)
      else IsCaller(caller, req, world)
           && check < |policies| && outcome == Serve(policies, check + 1, Some(caller), req, world)
  {
    var policies := ProjectRoute(param, json, perm, rest);
    RouteIs(param, json, perm, rest);
    UnscopedOutcome(param, policies, req, world);
    caller := Principal("", "", "", 0);
    if LoggedIn(world) && PathProject(req).Some? {
      caller := ResolvedOutcome(policies, req, world);
      if Asked(req, world).Resolved? {
        if json {
          JsonOutcome(policies, 4, caller, req, world);
        }
        PermittedOutcome(policies, if json then 5 else 4, perm, caller, req, world);
      }
    }
  }

  lemma PathIsNotBlank(req: Request)
    ensures PathProject(req).Some? ==> PathProject(req).value != ""
  {
    FirstNonBlankTrimmed(Named(req));
  }

  // ---------------------------------------------------------------- serving from the cache

  /** The methods a cache policy reads for: those configured, in any case and with blanks
      around them, or GET and HEAD where none is. */
  ghost predicate ReadsFor(config: CacheConfig, verb: string) {
    if forall m | m in config.methods :: Trim(m) == ""
    then EqualFold(Trim(verb), "GET") || EqualFold(Trim(verb), "HEAD")
    else exists m | m in config.methods && Trim(m) != "" :: EqualFold(Trim(m), Trim(verb))
  }

  /** The keys tell callers apart, or are shared on purpose, or there is no caller. */
  predicate Separates(config: CacheConfig, principal: Option<Principal>) {
    || config.shared || config.varyUser || config.varyProject
    || principal.None?
    || forall name | name in {principal.value.user, principal.value.project, principal.value.role} :: Trim(name) == ""
  }

  lemma MethodsAre(config: CacheConfig, verb: string)
    ensures Upper(Trim(verb)) in Methods(config.methods) <==> ReadsFor(config, verb)
  {
    var named := set m | m in config.methods && Trim(m) != "" :: Upper(Trim(m));
    forall m ensures Upper(m) == Upper(Trim(verb)) <==> EqualFold(m, Trim(verb)) {
      CasesAgree(m, Trim(verb));
    }
    assert Upper("GET") == "GET" && Upper("HEAD") == "HEAD";
    if m :| m in config.methods && Trim(m) != "" {
      assert Upper(Trim(m)) in named;
    }
  }

  /** A route is answered from the cache at a policy if and only if everything before let the
      request through, the policy reads for the method and finds an entry, and it does not mix
      callers. */
  lemma ServedExactlyWhen(policies: seq<Policy>, at: nat, req: Request, world: World)
    requires at < |policies|
    ensures Serve(policies, 0, None, req, world) == ServedFromCache(at)
            <==>
            && policies[at].CacheRead? && Passed(policies, at, req, world).Some?
            && ReadsFor(policies[at].config, req.verb) && world.cache(at).Hit?
            && Separates(policies[at].config, Passed(policies, at, req, world).value)
  {
    ServeStops(policies, 0, req, world);
    if policies[at].CacheRead? {
      MethodsAre(policies[at].config, req.verb);
    }
    if Passed(policies, at, req, world).Some? {
      ServeReaches(policies, at, req, world);
    }
  }

  /** A cache that has no answer stops a request only where it is configured to fail closed. */
  lemma CacheStopsExactlyWhen(config: CacheConfig, i: nat, principal: Option<Principal>, req: Request, world: World)
    requires !world.cache(i).Hit? && Separates(config, principal)
    ensures Pass(CacheRead(config), i, principal, req, world)
            == if ReadsFor(config, req.verb) && world.cache(i) == Unavailable(false) then Reject(503)
               else Forward(principal)
  {
    MethodsAre(config, req.verb);
  }

  // ---------------------------------------------------------------- acceptance is typing

  predicate OccursAt(s: string, part: string, i: nat) {
    i + |part| <= |s| && s[i..i + |part|] == part
  }

  /** The text occurs somewhere. */
  ghost predicate Mentions(s: string, part: string) {
    exists i :: OccursAt(s, part, i)
  }

  lemma {:induction false} ContainsExactlyWhen(s: string, part: string)
    ensures Contains(s, part) <==> Mentions(s, part)
  {
    assert OccursAt(s, part, 0) <==> |part| <= |s| && s[..|part|] == part;
    if s != "" {
      ContainsExactlyWhen(s[1..], part);
      if i: nat :| OccursAt(s, part, i) && i > 0 {
        assert s[1..][i - 1..i - 1 + |part|] == s[i..i + |part|];
        assert OccursAt(s[1..], part, i - 1);
      }
      if i: nat :| OccursAt(s[1..], part, i) {
        assert s[1..][i..i + |part|] == s[i + 1..i + 1 + |part|];
        assert OccursAt(s, part, i + 1);
      }
    }
  }

  /** A pattern has a project parameter if it holds one of the two placeholders, in any case. */
  lemma RouteParamExactlyWhen(pattern: string)
    ensures
      var p := Lower(Trim(pattern));
      && (RouteParam(pattern) == Some("project_id") <==> Mentions(p, "{project_id}"))
      && (RouteParam(pattern) == Some("projectid") <==> Mentions(p, "{projectid}") && !Mentions(p, "{project_id}"))
      && (RouteParam(pattern).None? <==> !Mentions(p, "{projectid}") && !Mentions(p, "{project_id}"))
  {
    ContainsExactlyWhen(Lower(Trim(pattern)), "{project_id}");
    ContainsExactlyWhen(Lower(Trim(pattern)), "{projectid}");
    assert |"project_id"| != |"projectid"|;
  }

  /** What the route's pattern demands beyond the order of its policies. */
  ghost predicate FitsPattern(pattern: string, policies: seq<Policy>) {
    && (RouteParam(pattern).Some? <==> exists p :: p in policies && p.ProjectRequired?)
    && (RouteParam(pattern).Some? <==> exists p :: p in policies && p.ProjectMatch?)
    && forall p | p in policies && p.ProjectMatch? :: Some(Lower(Trim(p.param))) == RouteParam(pattern)
  }

  /** The documented order of the stages; the other policies may stand anywhere. */
  const ORDER: seq<set<PolicyType>> := [
    {AuthRequiredType}, {ProjectRequiredType, ProjectMatchType}, {ResolvePermissionsType},
    {RequirePermissionType, RequireAnyType, RequireAllType}, {RateLimitType},
    {CacheReadType, CacheInvalidateType}, {CacheControlType}]

  /** No policy stands behind one of a later stage. */
  ghost predicate KeepsOrder(policies: seq<Policy>) {
    forall i, j, a, b | 0 <= i < j < |policies| && 0 <= a < b < |ORDER| ::
      !(Describe(policies[i]).kind in ORDER[b] && Describe(policies[j]).kind in ORDER[a])
  }

  lemma StageIs(kind: PolicyType, stage: nat)
    requires 0 < stage
    ensures Stage(kind) == stage <==> stage <= |ORDER| && kind in ORDER[stage - 1]
  {
  }

  lemma KeepsOrderIs(policies: seq<Policy>)
    ensures StagesAscend(DescribeAll(policies)) <==> KeepsOrder(policies)
  {
    var metas := DescribeAll(policies);
    if StagesAscend(metas) {
      forall i, j, a, b | 0 <= i < j < |policies| && 0 <= a < b < |ORDER|
        ensures !(Describe(policies[i]).kind in ORDER[b] && Describe(policies[j]).kind in ORDER[a]) {
        StageIs(metas[i].kind, b + 1);
        StageIs(metas[j].kind, a + 1);
        assert InOrder(metas, i, j);
      }
    }
    if KeepsOrder(policies) {
      forall i, j ensures InOrder(metas, i, j) {
        if 0 <= i < j < |metas| && 0 < Stage(metas[j].kind) < Stage(metas[i].kind) {
          StageIs(metas[i].kind, Stage(metas[i].kind));
          StageIs(metas[j].kind, Stage(metas[j].kind));
        }
      }
    }
  }

  lemma HasIs(policies: seq<Policy>, kind: PolicyType)
    ensures Has(DescribeAll(policies), kind) <==> exists p :: p in policies && Describe(p).kind == kind
  {
    if p :| p in policies && Describe(p).kind == kind {
      var i :| 0 <= i < |policies| && policies[i] == p;
      assert IsAt(DescribeAll(policies), i, kind);
    }
    if i :| IsAt(DescribeAll(policies), i, kind) {
      assert policies[i] in policies;
    }
  }

  lemma {:induction false} TypedMeets(policies: seq<Policy>, i: nat)
    requires i < |policies| && Typed(policies, |policies|)
    ensures NeedsOk(policies[i], KindsBefore(policies, i))
  {
    TypedAt(policies, i, |policies|);
  }

  lemma BeforeIsSomewhere(policies: seq<Policy>, i: nat, kind: PolicyType)
    requires i <= |policies| && kind in KindsBefore(policies, i)
    ensures Has(DescribeAll(policies), kind)
  {
    HasBeforeAt(policies, i, kind);
    var j :| 0 <= j < i && Describe(policies[j]).kind == kind;
    assert IsAt(DescribeAll(policies), j, kind);
  }

  /** The types a list must also have if it has this one. */
  ghost predicate NeedsOf(metas: seq<Metadata>, kind: PolicyType) {
    match kind
    case ProjectRequiredType => Has(metas, AuthRequiredType)
    case ProjectMatchType => Has(metas, AuthRequiredType) && Has(metas, ProjectRequiredType)
    case ResolvePermissionsType => Has(metas, AuthRequiredType) && Has(metas, ProjectRequiredType)
    case RequirePermissionType => Has(metas, AuthRequiredType) && Has(metas, ResolvePermissionsType)
    case RequireAnyType => Has(metas, AuthRequiredType) && Has(metas, ResolvePermissionsType)
    case RequireAllType => Has(metas, AuthRequiredType) && Has(metas, ResolvePermissionsType)
    case _ => true
  }

  /** What a well-typed list has, it has with everything it needs. */
  lemma TypedHasNeeds(policies: seq<Policy>, kind: PolicyType)
    requires AllWellFormed(policies) && Typed(policies, |policies|) && Has(DescribeAll(policies), kind)
    ensures NeedsOf(DescribeAll(policies), kind)
  {
    var i :| IsAt(DescribeAll(policies), i, kind);
    TypedMeets(policies, i);
    assert WellFormed(policies[i]);
    forall k | k in KindsBefore(policies, i) ensures Has(DescribeAll(policies), k) {
      BeforeIsSomewhere(policies, i, k);
    }
  }

  lemma TypedMatchesAfter(policies: seq<Policy>)
    requires AllWellFormed(policies) && Typed(policies, |policies|)
    ensures MatchesAfterRequired(DescribeAll(policies))
  {
    var metas := DescribeAll(policies);
    forall j | IsAt(metas, j, ProjectMatchType)
      ensures exists i | i < j :: IsAt(metas, i, ProjectRequiredType) {
      TypedMeets(policies, j);
      assert WellFormed(policies[j]);
      HasBeforeAt(policies, j, ProjectRequiredType);
      var i :| 0 <= i < j && Describe(policies[i]).kind == ProjectRequiredType;
      assert IsAt(metas, i, ProjectRequiredType);
    }
  }

  lemma PatternRulesAre(pattern: string, policies: seq<Policy>)
    requires AllWellFormed(policies)
    ensures ProjectRules(pattern, DescribeAll(policies)) <==> FitsPattern(pattern, policies)
  {
    var metas := DescribeAll(policies);
    HasIs(policies, ProjectRequiredType);
    HasIs(policies, ProjectMatchType);
    if ProjectRules(pattern, metas) {
      forall p | p in policies && p.ProjectMatch?
        ensures Some(Lower(Trim(p.param))) == RouteParam(pattern) {
        assert Describe(p).kind == ProjectMatchType;
        var i :| 0 <= i < |policies| && policies[i] == p;
        assert IsAt(metas, i, ProjectMatchType);
      }
    }
    if FitsPattern(pattern, policies) {
      forall i | IsAt(metas, i, ProjectMatchType)
        ensures policies[i].ProjectMatch? && Some(Lower(Trim(metas[i].param))) == RouteParam(pattern) {
        assert WellFormed(policies[i]) && policies[i] in policies;
      }
    }
  }

  lemma CacheRulesAre(policies: seq<Policy>)
    requires AllWellFormed(policies) && StagesAscend(DescribeAll(policies))
    ensures CacheSafety(DescribeAll(policies)) <==> CacheTyped(policies, |policies|)
  {
    var metas := DescribeAll(policies);
    if CacheSafety(metas) {
      CacheRulesType(policies, |policies|);
    }
    if CacheTyped(policies, |policies|) && Has(metas, AuthRequiredType) {
      forall i | IsAt(metas, i, CacheReadType)
        ensures metas[i].shared || metas[i].varyUser || metas[i].varyProject {
        assert WellFormed(policies[i]) && policies[i].CacheRead?;
        CacheTypedAt(policies, i, |policies|);
        AuthBeforeCache(policies, i);
      }
    }
  }

  lemma NeedsGiveRules(policies: seq<Policy>)
    requires AllWellFormed(policies) && Typed(policies, |policies|)
    ensures AuthDependencies(DescribeAll(policies)) && ResolverRules(DescribeAll(policies))
  {
    var metas := DescribeAll(policies);
    if Has(metas, ProjectRequiredType) {
      TypedHasNeeds(policies, ProjectRequiredType);
    }
    if Has(metas, ResolvePermissionsType) {
      TypedHasNeeds(policies, ResolvePermissionsType);
    }
    if Has(metas, RequirePermissionType) {
      TypedHasNeeds(policies, RequirePermissionType);
    }
    if Has(metas, RequireAnyType) {
      TypedHasNeeds(policies, RequireAnyType);
    }
    if Has(metas, RequireAllType) {
      TypedHasNeeds(policies, RequireAllType);
    }
  }

  /** The validator accepts a list if and only if it keeps the documented order, every policy
      finds what it needs established before it, and the project policies are those of the
      pattern. */
  lemma AcceptedExactlyWhen(pattern: string, policies: seq<Policy>)
    requires AllWellFormed(policies) && Trim(pattern) != "" && policies != []
    ensures Accepts(pattern, DescribeAll(policies))
            <==>
            && KeepsOrder(policies) && FitsPattern(pattern, policies)
            && Typed(policies, |policies|) && CacheTyped(policies, |policies|)
  {
    var metas := DescribeAll(policies);
    KeepsOrderIs(policies);
    PatternRulesAre(pattern, policies);
    if Accepts(pattern, metas) {
      AcceptedIsTyped(pattern, policies);
    }
    if KeepsOrder(policies) && FitsPattern(pattern, policies)
       && Typed(policies, |policies|) && CacheTyped(policies, |policies|) {
      CacheRulesAre(policies);
      TypedMatchesAfter(policies);
      NeedsGiveRules(policies);
    }
  }
}
