/** RenderAll of internal/gateway/render.go: the whole cluster state in, the blueprint
    and a verdict per object out. */
module Render {
  import opened Text
  import opened Types
  import opened Policies
  import opened Collisions
  import opened Translate
  import Laws = CollisionLaws

  // ---------- which routes are served ----------

  function ServedClasses(classes: seq<GatewayClass>, controllerName: string): set<string> {
    set c | c in classes && c.controllerName == controllerName :: c.name
  }

  function GatewaysByName(gateways: seq<Gateway>): map<Name, Gateway> {
    if gateways == [] then map[]
    else GatewaysByName(gateways[..|gateways| - 1])[gateways[|gateways| - 1].name := gateways[|gateways| - 1]]
  }

  predicate RefersToGateway(ref: ParentRef) {
    && !(ref.group.Some? && ref.group.value != "gateway.networking.k8s.io" && ref.group.value != "")
    && (ref.kind.None? || ref.kind.value == "Gateway")
  }

  function ParentKey(ref: ParentRef, ns: string): Name {
    Name(if ref.ns.Some? then ref.ns.value else ns, ref.name)
  }

  predicate Resolves(ref: ParentRef, ns: string, gateways: map<Name, Gateway>) {
    RefersToGateway(ref) && ParentKey(ref, ns) in gateways
  }

  /** The parentRefs that point at a Gateway of a served class. */
  function ServedParents(refs: seq<ParentRef>, ns: string, gateways: map<Name, Gateway>,
                         classes: set<string>): seq<ParentRef> {
    if refs == [] then []
    else
      var front, ref := ServedParents(refs[..|refs| - 1], ns, gateways, classes), refs[|refs| - 1];
      if Resolves(ref, ns, gateways) && gateways[ParentKey(ref, ns)].class_ in classes then front + [ref] else front
  }

  function ParentsOf(r: Route, input: Inputs): seq<ParentRef> {
    ServedParents(r.parentRefs, r.name.ns, GatewaysByName(input.gateways),
                  ServedClasses(input.classes, input.controllerName))
  }

  /** No parentRef resolves to a Gateway, and at least one asks for one: then no
      other controller can report on the route either. */
  predicate OnlyUnresolvable(r: Route, input: Inputs) {
    var gateways := GatewaysByName(input.gateways);
    && (exists ref | ref in r.parentRefs :: RefersToGateway(ref))
    && (forall ref | ref in r.parentRefs :: !Resolves(ref, r.name.ns, gateways))
  }

  /** Routes the reconciler resolves credentials for. */
  function ServedRoutes(routes: seq<Route>, input: Inputs): seq<Route> {
    if routes == [] then []
    else
      var front, r := ServedRoutes(routes[..|routes| - 1], input), routes[|routes| - 1];
      if ParentsOf(r, input) != [] then front + [r] else front
  }

  // ---------- one object ----------

  const ROUTE_ACCEPTED := ConditionResult(true, ReasonAccepted, Say("Route published to Pangolin"))
  const ROUTE_RESOLVED := ConditionResult(true, ReasonResolvedRefs, Say("Backend resolved"))
  const RESOURCE_ACCEPTED := ConditionResult(true, ReasonAccepted, Say("Resource is valid and its names are unclaimed"))
  const NO_PARENT := ConditionResult(false, ReasonNoMatchingParent, Say("no Gateway found for any parentRef"))

  function Noted(c: ConditionResult, notes: seq<Note>): ConditionResult {
    if notes != [] then c.(message := WithNotes(c.message, notes)) else c
  }

  predicate IsRefReason(r: Reason) { r.ReasonInvalidKind? || r.ReasonRefNotPermitted? || r.ReasonBackendNotFound? }

  function RejectedVerdict(r: Route, parents: seq<ParentRef>, c: ConditionResult): Verdict {
    if IsRefReason(c.reason)
    then Verdict("", r.generation, parents, ConditionResult(false, ReasonUnsupportedValue, c.message), c)
    else Verdict("", r.generation, parents, c, ROUTE_RESOLVED)
  }

  /** What the render concludes about one route before collisions; None for a route
      this controller has no opinion about. */
  function RouteVerdict(w: World, r: Route, input: Inputs, policies: map<Name, ResourceVerdict>): Option<Verdict> {
    var parents := ParentsOf(r, input);
    if parents == [] then
      if OnlyUnresolvable(r, input) then Some(Verdict("", r.generation, r.parentRefs, NO_PARENT, ROUTE_RESOLVED))
      else None
    else match TranslateRoute(w, r, input, policies)
      case Err(c) => Some(RejectedVerdict(r, parents, c))
      case Ok(e) => Some(Verdict("", r.generation, parents, Noted(ROUTE_ACCEPTED, e.notes), ROUTE_RESOLVED))
  }

  function RouteCandidate(w: World, r: Route, input: Inputs, policies: map<Name, ResourceVerdict>): seq<Candidate> {
    if ParentsOf(r, input) == [] then []
    else match TranslateRoute(w, r, input, policies)
      case Err(_) => []
      case Ok(e) => [Candidate(Claimant(HTTPRouteKind, r.name), r.createdAt, e)]
  }

  function ResourceVerdictOf(w: World, o: PrivateObject, input: Inputs): ResourceVerdict {
    match TranslatePrivate(w, o, input)
    case Err(c) => ResourceVerdict("", o.generation, c)
    case Ok(e) => ResourceVerdict("", o.generation, Noted(RESOURCE_ACCEPTED, e.notes))
  }

  function ResourceCandidate(w: World, o: PrivateObject, input: Inputs): seq<Candidate> {
    match TranslatePrivate(w, o, input)
    case Err(_) => []
    case Ok(e) => [Candidate(Claimant(PrivateResourceKind, o.name), o.createdAt, e)]
  }

  // ---------- all objects ----------

  function RouteVerdicts(w: World, routes: seq<Route>, input: Inputs,
                         policies: map<Name, ResourceVerdict>): map<Name, Verdict> {
    if routes == [] then map[]
    else
      var front, r := RouteVerdicts(w, routes[..|routes| - 1], input, policies), routes[|routes| - 1];
      match RouteVerdict(w, r, input, policies)
      case Some(v) => front[r.name := v]
      case None => front
  }

  function RouteCandidates(w: World, routes: seq<Route>, input: Inputs,
                           policies: map<Name, ResourceVerdict>): seq<Candidate> {
    if routes == [] then []
    else RouteCandidates(w, routes[..|routes| - 1], input, policies)
         + RouteCandidate(w, routes[|routes| - 1], input, policies)
  }

  function ResourceVerdicts(w: World, os: seq<PrivateObject>, input: Inputs): map<Name, ResourceVerdict> {
    if os == [] then map[]
    else ResourceVerdicts(w, os[..|os| - 1], input)[os[|os| - 1].name := ResourceVerdictOf(w, os[|os| - 1], input)]
  }

  function ResourceCandidates(w: World, os: seq<PrivateObject>, input: Inputs): seq<Candidate> {
    if os == [] then []
    else ResourceCandidates(w, os[..|os| - 1], input) + ResourceCandidate(w, os[|os| - 1], input)
  }

  function PolicyVerdicts(w: World, input: Inputs): map<Name, ResourceVerdict> {
    PoliciesRendered(w, input.licensed, input.policies).verdicts
  }

  function AllCandidates(w: World, input: Inputs): seq<Candidate> {
    RouteCandidates(w, input.routes, input, PolicyVerdicts(w, input))
    + ResourceCandidates(w, input.privateResources, input)
  }

  function OutcomeCondition(key: string, o: Outcome, accepted: ConditionResult): ConditionResult {
    match o
    case Won(_) => accepted
    case KeyTaken(owner) => ConditionResult(false, ReasonDuplicateKey, KeyClaimed(key, owner))
    case HostTaken(host, owner) => ConditionResult(false, ReasonDuplicateHostname, HostClaimed(host, owner))
  }

  function OutcomeKey(o: Outcome): string { if o.Won? then o.key else "" }

  function SettleRoute(n: Name, v: Verdict, outcomes: map<Claimant, Outcome>): Verdict {
    var c := Claimant(HTTPRouteKind, n);
    if c in outcomes
    then v.(key := OutcomeKey(outcomes[c]), accepted := OutcomeCondition(Key(n), outcomes[c], v.accepted))
    else v
  }

  function SettleResource(n: Name, v: ResourceVerdict, outcomes: map<Claimant, Outcome>): ResourceVerdict {
    var c := Claimant(PrivateResourceKind, n);
    if c in outcomes
    then v.(key := OutcomeKey(outcomes[c]),
            accepted := OutcomeCondition(PrivateResourceKey(n), outcomes[c], v.accepted))
    else v
  }

  datatype Rendered = Rendered(
    blueprint: Blueprint,
    routes: map<Name, Verdict>,
    resources: map<Name, ResourceVerdict>,
    policies: map<Name, ResourceVerdict>)

  /** The route ended with a key. */
  predicate RoutePublished(r: Rendered, n: Name) { n in r.routes && r.routes[n].Published() }

  function RenderedOf(w: World, input: Inputs): Rendered {
    var policies := PoliciesRendered(w, input.licensed, input.policies);
    var r := ResolveCandidates(AllCandidates(w, input));
    var routes := RouteVerdicts(w, input.routes, input, policies.verdicts);
    var resources := ResourceVerdicts(w, input.privateResources, input);
    Rendered(
      Blueprint(r.claims.public, r.claims.private, policies.entries),
      map n | n in routes :: SettleRoute(n, routes[n], r.outcomes),
      map n | n in resources :: SettleResource(n, resources[n], r.outcomes),
      policies.verdicts)
  }

  /** The body of the loop over routes. */
  method RenderRoute(w: World, r: Route, input: Inputs, policies: map<Name, ResourceVerdict>)
    returns (verdict: Option<Verdict>, candidate: seq<Candidate>)
    ensures verdict == RouteVerdict(w, r, input, policies)
    ensures candidate == RouteCandidate(w, r, input, policies)
  {
    var parents := ParentsOf(r, input);
    if parents == [] {
      if OnlyUnresolvable(r, input) {
        return Some(Verdict("", r.generation, r.parentRefs, NO_PARENT, ROUTE_RESOLVED)), [];
      }
      return None, [];
    }
    var entry := TranslateRoute(w, r, input, policies);
    match entry {
      case Err(c) => return Some(RejectedVerdict(r, parents, c)), [];
      case Ok(e) =>
        verdict := Some(Verdict("", r.generation, parents, Noted(ROUTE_ACCEPTED, e.notes), ROUTE_RESOLVED));
        candidate := [Candidate(Claimant(HTTPRouteKind, r.name), r.createdAt, e)];
    }
  }

  method RenderRoutes(w: World, input: Inputs, policies: map<Name, ResourceVerdict>)
    returns (verdicts: map<Name, Verdict>, candidates: seq<Candidate>)
    ensures verdicts == RouteVerdicts(w, input.routes, input, policies)
    ensures candidates == RouteCandidates(w, input.routes, input, policies)
  {
    hide TranslateRoute;
    verdicts, candidates := map[], [];
    var i := 0;
    while i < |input.routes|
      invariant 0 <= i <= |input.routes|
      invariant verdicts == RouteVerdicts(w, input.routes[..i], input, policies)
      invariant candidates == RouteCandidates(w, input.routes[..i], input, policies)
    {
      assert input.routes[..i + 1][..i] == input.routes[..i];
      var verdict, candidate := RenderRoute(w, input.routes[i], input, policies);
      if verdict.Some? { verdicts := verdicts[input.routes[i].name := verdict.value]; }
      candidates := candidates + candidate;
      i := i + 1;
    }
    assert input.routes[..i] == input.routes;
  }

  method RenderResources(w: World, input: Inputs)
    returns (verdicts: map<Name, ResourceVerdict>, candidates: seq<Candidate>)
    ensures verdicts == ResourceVerdicts(w, input.privateResources, input)
    ensures candidates == ResourceCandidates(w, input.privateResources, input)
  {
    hide TranslatePrivate;
    verdicts, candidates := map[], [];
    var i := 0;
    while i < |input.privateResources|
      invariant 0 <= i <= |input.privateResources|
      invariant verdicts == ResourceVerdicts(w, input.privateResources[..i], input)
      invariant candidates == ResourceCandidates(w, input.privateResources[..i], input)
    {
      var o := input.privateResources[i];
      assert input.privateResources[..i + 1][..i] == input.privateResources[..i];
      i := i + 1;
      var entry := TranslatePrivate(w, o, input);
      match entry {
        case Err(c) => verdicts := verdicts[o.name := ResourceVerdict("", o.generation, c)];
        case Ok(e) =>
          verdicts := verdicts[o.name := ResourceVerdict("", o.generation, Noted(RESOURCE_ACCEPTED, e.notes))];
          candidates := candidates + [Candidate(Claimant(PrivateResourceKind, o.name), o.createdAt, e)];
      }
    }
    assert input.privateResources[..i] == input.privateResources;
  }

  /** RenderAll: policies first, then every route and resource, then the collision
      check. */
  method RenderAll(w: World, input: Inputs) returns (result: Rendered)
    requires DistinctObjects(input)
    ensures result == RenderedOf(w, input)
  {
    hide PoliciesRendered, SortedPolicies, RouteVerdicts;
    var policyVerdicts, policyEntries := RenderPolicies(w, input.licensed, input.policies);
    var routes, fromRoutes := RenderRoutes(w, input, policyVerdicts);
    var resources, fromResources := RenderResources(w, input);
    var r := ResolveCollisions(fromRoutes + fromResources);
    OutcomesHaveVerdicts(w, input);
    routes, resources := SettleAll(routes, resources, r.outcomes);
    result := Rendered(Blueprint(r.claims.public, r.claims.private, policyEntries), routes, resources, policyVerdicts);
  }

  /** The verdicts while some outcomes are still to be settled. */
  ghost function RoutesBut(routes: map<Name, Verdict>, outcomes: map<Claimant, Outcome>,
                           todo: set<Claimant>): map<Name, Verdict> {
    map n | n in routes ::
      if Claimant(HTTPRouteKind, n) in todo then routes[n] else SettleRoute(n, routes[n], outcomes)
  }

  ghost function ResourcesBut(resources: map<Name, ResourceVerdict>, outcomes: map<Claimant, Outcome>,
                              todo: set<Claimant>): map<Name, ResourceVerdict> {
    map n | n in resources ::
      if Claimant(PrivateResourceKind, n) in todo then resources[n] else SettleResource(n, resources[n], outcomes)
  }

  lemma SettleNext(routes: map<Name, Verdict>, resources: map<Name, ResourceVerdict>, outcomes: map<Claimant, Outcome>,
                   todo: set<Claimant>, c: Claimant)
    requires c in todo && if c.kind.HTTPRouteKind? then c.name in routes else c.name in resources
    ensures RoutesBut(routes, outcomes, todo - {c})
         == if c.kind.HTTPRouteKind?
            then RoutesBut(routes, outcomes, todo)[c.name := SettleRoute(c.name, routes[c.name], outcomes)]
            else RoutesBut(routes, outcomes, todo)
    ensures ResourcesBut(resources, outcomes, todo - {c})
         == if c.kind.HTTPRouteKind? then ResourcesBut(resources, outcomes, todo)
            else ResourcesBut(resources, outcomes, todo)[c.name := SettleResource(c.name, resources[c.name], outcomes)]
  {
    hide SettleRoute, SettleResource;
  }

  lemma NothingSettled(routes: map<Name, Verdict>, resources: map<Name, ResourceVerdict>,
                       outcomes: map<Claimant, Outcome>)
    ensures RoutesBut(routes, outcomes, outcomes.Keys) == routes
    ensures ResourcesBut(resources, outcomes, outcomes.Keys) == resources
  {
    hide OutcomeCondition, OutcomeKey;
  }

  /** The loop over the outcomes, in any order. */
  method SettleAll(routes: map<Name, Verdict>, resources: map<Name, ResourceVerdict>, outcomes: map<Claimant, Outcome>)
    returns (routes': map<Name, Verdict>, resources': map<Name, ResourceVerdict>)
    requires forall c :: c in outcomes ==> if c.kind.HTTPRouteKind? then c.name in routes else c.name in resources
    ensures routes' == map n | n in routes :: SettleRoute(n, routes[n], outcomes)
    ensures resources' == map n | n in resources :: SettleResource(n, resources[n], outcomes)
  {
    hide OutcomeCondition, OutcomeKey, Key, PrivateResourceKey;
    routes', resources' := routes, resources;
    var todo := outcomes.Keys;
    NothingSettled(routes, resources, outcomes);
    while todo != {}
      invariant todo <= outcomes.Keys
      invariant routes' == RoutesBut(routes, outcomes, todo) && resources' == ResourcesBut(resources, outcomes, todo)
      decreases |todo|
    {
      var c :| c in todo;
      var o := outcomes[c];
      SettleNext(routes, resources, outcomes, todo, c);
      match c.kind {
        case HTTPRouteKind =>
          var v := routes'[c.name];
          routes' := routes'[c.name := v.(key := OutcomeKey(o),
            accepted := OutcomeCondition(Key(c.name), o, v.accepted))];
        case PrivateResourceKind =>
          var v := resources'[c.name];
          resources' := resources'[c.name :=
            v.(key := OutcomeKey(o), accepted := OutcomeCondition(PrivateResourceKey(c.name), o, v.accepted))];
      }
      todo := todo - {c};
    }
  }

  /** Names are unique per kind, as the API server guarantees. */
  ghost predicate DistinctObjects(input: Inputs) {
    && (forall i, j :: 0 <= i < j < |input.routes| ==> input.routes[i].name != input.routes[j].name)
    && (forall i, j :: 0 <= i < j < |input.privateResources| ==>
         input.privateResources[i].name != input.privateResources[j].name)
    && DistinctPolicies(input.policies)
  }

  // ---------- candidates come from objects ----------

  /** The candidates are what f makes of the objects, one at most per object. */
  ghost predicate MadeFrom<T(!new)>(cs: seq<Candidate>, objects: seq<T>, f: T -> seq<Candidate>) {
    && DistinctClaimants(cs)
    && (forall c :: c in cs ==> exists x :: x in objects && f(x) == [c])
    && (forall x :: x in objects && f(x) != [] ==> f(x)[0] in cs)
  }

  ghost predicate OneEach<T(!new)>(f: T -> seq<Candidate>, claimant: T -> Claimant) {
    forall x :: |f(x)| <= 1 && (f(x) != [] ==> f(x)[0].claimant == claimant(x))
  }

  lemma MadeFromMore<T(!new)>(cs: seq<Candidate>, front: seq<T>, last: T, f: T -> seq<Candidate>,
                              claimant: T -> Claimant)
    requires MadeFrom(cs, front, f) && OneEach(f, claimant)
    requires forall x :: x in front ==> claimant(x) != claimant(last)
    ensures MadeFrom(cs + f(last), front + [last], f)
  {
    var all, objects := cs + f(last), front + [last];
    assert last in objects && forall x :: x in front ==> x in objects;
    forall c | c in all ensures exists x :: x in objects && f(x) == [c] {
      if c in cs {
        var x :| x in front && f(x) == [c];
        assert x in objects;
      } else {
        assert f(last) == [c];
      }
    }
    forall i, j | 0 <= i < j < |all| ensures all[i].claimant != all[j].claimant {
      assert all[i] in cs;
      var x :| x in front && f(x) == [all[i]];
      assert j < |cs| || f(last) == [all[j]];
    }
  }

  function MakeAll<T>(objects: seq<T>, f: T -> seq<Candidate>): seq<Candidate> {
    if objects == [] then [] else MakeAll(objects[..|objects| - 1], f) + f(objects[|objects| - 1])
  }

  lemma {:induction false} AllAreMade<T(!new)>(objects: seq<T>, f: T -> seq<Candidate>, claimant: T -> Claimant)
    requires OneEach(f, claimant)
    requires forall i, j :: 0 <= i < j < |objects| ==> claimant(objects[i]) != claimant(objects[j])
    ensures MadeFrom(MakeAll(objects, f), objects, f)
  {
    if objects != [] {
      var front, last := objects[..|objects| - 1], objects[|objects| - 1];
      assert objects == front + [last];
      AllAreMade(front, f, claimant);
      forall x | x in front ensures claimant(x) != claimant(last) {
        var i :| 0 <= i < |front| && front[i] == x;
        assert claimant(objects[i]) != claimant(objects[|objects| - 1]);
      }
      MadeFromMore(MakeAll(front, f), front, last, f, claimant);
    }
  }

  lemma {:induction false} RouteCandidatesAre(w: World, routes: seq<Route>, input: Inputs,
                                              policies: map<Name, ResourceVerdict>,
                                              f: Route -> seq<Candidate>)
    requires forall r :: f(r) == RouteCandidate(w, r, input, policies)
    ensures RouteCandidates(w, routes, input, policies) == MakeAll(routes, f)
  {
    if routes != [] { RouteCandidatesAre(w, routes[..|routes| - 1], input, policies, f); }
  }

  lemma {:induction false} ResourceCandidatesAre(w: World, os: seq<PrivateObject>, input: Inputs,
                                                 f: PrivateObject -> seq<Candidate>)
    requires forall o :: f(o) == ResourceCandidate(w, o, input)
    ensures ResourceCandidates(w, os, input) == MakeAll(os, f)
  {
    if os != [] { ResourceCandidatesAre(w, os[..|os| - 1], input, f); }
  }

  lemma CandidatesOfRoutes(w: World, routes: seq<Route>, input: Inputs, policies: map<Name, ResourceVerdict>)
    requires forall i, j :: 0 <= i < j < |routes| ==> routes[i].name != routes[j].name
    ensures var cs := RouteCandidates(w, routes, input, policies);
      && DistinctClaimants(cs)
      && (forall c :: c in cs ==> exists r :: r in routes && RouteCandidate(w, r, input, policies) == [c])
      && (forall r :: r in routes && RouteCandidate(w, r, input, policies) != [] ==>
        RouteCandidate(w, r, input, policies)[0] in cs)
  {
    var f := (r: Route) => RouteCandidate(w, r, input, policies);
    var claimant := (r: Route) => Claimant(HTTPRouteKind, r.name);
    RouteCandidatesAre(w, routes, input, policies, f);
    AllAreMade(routes, f, claimant);
    var cs := RouteCandidates(w, routes, input, policies);
    forall c | c in cs ensures exists r :: r in routes && RouteCandidate(w, r, input, policies) == [c] {
      var r :| r in routes && f(r) == [c];
    }
    forall r | r in routes && RouteCandidate(w, r, input, policies) != []
      ensures RouteCandidate(w, r, input, policies)[0] in cs
    {
      assert f(r) != [];
    }
  }

  lemma CandidatesOfResources(w: World, os: seq<PrivateObject>, input: Inputs)
    requires forall i, j :: 0 <= i < j < |os| ==> os[i].name != os[j].name
    ensures var cs := ResourceCandidates(w, os, input);
      && DistinctClaimants(cs)
      && (forall c :: c in cs ==> exists o :: o in os && ResourceCandidate(w, o, input) == [c])
      && (forall o :: o in os && ResourceCandidate(w, o, input) != [] ==> ResourceCandidate(w, o, input)[0] in cs)
  {
    var f := (o: PrivateObject) => ResourceCandidate(w, o, input);
    var claimant := (o: PrivateObject) => Claimant(PrivateResourceKind, o.name);
    ResourceCandidatesAre(w, os, input, f);
    AllAreMade(os, f, claimant);
    var cs := ResourceCandidates(w, os, input);
    forall c | c in cs ensures exists o :: o in os && ResourceCandidate(w, o, input) == [c] {
      var o :| o in os && f(o) == [c];
    }
    forall o | o in os && ResourceCandidate(w, o, input) != [] ensures ResourceCandidate(w, o, input)[0] in cs {
      assert f(o) != [];
    }
  }

  lemma CandidatesDistinct(w: World, input: Inputs)
    requires DistinctObjects(input)
    ensures DistinctClaimants(AllCandidates(w, input))
  {
    hide PublicEntry, TranslatePrivate;
    var policies := PolicyVerdicts(w, input);
    CandidatesOfRoutes(w, input.routes, input, policies);
    CandidatesOfResources(w, input.privateResources, input);
    var a, b := RouteCandidates(w, input.routes, input, policies), ResourceCandidates(w, input.privateResources, input);
    var all := AllCandidates(w, input);
    assert all == a + b;
    forall i, j | 0 <= i < j < |all| ensures all[i].claimant != all[j].claimant {
      if i < |a| <= j {
        assert a[i] in a && b[j - |a|] in b;
        var r :| r in input.routes && RouteCandidate(w, r, input, policies) == [a[i]];
        var o :| o in input.privateResources && ResourceCandidate(w, o, input) == [b[j - |a|]];
        assert a[i].claimant.kind != b[j - |a|].claimant.kind;
      }
    }
  }

  /** Every candidate is the translation of a served route or of a resource. */
  lemma CandidateSource(w: World, input: Inputs, c: Candidate)
    requires DistinctObjects(input) && c in AllCandidates(w, input)
    ensures if c.claimant.kind.HTTPRouteKind?
            then exists r :: r in input.routes && RouteCandidate(w, r, input, PolicyVerdicts(w, input)) == [c]
            else exists o :: o in input.privateResources && ResourceCandidate(w, o, input) == [c]
  {
    hide TranslateRoute;
    var policies := PolicyVerdicts(w, input);
    CandidatesOfRoutes(w, input.routes, input, policies);
    CandidatesOfResources(w, input.privateResources, input);
    if c in RouteCandidates(w, input.routes, input, policies) {
      var r :| r in input.routes && RouteCandidate(w, r, input, policies) == [c];
      assert c.claimant.kind.HTTPRouteKind?;
    } else {
      var o :| o in input.privateResources && ResourceCandidate(w, o, input) == [c];
      assert c.claimant.kind.PrivateResourceKind?;
    }
  }

  lemma {:induction false} VerdictsNameRoutes(w: World, routes: seq<Route>, input: Inputs,
                                              policies: map<Name, ResourceVerdict>, n: Name)
    requires n in RouteVerdicts(w, routes, input, policies)
    ensures exists r :: r in routes && r.name == n
  {
    var front, last := routes[..|routes| - 1], routes[|routes| - 1];
    assert routes == front + [last];
    assert last in routes;
    if n != last.name {
      VerdictsNameRoutes(w, front, input, policies, n);
      var r :| r in front && r.name == n;
      assert r in routes;
    }
  }

  /** A route's verdict in the map is the one computed for it. */
  lemma {:induction false} VerdictsOfRoutes(w: World, routes: seq<Route>, input: Inputs,
                                            policies: map<Name, ResourceVerdict>, r: Route)
    requires forall i, j :: 0 <= i < j < |routes| ==> routes[i].name != routes[j].name
    requires r in routes
    ensures var vs := RouteVerdicts(w, routes, input, policies);
            RouteVerdict(w, r, input, policies) == if r.name in vs then Some(vs[r.name]) else None
  {
    var front, last := routes[..|routes| - 1], routes[|routes| - 1];
    assert routes == front + [last];
    if r == last {
      if r.name in RouteVerdicts(w, front, input, policies) {
        VerdictsNameRoutes(w, front, input, policies, r.name);
      }
    } else {
      VerdictsOfRoutes(w, front, input, policies, r);
    }
  }

  lemma {:induction false} VerdictsOfResources(w: World, os: seq<PrivateObject>, input: Inputs)
    requires forall i, j :: 0 <= i < j < |os| ==> os[i].name != os[j].name
    ensures var vs := ResourceVerdicts(w, os, input);
      && (forall o :: o in os ==> o.name in vs && vs[o.name] == ResourceVerdictOf(w, o, input))
      && (forall n :: n in vs ==> exists o :: o in os && o.name == n)
  {
    hide ResourceVerdictOf;
    if os != [] {
      var front, last := os[..|os| - 1], os[|os| - 1];
      VerdictsOfResources(w, front, input);
      assert os == front + [last];
      assert last in os;
      var vs := ResourceVerdicts(w, front, input);
      forall n | n in ResourceVerdicts(w, os, input) ensures exists o :: o in os && o.name == n {
        if n in vs {
          var o :| o in front && o.name == n;
          assert o in os;
        }
      }
    }
  }

  lemma RouteOfCandidate(w: World, input: Inputs, c: Candidate) returns (r: Route)
    requires DistinctObjects(input) && c in AllCandidates(w, input) && c.claimant.kind.HTTPRouteKind?
    ensures r in input.routes && RouteCandidate(w, r, input, PolicyVerdicts(w, input)) == [c]
    ensures r.name == c.claimant.name
  {
    CandidateSource(w, input, c);
    r :| r in input.routes && RouteCandidate(w, r, input, PolicyVerdicts(w, input)) == [c];
  }

  lemma ResourceOfCandidate(w: World, input: Inputs, c: Candidate) returns (o: PrivateObject)
    requires DistinctObjects(input) && c in AllCandidates(w, input) && c.claimant.kind.PrivateResourceKind?
    ensures o in input.privateResources && ResourceCandidate(w, o, input) == [c]
    ensures o.name == c.claimant.name
  {
    CandidateSource(w, input, c);
    o :| o in input.privateResources && ResourceCandidate(w, o, input) == [c];
  }

  /** Whoever has an outcome has a verdict to settle. */
  lemma OutcomeHasVerdict(w: World, input: Inputs, x: Claimant)
    requires DistinctObjects(input) && x in ResolveCandidates(AllCandidates(w, input)).outcomes
    ensures if x.kind.HTTPRouteKind? then x.name in RouteVerdicts(w, input.routes, input, PolicyVerdicts(w, input))
            else x.name in ResourceVerdicts(w, input.privateResources, input)
  {
    hide TranslateRoute;
    CandidatesDistinct(w, input);
    Laws.OutcomesAreCandidates(AllCandidates(w, input), x);
    var c :| c in AllCandidates(w, input) && c.claimant == x;
    match x.kind {
      case HTTPRouteKind =>
        var r := RouteOfCandidate(w, input, c);
        VerdictsOfRoutes(w, input.routes, input, PolicyVerdicts(w, input), r);
      case PrivateResourceKind =>
        var o := ResourceOfCandidate(w, input, c);
        VerdictsOfResources(w, input.privateResources, input);
    }
  }

  lemma OutcomesHaveVerdicts(w: World, input: Inputs)
    requires DistinctObjects(input)
    ensures forall x :: x in ResolveCandidates(AllCandidates(w, input)).outcomes ==>
      if x.kind.HTTPRouteKind? then x.name in RouteVerdicts(w, input.routes, input, PolicyVerdicts(w, input))
      else x.name in ResourceVerdicts(w, input.privateResources, input)
  {
    forall x | x in ResolveCandidates(AllCandidates(w, input)).outcomes
      ensures if x.kind.HTTPRouteKind? then x.name in RouteVerdicts(w, input.routes, input, PolicyVerdicts(w, input))
              else x.name in ResourceVerdicts(w, input.privateResources, input)
    {
      OutcomeHasVerdict(w, input, x);
    }
  }
}
