/** What a render guarantees: verdicts and blueprint entries correspond one to one,
    every key is the controller's, and policy references hold. */
module RenderLaws {
  import opened Text
  import opened Types
  import opened Policies
  import opened Collisions
  import opened Translate
  import opened Render
  import Laws = CollisionLaws

  // ---------- rejections are False ----------

  lemma PlaceErrors(r: Route, input: Inputs)
    ensures Place(r, input).Err? ==> !Place(r, input).error.status
  {}

  lemma RouteErrors(w: World, r: Route, input: Inputs, policies: map<Name, ResourceVerdict>)
    ensures TranslateRoute(w, r, input, policies).Err? ==> !TranslateRoute(w, r, input, policies).error.status
    ensures TranslateRoute(w, r, input, policies).Ok? ==> TranslateRoute(w, r, input, policies).value.key == Key(r.name)
  {
    hide PublicEntry;
    PlaceErrors(r, input);
  }

  lemma GrantErrors(roles: seq<string>, users: seq<string>, machines: seq<string>, input: Inputs)
    ensures PrivateGrants(roles, users, machines, input).Err? ==>
            !PrivateGrants(roles, users, machines, input).error.status
  {}

  lemma {:induction false} SiteErrors(sites: seq<string>, input: Inputs)
    ensures CheckSites(sites, input).Err? ==> !CheckSites(sites, input).error.status
    ensures CheckSites(sites, input).Ok? <==>
            forall s :: s in sites ==> TrimSpace(s) != "" && (input.knownSites.Some? ==> s in input.knownSites.value)
  {
    if sites != [] {
      SiteErrors(sites[1..], input);
      assert sites == [sites[0]] + sites[1..];
    }
  }

  lemma ResourceErrors(w: World, o: PrivateObject, input: Inputs)
    ensures TranslatePrivate(w, o, input).Err? ==> !TranslatePrivate(w, o, input).error.status
    ensures TranslatePrivate(w, o, input).Ok? ==> TranslatePrivate(w, o, input).value.key == PrivateResourceKey(o.name)
    ensures TranslatePrivate(w, o, input).Ok? ==> TranslatePrivate(w, o, input).value.section.InPrivate?
  {
    SiteErrors(PrivateSites(o.spec, input), input);
    GrantErrors(o.spec.roles, o.spec.users, o.spec.machines, input);
  }

  // ---------- outcomes of objects ----------

  function Outcomes(w: World, input: Inputs): map<Claimant, Outcome> {
    ResolveCandidates(AllCandidates(w, input)).outcomes
  }

  lemma CandidateOfRoute(w: World, input: Inputs, r: Route, c: Candidate)
    requires DistinctObjects(input) && r in input.routes
    requires RouteCandidate(w, r, input, PolicyVerdicts(w, input)) == [c]
    ensures c in AllCandidates(w, input)
  {
    CandidatesOfRoutes(w, input.routes, input, PolicyVerdicts(w, input));
  }

  lemma CandidateOfResource(w: World, input: Inputs, o: PrivateObject, c: Candidate)
    requires DistinctObjects(input) && o in input.privateResources && ResourceCandidate(w, o, input) == [c]
    ensures c in AllCandidates(w, input)
  {
    CandidatesOfResources(w, input.privateResources, input);
  }

  lemma SameRoute(routes: seq<Route>, a: Route, b: Route)
    requires forall i, j :: 0 <= i < j < |routes| ==> routes[i].name != routes[j].name
    requires a in routes && b in routes && a.name == b.name
    ensures a == b
  {}

  lemma SameObject(os: seq<PrivateObject>, a: PrivateObject, b: PrivateObject)
    requires forall i, j :: 0 <= i < j < |os| ==> os[i].name != os[j].name
    requires a in os && b in os && a.name == b.name
    ensures a == b
  {}

  lemma NoRouteOutcome(w: World, input: Inputs, r: Route)
    requires DistinctObjects(input) && r in input.routes
    requires RouteCandidate(w, r, input, PolicyVerdicts(w, input)) == []
    ensures Claimant(HTTPRouteKind, r.name) !in Outcomes(w, input)
  {
    var x := Claimant(HTTPRouteKind, r.name);
    if x in Outcomes(w, input) {
      CandidatesDistinct(w, input);
      Laws.OutcomesAreCandidates(AllCandidates(w, input), x);
      var c :| c in AllCandidates(w, input) && c.claimant == x;
      var s := RouteOfCandidate(w, input, c);
      SameRoute(input.routes, r, s);
    }
  }

  lemma NoResourceOutcome(w: World, input: Inputs, o: PrivateObject)
    requires DistinctObjects(input) && o in input.privateResources && ResourceCandidate(w, o, input) == []
    ensures Claimant(PrivateResourceKind, o.name) !in Outcomes(w, input)
  {
    var x := Claimant(PrivateResourceKind, o.name);
    if x in Outcomes(w, input) {
      CandidatesDistinct(w, input);
      Laws.OutcomesAreCandidates(AllCandidates(w, input), x);
      var c :| c in AllCandidates(w, input) && c.claimant == x;
      var s := ResourceOfCandidate(w, input, c);
      SameObject(input.privateResources, o, s);
    }
  }

  // ---------- verdicts and entries ----------

  /** The entry sits in the blueprint section it belongs to. */
  ghost predicate InBlueprint(b: Blueprint, e: Entry) {
    match e.section
    case InPublic(res) => e.key in b.public && b.public[e.key] == res
    case InPrivate(res) => e.key in b.private && b.private[e.key] == res
  }

  /** Straight after the render a route is Accepted iff it has a key, and under that
      key the blueprint holds the translation of that very route. */
  lemma RouteVerdictIsItsEntry(w: World, input: Inputs, r: Route)
    requires DistinctObjects(input) && r in input.routes && r.name in RenderedOf(w, input).routes
    ensures var v := RenderedOf(w, input).routes[r.name];
      && (v.Published() <==> v.accepted.status)
      && (v.Published() ==>
           && v.key == Key(r.name)
           && ParentsOf(r, input) != []
           && TranslateRoute(w, r, input, PolicyVerdicts(w, input)).Ok?
           && TranslateRoute(w, r, input, PolicyVerdicts(w, input)).value.key == v.key
           && InBlueprint(RenderedOf(w, input).blueprint, TranslateRoute(w, r, input, PolicyVerdicts(w, input)).value))
  {
    hide TranslateRoute, ResolveCandidates;
    var policies := PolicyVerdicts(w, input);
    VerdictsOfRoutes(w, input.routes, input, policies, r);
    RouteErrors(w, r, input, policies);
    var cs := RouteCandidate(w, r, input, policies);
    if cs == [] {
      NoRouteOutcome(w, input, r);
    } else {
      CandidateOfRoute(w, input, r, cs[0]);
      CandidatesDistinct(w, input);
      Laws.CandidateOutcome(AllCandidates(w, input), cs[0]);
    }
  }

  lemma ResourceVerdictIsItsEntry(w: World, input: Inputs, o: PrivateObject)
    requires DistinctObjects(input) && o in input.privateResources
    ensures o.name in RenderedOf(w, input).resources
    ensures var v := RenderedOf(w, input).resources[o.name];
      && (v.Published() <==> v.accepted.status)
      && (v.Published() ==>
           && v.key == PrivateResourceKey(o.name)
           && TranslatePrivate(w, o, input).Ok?
           && TranslatePrivate(w, o, input).value.key == v.key
           && InBlueprint(RenderedOf(w, input).blueprint, TranslatePrivate(w, o, input).value))
  {
    hide TranslatePrivate, PoliciesRendered, ResolveCandidates, AllCandidates, RouteVerdicts, DistinctPolicies;
    VerdictsOfResources(w, input.privateResources, input);
    ResourceErrors(w, o, input);
    var cs := ResourceCandidate(w, o, input);
    if cs == [] {
      NoResourceOutcome(w, input, o);
    } else {
      CandidateOfResource(w, input, o, cs[0]);
      CandidatesDistinct(w, input);
      Laws.CandidateOutcome(AllCandidates(w, input), cs[0]);
    }
  }

  /** The translation behind a published route: served, under its own key, in its section
      of the blueprint. */
  lemma PublishedTranslation(w: World, input: Inputs, r: Route) returns (e: Entry)
    requires DistinctObjects(input) && r in input.routes && RoutePublished(RenderedOf(w, input), r.name)
    ensures ParentsOf(r, input) != [] && TranslateRoute(w, r, input, PolicyVerdicts(w, input)) == Ok(e)
    ensures e.key == Key(r.name) && InBlueprint(RenderedOf(w, input).blueprint, e)
  {
    hide RenderedOf, TranslateRoute, ParentsOf, Key, InBlueprint;
    RouteVerdictIsItsEntry(w, input, r);
    e := TranslateRoute(w, r, input, PolicyVerdicts(w, input)).value;
  }

  /** A policy's verdict and the entry under its key agree. */
  ghost predicate PolicySettled(r: Rendered, p: PolicyObject, translated: Result<PublicPolicy, ConditionResult>) {
    && p.name in r.policies && (r.policies[p.name].Published() <==> r.policies[p.name].accepted.status)
    && (r.policies[p.name].Published() ==>
         && r.policies[p.name].key == PolicyKey(p.name) && PolicyKey(p.name) in r.blueprint.policies
         && translated == Ok(r.blueprint.policies[PolicyKey(p.name)]))
  }

  lemma PolicyVerdictIsItsEntry(w: World, input: Inputs, p: PolicyObject)
    requires DistinctObjects(input) && p in input.policies
    ensures PolicySettled(RenderedOf(w, input), p, TranslatePolicy(w, p, input.licensed))
  {
    hide PoliciesRendered, AllCandidates, ResolveCandidates, RouteVerdicts, ResourceVerdicts, TranslatePolicy,
         PolicyKey;
    PublishedPolicyIsItsOwn(w, input.licensed, input.policies, p);
  }

  /** Object c was published under key k. */
  ghost predicate PublishedAs(w: World, input: Inputs, c: Claimant, k: string) {
    k != "" &&
    match c.kind
    case HTTPRouteKind => c.name in RenderedOf(w, input).routes && RenderedOf(w, input).routes[c.name].key == k
    case PrivateResourceKind =>
      c.name in RenderedOf(w, input).resources && RenderedOf(w, input).resources[c.name].key == k
  }

  lemma SettledRoute(w: World, input: Inputs, n: Name)
    requires n in RouteVerdicts(w, input.routes, input, PolicyVerdicts(w, input))
    ensures n in RenderedOf(w, input).routes
    ensures RenderedOf(w, input).routes[n]
         == SettleRoute(n, RouteVerdicts(w, input.routes, input, PolicyVerdicts(w, input))[n], Outcomes(w, input))
  {}

  lemma SettledResource(w: World, input: Inputs, n: Name)
    requires n in ResourceVerdicts(w, input.privateResources, input)
    ensures n in RenderedOf(w, input).resources
    ensures RenderedOf(w, input).resources[n]
         == SettleResource(n, ResourceVerdicts(w, input.privateResources, input)[n], Outcomes(w, input))
  {}

  lemma CandidateVerdict(w: World, input: Inputs, c: Candidate, k: string)
    requires DistinctObjects(input) && c in AllCandidates(w, input) && k != ""
    requires Laws.Publishes(ResolveCandidates(AllCandidates(w, input)), c, k)
    ensures PublishedAs(w, input, c.claimant, k)
  {
    hide PoliciesRendered;
    OutcomeHasVerdict(w, input, c.claimant);
    match c.claimant.kind {
      case HTTPRouteKind => SettledRoute(w, input, c.claimant.name);
      case PrivateResourceKind => SettledResource(w, input, c.claimant.name);
    }
  }

  lemma KeysCarryPrefix(n: Name)
    ensures Ours(Key(n)) && Ours(PrivateResourceKey(n)) && Ours(PolicyKey(n))
    ensures Key(n) != "" && PrivateResourceKey(n) != "" && PolicyKey(n) != ""
  {
    assert Key(n) == PolicyKey(n) == KEY_PREFIX + ("" + n.ns + "-" + n.name);
    assert PrivateResourceKey(n) == KEY_PREFIX + ("pr-" + n.ns + "-" + n.name);
  }

  /** The keys spelled out, and what makes a key the controller's. */
  lemma KeysSpelled(n: Name, k: string)
    ensures Key(n) == PolicyKey(n) == "gw-" + n.ns + "-" + n.name
        && PrivateResourceKey(n) == "gw-pr-" + n.ns + "-" + n.name
    ensures Ours(k) <==> |k| >= 3 && k[0] == 'g' && k[1] == 'w' && k[2] == '-'
  {
    assert "gw-" + "pr-" == "gw-pr-";
  }

  lemma CandidateKeys(w: World, input: Inputs, c: Candidate)
    requires DistinctObjects(input) && c in AllCandidates(w, input)
    ensures Ours(c.entry.key) && c.entry.key != ""
    ensures c.claimant.kind.PrivateResourceKind? ==> c.entry.section.InPrivate?
  {
    match c.claimant.kind {
      case HTTPRouteKind =>
        var r := RouteOfCandidate(w, input, c);
        RouteErrors(w, r, input, PolicyVerdicts(w, input));
        KeysCarryPrefix(r.name);
      case PrivateResourceKind =>
        var o := ResourceOfCandidate(w, input, c);
        ResourceErrors(w, o, input);
        KeysCarryPrefix(o.name);
    }
  }

  /** Every public entry is the translation of the one route published under it. */
  lemma PublicEntryIsARoutes(w: World, input: Inputs, k: string) returns (r: Route)
    requires DistinctObjects(input) && k in RenderedOf(w, input).blueprint.public
    ensures r in input.routes && PublishedAs(w, input, Claimant(HTTPRouteKind, r.name), k) && Ours(k)
    ensures TranslateRoute(w, r, input, PolicyVerdicts(w, input)).Ok?
    ensures TranslateRoute(w, r, input, PolicyVerdicts(w, input)).value.section
         == InPublic(RenderedOf(w, input).blueprint.public[k])
  {
    hide TranslateRoute;
    CandidatesDistinct(w, input);
    var c := Laws.PublicEntryHasOwner(AllCandidates(w, input), k);
    CandidateKeys(w, input, c);
    CandidateVerdict(w, input, c, k);
    r := RouteOfCandidate(w, input, c);
  }

  /** Every private entry is the translation of the one object published under it. */
  lemma PrivateEntryIsAnObjects(w: World, input: Inputs, k: string) returns (c: Candidate)
    requires DistinctObjects(input) && k in RenderedOf(w, input).blueprint.private
    ensures c in AllCandidates(w, input) && PublishedAs(w, input, c.claimant, k) && Ours(k)
    ensures c.entry.section == InPrivate(RenderedOf(w, input).blueprint.private[k])
  {
    CandidatesDistinct(w, input);
    c := Laws.PrivateEntryHasOwner(AllCandidates(w, input), k);
    CandidateKeys(w, input, c);
    CandidateVerdict(w, input, c, k);
  }

  lemma PublishedRoute(w: World, input: Inputs, n: Name, k: string) returns (c: Candidate)
    requires DistinctObjects(input) && PublishedAs(w, input, Claimant(HTTPRouteKind, n), k)
    ensures c in AllCandidates(w, input) && c.claimant == Claimant(HTTPRouteKind, n)
    ensures Laws.Publishes(ResolveCandidates(AllCandidates(w, input)), c, k)
  {
    hide RouteVerdicts, AllCandidates, ServedParents, ParentsOf, PoliciesRendered, ResourceCandidates,
         TranslateRoute, OnlyUnresolvable;
    var policies := PolicyVerdicts(w, input);
    VerdictsNameRoutes(w, input.routes, input, policies, n);
    var r :| r in input.routes && r.name == n;
    VerdictsOfRoutes(w, input.routes, input, policies, r);
    var cs := RouteCandidate(w, r, input, policies);
    if cs == [] { NoRouteOutcome(w, input, r); }
    c := cs[0];
    CandidateOfRoute(w, input, r, c);
    CandidatesDistinct(w, input);
    Laws.CandidateOutcome(AllCandidates(w, input), c);
  }

  lemma PublishedResource(w: World, input: Inputs, n: Name, k: string) returns (c: Candidate)
    requires DistinctObjects(input) && PublishedAs(w, input, Claimant(PrivateResourceKind, n), k)
    ensures c in AllCandidates(w, input) && c.claimant == Claimant(PrivateResourceKind, n)
    ensures Laws.Publishes(ResolveCandidates(AllCandidates(w, input)), c, k)
  {
    hide TranslatePrivate, PoliciesRendered, RouteVerdicts, ResolveCandidates, AllCandidates, DistinctPolicies;
    VerdictsOfResources(w, input.privateResources, input);
    var o :| o in input.privateResources && o.name == n;
    var cs := ResourceCandidate(w, o, input);
    if cs == [] { NoResourceOutcome(w, input, o); }
    c := cs[0];
    CandidateOfResource(w, input, o, c);
    CandidatesDistinct(w, input);
    Laws.CandidateOutcome(AllCandidates(w, input), c);
  }

  lemma PublishedCandidate(w: World, input: Inputs, x: Claimant, k: string) returns (c: Candidate)
    requires DistinctObjects(input) && PublishedAs(w, input, x, k)
    ensures c in AllCandidates(w, input) && c.claimant == x
    ensures Laws.Publishes(ResolveCandidates(AllCandidates(w, input)), c, k)
  {
    match x.kind {
      case HTTPRouteKind => c := PublishedRoute(w, input, x.name, k);
      case PrivateResourceKind => c := PublishedResource(w, input, x.name, k);
    }
  }

  /** Two published objects never share a key, across both sections. */
  lemma PublishedKeysAreDistinct(w: World, input: Inputs, a: Claimant, b: Claimant, k: string)
    requires DistinctObjects(input) && PublishedAs(w, input, a, k) && PublishedAs(w, input, b, k)
    ensures a == b
  {
    hide PoliciesRendered;
    CandidatesDistinct(w, input);
    var x := PublishedCandidate(w, input, a, k);
    var y := PublishedCandidate(w, input, b, k);
    if x != y { Laws.PublishedDoNotConflict(AllCandidates(w, input), x, y); }
  }

  /** A key sits in one section only. */
  lemma SectionsDisjoint(w: World, input: Inputs)
    requires DistinctObjects(input)
    ensures RenderedOf(w, input).blueprint.public.Keys !! RenderedOf(w, input).blueprint.private.Keys
  {
    hide PoliciesRendered;
    var b := RenderedOf(w, input).blueprint;
    forall k | k in b.public && k in b.private ensures false {
      CandidatesDistinct(w, input);
      var x := Laws.PublicEntryHasOwner(AllCandidates(w, input), k);
      var y := Laws.PrivateEntryHasOwner(AllCandidates(w, input), k);
      Laws.PublishedDoNotConflict(AllCandidates(w, input), x, y);
    }
  }

  /** Everything a blueprint names carries the controller's prefix. */
  lemma BlueprintKeysAreOurs(w: World, input: Inputs)
    requires DistinctObjects(input)
    ensures var b := RenderedOf(w, input).blueprint;
      && (forall k :: k in b.public ==> Ours(k))
      && (forall k :: k in b.private ==> Ours(k))
      && (forall k :: k in b.policies ==> Ours(k))
  {
    hide TranslateRoute;
    var b := RenderedOf(w, input).blueprint;
    forall k | k in b.public ensures Ours(k) { var _ := PublicEntryIsARoutes(w, input, k); }
    forall k | k in b.private ensures Ours(k) { var _ := PrivateEntryIsAnObjects(w, input, k); }
    forall k | k in b.policies ensures Ours(k) {
      var p := PolicyEntryHasOwner(w, input.licensed, input.policies, k);
      KeysCarryPrefix(p.name);
    }
  }

  // ---------- policy references ----------

  lemma RoutePolicy(w: World, r: Route, input: Inputs, policies: map<Name, ResourceVerdict>)
    requires TranslateRoute(w, r, input, policies).Ok?
    requires TranslateRoute(w, r, input, policies).value.section.InPublic?
    ensures PolicyFor(r, input, policies) == Ok(TranslateRoute(w, r, input, policies).value.section.public.policy)
  {
    hide Place, PolicyFor;
  }

  /** A policy named by a rendered resource is in the blueprint, as the translation of
      the ResourcePolicy of the annotated name in the route's own namespace, although
      policy keys are not injective. */
  lemma PolicyReferenceIntegrity(w: World, input: Inputs, k: string) returns (r: Route, p: PolicyObject)
    requires DistinctObjects(input) && k in RenderedOf(w, input).blueprint.public
    requires RenderedOf(w, input).blueprint.public[k].policy != ""
    ensures var b := RenderedOf(w, input).blueprint;
      && r in input.routes && PublishedAs(w, input, Claimant(HTTPRouteKind, r.name), k)
      && p in input.policies && p.name == Name(r.name.ns, TrimSpace(Value(r, POLICY)))
      && b.public[k].policy in b.policies
      && TranslatePolicy(w, p, input.licensed) == Ok(b.policies[b.public[k].policy])
  {
    hide TranslateRoute, TranslatePolicy, ResolveCandidates, SortedPolicies, ResourceVerdicts, AllCandidates;
    var policies := PolicyVerdicts(w, input);
    r := PublicEntryIsARoutes(w, input, k);
    RoutePolicy(w, r, input, policies);
    var n := Name(r.name.ns, TrimSpace(Value(r, POLICY)));
    SortedPoliciesFit(w, input.licensed, input.policies);
    var js := SortedPolicies(w, input.licensed, input.policies);
    assert n in policies;
    var i: nat :| i < |js| && js[i].obj.name == n;
    assert js[i] in js;
    p := js[i].obj;
    PublishedPolicyIsItsOwn(w, input.licensed, input.policies, p);
  }

  /** Unlicensed, the blueprint has no policies and names none. */
  lemma UnlicensedNamesNoPolicy(w: World, input: Inputs, k: string)
    requires DistinctObjects(input) && !input.licensed
    ensures RenderedOf(w, input).blueprint.policies == map[]
    ensures k in RenderedOf(w, input).blueprint.public ==> RenderedOf(w, input).blueprint.public[k].policy == ""
  {
    hide TranslateRoute;
    UnlicensedRendersNoPolicy(w, input.policies);
    if k in RenderedOf(w, input).blueprint.public {
      var r := PublicEntryIsARoutes(w, input, k);
      RoutePolicy(w, r, input, PolicyVerdicts(w, input));
    }
  }
}
