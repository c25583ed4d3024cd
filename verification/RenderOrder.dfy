/** The render does not depend on the order in which the API server lists the objects. */
module RenderOrder {
  import opened Sorting
  import opened Types
  import opened Policies
  import opened Collisions
  import opened Translate
  import opened Render
  import Laws = CollisionLaws

  // ---------- permutations ----------

  lemma {:induction false} MakeAllWithout<T>(s: seq<T>, i: nat, f: T -> seq<Candidate>)
    requires i < |s|
    ensures multiset(MakeAll(s, f)) == multiset(MakeAll(s[..i] + s[i + 1..], f)) + multiset(f(s[i]))
  {
    var n := |s| - 1;
    var front, last := s[..n], s[n];
    if i == n {
      assert s[..i] + s[i + 1..] == front;
    } else {
      MakeAllWithout(front, i, f);
      assert s[..i] + s[i + 1..] == (front[..i] + front[i + 1..]) + [last];
      MakeOneMore(front[..i] + front[i + 1..], last, f);
    }
  }

  lemma MakeOneMore<T>(front: seq<T>, last: T, f: T -> seq<Candidate>)
    ensures MakeAll(front + [last], f) == MakeAll(front, f) + f(last)
  {
    assert (front + [last])[..|front|] == front;
  }

  lemma WithoutOne<T>(s: seq<T>, i: nat)
    requires i < |s|
    ensures multiset(s[..i] + s[i + 1..]) == multiset(s) - multiset{s[i]}
  {
    assert s == s[..i] + [s[i]] + s[i + 1..];
  }

  lemma {:induction false} MakeAllPermutes<T>(a: seq<T>, b: seq<T>, f: T -> seq<Candidate>)
    requires multiset(a) == multiset(b)
    ensures multiset(MakeAll(a, f)) == multiset(MakeAll(b, f))
  {
    if a == [] {
      assert |multiset(b)| == 0;
    } else {
      var front, last := a[..|a| - 1], a[|a| - 1];
      assert last in multiset(a);
      var i :| 0 <= i < |b| && b[i] == last;
      WithoutOne(a, |a| - 1);
      assert a[..|a| - 1] + a[|a|..] == front;
      WithoutOne(b, i);
      MakeAllPermutes(front, b[..i] + b[i + 1..], f);
      MakeAllWithout(b, i, f);
    }
  }

  ghost predicate DistinctBy<T(!new)>(s: seq<T>, name: T -> Name) {
    forall i, j :: 0 <= i < j < |s| ==> name(s[i]) != name(s[j])
  }

  lemma DistinctByPermutes<T(!new)>(a: seq<T>, b: seq<T>, name: T -> Name)
    requires DistinctBy(a, name) && multiset(a) == multiset(b)
    ensures DistinctBy(b, name)
  {
    forall i, j | 0 <= i < j < |b| ensures name(b[i]) != name(b[j]) {
      assert b[i] in multiset(a) && b[j] in multiset(a);
      if name(b[i]) == name(b[j]) {
        assert b[i] == b[j];
        OccursTwice(b, i, j);
        OccursOnce(a, b[i]);
      }
    }
  }

  lemma SameMembers<T>(a: seq<T>, b: seq<T>)
    requires multiset(a) == multiset(b)
    ensures forall x :: x in a <==> x in b
  {
    assert forall x :: (x in a <==> x in multiset(a)) && (x in b <==> x in multiset(b));
  }

  // ---------- what hangs on the order ----------

  ghost predicate DistinctGateways(gs: seq<Gateway>) { DistinctBy(gs, (g: Gateway) => g.name) }

  /** The same objects listed in another order; nothing else differs. */
  ghost predicate Rearranged(a: Inputs, b: Inputs) {
    && multiset(a.routes) == multiset(b.routes) && multiset(a.gateways) == multiset(b.gateways)
    && multiset(a.classes) == multiset(b.classes) && multiset(a.privateResources) == multiset(b.privateResources)
    && multiset(a.policies) == multiset(b.policies)
    && b == a.(routes := b.routes, gateways := b.gateways, classes := b.classes,
               privateResources := b.privateResources, policies := b.policies)
  }

  lemma {:induction false} GatewayFound(gs: seq<Gateway>, g: Gateway)
    requires DistinctGateways(gs) && g in gs
    ensures g.name in GatewaysByName(gs) && GatewaysByName(gs)[g.name] == g
  {
    var front, last := gs[..|gs| - 1], gs[|gs| - 1];
    assert gs == front + [last];
    if g != last { GatewayFound(front, g); }
  }

  lemma {:induction false} GatewayListed(gs: seq<Gateway>, n: Name)
    requires n in GatewaysByName(gs)
    ensures GatewaysByName(gs)[n] in gs && GatewaysByName(gs)[n].name == n
  {
    var front, last := gs[..|gs| - 1], gs[|gs| - 1];
    assert gs == front + [last];
    if n != last.name { GatewayListed(front, n); }
  }

  lemma SameGateways(a: seq<Gateway>, b: seq<Gateway>)
    requires DistinctGateways(a) && multiset(a) == multiset(b)
    ensures GatewaysByName(a) == GatewaysByName(b)
  {
    DistinctByPermutes(a, b, (g: Gateway) => g.name);
    SameMembers(a, b);
    forall n ensures n in GatewaysByName(a) <==> n in GatewaysByName(b) {
      if n in GatewaysByName(a) { GatewayListed(a, n); GatewayFound(b, GatewaysByName(a)[n]); }
      if n in GatewaysByName(b) { GatewayListed(b, n); GatewayFound(a, GatewaysByName(b)[n]); }
    }
    forall n | n in GatewaysByName(a) ensures GatewaysByName(a)[n] == GatewaysByName(b)[n] {
      GatewayListed(a, n);
      GatewayFound(b, GatewaysByName(a)[n]);
    }
  }

  lemma SameClasses(a: seq<GatewayClass>, b: seq<GatewayClass>, controllerName: string)
    requires multiset(a) == multiset(b)
    ensures ServedClasses(a, controllerName) == ServedClasses(b, controllerName)
  {
    SameMembers(a, b);
  }

  lemma SameParents(r: Route, a: Inputs, b: Inputs)
    requires DistinctGateways(a.gateways) && Rearranged(a, b)
    ensures ParentsOf(r, a) == ParentsOf(r, b) && (OnlyUnresolvable(r, a) <==> OnlyUnresolvable(r, b))
  {
    SameGateways(a.gateways, b.gateways);
    SameClasses(a.classes, b.classes, a.controllerName);
  }

  lemma SamePlace(r: Route, a: Inputs, b: Inputs)
    requires a.knownSites == b.knownSites && a.defaultSite == b.defaultSite
    ensures Place(r, a) == Place(r, b)
  {
    hide RouteShape, RouteName, Value;
  }

  lemma SameProtections(r: Route, a: Inputs, b: Inputs)
    requires a.basicAuth == b.basicAuth && a.mtls == b.mtls
    ensures BasicAuthFor(r, a) == BasicAuthFor(r, b) && MTLSFor(r, a) == MTLSFor(r, b)
  {
    hide BasicAuthRequested, MTLSRequested;
  }

  lemma SameInline(w: World, r: Route, a: Inputs, b: Inputs)
    requires a.basicAuth == b.basicAuth && a.mtls == b.mtls
    ensures InlineAuth(w, r, a) == InlineAuth(w, r, b) && SharedPolicyAuth(r, a) == SharedPolicyAuth(r, b)
  {
    hide BasicAuthFor, MTLSFor, SignInFor, RulesFor, Required;
    SameProtections(r, a, b);
  }

  lemma SamePolicy(r: Route, a: Inputs, b: Inputs, policies: map<Name, ResourceVerdict>)
    requires a.licensed == b.licensed
    ensures PolicyFor(r, a, policies) == PolicyFor(r, b, policies)
  {
    hide Value;
  }

  lemma SameGrants(a: Inputs, b: Inputs)
    requires a.knownUsers == b.knownUsers && a.knownMachines == b.knownMachines
    ensures forall roles, users, machines ::
      PrivateGrants(roles, users, machines, a) == PrivateGrants(roles, users, machines, b)
  {
    hide GrantNotes, BlankEntry;
  }

  lemma SameEntries(w: World, r: Route, a: Inputs, b: Inputs, policies: map<Name, ResourceVerdict>, p: Placement)
    requires Rearranged(a, b)
    ensures PublicEntry(w, r, a, policies, p) == PublicEntry(w, r, b, policies, p)
    ensures PrivateEntry(r, a, p) == PrivateEntry(r, b, p)
  {
    hide InlineAuth, SharedPolicyAuth, Required, Check, AnyAnnotated, PrivateGrants, Annotated, Value;
    SamePolicy(r, a, b, policies);
    SameGrants(a, b);
    SameInline(w, r, a, b);
  }

  lemma SameTranslation(w: World, r: Route, a: Inputs, b: Inputs, policies: map<Name, ResourceVerdict>)
    requires Rearranged(a, b)
    ensures TranslateRoute(w, r, a, policies) == TranslateRoute(w, r, b, policies)
  {
    hide Place, PublicEntry, PrivateEntry, WantsPrivate, Key;
    SamePlace(r, a, b);
    if Place(r, a).Ok? { SameEntries(w, r, a, b, policies, Place(r, a).value); }
  }

  lemma {:induction false} SameSites(sites: seq<string>, a: Inputs, b: Inputs)
    requires a.knownSites == b.knownSites
    ensures CheckSites(sites, a) == CheckSites(sites, b)
  {
    if sites != [] { SameSites(sites[1..], a, b); }
  }

  lemma SamePrivate(w: World, o: PrivateObject, a: Inputs, b: Inputs)
    requires Rearranged(a, b)
    ensures TranslatePrivate(w, o, a) == TranslatePrivate(w, o, b)
  {
    hide CheckSites, ModeProblem, ModeFields, PrivateGrants, ShownName, PrivateResourceKey, ResourceHostnames;
    SameGrants(a, b);
    SameSites(PrivateSites(o.spec, a), a, b);
  }

  /** What the render makes of one object has nothing to do with the others' order. */
  lemma SameAlone(w: World, a: Inputs, b: Inputs, policies: map<Name, ResourceVerdict>)
    requires DistinctGateways(a.gateways) && Rearranged(a, b)
    ensures forall r :: RouteVerdict(w, r, a, policies) == RouteVerdict(w, r, b, policies)
    ensures forall r :: RouteCandidate(w, r, a, policies) == RouteCandidate(w, r, b, policies)
    ensures forall o :: ResourceVerdictOf(w, o, a) == ResourceVerdictOf(w, o, b)
    ensures forall o :: ResourceCandidate(w, o, a) == ResourceCandidate(w, o, b)
  {
    hide ParentsOf, OnlyUnresolvable, TranslateRoute, TranslatePrivate;
    forall r
      ensures RouteVerdict(w, r, a, policies) == RouteVerdict(w, r, b, policies)
      ensures RouteCandidate(w, r, a, policies) == RouteCandidate(w, r, b, policies)
    {
      SameParents(r, a, b);
      SameTranslation(w, r, a, b, policies);
    }
    forall o
      ensures ResourceVerdictOf(w, o, a) == ResourceVerdictOf(w, o, b)
      ensures ResourceCandidate(w, o, a) == ResourceCandidate(w, o, b)
    {
      SamePrivate(w, o, a, b);
    }
  }

  // ---------- all objects ----------

  lemma CandidatesPermute(w: World, a: Inputs, b: Inputs)
    requires DistinctGateways(a.gateways) && Rearranged(a, b) && PolicyVerdicts(w, a) == PolicyVerdicts(w, b)
    ensures multiset(AllCandidates(w, a)) == multiset(AllCandidates(w, b))
  {
    hide PolicyVerdicts, RouteVerdict, RouteCandidate, ResourceVerdictOf, ResourceCandidate;
    var policies := PolicyVerdicts(w, a);
    SameAlone(w, a, b, policies);
    var f := (r: Route) => RouteCandidate(w, r, a, policies);
    RouteCandidatesAre(w, a.routes, a, policies, f);
    RouteCandidatesAre(w, b.routes, b, policies, f);
    MakeAllPermutes(a.routes, b.routes, f);
    var g := (o: PrivateObject) => ResourceCandidate(w, o, a);
    ResourceCandidatesAre(w, a.privateResources, a, g);
    ResourceCandidatesAre(w, b.privateResources, b, g);
    MakeAllPermutes(a.privateResources, b.privateResources, g);
  }

  lemma SameRouteVerdicts(w: World, a: Inputs, b: Inputs, policies: map<Name, ResourceVerdict>)
    requires DistinctObjects(a) && DistinctObjects(b) && DistinctGateways(a.gateways) && Rearranged(a, b)
    ensures RouteVerdicts(w, a.routes, a, policies) == RouteVerdicts(w, b.routes, b, policies)
  {
    hide RouteVerdict, RouteCandidate, ResourceVerdictOf, ResourceCandidate;
    SameAlone(w, a, b, policies);
    SameMembers(a.routes, b.routes);
    var va, vb := RouteVerdicts(w, a.routes, a, policies), RouteVerdicts(w, b.routes, b, policies);
    forall n | n in va || n in vb ensures n in va && n in vb && va[n] == vb[n] {
      if n in va {
        VerdictsNameRoutes(w, a.routes, a, policies, n);
      } else {
        VerdictsNameRoutes(w, b.routes, b, policies, n);
      }
      var r :| r in a.routes && r.name == n;
      VerdictsOfRoutes(w, a.routes, a, policies, r);
      VerdictsOfRoutes(w, b.routes, b, policies, r);
    }
  }

  lemma SameResourceVerdicts(w: World, a: Inputs, b: Inputs)
    requires DistinctObjects(a) && DistinctObjects(b) && DistinctGateways(a.gateways) && Rearranged(a, b)
    ensures ResourceVerdicts(w, a.privateResources, a) == ResourceVerdicts(w, b.privateResources, b)
  {
    hide RouteVerdict, RouteCandidate, ResourceVerdictOf, ResourceCandidate;
    SameAlone(w, a, b, map[]);
    SameMembers(a.privateResources, b.privateResources);
    VerdictsOfResources(w, a.privateResources, a);
    VerdictsOfResources(w, b.privateResources, b);
    var va, vb := ResourceVerdicts(w, a.privateResources, a), ResourceVerdicts(w, b.privateResources, b);
    forall n | n in va || n in vb ensures n in va && n in vb && va[n] == vb[n] {
      var o :| o in a.privateResources && o.name == n;
    }
  }

  lemma DistinctRearranged(a: Inputs, b: Inputs)
    requires DistinctObjects(a) && Rearranged(a, b)
    ensures DistinctObjects(b)
  {
    DistinctByPermutes(a.routes, b.routes, (r: Route) => r.name);
    DistinctByPermutes(a.privateResources, b.privateResources, (o: PrivateObject) => o.name);
    DistinctByPermutes(a.policies, b.policies, (p: PolicyObject) => p.name);
  }

  /** The blueprint and every verdict, the named owners of taken keys and names included,
      are the same for every order the routes, gateways, classes, PrivateResources and
      ResourcePolicies are listed in. */
  lemma RenderOrderIndependent(w: World, a: Inputs, b: Inputs)
    requires DistinctObjects(a) && DistinctGateways(a.gateways) && Rearranged(a, b)
    ensures RenderedOf(w, a) == RenderedOf(w, b)
  {
    hide DistinctGateways, AllCandidates, RouteVerdicts, ResourceVerdicts, PoliciesRendered, ResolveCandidates,
         SettleRoute, SettleResource, DistinctPolicies;
    DistinctRearranged(a, b);
    PolicyOrderIndependent(w, a.licensed, a.policies, b.policies);
    CandidatesPermute(w, a, b);
    CandidatesDistinct(w, a);
    Laws.OrderIndependent(AllCandidates(w, a), AllCandidates(w, b));
    SameRouteVerdicts(w, a, b, PolicyVerdicts(w, a));
    SameResourceVerdicts(w, a, b);
  }
}
