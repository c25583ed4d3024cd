/** Which routes, Gateways and GatewayClasses are this controller's, told from the objects
    themselves, and that it keeps its hands off all others. */
module Serving {
  import opened Text
  import opened Sorting
  import opened Types
  import opened Collisions
  import opened Translate
  import opened Render
  import opened Server
  import opened Secrets
  import opened Status
  import opened Conditions
  import opened ClusterObjects
  import opened Pass
  import opened RenderLaws
  import Listings
  import Passwords
  import RenderOrder
  import Truth
  import Verify

  // ---------- one parentRef ----------

  /** A Gateway API Gateway, which is also the default for what is left out. */
  predicate NamesGateway(ref: ParentRef) {
    && (ref.group.None? || ref.group.value == "" || ref.group.value == "gateway.networking.k8s.io")
    && (ref.kind.None? || ref.kind.value == "Gateway")
  }

  /** This is the Gateway the ref of a route in ns means. */
  predicate Means(ref: ParentRef, ns: string, g: Gateway) {
    NamesGateway(ref) && ref.name == g.name.name && g.name.ns == match ref.ns case Some(other) => other case None => ns
  }

  /** Its class is one of this controller's. */
  predicate IsOurs(g: Gateway, input: Inputs) {
    exists c | c in input.classes :: c.name == g.class_ && c.controllerName == input.controllerName
  }

  /** The ref attaches a route of namespace ns to a Gateway of ours. */
  predicate Attaches(ref: ParentRef, ns: string, input: Inputs) {
    exists g | g in input.gateways :: Means(ref, ns, g) && IsOurs(g, input)
  }

  function Attaching(ns: string, input: Inputs): ParentRef -> bool { ref => Attaches(ref, ns, input) }

  /** It asks for a Gateway, and none of its refs means one that exists. */
  predicate Stranded(r: Route, input: Inputs) {
    && (exists ref | ref in r.parentRefs :: NamesGateway(ref))
    && (forall ref | ref in r.parentRefs :: forall g | g in input.gateways :: !Means(ref, r.name.ns, g))
  }

  // ---------- the parents of a route ----------

  lemma NamesGatewayMeans(ref: ParentRef)
    ensures RefersToGateway(ref) <==> NamesGateway(ref)
  {}

  lemma ServedClassesAre(classes: seq<GatewayClass>, controllerName: string, name: string)
    ensures name in ServedClasses(classes, controllerName)
            <==> exists c :: c in classes && c.name == name && c.controllerName == controllerName
  {}

  /** A ref finds a Gateway of the map exactly if it means one of the list. */
  lemma ResolvesMeans(ref: ParentRef, ns: string, gateways: seq<Gateway>)
    requires RenderOrder.DistinctGateways(gateways)
    ensures Resolves(ref, ns, GatewaysByName(gateways)) <==> exists g :: g in gateways && Means(ref, ns, g)
    ensures forall g :: g in gateways && Means(ref, ns, g) ==>
      ParentKey(ref, ns) in GatewaysByName(gateways) && GatewaysByName(gateways)[ParentKey(ref, ns)] == g
  {
    hide GatewaysByName, RefersToGateway, NamesGateway;
    var k := ParentKey(ref, ns);
    NamesGatewayMeans(ref);
    if k in GatewaysByName(gateways) { RenderOrder.GatewayListed(gateways, k); }
    forall g | g in gateways && Means(ref, ns, g)
      ensures k in GatewaysByName(gateways) && GatewaysByName(gateways)[k] == g
    {
      RenderOrder.GatewayFound(gateways, g);
    }
  }

  lemma AttachesIff(ref: ParentRef, ns: string, input: Inputs)
    requires RenderOrder.DistinctGateways(input.gateways)
    ensures var gateways := GatewaysByName(input.gateways);
      Attaches(ref, ns, input)
      <==> Resolves(ref, ns, gateways)
           && gateways[ParentKey(ref, ns)].class_ in ServedClasses(input.classes, input.controllerName)
  {
    hide GatewaysByName, ServedClasses;
    ResolvesMeans(ref, ns, input.gateways);
    forall g: Gateway ensures IsOurs(g, input) <==> g.class_ in ServedClasses(input.classes, input.controllerName) {
      ServedClassesAre(input.classes, input.controllerName, g.class_);
    }
  }

  lemma {:induction false} ParentsAre(refs: seq<ParentRef>, ns: string, input: Inputs)
    requires RenderOrder.DistinctGateways(input.gateways)
    ensures ServedParents(refs, ns, GatewaysByName(input.gateways), ServedClasses(input.classes, input.controllerName))
         == Filter(refs, Attaching(ns, input))
  {
    hide GatewaysByName, ServedClasses, Attaches, Resolves;
    if refs != [] {
      ParentsAre(refs[..|refs| - 1], ns, input);
      AttachesIff(refs[|refs| - 1], ns, input);
    }
  }

  /** The parents a route is served for are its refs to Gateways of our classes, in order. */
  lemma ParentsOfAre(r: Route, input: Inputs)
    requires RenderOrder.DistinctGateways(input.gateways)
    ensures ParentsOf(r, input) == Filter(r.parentRefs, Attaching(r.name.ns, input))
    ensures ParentsOf(r, input) != [] <==> exists ref :: ref in r.parentRefs && Attaches(ref, r.name.ns, input)
  {
    hide ServedParents, Attaches, Filter;
    ParentsAre(r.parentRefs, r.name.ns, input);
    FilterMembers(r.parentRefs, Attaching(r.name.ns, input));
    if ParentsOf(r, input) != [] { assert ParentsOf(r, input)[0] in ParentsOf(r, input); }
  }

  lemma StrandedIff(r: Route, input: Inputs)
    requires RenderOrder.DistinctGateways(input.gateways)
    ensures OnlyUnresolvable(r, input) <==> Stranded(r, input)
  {
    hide GatewaysByName, Resolves, NamesGateway, RefersToGateway, Means;
    forall ref ensures RefersToGateway(ref) <==> NamesGateway(ref) { NamesGatewayMeans(ref); }
    forall ref
      ensures Resolves(ref, r.name.ns, GatewaysByName(input.gateways))
              <==> exists g :: g in input.gateways && Means(ref, r.name.ns, g)
    {
      ResolvesMeans(ref, r.name.ns, input.gateways);
    }
  }

  // ---------- the rendered verdict ----------

  /** The verdict of a route nobody can serve. */
  predicate SaysNoParent(v: Verdict, r: Route) {
    v.key == "" && v.generation == r.generation && v.parentRefs == r.parentRefs
    && !v.accepted.status && v.accepted.reason == ReasonNoMatchingParent
  }

  /** What the render says of a route, by the Gateways its refs mean. */
  ghost predicate OpinionFits(verdicts: map<Name, Verdict>, r: Route, input: Inputs) {
    if exists ref :: ref in r.parentRefs && Attaches(ref, r.name.ns, input) then
      && r.name in verdicts && verdicts[r.name].generation == r.generation
      && verdicts[r.name].parentRefs == Filter(r.parentRefs, Attaching(r.name.ns, input))
    else if Stranded(r, input) then r.name in verdicts && SaysNoParent(verdicts[r.name], r)
    else r.name !in verdicts
  }

  lemma OwnOpinion(w: World, r: Route, input: Inputs, policies: map<Name, ResourceVerdict>)
    requires RenderOrder.DistinctGateways(input.gateways)
    ensures var v := RouteVerdict(w, r, input, policies);
      if exists ref :: ref in r.parentRefs && Attaches(ref, r.name.ns, input) then
        && v.Some? && v.value.generation == r.generation
        && v.value.parentRefs == Filter(r.parentRefs, Attaching(r.name.ns, input))
      else if Stranded(r, input) then v.Some? && SaysNoParent(v.value, r)
      else v.None?
    ensures (forall ref :: ref in r.parentRefs ==> !Attaches(ref, r.name.ns, input)) ==>
      RouteCandidate(w, r, input, policies) == []
  {
    hide ParentsOf, OnlyUnresolvable, TranslateRoute, Attaches, Stranded, Filter;
    ParentsOfAre(r, input);
    StrandedIff(r, input);
  }

  /** A route has a verdict exactly if one of its refs means a Gateway of ours, naming just
      those refs, or if it asks for a Gateway and none exists, saying that. */
  lemma RenderedOpinion(w: World, input: Inputs, r: Route)
    requires DistinctObjects(input) && RenderOrder.DistinctGateways(input.gateways) && r in input.routes
    ensures OpinionFits(RenderedOf(w, input).routes, r, input)
  {
    hide RouteVerdict, RouteCandidate, RenderedOf, Attaches, Stranded, Filter, DistinctObjects;
    OwnOpinion(w, r, input, PolicyVerdicts(w, input));
    OpinionSettles(w, input, r);
  }

  /** The verdict after the collisions: same refs, and the same altogether without a
      candidate. */
  ghost predicate CarriedOver(verdicts: map<Name, Verdict>, n: Name, v: Option<Verdict>, idle: bool) {
    && (n in verdicts <==> v.Some?)
    && (n in verdicts && v.Some? ==>
         && verdicts[n].parentRefs == v.value.parentRefs && verdicts[n].generation == v.value.generation
         && (idle ==> verdicts[n] == v.value))
  }

  lemma OpinionSettles(w: World, input: Inputs, r: Route)
    requires DistinctObjects(input) && r in input.routes
    ensures CarriedOver(RenderedOf(w, input).routes, r.name, RouteVerdict(w, r, input, PolicyVerdicts(w, input)),
                        RouteCandidate(w, r, input, PolicyVerdicts(w, input)) == [])
  {
    hide RouteVerdict, RouteCandidate, RouteVerdicts, PolicyVerdicts, ResolveCandidates, AllCandidates,
         ResourceVerdicts, RenderedOf;
    var policies := PolicyVerdicts(w, input);
    VerdictsOfRoutes(w, input.routes, input, policies, r);
    RenderedRoutes(w, input, r.name);
    if r.name in RouteVerdicts(w, input.routes, input, policies) { SettledRoute(w, input, r.name); }
    if RouteCandidate(w, r, input, policies) == [] { NoRouteOutcome(w, input, r); }
  }

  lemma RenderedRoutes(w: World, input: Inputs, n: Name)
    ensures n in RenderedOf(w, input).routes <==> n in RouteVerdicts(w, input.routes, input, PolicyVerdicts(w, input))
  {
    hide RouteVerdicts, ResolveCandidates, AllCandidates, ResourceVerdicts;
  }

  ghost predicate AtMostNoParent(verdicts: map<Name, Verdict>, r: Route) {
    r.name in verdicts ==> SaysNoParent(verdicts[r.name], r)
  }

  /** A route without a ref to a Gateway of ours claims nothing and is not published. */
  lemma StrangersAreLeftAlone(w: World, input: Inputs, r: Route)
    requires DistinctObjects(input) && RenderOrder.DistinctGateways(input.gateways) && r in input.routes
    requires forall ref :: ref in r.parentRefs ==> !Attaches(ref, r.name.ns, input)
    ensures RouteCandidate(w, r, input, PolicyVerdicts(w, input)) == [] && !RoutePublished(RenderedOf(w, input), r.name)
    ensures AtMostNoParent(RenderedOf(w, input).routes, r)
  {
    hide RouteVerdict, RouteCandidate, RenderedOf, Attaches;
    RenderedOpinion(w, input, r);
    OwnOpinion(w, r, input, PolicyVerdicts(w, input));
  }

  // ---------- the pass ----------

  /** Nobody else's route is served: not resolved for, not rendered. */
  lemma {:induction false} ServedRoutesAre(routes: seq<Route>, input: Inputs, r: Route)
    requires RenderOrder.DistinctGateways(input.gateways)
    ensures r in ServedRoutes(routes, input)
            <==> r in routes && exists ref :: ref in r.parentRefs && Attaches(ref, r.name.ns, input)
  {
    hide ParentsOf, Attaches;
    if routes != [] {
      var front, last := routes[..|routes| - 1], routes[|routes| - 1];
      assert routes == front + [last];
      ServedRoutesAre(front, input, r);
      ParentsOfAre(last, input);
    }
  }

  lemma DistinctClusterGateways(o: Objects)
    requires DistinctCluster(o)
    ensures RenderOrder.DistinctGateways(o.gateways)
  {}

  /** No pass creates a Secret for a route without a ref to a Gateway of ours. */
  lemma StrangersGetNoSecret(w: World, cfg: Config, f: Faults, c: ClusterState, s: ServerState, mid: ServerState,
                             o: PassEnd, r: Route)
    requires DistinctCluster(c.objects) && PassResult(w, cfg, f, c, s, mid, o) && r in c.objects.routes
    requires forall ref :: ref in r.parentRefs ==> !Attaches(ref, r.name.ns, BareInputs(cfg, c.objects))
    ensures SecretName(r.name) in o.c.secrets ==> SecretName(r.name) in c.secrets
  {
    hide PassResult, Preparation, BasicAuthAll, Attaches, SecretName;
    var known := KnownInputs(cfg, c.objects, s, f);
    var bare := BareInputs(cfg, c.objects);
    Passwords.SecretsOfPass(w, cfg, f, c, s, mid, o);
    Passwords.PreparedSecrets(w, cfg, f, c, s);
    Passwords.ServedIgnoresResolved(c.objects.routes, known, bare);
    if cfg.dryRun {
      DryRunCreatesNothing(w, c.secrets, ServedRoutes(known.routes, known), f.secrets);
    } else if SecretName(r.name) !in c.secrets {
      DistinctClusterGateways(c.objects);
      NotServed(c.objects, bare, r);
      Passwords.NobodyElseCreates(w, c.secrets, ServedRoutes(known.routes, known), f.secrets, r);
    }
  }

  lemma NotServed(o: Objects, input: Inputs, r: Route)
    requires DistinctCluster(o) && RenderOrder.DistinctGateways(input.gateways) && r in o.routes
    requires forall ref :: ref in r.parentRefs ==> !Attaches(ref, r.name.ns, input)
    ensures forall x :: x in ServedRoutes(o.routes, input) ==> x.name != r.name
  {
    hide Attaches;
    forall x | x in ServedRoutes(o.routes, input) ensures x.name != r.name {
      ServedRoutesAre(o.routes, input, x);
      if x.name == r.name { SameRoute(o.routes, x, r); }
    }
  }

  // ---------- Gateways and their classes ----------

  const SERVED_BY_US := ConditionResult(true, ReasonAccepted, Say("Served by pangolin-gateway"))
  const PUBLISHED := ConditionResult(true, ReasonProgrammed, Say("Routes are published to Pangolin"))

  /** What a status reports once a Gateway is served. */
  ghost predicate GatewayServed(cs: seq<Condition>, generation: int) {
    Reports(cs, "Accepted", SERVED_BY_US, generation) && Reports(cs, "Programmed", PUBLISHED, generation)
  }

  lemma GatewayTargetSays(x: Subject, cs: seq<Condition>, now: int)
    ensures GatewayServed(GatewayTarget(now)(x, cs), x.generation)
  {
    hide SetCondition, Reports;
    var a := Status.AsCondition(ACCEPTED, SERVED, x.generation);
    var p := Status.AsCondition(PROGRAMMED, GATEWAY_PROGRAMMED, x.generation);
    assert ACCEPTED[0] != PROGRAMMED[0];
    PairSettled(cs, a, p, now);
    CarriesReports(GatewayTarget(now)(x, cs), a);
    CarriesReports(GatewayTarget(now)(x, cs), p);
  }

  lemma ClassTargetSays(x: Subject, cs: seq<Condition>, now: int)
    ensures Reports(ClassTarget(now)(x, cs), "Accepted", SERVED_BY_US, x.generation)
  {
    hide SetCondition, Reports;
    var a := Status.AsCondition(ACCEPTED, SERVED, x.generation);
    SetConditionCarries(cs, a, now);
    CarriesReports(ClassTarget(now)(x, cs), a);
  }

  lemma {:induction false} GatewaySubjectsAre(gateways: seq<Gateway>, input: Inputs, x: Subject)
    ensures x in GatewaySubjects(gateways, ServedClasses(input.classes, input.controllerName))
            <==> exists g :: g in gateways && Subject(g.name, g.generation) == x && IsOurs(g, input)
  {
    hide ServedClasses, IsOurs;
    if gateways != [] {
      var front, last := gateways[..|gateways| - 1], gateways[|gateways| - 1];
      assert gateways == front + [last];
      GatewaySubjectsAre(front, input, x);
      OursIff(last, input);
    }
  }

  lemma OursIff(g: Gateway, input: Inputs)
    ensures IsOurs(g, input) <==> g.class_ in ServedClasses(input.classes, input.controllerName)
  {
    ServedClassesAre(input.classes, input.controllerName, g.class_);
  }

  /** The status a pass leaves on a Gateway: Accepted and Programmed at its generation if its
      class is ours, untouched otherwise. */
  ghost predicate GatewayLeft(before: seq<Condition>, after: seq<Condition>, ours: bool, lands: bool, generation: int) {
    if ours && lands then GatewayServed(after, generation) else after == before
  }

  lemma GatewayWritten(cfg: Config, f: Faults, c: ClusterState, g: Gateway)
    requires DistinctCluster(c.objects) && g in c.objects.gateways
    ensures var ours, w := IsOurs(g, BareInputs(cfg, c.objects)), GatewayWrites(cfg, f, c);
      && GatewayLeft(Look(c.gateways, g.name, []), Look(w.statuses, g.name, []), ours, !f.gatewayStatus(g.name),
                     g.generation)
      && (g.name in w.writes ==> ours)
  {
    hide WriteAll, GatewayTarget, GatewayServed, IsOurs, ServedClasses;
    var input, x := BareInputs(cfg, c.objects), Subject(g.name, g.generation);
    var subjects := GatewaySubjects(c.objects.gateways, ServedBy(cfg, c.objects));
    GatewaySubjectsDistinct(c.objects.gateways, ServedBy(cfg, c.objects));
    GatewaySubjectsAre(c.objects.gateways, input, x);
    if IsOurs(g, input) {
      EachWrittenOnce(c.gateways, [], subjects, GatewayTarget(f.now), f.gatewayStatus, x);
      GatewayTargetSays(x, Look(c.gateways, g.name, []), f.now);
    } else {
      forall y | y in subjects ensures y.name != g.name {
        GatewaySubjectsAre(c.objects.gateways, input, y);
      }
      WritesNameSubjects(c.gateways, [], subjects, GatewayTarget(f.now), f.gatewayStatus, g.name);
    }
  }

  /** After any pass that was not aborted. */
  lemma PassServesGateways(w: World, cfg: Config, f: Faults, c: ClusterState, s: ServerState, mid: ServerState,
                           o: PassEnd, g: Gateway)
    requires DistinctCluster(c.objects) && PassResult(w, cfg, f, c, s, mid, o) && Preparation(w, cfg, c, s, f).Ready?
    requires g in c.objects.gateways
    ensures var ours := IsOurs(g, BareInputs(cfg, c.objects));
      && GatewayLeft(Look(c.gateways, g.name, []), Look(o.c.gateways, g.name, []), ours, !f.gatewayStatus(g.name),
                     g.generation)
      && (g.name in o.writes.gateways ==> ours)
  {
    hide PassResult, Preparation, RenderedOf, AfterApply, InputOf, Accepts, PruneAll, JudgedRoutes, IsOurs, GatewayLeft,
         GatewayWrites, RouteWrites, ClassWrites, ResourceWrites, PolicyWrites;
    PassEnds(w, cfg, f, c, s, mid, o);
    var c1 := c.(secrets := Preparation(w, cfg, c, s, f).secrets);
    GatewayWritten(cfg, f, c1, g);
    assert GatewayWrites(cfg, f, c1) == GatewayWrites(cfg, f, c) by { SameGatewayWrites(cfg, f, c, c1); }
  }

  lemma SameGatewayWrites(cfg: Config, f: Faults, a: ClusterState, b: ClusterState)
    requires b == a.(secrets := b.secrets)
    ensures GatewayWrites(cfg, f, a) == GatewayWrites(cfg, f, b)
  {}

  ghost predicate ClassLeft(before: seq<Condition>, after: seq<Condition>, ours: bool, lands: bool, generation: int) {
    if ours && lands then Reports(after, "Accepted", SERVED_BY_US, generation) else after == before
  }

  lemma {:induction false} ClassSubjectsAre(classes: seq<GatewayClass>, served: set<string>, x: Subject)
    ensures x in ClassSubjects(classes, served)
            <==> exists k :: k in classes && Subject(Name("", k.name), k.generation) == x && k.name in served
  {
    if classes != [] {
      var front, last := classes[..|classes| - 1], classes[|classes| - 1];
      assert classes == front + [last];
      ClassSubjectsAre(front, served, x);
    }
  }

  lemma ClassWritten(cfg: Config, f: Faults, c: ClusterState, k: GatewayClass)
    requires DistinctCluster(c.objects) && k in c.objects.classes
    ensures var n, ours, w := Name("", k.name), k.controllerName == cfg.controllerName, ClassWrites(cfg, f, c);
      && ClassLeft(Look(c.classes, n, []), Look(w.statuses, n, []), ours, !f.classStatus(n), k.generation)
      && (n in w.writes ==> ours)
  {
    hide WriteAll, ClassTarget, Reports, ServedClasses;
    var n, x := Name("", k.name), Subject(Name("", k.name), k.generation);
    var served := ServedBy(cfg, c.objects);
    var subjects := ClassSubjects(c.objects.classes, served);
    ClassSubjectsDistinct(c.objects.classes, served);
    ServedClassesAre(c.objects.classes, cfg.controllerName, k.name);
    assert forall k' :: k' in c.objects.classes && k'.name == k.name ==> k' == k;
    if k.controllerName == cfg.controllerName {
      ClassSubjectsAre(c.objects.classes, served, x);
      EachWrittenOnce(c.classes, [], subjects, ClassTarget(f.now), f.classStatus, x);
      ClassTargetSays(x, Look(c.classes, n, []), f.now);
    } else {
      forall y | y in subjects ensures y.name != n { ClassSubjectsAre(c.objects.classes, served, y); }
      WritesNameSubjects(c.classes, [], subjects, ClassTarget(f.now), f.classStatus, n);
    }
  }

  lemma SameClassWrites(cfg: Config, f: Faults, a: ClusterState, b: ClusterState)
    requires b == a.(secrets := b.secrets)
    ensures ClassWrites(cfg, f, a) == ClassWrites(cfg, f, b)
  {}

  /** A GatewayClass is Accepted exactly if it names this controller, and else untouched. */
  lemma PassServesClasses(w: World, cfg: Config, f: Faults, c: ClusterState, s: ServerState, mid: ServerState,
                          o: PassEnd, k: GatewayClass)
    requires DistinctCluster(c.objects) && PassResult(w, cfg, f, c, s, mid, o) && Preparation(w, cfg, c, s, f).Ready?
    requires k in c.objects.classes
    ensures var n, ours := Name("", k.name), k.controllerName == cfg.controllerName;
      && ClassLeft(Look(c.classes, n, []), Look(o.c.classes, n, []), ours, !f.classStatus(n), k.generation)
      && (n in o.writes.classes ==> ours)
  {
    hide PassResult, Preparation, RenderedOf, AfterApply, InputOf, Accepts, PruneAll, JudgedRoutes, ClassLeft,
         GatewayWrites, RouteWrites, ClassWrites, ResourceWrites, PolicyWrites;
    PassEnds(w, cfg, f, c, s, mid, o);
    var c1 := c.(secrets := Preparation(w, cfg, c, s, f).secrets);
    ClassWritten(cfg, f, c1, k);
    assert ClassWrites(cfg, f, c1) == ClassWrites(cfg, f, c) by { SameClassWrites(cfg, f, c, c1); }
  }

  // ---------- the status of a stranger ----------

  /** A verdict that names no parent leaves no entry of ours. */
  lemma NoParentsNoEntries(w: Writer, v: Verdict, ps: seq<ParentStatus>, e: ParentStatus)
    requires v.parentRefs == [] && e in Settled(w, v, ps)
    ensures e.controller != w.controller
  {
    hide Settled, RefKey;
    var k := RefKey(e.ref, w.ns);
    OursCoverTheWanted(w, v, ps, k);
    FilterMembers(Settled(w, v, ps), ForKey(w, k));
    assert e in Filter(Settled(w, v, ps), ForKey(w, k)) <==> e.controller == w.controller;
  }

  lemma JudgedKeys(w: World, cfg: Config, f: Faults, mid: ServerState, applied: bool, verdicts: map<Name, Verdict>,
                   mtls: map<Name, MTLSResult>)
    ensures JudgedRoutes(w, cfg, f, mid, applied, verdicts, mtls).Keys == verdicts.Keys
  {
    hide Verify.Verified;
  }

  /** The status of a route that is none of ours and not stranded holds only what others
      wrote, as they wrote it. */
  lemma StrangersKeepTheirStatus(w: World, cfg: Config, f: Faults, c: ClusterState, s: ServerState, mid: ServerState,
                                 o: PassEnd, r: Route)
    requires DistinctCluster(c.objects) && PassResult(w, cfg, f, c, s, mid, o) && Preparation(w, cfg, c, s, f).Ready?
    requires r in c.objects.routes && !f.routeStatus(r.name)
    requires var input := InputOf(w, cfg, c, s, f);
             !Stranded(r, input) && forall ref :: ref in r.parentRefs ==> !Attaches(ref, r.name.ns, input)
    ensures forall e :: e in Look(o.c.routes, r.name, []) ==> e.controller != cfg.controllerName
    ensures var us := Foreign(Writer(cfg.controllerName, r.name.ns, f.now));
            multiset(Filter(Look(o.c.routes, r.name, []), us)) == multiset(Filter(Look(c.routes, r.name, []), us))
  {
    hide PassResult, Preparation, RenderedOf, Accepts, InputOf, JudgedRoutes, Attaches, Stranded, Settled,
         DistinctCluster, DistinctObjects;
    var input := InputOf(w, cfg, c, s, f);
    var writer, before := Writer(cfg.controllerName, r.name.ns, f.now), Look(c.routes, r.name, []);
    var applied := Accepts(w, cfg, f, s, RenderedOf(w, input).blueprint);
    PreparedInputs(w, cfg, c, s, f);
    Listings.PreparedFrom(w, cfg, c, s, f);
    DistinctClusterGateways(c.objects);
    RenderedOpinion(w, input, r);
    Truth.RouteStatusOfPass(w, cfg, f, c, s, mid, o, r);
    JudgedKeys(w, cfg, f, mid, applied, RenderedOf(w, input).routes, input.mtls);
    assert Look(o.c.routes, r.name, []) == Settled(writer, NO_VERDICT, before);
    ForeignEntriesSurvive(writer, NO_VERDICT, before);
    forall e | e in Look(o.c.routes, r.name, []) ensures e.controller != cfg.controllerName {
      NoParentsNoEntries(writer, NO_VERDICT, before, e);
    }
  }
}
