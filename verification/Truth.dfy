/** What the statuses of a pass say about the server: Accepted=True on a route and
    Programmed=True on a PrivateResource or ResourcePolicy mean the entry is live. */
module Truth {
  import opened Sorting
  import opened Types
  import opened Policies
  import opened Collisions
  import opened Render
  import opened RenderLaws
  import opened Server
  import opened Status
  import opened Prune
  import opened Verify
  import opened Pass
  import opened Safety
  import opened ClusterObjects
  import Conditions
  import Translate

  // ---------- conditions ----------

  /** The condition in force for a type has this status. */
  predicate InForce(cs: seq<Condition>, typ: string, status: bool) {
    if cs == [] then false
    else if cs[0].typ == typ then cs[0].status == status
    else InForce(cs[1..], typ, status)
  }

  lemma {:induction false} CarriedInForce(cs: seq<Condition>, c: Condition, status: bool)
    requires Carries(cs, c)
    ensures InForce(cs, c.typ, status) <==> c.status == status
  {
    if cs[0].typ != c.typ { CarriedInForce(cs[1..], c, status); }
  }

  // ---------- what else a pass leaves alone ----------

  /** The server's settings and certificate sets. */
  function Settings(s: ServerState): (map<string, seq<string>>, bool, bool, set<string>, set<string>, set<User>) {
    (s.mtls, s.strip, s.licensed, s.sites, s.machines, s.users)
  }

  lemma {:induction false} OpsKeepSettings(s: ServerState, ops: seq<Op>)
    ensures Settings(RunOps(s, ops)) == Settings(s)
  {
    if ops != [] { OpsKeepSettings(s, ops[..|ops| - 1]); }
  }

  lemma {:induction false} RowsKeepSettings(s: ServerState, sec: Section, rows: seq<Row>, desired: set<string>,
                                            dryRun: bool, e: Weather)
    ensures Settings(PruneRows(s, sec, rows, desired, dryRun, e).s) == Settings(s)
  {
    if rows != [] {
      var n := |rows| - 1;
      RowsKeepSettings(s, sec, rows[..n], desired, dryRun, e);
      OpsKeepSettings(PruneRows(s, sec, rows[..n], desired, dryRun, e).s, e.others(n));
    }
  }

  lemma PruneKeepsSettings(cfg: Config, f: Faults, s: ServerState, b: Blueprint)
    ensures Settings(PruneAll(cfg, f, s, b).policies.s) == Settings(s)
  {
    RowsKeepSettings(s, PublicSection, RowsOf(s, PublicSection), b.public.Keys, cfg.dryRun, f.weather(PublicSection));
    var p := Pruning(cfg, f, s, b, PublicSection);
    RowsKeepSettings(p.s, PrivateSection, RowsOf(p.s, PrivateSection), b.private.Keys, cfg.dryRun,
      f.weather(PrivateSection));
    var q := Pruning(cfg, f, p.s, b, PrivateSection);
    RowsKeepSettings(q.s, PolicySection, RowsOf(q.s, PolicySection), b.policies.Keys, cfg.dryRun,
      f.weather(PolicySection));
  }

  // ---------- verdicts ----------

  /** The server confirmed the CA set a published route asked for. */
  ghost predicate Confirmed(w: World, f: Faults, mid: ServerState, v: Verdict, result: MTLSResult) {
    NeedsCheck(v, result) ==>
      && !f.verifyList && v.key in mid.public.ids && !f.certReads(mid.public.ids[v.key])
      && Covers(StoredFor(mid, v.key), WantedFingerprints(w, result.certificates))
  }

  /** No CA set was resolved for the route, or its own was confirmed. */
  ghost predicate CAConfirmed(w: World, f: Faults, mid: ServerState, verdicts: map<Name, Verdict>,
                              mtls: map<Name, MTLSResult>, n: Name) {
    n in verdicts && n in mtls ==> Confirmed(w, f, mid, verdicts[n], mtls[n])
  }

  /** Outside a dry run a route's verdict ends True exactly when it was published, the
      apply was accepted and its CA set, if it has one, was confirmed. */
  lemma JudgedTrueIff(w: World, cfg: Config, f: Faults, mid: ServerState, applied: bool, verdicts: map<Name, Verdict>,
                      mtls: map<Name, MTLSResult>, n: Name)
    requires !cfg.dryRun && n in verdicts && (verdicts[n].Published() <==> verdicts[n].accepted.status)
    ensures var judged := JudgedRoutes(w, cfg, f, mid, applied, verdicts, mtls);
      && n in judged && judged[n].parentRefs == verdicts[n].parentRefs && judged[n].key == verdicts[n].key
      && (judged[n].accepted.status
          <==> verdicts[n].Published() && applied && CAConfirmed(w, f, mid, verdicts, mtls, n))
  {}

  /** What the pass makes of a verdict: the rest of it stays, and a published one is told of
      a failed apply, of a dry run, or of a CA set that was not confirmed. */
  ghost predicate JudgedAs(w: World, cfg: Config, f: Faults, mid: ServerState, applied: bool,
                           verdicts: map<Name, Verdict>, mtls: map<Name, MTLSResult>, n: Name, judged: Verdict) {
    n in verdicts && var v, a := verdicts[n], judged.accepted;
    && judged == v.(accepted := a)
    && if v.key == "" then a == v.accepted
       else if !applied then !a.status && a.reason == ReasonPublishFailed
       else if cfg.dryRun then a.status && a.reason == ReasonDryRun
       else if CAConfirmed(w, f, mid, verdicts, mtls, n) then a == v.accepted
       else !a.status && a.reason == ReasonMtlsNotApplied
  }

  lemma JudgedSays(w: World, cfg: Config, f: Faults, mid: ServerState, applied: bool, verdicts: map<Name, Verdict>,
                   mtls: map<Name, MTLSResult>)
    ensures var judged := JudgedRoutes(w, cfg, f, mid, applied, verdicts, mtls);
      judged.Keys == verdicts.Keys
      && forall n :: n in judged ==> JudgedAs(w, cfg, f, mid, applied, verdicts, mtls, n, judged[n])
  {
    hide Covers, WantedFingerprints;
  }

  // ---------- statuses written ----------

  lemma SubjectsDistinct(o: Objects)
    requires DistinctCluster(o)
    ensures DistinctSubjects(RouteSubjects(o.routes)) && DistinctSubjects(ResourceSubjects(o.resources))
    ensures DistinctSubjects(PolicySubjects(o.policies))
  {}

  /** Our parent entries for a key say Accepted=True. */
  ghost predicate SaysAccepted(ps: seq<ParentStatus>, controllerName: string, ns: string, k: string) {
    var mine := Filter(ps, ForKey(Writer(controllerName, ns, 0), k));
    mine != [] && InForce(mine[0].conditions, ACCEPTED, true)
  }

  /** A settled parent list says Accepted=True for a key exactly when the verdict is True
      and names that key. */
  lemma SettledSays(w: Writer, v: Verdict, ps: seq<ParentStatus>, k: string)
    ensures SaysAccepted(Settled(w, v, ps), w.controller, w.ns, k) <==>
        k in WantedKeys(w, v.parentRefs) && v.accepted.status
  {
    var after, w0 := Settled(w, v, ps), Writer(w.controller, w.ns, 0);
    OursCoverTheWanted(w, v, ps, k);
    SameFilter(after, w, w0, k);
    var mine := Filter(after, ForKey(w, k));
    if mine != [] { CarriedInForce(mine[0].conditions, AcceptedCondition(v), true); }
  }

  lemma RouteWritten(cfg: Config, f: Faults, c: ClusterState, verdicts: map<Name, Verdict>, r: Route)
    requires DistinctCluster(c.objects) && r in c.objects.routes && !f.routeStatus(r.name)
    ensures Look(RouteWrites(cfg, f, c, verdicts).statuses, r.name, [])
         == Settled(Writer(cfg.controllerName, r.name.ns, f.now), Look(verdicts, r.name, NO_VERDICT),
           Look(c.routes, r.name, []))
  {
    SubjectsDistinct(c.objects);
    var i :| 0 <= i < |c.objects.routes| && c.objects.routes[i] == r;
    var xs := RouteSubjects(c.objects.routes);
    assert xs[i] == Subject(r.name, r.generation) && xs[i] in xs;
    EachWrittenOnce(c.routes, [], xs, RouteTarget(cfg.controllerName, f.now, verdicts), f.routeStatus, xs[i]);
  }

  lemma ResourceWritten(cfg: Config, f: Faults, c: ClusterState, applied: bool, verdicts: map<Name, ResourceVerdict>,
                        o: PrivateObject)
    requires DistinctCluster(c.objects) && o in c.objects.resources && !f.resourceStatus(o.name)
    ensures Look(ResourceWrites(cfg, f, c, applied, verdicts).statuses, o.name, NO_STATUS)
         == KeyStatusAfter(cfg.dryRun, applied, f.now, o.generation, Look(verdicts, o.name, NO_RESOURCE_VERDICT),
                           Look(c.resources, o.name, NO_STATUS))
  {
    SubjectsDistinct(c.objects);
    var i :| 0 <= i < |c.objects.resources| && c.objects.resources[i] == o;
    var xs := ResourceSubjects(c.objects.resources);
    assert xs[i] == Subject(o.name, o.generation) && xs[i] in xs;
    EachWrittenOnce(c.resources, NO_STATUS, xs, KeyTarget(cfg.dryRun, applied, f.now, verdicts), f.resourceStatus,
                    xs[i]);
  }

  lemma PolicyWritten(cfg: Config, f: Faults, c: ClusterState, applied: bool, verdicts: map<Name, ResourceVerdict>,
                      p: PolicyObject)
    requires DistinctCluster(c.objects) && p in c.objects.policies && !f.policyStatus(p.name)
    ensures Look(PolicyWrites(cfg, f, c, applied, verdicts).statuses, p.name, NO_STATUS)
         == KeyStatusAfter(cfg.dryRun, applied, f.now, p.generation, Look(verdicts, p.name, NO_RESOURCE_VERDICT),
                           Look(c.policies, p.name, NO_STATUS))
  {
    SubjectsDistinct(c.objects);
    var i :| 0 <= i < |c.objects.policies| && c.objects.policies[i] == p;
    var xs := PolicySubjects(c.objects.policies);
    assert xs[i] == Subject(p.name, p.generation) && xs[i] in xs;
    EachWrittenOnce(c.policies, NO_STATUS, xs, KeyTarget(cfg.dryRun, applied, f.now, verdicts), f.policyStatus, xs[i]);
  }

  /** Programmed=True exactly for a published verdict whose blueprint was really applied;
      then the status carries the verdict's key. */
  lemma ProgrammedIff(dryRun: bool, applied: bool, now: int, generation: int, v: ResourceVerdict, st: KeyStatus)
    ensures var after := KeyStatusAfter(dryRun, applied, now, generation, v, st);
      && (InForce(after.conditions, PROGRAMMED, true) <==> v.Published() && applied && !dryRun)
      && (InForce(after.conditions, ACCEPTED, true) <==> v.accepted.status)
      && (InForce(after.conditions, PROGRAMMED, true) ==> after.key == v.key)
  {
    var a := AsCondition(ACCEPTED, v.accepted, generation);
    var p := AsCondition(PROGRAMMED, Programmed(dryRun, v, applied), generation);
    assert ACCEPTED[0] != PROGRAMMED[0];
    PairSettled(st.conditions, a, p, now);
    var after := KeyStatusAfter(dryRun, applied, now, generation, v, st);
    CarriedInForce(after.conditions, a, true);
    CarriedInForce(after.conditions, p, true);
  }

  /** Why a resource is or is not Programmed. */
  function ProgrammedReason(dryRun: bool, applied: bool, v: ResourceVerdict): Reason {
    if v.key == "" then ReasonNotAccepted
    else if !applied then ReasonPublishFailed
    else if dryRun then ReasonDryRun
    else ReasonProgrammed
  }

  /** A written status reports the verdict, and with it what became of the apply; the key is
      the published one, kept while an apply fails and cleared on rejection. */
  lemma KeyStatusSays(dryRun: bool, applied: bool, now: int, generation: int, v: ResourceVerdict, st: KeyStatus)
    ensures var after := KeyStatusAfter(dryRun, applied, now, generation, v, st);
      && Conditions.Reports(after.conditions, "Accepted", v.accepted, generation)
      && (exists r :: Conditions.Reports(after.conditions, "Programmed", r, generation)
           && r.status == (v.key != "" && applied && !dryRun) && r.reason == ProgrammedReason(dryRun, applied, v))
      && after.key == (if v.key == "" then "" else if applied then v.key else st.key)
  {
    hide SetCondition, Conditions.Reports;
    var after := KeyStatusAfter(dryRun, applied, now, generation, v, st);
    var r := Programmed(dryRun, v, applied);
    var a, p := AsCondition(ACCEPTED, v.accepted, generation), AsCondition(PROGRAMMED, r, generation);
    assert ACCEPTED[0] != PROGRAMMED[0];
    PairSettled(st.conditions, a, p, now);
    Conditions.CarriesReports(after.conditions, a);
    Conditions.CarriesReports(after.conditions, p);
    assert Conditions.Reports(after.conditions, "Programmed", r, generation);
  }

  // ---------- live entries ----------

  function SectionOf(e: Entry): Section { if e.section.InPublic? then PublicSection else PrivateSection }

  /** The server holds exactly this entry. */
  predicate HoldsExactly(live: Live, e: Entry) {
    match e.section
    case InPublic(res) => live.LivePublic? && live.public == res
    case InPrivate(res) => live.LivePrivate? && live.private == res
  }

  /** The set stored under k covers every certificate resolved for the route, if any was. */
  ghost predicate StoresCAs(w: World, s: ServerState, k: string, mtls: map<Name, MTLSResult>, n: Name) {
    n in mtls && mtls[n].Trusted? && mtls[n].certificates != [] ==>
      Covers(StoredFor(s, k), WantedFingerprints(w, mtls[n].certificates))
  }

  predicate HoldsPolicy(live: Live, policy: Result<PublicPolicy, ConditionResult>) {
    live.LivePolicy? && policy == Ok(live.policy)
  }

  lemma EntryIsLive(w: World, cfg: Config, f: Faults, s: ServerState, b: Blueprint, mid: ServerState,
                    s': ServerState, e: Entry)
    requires ValidState(s) && ServerSide(w, cfg, f, s, b, mid, s') && !cfg.dryRun && Accepts(w, cfg, f, s, b)
    requires InBlueprint(b, e) && Undisturbed(f, SectionOf(e), e.key, LiveAt(mid, SectionOf(e), e.key))
    ensures HoldsExactly(LiveAt(s', SectionOf(e), e.key), e)
  {
    PassKeepsItsOwn(w, cfg, f, s, b, mid, s', SectionOf(e), e.key);
  }

  lemma SideKeepsCertificates(w: World, cfg: Config, f: Faults, s: ServerState, b: Blueprint, mid: ServerState,
                              s': ServerState)
    requires ServerSide(w, cfg, f, s, b, mid, s')
    ensures s'.mtls == mid.mtls
  {
    PruneKeepsSettings(cfg, f, mid, b);
  }

  // ---------- the theorems ----------

  /** The pass that prepared this input, wrote r's status, and did not just rehearse. */
  ghost predicate RealPass(w: World, cfg: Config, f: Faults, c: ClusterState, s: ServerState, mid: ServerState,
                           o: PassEnd) {
    && ValidState(s) && DistinctCluster(c.objects) && !cfg.dryRun
    && Preparation(w, cfg, c, s, f).Ready? && PassResult(w, cfg, f, c, s, mid, o)
  }

  lemma RouteStatusOfPass(w: World, cfg: Config, f: Faults, c: ClusterState, s: ServerState, mid: ServerState,
                          o: PassEnd, r: Route)
    requires DistinctCluster(c.objects) && Preparation(w, cfg, c, s, f).Ready? && PassResult(w, cfg, f, c, s, mid, o)
    requires r in c.objects.routes && !f.routeStatus(r.name)
    ensures var input := InputOf(w, cfg, c, s, f);
            var applied := Accepts(w, cfg, f, s, RenderedOf(w, input).blueprint);
            Look(o.c.routes, r.name, [])
            == Settled(Writer(cfg.controllerName, r.name.ns, f.now),
                       Look(JudgedRoutes(w, cfg, f, mid, applied, RenderedOf(w, input).routes, input.mtls), r.name,
                         NO_VERDICT),
                       Look(c.routes, r.name, []))
  {
    hide RenderedOf, Preparation;
    var input := InputOf(w, cfg, c, s, f);
    var c1 := c.(secrets := Preparation(w, cfg, c, s, f).secrets);
    var applied := Accepts(w, cfg, f, s, RenderedOf(w, input).blueprint);
    RouteWritten(cfg, f, c1, JudgedRoutes(w, cfg, f, mid, applied, RenderedOf(w, input).routes, input.mtls), r);
  }

  /** A route the pass left at Accepted=True, for any of its parents, has exactly its
      translation live on the server, and the CA set stored for it covers every
      certificate sent, whichever later calls failed. */
  lemma AcceptedRouteIsLive(w: World, cfg: Config, f: Faults, c: ClusterState, s: ServerState,
                            mid: ServerState, o: PassEnd,
                            r: Route, k: string) returns (e: Entry)
    requires RealPass(w, cfg, f, c, s, mid, o) && r in c.objects.routes && !f.routeStatus(r.name)
    requires SaysAccepted(Look(o.c.routes, r.name, []), cfg.controllerName, r.name.ns, k)
    requires forall sec :: Undisturbed(f, sec, Translate.Key(r.name), LiveAt(mid, sec, Translate.Key(r.name)))
    ensures var input := InputOf(w, cfg, c, s, f);
      && Translate.TranslateRoute(w, r, input, PolicyVerdicts(w, input)) == Ok(e) && e.key == Translate.Key(r.name)
      && HoldsExactly(LiveAt(o.s, SectionOf(e), e.key), e)
      && StoresCAs(w, o.s, e.key, input.mtls, r.name)
  {
    hide RenderedOf, Preparation, PassResult, Accepts, Look, JudgedRoutes, Settled, SaysAccepted, ServerSide, InputOf,
         RoutePublished, CAConfirmed, Undisturbed, LiveAt, HoldsExactly, StoresCAs, Translate.TranslateRoute,
         DistinctObjects, DistinctCluster;
    var input := InputOf(w, cfg, c, s, f);
    PreparedInputs(w, cfg, c, s, f);
    ServerSideOfPass(w, cfg, f, c, s, mid, o);
    RouteStatusOfPass(w, cfg, f, c, s, mid, o, r);
    AcceptedVerdict(w, cfg, f, s, mid, input, r, Look(c.routes, r.name, []), k);
    e := LiveWhenAccepted(w, cfg, f, s, input, mid, o.s, r);
  }

  /** The server's side of it: a published verdict whose CA set was confirmed. */
  lemma LiveWhenAccepted(w: World, cfg: Config, f: Faults, s: ServerState, input: Inputs, mid: ServerState,
                         s': ServerState, r: Route) returns (e: Entry)
    requires ValidState(s) && DistinctObjects(input) && !cfg.dryRun && r in input.routes
    requires RoutePublished(RenderedOf(w, input), r.name) && Accepts(w, cfg, f, s, RenderedOf(w, input).blueprint)
    requires CAConfirmed(w, f, mid, RenderedOf(w, input).routes, input.mtls, r.name)
    requires ServerSide(w, cfg, f, s, RenderedOf(w, input).blueprint, mid, s')
    requires forall sec :: Undisturbed(f, sec, Translate.Key(r.name), LiveAt(mid, sec, Translate.Key(r.name)))
    ensures Translate.TranslateRoute(w, r, input, PolicyVerdicts(w, input)) == Ok(e) && e.key == Translate.Key(r.name)
    ensures HoldsExactly(LiveAt(s', SectionOf(e), e.key), e) && StoresCAs(w, s', e.key, input.mtls, r.name)
  {
    hide RenderedOf, ServerSide, Accepts, Undisturbed, LiveAt, HoldsExactly, Translate.TranslateRoute, DistinctObjects,
         Translate.Key, Confirmed, InBlueprint, ValidState;
    e := PublishedTranslation(w, input, r);
    RouteVerdictIsItsEntry(w, input, r);
    ConfirmedIsStored(w, f, mid, RenderedOf(w, input).routes, input.mtls, r.name);
    EntryIsLive(w, cfg, f, s, RenderedOf(w, input).blueprint, mid, s', e);
    SideKeepsCertificates(w, cfg, f, s, RenderedOf(w, input).blueprint, mid, s');
  }

  lemma ConfirmedIsStored(w: World, f: Faults, mid: ServerState, verdicts: map<Name, Verdict>,
                          mtls: map<Name, MTLSResult>, n: Name)
    requires n in verdicts && verdicts[n].Published() && CAConfirmed(w, f, mid, verdicts, mtls, n)
    ensures StoresCAs(w, mid, verdicts[n].key, mtls, n)
  {}

  /** From a status that says Accepted=True back to the verdict behind it. */
  lemma AcceptedVerdict(w: World, cfg: Config, f: Faults, s: ServerState, mid: ServerState, input: Inputs, r: Route,
                        before: seq<ParentStatus>, k: string)
    requires DistinctObjects(input) && !cfg.dryRun && r in input.routes
    requires var applied := Accepts(w, cfg, f, s, RenderedOf(w, input).blueprint);
             SaysAccepted(Settled(Writer(cfg.controllerName, r.name.ns, f.now),
                                  Look(JudgedRoutes(w, cfg, f, mid, applied, RenderedOf(w, input).routes, input.mtls),
                                       r.name, NO_VERDICT),
                                  before),
                          cfg.controllerName, r.name.ns, k)
    ensures RoutePublished(RenderedOf(w, input), r.name)
    ensures Accepts(w, cfg, f, s, RenderedOf(w, input).blueprint)
    ensures CAConfirmed(w, f, mid, RenderedOf(w, input).routes, input.mtls, r.name)
  {
    hide Translate.TranslateRoute, RenderedOf;
    var verdicts := RenderedOf(w, input).routes;
    var applied := Accepts(w, cfg, f, s, RenderedOf(w, input).blueprint);
    var judged := JudgedRoutes(w, cfg, f, mid, applied, verdicts, input.mtls);
    SettledSays(Writer(cfg.controllerName, r.name.ns, f.now), Look(judged, r.name, NO_VERDICT), before, k);
    assert r.name in verdicts;
    RouteVerdictIsItsEntry(w, input, r);
    JudgedTrueIff(w, cfg, f, mid, applied, verdicts, input.mtls, r.name);
  }

  /** A PrivateResource the pass left at Programmed=True has exactly its translation
      live under the key its status names. */
  lemma ProgrammedResourceIsLive(w: World, cfg: Config, f: Faults, c: ClusterState, s: ServerState,
                                 mid: ServerState, o: PassEnd,
                                 x: PrivateObject) returns (e: Entry)
    requires ValidState(s) && DistinctCluster(c.objects)
    requires Preparation(w, cfg, c, s, f).Ready? && PassResult(w, cfg, f, c, s, mid, o)
    requires x in c.objects.resources && !f.resourceStatus(x.name)
    requires InForce(Look(o.c.resources, x.name, NO_STATUS).conditions, PROGRAMMED, true)
    requires Undisturbed(f, PrivateSection, Translate.PrivateResourceKey(x.name),
                         LiveAt(mid, PrivateSection, Translate.PrivateResourceKey(x.name)))
    ensures Translate.TranslatePrivate(w, x, InputOf(w, cfg, c, s, f)) == Ok(e)
    ensures e.key == Translate.PrivateResourceKey(x.name) == Look(o.c.resources, x.name, NO_STATUS).key
    ensures e.section.InPrivate? && HoldsExactly(LiveAt(o.s, PrivateSection, e.key), e)
  {
    hide RenderedOf, Preparation, Acceptable, Translate.TranslatePrivate, LiveAt, KeyStatusAfter, InForce;
    var input := InputOf(w, cfg, c, s, f);
    var c1 := c.(secrets := Preparation(w, cfg, c, s, f).secrets);
    var b := RenderedOf(w, input).blueprint;
    var applied := Accepts(w, cfg, f, s, b);
    PreparedInputs(w, cfg, c, s, f);
    ServerSideOfPass(w, cfg, f, c, s, mid, o);
    ResourceWritten(cfg, f, c1, applied, RenderedOf(w, input).resources, x);
    ResourceVerdictIsItsEntry(w, input, x);
    var v := RenderedOf(w, input).resources[x.name];
    ProgrammedIff(cfg.dryRun, applied, f.now, x.generation, v, Look(c.resources, x.name, NO_STATUS));
    ResourceErrors(w, x, input);
    e := Translate.TranslatePrivate(w, x, input).value;
    EntryIsLive(w, cfg, f, s, b, mid, o.s, e);
  }

  /** The same for a ResourcePolicy. */
  lemma ProgrammedPolicyIsLive(w: World, cfg: Config, f: Faults, c: ClusterState, s: ServerState,
                               mid: ServerState, o: PassEnd,
                               p: PolicyObject)
    requires ValidState(s) && DistinctCluster(c.objects)
    requires Preparation(w, cfg, c, s, f).Ready? && PassResult(w, cfg, f, c, s, mid, o)
    requires p in c.objects.policies && !f.policyStatus(p.name)
    requires InForce(Look(o.c.policies, p.name, NO_STATUS).conditions, PROGRAMMED, true)
    requires Undisturbed(f, PolicySection, PolicyKey(p.name), LiveAt(mid, PolicySection, PolicyKey(p.name)))
    ensures Look(o.c.policies, p.name, NO_STATUS).key == PolicyKey(p.name)
    ensures HoldsPolicy(LiveAt(o.s, PolicySection, PolicyKey(p.name)), TranslatePolicy(w, p, cfg.licensed))
  {
    hide RenderedOf, Preparation, Acceptable, TranslatePolicy, PolicyKey, LiveAt, Undisturbed, KeyStatusAfter, InForce;
    var input := InputOf(w, cfg, c, s, f);
    var c1 := c.(secrets := Preparation(w, cfg, c, s, f).secrets);
    var b := RenderedOf(w, input).blueprint;
    var applied := Accepts(w, cfg, f, s, b);
    PreparedInputs(w, cfg, c, s, f);
    ServerSideOfPass(w, cfg, f, c, s, mid, o);
    PolicyWritten(cfg, f, c1, applied, RenderedOf(w, input).policies, p);
    PolicyVerdictIsItsEntry(w, input, p);
    var v := RenderedOf(w, input).policies[p.name];
    ProgrammedIff(cfg.dryRun, applied, f.now, p.generation, v, Look(c.policies, p.name, NO_STATUS));
    PassKeepsItsOwn(w, cfg, f, s, b, mid, o.s, PolicySection, PolicyKey(p.name));
  }
}
