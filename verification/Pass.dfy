/** Reconcile of internal/controller/publisher.go: one pass over the whole cluster
    state, as a specification of each stage and the class whose methods run them. */
module Pass {
  import opened Text
  import opened Types
  import opened Render
  import opened Server
  import opened Secrets
  import opened Status
  import opened Prune
  import opened Verify
  import opened ClusterObjects
  import FakeServer = Fake
  import Acceptance
  import Translate

  datatype Config = Config(controllerName: string, defaultSite: string, licensed: bool, dryRun: bool)

  /** Which calls of a pass fail, what other clients do while it prunes, and the time. */
  datatype Faults = Faults(
    clusterLists: bool, sites: bool, machines: bool, users: bool,
    secrets: SecretOracle, caReads: Name -> bool,
    apply: bool, verifyList: bool, certReads: int -> bool,
    lists: Section -> bool, weather: Section -> Weather,
    routeStatus: Name -> bool, classStatus: Name -> bool, gatewayStatus: Name -> bool,
    resourceStatus: Name -> bool, policyStatus: Name -> bool,
    now: int)

  // ---------- before the render ----------

  /** The inputs a pass has before it asks the server anything. */
  function BareInputs(cfg: Config, o: Objects): Inputs {
    Inputs(o.routes, o.gateways, o.classes, cfg.controllerName, cfg.defaultSite, map[], map[], None,
           o.resources, None, None, cfg.licensed, o.policies)
  }

  function KnownMachines(input: Inputs, s: ServerState, fails: bool): Option<set<string>> {
    if Acceptance.AsksForMachines(input) && !fails then Some(s.machines) else None
  }

  function KnownUsers(input: Inputs, s: ServerState, fails: bool): Option<set<string>> {
    if Acceptance.AsksForUsers(input) && !fails then Some(Acceptance.UserIds(s.users)) else None
  }

  /** A listing that fails switches its check off. */
  function KnownInputs(cfg: Config, o: Objects, s: ServerState, f: Faults): Inputs {
    var bare := BareInputs(cfg, o);
    bare.(knownSites := if f.sites then None else Some(s.sites),
          knownMachines := KnownMachines(bare, s, f.machines),
          knownUsers := KnownUsers(bare, s, f.users))
  }

  datatype Prepared = Aborted(secrets: map<Name, Secret>) | Ready(secrets: map<Name, Secret>, input: Inputs)

  /** Lists, then credentials, then CAs: a read that fails aborts the pass. */
  function Preparation(w: World, cfg: Config, c: ClusterState, s: ServerState, f: Faults): Prepared {
    if f.clusterLists then Aborted(c.secrets)
    else
      var known := KnownInputs(cfg, c.objects, s, f);
      var served := ServedRoutes(known.routes, known);
      var auth := BasicAuthAll(w, c.secrets, served, cfg.dryRun, f.secrets);
      if auth.results.None? then Aborted(auth.secrets)
      else
        var cas := MTLSAll(w, auth.secrets, c.configMaps, served, f.caReads);
        if cas.None? then Aborted(auth.secrets)
        else Ready(auth.secrets, known.(basicAuth := auth.results.value, mtls := cas.value))
  }

  /** What the render of a prepared pass is given. */
  function InputOf(w: World, cfg: Config, c: ClusterState, s: ServerState, f: Faults): Inputs {
    match Preparation(w, cfg, c, s, f)
    case Ready(_, input) => input
    case Aborted(_) => BareInputs(cfg, c.objects)
  }

  // ---------- apply and verdicts ----------

  /** The answer of the apply; a dry run's is always success. */
  ghost predicate Accepts(w: World, cfg: Config, f: Faults, s: ServerState, b: Blueprint) {
    cfg.dryRun || (!f.apply && Acceptable(w, s, b))
  }

  /** The server after the apply. */
  ghost predicate AfterApply(w: World, cfg: Config, f: Faults, s: ServerState, b: Blueprint, mid: ServerState) {
    if !cfg.dryRun && Accepts(w, cfg, f, s, b) then Applied(w, s, b, mid) else mid == s
  }

  const PUBLISH_FAILED := ConditionResult(false, ReasonPublishFailed, Say("publishing to Pangolin failed"))
  const REHEARSED := ConditionResult(true, ReasonDryRun, Say("dry run: accepted but not published to Pangolin"))

  /** Every published verdict says c instead; rejected routes keep their own reason. */
  function Marked(verdicts: map<Name, Verdict>, c: ConditionResult): map<Name, Verdict> {
    map n | n in verdicts :: if verdicts[n].Published() then verdicts[n].(accepted := c) else verdicts[n]
  }

  function JudgedRoutes(w: World, cfg: Config, f: Faults, mid: ServerState, applied: bool,
                        verdicts: map<Name, Verdict>, mtls: map<Name, MTLSResult>): map<Name, Verdict>
  {
    if !applied then Marked(verdicts, PUBLISH_FAILED)
    else if cfg.dryRun then Marked(verdicts, REHEARSED)
    else VerifiedAll(w, mid, verdicts, mtls, f.verifyList, f.certReads)
  }

  // ---------- prune ----------

  function Desired(b: Blueprint, sec: Section): set<string> {
    match sec
    case PublicSection => b.public.Keys
    case PrivateSection => b.private.Keys
    case PolicySection => b.policies.Keys
  }

  ghost function Pruning(cfg: Config, f: Faults, s: ServerState, b: Blueprint, sec: Section): PruneState {
    PruneOutcome(s, sec, Desired(b, sec), cfg.dryRun, f.lists(sec), f.weather(sec))
  }

  /** The three sections in their order; policies only with a licence. */
  datatype Pruned = Pruned(public: PruneState, private: PruneState, policies: PruneState, failed: bool)

  ghost function PruneAll(cfg: Config, f: Faults, s: ServerState, b: Blueprint): Pruned {
    var public := Pruning(cfg, f, s, b, PublicSection);
    var private := Pruning(cfg, f, public.s, b, PrivateSection);
    if !cfg.licensed then Pruned(public, private, PruneState(private.s, {}, false), public.failed || private.failed)
    else
      var listed := Listable(private.s, PolicySection, f.lists(PolicySection));
      Pruned(public, private, Pruning(cfg, f, private.s, b, PolicySection), public.failed || private.failed || !listed)
  }

  // ---------- statuses ----------

  const PROGRAMMED := "Programmed"
  const NO_VERDICT := Verdict("", 0, [], ConditionResult(false, ReasonAccepted, Say("")),
                              ConditionResult(false, ReasonAccepted, Say("")))
  const NO_RESOURCE_VERDICT := ResourceVerdict("", 0, ConditionResult(false, ReasonAccepted, Say("")))

  /** A route with no verdict is written with no parents. */
  function RouteTarget(controllerName: string, now: int, verdicts: map<Name, Verdict>)
    : (Subject, seq<ParentStatus>) -> seq<ParentStatus>
  {
    (x: Subject, ps: seq<ParentStatus>) =>
      Settled(Writer(controllerName, x.name.ns, now), Look(verdicts, x.name, NO_VERDICT), ps)
  }

  function Programmed(dryRun: bool, v: ResourceVerdict, applied: bool): ConditionResult {
    if !v.Published() then ConditionResult(false, ReasonNotAccepted, Because("Not published", v.accepted.message))
    else if !applied then PUBLISH_FAILED
    else if dryRun then ConditionResult(false, ReasonDryRun, REHEARSED.message)
    else ConditionResult(true, ReasonProgrammed, Quote("Published to Pangolin as", v.key))
  }

  /** The key in a status: cleared on rejection, the verdict's once applied, else as it
      was. */
  function KeyAfter(v: ResourceVerdict, applied: bool, old_: string): string {
    if !v.Published() then "" else if applied then v.key else old_
  }

  function KeyStatusAfter(dryRun: bool, applied: bool, now: int, generation: int, v: ResourceVerdict,
                          st: KeyStatus): KeyStatus {
    var a := AsCondition(ACCEPTED, v.accepted, generation);
    var p := AsCondition(PROGRAMMED, Programmed(dryRun, v, applied), generation);
    KeyStatus(KeyAfter(v, applied, st.key), SetCondition(SetCondition(st.conditions, a, now), p, now))
  }

  function KeyTarget(dryRun: bool, applied: bool, now: int, verdicts: map<Name, ResourceVerdict>)
    : (Subject, KeyStatus) -> KeyStatus
  {
    (x: Subject, st: KeyStatus) =>
      KeyStatusAfter(dryRun, applied, now, x.generation, Look(verdicts, x.name, NO_RESOURCE_VERDICT), st)
  }

  ghost function RouteWrites(cfg: Config, f: Faults, c: ClusterState, verdicts: map<Name, Verdict>)
    : Written<seq<ParentStatus>>
  {
    WriteAll(c.routes, [], RouteSubjects(c.objects.routes), RouteTarget(cfg.controllerName, f.now, verdicts),
      f.routeStatus)
  }

  ghost function ResourceWrites(cfg: Config, f: Faults, c: ClusterState, applied: bool,
                                verdicts: map<Name, ResourceVerdict>)
    : Written<KeyStatus>
  {
    WriteAll(c.resources, NO_STATUS, ResourceSubjects(c.objects.resources),
             KeyTarget(cfg.dryRun, applied, f.now, verdicts), f.resourceStatus)
  }

  ghost function PolicyWrites(cfg: Config, f: Faults, c: ClusterState, applied: bool,
                              verdicts: map<Name, ResourceVerdict>)
    : Written<KeyStatus>
  {
    WriteAll(c.policies, NO_STATUS, PolicySubjects(c.objects.policies),
             KeyTarget(cfg.dryRun, applied, f.now, verdicts), f.policyStatus)
  }

  const SERVED := ConditionResult(true, ReasonAccepted, Say("Served by pangolin-gateway"))
  const GATEWAY_PROGRAMMED := ConditionResult(true, ReasonProgrammed, Say("Routes are published to Pangolin"))

  function ClassTarget(now: int): (Subject, seq<Condition>) -> seq<Condition> {
    (x: Subject, cs: seq<Condition>) => SetCondition(cs, AsCondition(ACCEPTED, SERVED, x.generation), now)
  }

  function GatewayTarget(now: int): (Subject, seq<Condition>) -> seq<Condition> {
    (x: Subject, cs: seq<Condition>) =>
      SetCondition(SetCondition(cs, AsCondition(ACCEPTED, SERVED, x.generation), now),
                   AsCondition(PROGRAMMED, GATEWAY_PROGRAMMED, x.generation), now)
  }

  function ServedBy(cfg: Config, o: Objects): set<string> { ServedClasses(o.classes, cfg.controllerName) }

  ghost function ClassWrites(cfg: Config, f: Faults, c: ClusterState): Written<seq<Condition>> {
    WriteAll(c.classes, [], ClassSubjects(c.objects.classes, ServedBy(cfg, c.objects)), ClassTarget(f.now),
      f.classStatus)
  }

  ghost function GatewayWrites(cfg: Config, f: Faults, c: ClusterState): Written<seq<Condition>> {
    WriteAll(c.gateways, [], GatewaySubjects(c.objects.gateways, ServedBy(cfg, c.objects)), GatewayTarget(f.now),
             f.gatewayStatus)
  }

  datatype Statuses = Statuses(
    routes: Written<seq<ParentStatus>>, classes: Written<seq<Condition>>, gateways: Written<seq<Condition>>,
    resources: Written<KeyStatus>, policies: Written<KeyStatus>)

  /** The status stage, given the verdicts it writes. */
  ghost function WritesOf(cfg: Config, f: Faults, c: ClusterState, applied: bool, routes: map<Name, Verdict>,
                          resources: map<Name, ResourceVerdict>, policies: map<Name, ResourceVerdict>): Statuses
  {
    Statuses(RouteWrites(cfg, f, c, routes), ClassWrites(cfg, f, c), GatewayWrites(cfg, f, c),
             ResourceWrites(cfg, f, c, applied, resources), PolicyWrites(cfg, f, c, applied, policies))
  }

  ghost function StatusWrites(w: World, cfg: Config, f: Faults, c: ClusterState, mid: ServerState, applied: bool,
                              r: Rendered, mtls: map<Name, MTLSResult>): Statuses
  {
    WritesOf(cfg, f, c, applied, JudgedRoutes(w, cfg, f, mid, applied, r.routes, mtls), r.resources, r.policies)
  }

  function WithStatuses(c: ClusterState, st: Statuses): ClusterState {
    c.(routes := st.routes.statuses, classes := st.classes.statuses, gateways := st.gateways.statuses,
       resources := st.resources.statuses, policies := st.policies.statuses)
  }

  predicate StatusFailed(st: Statuses) {
    st.routes.failed || st.classes.failed || st.gateways.failed || st.resources.failed || st.policies.failed
  }

  /** The objects a status write was attempted for, by kind. */
  datatype Attempts = Attempts(
    routes: set<Name>, classes: set<Name>, gateways: set<Name>, resources: set<Name>, policies: set<Name>)

  const NO_ATTEMPTS := Attempts({}, {}, {}, {}, {})

  function AttemptsOf(st: Statuses): Attempts {
    Attempts(st.routes.writes, st.classes.writes, st.gateways.writes, st.resources.writes, st.policies.writes)
  }

  // ---------- the pass ----------

  /** The cluster and the server between two steps. */
  datatype Place = Place(c: ClusterState, s: ServerState)

  /** What became of the cluster and the server, and how the pass answered. */
  datatype PassEnd = PassEnd(c: ClusterState, s: ServerState, ok: bool, writes: Attempts)

  ghost function Finished(w: World, cfg: Config, f: Faults, c: ClusterState, s: ServerState, r: Rendered,
                          mtls: map<Name, MTLSResult>, mid: ServerState): PassEnd
  {
    var applied := Accepts(w, cfg, f, s, r.blueprint);
    var pruned := PruneAll(cfg, f, mid, r.blueprint);
    var st := StatusWrites(w, cfg, f, c, mid, applied, r, mtls);
    PassEnd(WithStatuses(c, st), if applied then pruned.policies.s else mid,
            applied && !pruned.failed && !StatusFailed(st), AttemptsOf(st))
  }

  /** One pass from cluster c and server s, whose server stood at mid right after the
      apply. */
  ghost predicate PassResult(w: World, cfg: Config, f: Faults, c: ClusterState, s: ServerState, mid: ServerState,
                             o: PassEnd) {
    match Preparation(w, cfg, c, s, f)
    case Aborted(secrets) => mid == s && o == PassEnd(c.(secrets := secrets), s, false, NO_ATTEMPTS)
    case Ready(secrets, input) =>
      && AfterApply(w, cfg, f, s, RenderedOf(w, input).blueprint, mid)
      && o == Finished(w, cfg, f, c.(secrets := secrets), s, RenderedOf(w, input), input.mtls, mid)
  }

  ghost predicate DistinctCluster(o: Objects) {
    && (forall i, j :: 0 <= i < j < |o.classes| ==> o.classes[i].name != o.classes[j].name)
    && (forall i, j :: 0 <= i < j < |o.gateways| ==> o.gateways[i].name != o.gateways[j].name)
    && (forall i, j :: 0 <= i < j < |o.routes| ==> o.routes[i].name != o.routes[j].name)
    && (forall i, j :: 0 <= i < j < |o.resources| ==> o.resources[i].name != o.resources[j].name)
    && (forall i, j :: 0 <= i < j < |o.policies| ==> o.policies[i].name != o.policies[j].name)
  }

  lemma AbortedPass(w: World, cfg: Config, f: Faults, c: ClusterState, s: ServerState, secrets: map<Name, Secret>)
    requires Preparation(w, cfg, c, s, f) == Aborted(secrets)
    ensures PassResult(w, cfg, f, c, s, s, PassEnd(c.(secrets := secrets), s, false, NO_ATTEMPTS))
  {
    hide Preparation, RenderedOf, AfterApply, Finished;
  }

  lemma FinishedPass(w: World, cfg: Config, f: Faults, c: ClusterState, s: ServerState, secrets: map<Name, Secret>,
                     input: Inputs, mid: ServerState)
    requires Preparation(w, cfg, c, s, f) == Ready(secrets, input)
    requires AfterApply(w, cfg, f, s, RenderedOf(w, input).blueprint, mid)
    ensures PassResult(w, cfg, f, c, s, mid,
                       Finished(w, cfg, f, c.(secrets := secrets), s, RenderedOf(w, input), input.mtls, mid))
  {
    hide Preparation, RenderedOf, AfterApply, Finished;
  }

  /** The two ways a pass ends. */
  lemma PassEnds(w: World, cfg: Config, f: Faults, c: ClusterState, s: ServerState, mid: ServerState, o: PassEnd)
    requires PassResult(w, cfg, f, c, s, mid, o)
    ensures Preparation(w, cfg, c, s, f).Aborted? ==>
      mid == s && o == PassEnd(c.(secrets := Preparation(w, cfg, c, s, f).secrets), s, false, NO_ATTEMPTS)
    ensures Preparation(w, cfg, c, s, f).Ready? ==>
      var r, input := RenderedOf(w, InputOf(w, cfg, c, s, f)), InputOf(w, cfg, c, s, f);
      && AfterApply(w, cfg, f, s, r.blueprint, mid)
      && o == Finished(w, cfg, f, c.(secrets := Preparation(w, cfg, c, s, f).secrets), s, r, input.mtls, mid)
  {
    hide Preparation, RenderedOf, AfterApply, Finished;
  }

  lemma PreparedInputs(w: World, cfg: Config, c: ClusterState, s: ServerState, f: Faults)
    requires Preparation(w, cfg, c, s, f).Ready? && DistinctCluster(c.objects)
    ensures var input := InputOf(w, cfg, c, s, f);
      && DistinctObjects(input)
      && input.routes == c.objects.routes && input.privateResources == c.objects.resources
      && input.policies == c.objects.policies && input.licensed == cfg.licensed
  {}

  // ---------- proofs the loops need ----------

  /** An abort in the middle is an abort of the whole. */
  lemma {:induction false} BasicAuthAborts(w: World, secrets: map<Name, Secret>, routes: seq<Route>, dryRun: bool,
                                           o: SecretOracle, i: nat)
    requires i <= |routes| && BasicAuthAll(w, secrets, routes[..i], dryRun, o).results.None?
    ensures BasicAuthAll(w, secrets, routes, dryRun, o) == BasicAuthAll(w, secrets, routes[..i], dryRun, o)
  {
    if i < |routes| {
      var front := routes[..|routes| - 1];
      assert front[..i] == routes[..i];
      BasicAuthAborts(w, secrets, front, dryRun, o, i);
    } else {
      assert routes[..i] == routes;
    }
  }

  lemma {:induction false} MTLSAborts(w: World, secrets: map<Name, Secret>, configMaps: map<Name, map<string, string>>,
                                      routes: seq<Route>, fails: Name -> bool, i: nat)
    requires i <= |routes| && MTLSAll(w, secrets, configMaps, routes[..i], fails).None?
    ensures MTLSAll(w, secrets, configMaps, routes, fails).None?
  {
    if i < |routes| {
      var front := routes[..|routes| - 1];
      assert front[..i] == routes[..i];
      MTLSAborts(w, secrets, configMaps, front, fails, i);
    } else {
      assert routes[..i] == routes;
    }
  }

  /** Two conditions of different types are in force exactly when setting both changes
      nothing. */
  lemma PairSettled(cs: seq<Condition>, a: Condition, b: Condition, now: int)
    requires a.typ != b.typ
    ensures var one := SetCondition(cs, a, now); var two := SetCondition(one, b, now);
      && (two == cs <==> one == cs && two == one)
      && (two == cs <==> Carries(cs, a) && Carries(cs, b))
      && Carries(two, a) && Carries(two, b)
  {
    var one := SetCondition(cs, a, now);
    var two := SetCondition(one, b, now);
    SetConditionCarries(cs, a, now);
    SetConditionCarries(one, b, now);
    SetConditionApart(one, b, a, now);
    SetConditionApart(cs, a, b, now);
    SetConditionSettled(cs, a, now);
    SetConditionSettled(one, b, now);
  }

  /** The dry run's apply writes nothing and succeeds. */
  method ApplyBlueprint(w: World, cfg: Config, server: FakeServer.Fake, b: Blueprint, f: Faults) returns (ok: bool)
    requires server.Valid() && server.w == w
    modifies server
    ensures server.Valid()
    ensures ok <==> Accepts(w, cfg, f, old(server.State()), b)
    ensures AfterApply(w, cfg, f, old(server.State()), b, server.State())
  {
    if cfg.dryRun { return true; }
    ok := server.HandleApply(b, f.apply);
  }

  class Publisher {
    const w: World
    const cfg: Config
    const cluster: Cluster
    const server: FakeServer.Fake

    ghost predicate Valid()
      reads cluster, server
    {
      server.Valid() && server.w == w && DistinctCluster(cluster.objects)
    }

    ghost function Here(): Place
      reads cluster, server
    {
      Place(cluster.State(), server.State())
    }

    constructor (w: World, cfg: Config, cluster: Cluster, server: FakeServer.Fake)
      ensures this.w == w && this.cfg == cfg && this.cluster == cluster && this.server == server
    {
      this.w, this.cfg, this.cluster, this.server := w, cfg, cluster, server;
    }

    // ---------- reads ----------

    /** knownGrantees: each listing is asked for only while something names one. */
    method KnownGrantees(routes: seq<Route>, resources: seq<PrivateObject>, f: Faults, ghost bare: Inputs)
      returns (machines: Option<set<string>>, users: Option<set<string>>)
      requires bare.routes == routes && bare.privateResources == resources
      ensures machines == KnownMachines(bare, server.State(), f.machines)
      ensures users == KnownUsers(bare, server.State(), f.users)
    {
      var wantMachines, wantUsers := false, false;
      var i := 0;
      while i < |resources|
        invariant 0 <= i <= |resources|
        invariant wantMachines <==> exists k :: 0 <= k < i && resources[k].spec.machines != []
        invariant wantUsers <==> exists k :: 0 <= k < i && resources[k].spec.users != []
      {
        wantMachines := wantMachines || |resources[i].spec.machines| > 0;
        wantUsers := wantUsers || |resources[i].spec.users| > 0;
        i := i + 1;
      }
      ghost var asked := wantUsers;
      assert wantMachines <==> Acceptance.AsksForMachines(bare);
      i := 0;
      while i < |routes|
        invariant 0 <= i <= |routes|
        invariant wantUsers <==> asked || exists k :: 0 <= k < i && Translate.USERS in routes[k].annotations
      {
        wantUsers := wantUsers || Translate.USERS in routes[i].annotations;
        i := i + 1;
      }
      assert wantUsers <==> Acceptance.AsksForUsers(bare);
      machines := if wantMachines && !f.machines then Some(server.machines) else None;
      users := if wantUsers && !f.users then Some(Acceptance.UserIds(server.users)) else None;
    }

    /** basicAuthFor and createBasicAuthSecret: the Secret is written once and read back
        ever after. */
    method BasicAuthFor(r: Route, o: SecretOracle) returns (result: Option<BasicAuthResult>)
      modifies cluster`secrets
      ensures match BasicAuthOne(w, old(cluster.secrets), r, cfg.dryRun, o)
        case None => result.None? && cluster.secrets == old(cluster.secrets)
        case Some((secrets, one)) => result == Some(one) && cluster.secrets == secrets
    {
      var n := SecretName(r.name);
      if !w.dnsSubdomain(n.name) { return Some(Refused("no Secret can have this name")); }
      if o.readFails(n) { return None; }
      if n in cluster.secrets { return Some(CredentialsFrom(cluster.secrets[n], r)); }
      if cfg.dryRun { return Some(Refused("dry run")); }
      if o.createFails(n) { return None; }
      var password := o.password(n);
      cluster.secrets := cluster.secrets[n := NewSecret(r, password)];
      return Some(Granted(r.name.name, password));
    }

    method ResolveBasicAuth(served: seq<Route>, o: SecretOracle) returns (results: Option<map<Name, BasicAuthResult>>)
      modifies cluster`secrets
      ensures Resolved(cluster.secrets, results) == BasicAuthAll(w, old(cluster.secrets), served, cfg.dryRun, o)
    {
      hide CredentialsFrom, NewSecret, SecretName, Asks;
      var resolved: map<Name, BasicAuthResult> := map[];
      var i := 0;
      while i < |served|
        invariant 0 <= i <= |served|
        invariant Resolved(cluster.secrets, Some(resolved))
            == BasicAuthAll(w, old(cluster.secrets), served[..i], cfg.dryRun, o)
      {
        assert served[..i + 1][..i] == served[..i];
        if Asks(served[i]) {
          var result := BasicAuthFor(served[i], o);
          if result.None? {
            BasicAuthAborts(w, old(cluster.secrets), served, cfg.dryRun, o, i + 1);
            return None;
          }
          resolved := resolved[served[i].name := result.value];
        }
        i := i + 1;
      }
      assert served[..i] == served;
      return Some(resolved);
    }

    method ResolveMTLS(served: seq<Route>, fails: Name -> bool) returns (results: Option<map<Name, MTLSResult>>)
      ensures results == MTLSAll(w, cluster.secrets, cluster.configMaps, served, fails)
    {
      hide MTLSOne;
      var resolved: map<Name, MTLSResult> := map[];
      var i := 0;
      while i < |served|
        invariant 0 <= i <= |served|
        invariant Some(resolved) == MTLSAll(w, cluster.secrets, cluster.configMaps, served[..i], fails)
      {
        assert served[..i + 1][..i] == served[..i];
        if Translate.MTLSRequested(served[i]) {
          var result := MTLSOne(w, cluster.secrets, cluster.configMaps, served[i], fails);
          if result.None? {
            MTLSAborts(w, cluster.secrets, cluster.configMaps, served, fails, i + 1);
            return None;
          }
          resolved := resolved[served[i].name := result.value];
        }
        i := i + 1;
      }
      assert served[..i] == served;
      return Some(resolved);
    }

    /** Every read that must succeed before anything is written. */
    method Prepare(f: Faults) returns (ready: Option<Inputs>)
      requires Valid()
      modifies cluster`secrets
      ensures match Preparation(w, cfg, old(cluster.State()), server.State(), f)
        case Aborted(secrets) => ready.None? && cluster.secrets == secrets
        case Ready(secrets, input) => ready == Some(input) && cluster.secrets == secrets
    {
      hide BasicAuthAll, MTLSAll, ServedRoutes;
      if f.clusterLists { return None; }
      var o := cluster.objects;
      var input := BareInputs(cfg, o);
      var machines, users := KnownGrantees(o.routes, o.resources, f, input);
      input := input.(knownSites := if f.sites then None else Some(server.sites),
                      knownMachines := machines, knownUsers := users);
      assert input == KnownInputs(cfg, o, server.State(), f);
      var served := ServedRoutes(input.routes, input);
      var auth := ResolveBasicAuth(served, f.secrets);
      if auth.None? { return None; }
      var cas := ResolveMTLS(served, f.caReads);
      if cas.None? { return None; }
      return Some(input.(basicAuth := auth.value, mtls := cas.value));
    }

    // ---------- verdicts ----------

    /** markPublishFailed and markDryRun: overwrite the published verdicts in place. */
    method Mark(verdicts: map<Name, Verdict>, c: ConditionResult) returns (r: map<Name, Verdict>)
      ensures r == Marked(verdicts, c)
    {
      r := verdicts;
      var todo := verdicts.Keys;
      while todo != {}
        invariant todo <= verdicts.Keys && r.Keys == verdicts.Keys
        invariant forall n :: n in verdicts ==> r[n] == if n in todo then verdicts[n] else Marked(verdicts, c)[n]
        decreases |todo|
      {
        var n :| n in todo;
        todo := todo - {n};
        if r[n].Published() { r := r[n := r[n].(accepted := c)]; }
      }
    }

    method JudgeRoutes(applied: bool, verdicts: map<Name, Verdict>, mtls: map<Name, MTLSResult>,
                       f: Faults) returns (r: map<Name, Verdict>)
      requires Valid()
      ensures r == JudgedRoutes(w, cfg, f, server.State(), applied, verdicts, mtls)
    {
      r := verdicts;
      if !applied {
        r := Mark(r, PUBLISH_FAILED);
      } else if cfg.dryRun {
        r := Mark(r, REHEARSED);
      }
      if applied && !cfg.dryRun {
        r := VerifyMTLS(w, server, mtls, r, f.verifyList, f.certReads);
      }
    }

    // ---------- prune ----------

    method Prune(b: Blueprint, f: Faults) returns (failed: bool)
      requires server.Valid()
      modifies server
      ensures server.Valid()
      ensures var p := PruneAll(cfg, f, old(server.State()), b); server.State() == p.policies.s && failed == p.failed
    {
      hide PruneRows;
      ghost var removed;
      var public, private, listed;
      public, listed, removed := PruneSection(server, PublicSection, b.public.Keys, cfg.dryRun,
                                               f.lists(PublicSection), f.weather(PublicSection));
      private, listed, removed := PruneSection(server, PrivateSection, b.private.Keys, cfg.dryRun,
                                                f.lists(PrivateSection), f.weather(PrivateSection));
      failed := public || private;
      if cfg.licensed {
        var refused;
        refused, listed, removed := PruneSection(server, PolicySection, b.policies.Keys, cfg.dryRun,
                                                 f.lists(PolicySection), f.weather(PolicySection));
        failed := failed || !listed;
      }
    }

    // ---------- statuses ----------

    method WriteRoutes(verdicts: map<Name, Verdict>, f: Faults) returns (failed: bool, ghost writes: set<Name>)
      modifies cluster`routeStatus
      ensures Written(cluster.routeStatus, writes, failed) == RouteWrites(cfg, f, old(cluster.State()), verdicts)
    {
      var routes := cluster.objects.routes;
      ghost var xs, target := RouteSubjects(routes), RouteTarget(cfg.controllerName, f.now, verdicts);
      failed, writes := false, {};
      var i := 0;
      while i < |routes|
        invariant 0 <= i <= |routes|
        invariant Written(cluster.routeStatus, writes, failed)
               == WriteAll(old(cluster.routeStatus), [], xs[..i], target, f.routeStatus)
      {
        WriteNext(old(cluster.routeStatus), [], xs, i, target, f.routeStatus);
        var n := routes[i].name;
        var status := new RouteStatus(n.ns, Look(cluster.routeStatus, n, []));
        var changed := status.SetRouteStatus(Look(verdicts, n, NO_VERDICT), cfg.controllerName, f.now);
        if changed {
          writes := writes + {n};
          if f.routeStatus(n) {
            failed := true;
          } else {
            cluster.routeStatus := cluster.routeStatus[n := status.parents];
          }
        }
        i := i + 1;
      }
      assert xs[..i] == xs;
    }

    /** The GatewayClasses this controller serves are Accepted. */
    method WriteClasses(served: set<string>, f: Faults) returns (failed: bool, ghost writes: set<Name>)
      requires served == ServedBy(cfg, cluster.objects)
      modifies cluster`classStatus
      ensures Written(cluster.classStatus, writes, failed) == ClassWrites(cfg, f, old(cluster.State()))
    {
      var classes := cluster.objects.classes;
      ghost var before, target := cluster.classStatus, ClassTarget(f.now);
      failed, writes := false, {};
      assert WriteAll(before, [], ClassSubjects(classes[..0], served), target, f.classStatus)
             == Written(before, {}, false);
      hide ClassSubjects, WriteAll, AsCondition, SetCondition;
      var i := 0;
      while i < |classes|
        invariant 0 <= i <= |classes|
        invariant Written(cluster.classStatus, writes, failed)
               == WriteAll(before, [], ClassSubjects(classes[..i], served), target, f.classStatus)
      {
        var c := classes[i];
        ClassNext(classes, i, served);
        i := i + 1;
        if c.name !in served { continue; }
        var n := ClassName(c);
        WriteOneMore(before, [], ClassSubjects(classes[..i - 1], served), Subject(n, c.generation),
                     target, f.classStatus);
        var cs, changed := SetStatusCondition(Look(cluster.classStatus, n, []),
          AsCondition(ACCEPTED, SERVED, c.generation), f.now);
        if changed {
          writes := writes + {n};
          if f.classStatus(n) {
            failed := true;
          } else {
            cluster.classStatus := cluster.classStatus[n := cs];
          }
        }
      }
      assert classes[..i] == classes;
    }

    /** Their Gateways are Accepted and Programmed. */
    method WriteGateways(served: set<string>, f: Faults) returns (failed: bool, ghost writes: set<Name>)
      requires served == ServedBy(cfg, cluster.objects)
      modifies cluster`gatewayStatus
      ensures Written(cluster.gatewayStatus, writes, failed) == GatewayWrites(cfg, f, old(cluster.State()))
    {
      var gateways := cluster.objects.gateways;
      ghost var before, target := cluster.gatewayStatus, GatewayTarget(f.now);
      failed, writes := false, {};
      assert WriteAll(before, [], GatewaySubjects(gateways[..0], served), target, f.gatewayStatus)
             == Written(before, {}, false);
      hide GatewayTarget, GatewaySubjects, WriteAll, AsCondition, SetCondition;
      var i := 0;
      while i < |gateways|
        invariant 0 <= i <= |gateways|
        invariant Written(cluster.gatewayStatus, writes, failed)
               == WriteAll(before, [], GatewaySubjects(gateways[..i], served), target, f.gatewayStatus)
      {
        var g := gateways[i];
        GatewayNext(gateways, i, served);
        i := i + 1;
        if g.class_ !in served { continue; }
        WriteOneMore(before, [], GatewaySubjects(gateways[..i - 1], served),
                     Subject(g.name, g.generation), target, f.gatewayStatus);
        var wrote;
        cluster.gatewayStatus, wrote := UpdateGateway(cluster.gatewayStatus, g, f.gatewayStatus(g.name), f.now);
        if wrote {
          writes := writes + {g.name};
          failed := failed || f.gatewayStatus(g.name);
        }
      }
      assert gateways[..i] == gateways;
    }

    /** One turn of that loop. */
    method UpdateGateway(statuses: map<Name, seq<Condition>>, g: Gateway, fails: bool, now: int)
      returns (r: map<Name, seq<Condition>>, wrote: bool)
      ensures var before := Look(statuses, g.name, []);
              var after := GatewayTarget(now)(Subject(g.name, g.generation), before);
              wrote == (after != before) && r == if wrote && !fails then statuses[g.name := after] else statuses
    {
      var cs;
      cs, wrote := SetGatewayConditions(Look(statuses, g.name, []), g.generation, now);
      r := if wrote && !fails then statuses[g.name := cs] else statuses;
    }

    /** Both conditions of a Gateway, and whether either moved. */
    method SetGatewayConditions(before: seq<Condition>, generation: int, now: int) returns (cs: seq<Condition>,
                                                                                            changed: bool)
      ensures cs == GatewayTarget(now)(Subject(Name("", ""), generation), before) && changed == (cs != before)
    {
      var a, p := AsCondition(ACCEPTED, SERVED, generation), AsCondition(PROGRAMMED, GATEWAY_PROGRAMMED, generation);
      var one, first := SetStatusCondition(before, a, now);
      var second;
      cs, second := SetStatusCondition(one, p, now);
      assert ACCEPTED[0] != PROGRAMMED[0];
      PairSettled(before, a, p, now);
      changed := first || second;
    }

    /** writeStatus: routes, then what they hang from. */
    method WriteStatus(verdicts: map<Name, Verdict>, f: Faults)
      returns (failed: bool, ghost routes: set<Name>, ghost classes: set<Name>, ghost gateways: set<Name>)
      modifies cluster`routeStatus, cluster`classStatus, cluster`gatewayStatus
      ensures var c := old(cluster.State());
        && cluster.routeStatus == RouteWrites(cfg, f, c, verdicts).statuses
          && routes == RouteWrites(cfg, f, c, verdicts).writes
        && cluster.classStatus == ClassWrites(cfg, f, c).statuses && classes == ClassWrites(cfg, f, c).writes
        && cluster.gatewayStatus == GatewayWrites(cfg, f, c).statuses && gateways == GatewayWrites(cfg, f, c).writes
        && failed == (RouteWrites(cfg, f, c, verdicts).failed || ClassWrites(cfg, f, c).failed
          || GatewayWrites(cfg, f, c).failed)
    {
      var a, b, d;
      a, routes := WriteRoutes(verdicts, f);
      var served := ServedBy(cfg, cluster.objects);
      b, classes := WriteClasses(served, f);
      d, gateways := WriteGateways(served, f);
      failed := a || b || d;
    }

    /** The conditions and the key of one status, and whether they are any different. */
    method SetKeyStatus(st: KeyStatus, generation: int, v: ResourceVerdict, applied: bool,
                        now: int) returns (r: KeyStatus, changed: bool)
      ensures r == KeyStatusAfter(cfg.dryRun, applied, now, generation, v, st) && changed == (r != st)
    {
      var a := AsCondition(ACCEPTED, v.accepted, generation);
      var p := AsCondition(PROGRAMMED, Programmed(cfg.dryRun, v, applied), generation);
      var cs, first := SetStatusCondition(st.conditions, a, now);
      var ds, second := SetStatusCondition(cs, p, now);
      assert ACCEPTED[0] != PROGRAMMED[0];
      PairSettled(st.conditions, a, p, now);
      changed := first || second;
      var key := st.key;
      if !v.Published() {
        key := "";
      } else if applied {
        key := v.key;
      }
      if st.key != key { changed := true; }
      r := KeyStatus(key, ds);
    }

    /** One turn of either loop: a write is attempted exactly when the status must change. */
    method UpdateKeyStatus(statuses: map<Name, KeyStatus>, x: Subject, v: ResourceVerdict, applied: bool,
                           fails: bool, now: int)
      returns (r: map<Name, KeyStatus>, wrote: bool)
      ensures var before := Look(statuses, x.name, NO_STATUS);
              var after := KeyStatusAfter(cfg.dryRun, applied, now, x.generation, v, before);
              wrote == (after != before) && r == if wrote && !fails then statuses[x.name := after] else statuses
    {
      var st;
      st, wrote := SetKeyStatus(Look(statuses, x.name, NO_STATUS), x.generation, v, applied, now);
      r := if wrote && !fails then statuses[x.name := st] else statuses;
    }

    method WriteResourceStatus(verdicts: map<Name, ResourceVerdict>, applied: bool, f: Faults)
      returns (failed: bool, ghost writes: set<Name>)
      modifies cluster`resourceStatus
      ensures Written(cluster.resourceStatus, writes, failed)
          == ResourceWrites(cfg, f, old(cluster.State()), applied, verdicts)
    {
      var os := cluster.objects.resources;
      ghost var xs, target := ResourceSubjects(os), KeyTarget(cfg.dryRun, applied, f.now, verdicts);
      failed, writes := false, {};
      var i := 0;
      while i < |os|
        invariant 0 <= i <= |os|
        invariant Written(cluster.resourceStatus, writes, failed)
               == WriteAll(old(cluster.resourceStatus), NO_STATUS, xs[..i], target, f.resourceStatus)
      {
        WriteNext(old(cluster.resourceStatus), NO_STATUS, xs, i, target, f.resourceStatus);
        var n := os[i].name;
        var wrote;
        cluster.resourceStatus, wrote := UpdateKeyStatus(cluster.resourceStatus, Subject(n, os[i].generation),
                                                         Look(verdicts, n, NO_RESOURCE_VERDICT), applied,
                                                         f.resourceStatus(n), f.now);
        if wrote {
          writes := writes + {n};
          failed := failed || f.resourceStatus(n);
        }
        i := i + 1;
      }
      assert xs[..i] == xs;
    }

    method WritePolicyStatus(verdicts: map<Name, ResourceVerdict>, applied: bool, f: Faults)
      returns (failed: bool, ghost writes: set<Name>)
      modifies cluster`policyStatus
      ensures Written(cluster.policyStatus, writes, failed)
          == PolicyWrites(cfg, f, old(cluster.State()), applied, verdicts)
    {
      var os := cluster.objects.policies;
      ghost var xs, target := PolicySubjects(os), KeyTarget(cfg.dryRun, applied, f.now, verdicts);
      failed, writes := false, {};
      var i := 0;
      while i < |os|
        invariant 0 <= i <= |os|
        invariant Written(cluster.policyStatus, writes, failed)
               == WriteAll(old(cluster.policyStatus), NO_STATUS, xs[..i], target, f.policyStatus)
      {
        WriteNext(old(cluster.policyStatus), NO_STATUS, xs, i, target, f.policyStatus);
        var n := os[i].name;
        var wrote;
        cluster.policyStatus, wrote := UpdateKeyStatus(cluster.policyStatus, Subject(n, os[i].generation),
                                                         Look(verdicts, n, NO_RESOURCE_VERDICT), applied,
                                                         f.policyStatus(n), f.now);
        if wrote {
          writes := writes + {n};
          failed := failed || f.policyStatus(n);
        }
        i := i + 1;
      }
      assert xs[..i] == xs;
    }

    /** All of the status stage. */
    method WriteStatuses(verdicts: map<Name, Verdict>, result: Rendered, applied: bool, f: Faults)
      returns (failed: bool, ghost st: Statuses)
      modifies cluster`routeStatus, cluster`classStatus, cluster`gatewayStatus
      modifies cluster`resourceStatus, cluster`policyStatus
      ensures st == WritesOf(cfg, f, old(cluster.State()), applied, verdicts, result.resources, result.policies)
      ensures cluster.State() == WithStatuses(old(cluster.State()), st) && failed == StatusFailed(st)
    {
      ghost var routes, classes, gateways, resources, policies;
      var first, second, third;
      first, routes, classes, gateways := WriteStatus(verdicts, f);
      second, resources := WriteResourceStatus(result.resources, applied, f);
      third, policies := WritePolicyStatus(result.policies, applied, f);
      failed := first || second || third;
      st := WritesOf(cfg, f, old(cluster.State()), applied, verdicts, result.resources, result.policies);
    }

    // ---------- the pass ----------

    /** Apply, verify, prune, status. */
    method Publish(result: Rendered, mtls: map<Name, MTLSResult>, f: Faults)
      returns (ok: bool, ghost mid: ServerState, ghost writes: Attempts)
      requires Valid()
      modifies cluster, server
      ensures Valid()
      ensures var a, b := old(Here()), Here();
        && AfterApply(w, cfg, f, a.s, result.blueprint, mid)
        && PassEnd(b.c, b.s, ok, writes) == Finished(w, cfg, f, a.c, a.s, result, mtls, mid)
    {
      hide Accepts, Acceptable, Applied, WritesOf, PruneAll, JudgedRoutes, StatusFailed;
      var applied := ApplyBlueprint(w, cfg, server, result.blueprint, f);
      mid := server.State();
      var verdicts := JudgeRoutes(applied, result.routes, mtls, f);
      var pruneFailed := false;
      if applied { pruneFailed := Prune(result.blueprint, f); }
      ghost var st;
      var statusFailed;
      statusFailed, st := WriteStatuses(verdicts, result, applied, f);
      writes := AttemptsOf(st);
      ok := applied && !pruneFailed && !statusFailed;
    }

    /** A pass from place a. One that cannot read everything it needs writes nothing but the
        Secrets it had already created. */
    method Reconcile(ghost a: Place, f: Faults) returns (ok: bool, ghost mid: ServerState, ghost writes: Attempts)
      requires Valid() && a == Here()
      modifies cluster, server
      ensures Valid()
      ensures var b := Here(); PassResult(w, cfg, f, a.c, a.s, mid, PassEnd(b.c, b.s, ok, writes))
    {
      hide RenderedOf, Finished, StatusWrites, Preparation;
      mid, writes := server.State(), NO_ATTEMPTS;
      var ready := Prepare(f);
      ghost var secrets := cluster.secrets;
      assert cluster.State() == a.c.(secrets := secrets);
      if ready.None? {
        AbortedPass(w, cfg, f, a.c, a.s, secrets);
        return false, mid, writes;
      }
      PreparedInputs(w, cfg, a.c, a.s, f);
      assert ready.value == InputOf(w, cfg, a.c, a.s, f);
      var result := RenderAll(w, ready.value);
      ok, mid, writes := Publish(result, ready.value.mtls, f);
      FinishedPass(w, cfg, f, a.c, a.s, secrets, ready.value, mid);
    }
  }
}
