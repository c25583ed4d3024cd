/** Generated passwords over whole runs: created once, published unchanged. */
module Passwords {
  import opened Text
  import opened Types
  import opened Translate
  import opened Render
  import opened Server
  import opened Secrets
  import opened Pass
  import opened ClusterObjects
  import opened Runs
  import Faithful
  import RenderLaws
  import SecondPass

  // ---------- Secrets ----------

  lemma SecretsOfPass(w: World, cfg: Config, f: Faults, c: ClusterState, s: ServerState, mid: ServerState, o: PassEnd)
    requires PassResult(w, cfg, f, c, s, mid, o)
    ensures o.c.secrets == Preparation(w, cfg, c, s, f).secrets && o.c.objects == c.objects
  {
    hide PassResult, RenderedOf, Preparation, InputOf, AfterApply, PruneAll, StatusWrites, Accepts;
    PassEnds(w, cfg, f, c, s, mid, o);
  }

  lemma PreparedSecrets(w: World, cfg: Config, f: Faults, c: ClusterState, s: ServerState)
    ensures var known := KnownInputs(cfg, c.objects, s, f);
      Preparation(w, cfg, c, s, f).secrets
      == if f.clusterLists then c.secrets
         else BasicAuthAll(w, c.secrets, ServedRoutes(known.routes, known), cfg.dryRun, f.secrets).secrets
  {
    hide KnownInputs, BasicAuthAll, ServedRoutes, MTLSAll;
  }

  /** Every Secret of a is in b, unchanged. */
  ghost predicate Kept(a: map<Name, Secret>, b: map<Name, Secret>) { forall n :: n in a ==> n in b && b[n] == a[n] }

  predicate Holds(secrets: map<Name, Secret>, n: Name, secret: Secret) { n in secrets && secrets[n] == secret }

  /** The Secrets a pass leaves: those it found, and new ones outside a dry run. */
  lemma PassKeepsSecrets(w: World, cfg: Config, f: Faults, c: ClusterState, s: ServerState,
                         mid: ServerState, o: PassEnd)
    requires PassResult(w, cfg, f, c, s, mid, o)
    ensures Kept(c.secrets, o.c.secrets) && (cfg.dryRun ==> o.c.secrets == c.secrets)
  {
    hide PassResult, KnownInputs, ServedRoutes, BasicAuthAll, Preparation;
    var known := KnownInputs(cfg, c.objects, s, f);
    var served := ServedRoutes(known.routes, known);
    SecretsSurvive(w, c.secrets, served, cfg.dryRun, f.secrets);
    if cfg.dryRun { DryRunCreatesNothing(w, c.secrets, served, f.secrets); }
    PreparedSecrets(w, cfg, f, c, s);
    SecretsOfPass(w, cfg, f, c, s, mid, o);
  }

  /** Nobody deletes or edits this Secret. */
  ghost predicate LeavesSecret(step: Step, n: Name, secret: Secret) {
    step.Edited? ==> Holds(step.c.secrets, n, secret)
  }

  ghost predicate AllLeaveSecret(run: Run, n: Name, secret: Secret) {
    match run
    case Start(_) => true
    case Then(before, step, _) => AllLeaveSecret(before, n, secret) && LeavesSecret(step, n, secret)
  }

  lemma MoveKeepsSecret(w: World, a: Place, step: Step, b: Place, n: Name, secret: Secret)
    requires Move(w, a, step, b) && LeavesSecret(step, n, secret) && Holds(a.c.secrets, n, secret)
    ensures Holds(b.c.secrets, n, secret)
  {
    hide PassResult, DistinctCluster;
    match step
    case Passed(cfg, f, mid, ok, writes) => PassKeepsSecrets(w, cfg, f, a.c, a.s, mid, PassEnd(b.c, b.s, ok, writes));
    case Others(_) =>
    case Edited(_) =>
  }

  /** Until somebody deletes or edits it, a Secret stands unchanged over every run. */
  lemma {:induction false} SecretStands(w: World, run: Run, n: Name, secret: Secret)
    requires IsRun(w, run) && Holds(First(run).c.secrets, n, secret) && AllLeaveSecret(run, n, secret)
    ensures Holds(run.place.c.secrets, n, secret)
  {
    hide Move, LeavesSecret, Holds;
    match run
    case Start(_) =>
    case Then(before, step, p) =>
      SecretStands(w, before, n, secret);
      MoveKeepsSecret(w, before.place, step, p, n, secret);
  }

  // ---------- what a pass resolves ----------

  lemma {:induction false} ServedIgnoresResolved(routes: seq<Route>, a: Inputs, b: Inputs)
    requires a.gateways == b.gateways && a.classes == b.classes && a.controllerName == b.controllerName
    ensures ServedRoutes(routes, a) == ServedRoutes(routes, b)
  {
    if routes != [] { ServedIgnoresResolved(routes[..|routes| - 1], a, b); }
  }

  /** The credentials and CAs of a prepared input are those of its served routes. */
  lemma PreparedProtections(w: World, cfg: Config, f: Faults, c: ClusterState, s: ServerState)
    requires Preparation(w, cfg, c, s, f).Ready?
    ensures var input := InputOf(w, cfg, c, s, f); var served := ServedRoutes(input.routes, input);
      && input.routes == c.objects.routes
      && BasicAuthAll(w, c.secrets, served, cfg.dryRun, f.secrets).results == Some(input.basicAuth)
      && MTLSAll(w, BasicAuthAll(w, c.secrets, served, cfg.dryRun, f.secrets).secrets, c.configMaps, served, f.caReads)
         == Some(input.mtls)
  {
    hide BasicAuthAll, ServedRoutes, MTLSAll;
    ServedIgnoresResolved(c.objects.routes, KnownInputs(cfg, c.objects, s, f), InputOf(w, cfg, c, s, f));
  }

  /** In every pass each served route that asks for basic auth or mTLS has a resolver
      entry: the renderer's two "not resolved" errors cannot occur. */
  lemma PassResolvesProtections(w: World, cfg: Config, f: Faults, c: ClusterState, s: ServerState, r: Route)
    requires DistinctCluster(c.objects) && Preparation(w, cfg, c, s, f).Ready?
    requires r in c.objects.routes && ParentsOf(r, InputOf(w, cfg, c, s, f)) != []
    ensures var input := InputOf(w, cfg, c, s, f);
            BasicAuthFor(r, input) != Err(NO_CREDENTIALS) && MTLSFor(r, input) != Err(NO_CA)
  {
    hide *;
    PreparedProtections(w, cfg, f, c, s);
    ProtectionsAreResolved(w, c.secrets, c.configMaps, InputOf(w, cfg, c, s, f), cfg.dryRun, f.secrets, f.caReads, r);
  }

  lemma ServedOfPass(w: World, cfg: Config, f: Faults, c: ClusterState, s: ServerState, r: Route)
    requires DistinctCluster(c.objects) && Preparation(w, cfg, c, s, f).Ready?
    requires r in c.objects.routes && ParentsOf(r, InputOf(w, cfg, c, s, f)) != []
    ensures var input := InputOf(w, cfg, c, s, f); var served := ServedRoutes(input.routes, input);
            input.routes == c.objects.routes && r in served && DistinctRoutes(served)
  {
    hide ServedRoutes, ParentsOf, Preparation, InputOf;
    var input := InputOf(w, cfg, c, s, f);
    PreparedInputs(w, cfg, c, s, f);
    ServedHas(c.objects.routes, input, r);
    SecondPass.ServedAreRoutes(c.objects.routes, input);
  }

  /** The input hands the renderer this result for a route. */
  predicate Gives(input: Inputs, n: Name, result: BasicAuthResult) {
    n in input.basicAuth && input.basicAuth[n] == result
  }

  /** A pass reads a standing Secret and hands its credentials to the renderer. */
  lemma PassReadsSecret(w: World, cfg: Config, f: Faults, c: ClusterState, s: ServerState, r: Route, secret: Secret)
    requires DistinctCluster(c.objects) && Preparation(w, cfg, c, s, f).Ready?
    requires r in c.objects.routes && ParentsOf(r, InputOf(w, cfg, c, s, f)) != []
    requires Asks(r) && w.dnsSubdomain(SecretName(r.name).name) && Holds(c.secrets, SecretName(r.name), secret)
    ensures Gives(InputOf(w, cfg, c, s, f), r.name, CredentialsFrom(secret, r))
  {
    hide Preparation, InputOf, ParentsOf, BasicAuthAll, MTLSAll, ServedRoutes, CredentialsFrom, Asks, SecretName,
         DistinctCluster, DistinctRoutes;
    var input := InputOf(w, cfg, c, s, f);
    ServedOfPass(w, cfg, f, c, s, r);
    PreparedProtections(w, cfg, f, c, s);
    StoredCredentialsAreUsed(w, c.secrets, ServedRoutes(input.routes, input), cfg.dryRun, f.secrets, r);
  }

  // ---------- creating the Secret ----------

  lemma OneCreates(w: World, before: Resolved<BasicAuthResult>, r: Route, o: SecretOracle)
    requires Asks(r) && w.dnsSubdomain(SecretName(r.name).name) && SecretName(r.name) !in before.secrets
    requires BasicAuthNext(w, before, r, false, o).results.Some?
    ensures var after, password := BasicAuthNext(w, before, r, false, o), o.password(SecretName(r.name));
      && after.secrets == before.secrets[SecretName(r.name) := NewSecret(r, password)]
      && r.name in after.results.value && after.results.value[r.name] == Granted(r.name.name, password)
  {}

  lemma OneLeavesOthers(w: World, before: Resolved<BasicAuthResult>, r: Route, dryRun: bool, o: SecretOracle, n: Name)
    requires n != r.name && BasicAuthNext(w, before, r, dryRun, o).results.Some?
    ensures before.results.Some?
    ensures var after := BasicAuthNext(w, before, r, dryRun, o);
      && (SecretName(n) in after.secrets <==> SecretName(n) in before.secrets)
      && (SecretName(n) in after.secrets ==> after.secrets[SecretName(n)] == before.secrets[SecretName(n)])
      && (n in before.results.value ==> n in after.results.value && after.results.value[n] == before.results.value[n])
  {
    hide CredentialsFrom, NewSecret;
    SecretNamesDiffer(n, r.name);
  }

  /** The Secret of a route that asks is created the first time, owned by that route and
      holding the password drawn then, which the same resolution hands out. */
  lemma {:induction false} ResolutionCreates(w: World, secrets: map<Name, Secret>, routes: seq<Route>,
                                             o: SecretOracle, r: Route)
    requires BasicAuthAll(w, secrets, routes, false, o).results.Some? && DistinctRoutes(routes)
    requires r in routes && Asks(r) && w.dnsSubdomain(SecretName(r.name).name) && SecretName(r.name) !in secrets
    ensures var n, all := SecretName(r.name), BasicAuthAll(w, secrets, routes, false, o);
      && n in all.secrets && all.secrets[n] == NewSecret(r, o.password(n))
      && r.name in all.results.value && all.results.value[r.name] == Granted(r.name.name, o.password(n))
  {
    hide BasicAuthNext, NewSecret, Asks;
    var front, last := routes[..|routes| - 1], routes[|routes| - 1];
    assert routes == front + [last];
    var before := BasicAuthAll(w, secrets, front, false, o);
    if r == last {
      NobodyElseCreates(w, secrets, front, o, r);
      OneCreates(w, before, r, o);
    } else {
      assert r in front && r.name != last.name;
      OneLeavesOthers(w, before, last, false, o, r.name);
      ResolutionCreates(w, secrets, front, o, r);
    }
  }

  lemma NextLeavesAlone(w: World, before: Resolved<BasicAuthResult>, r: Route, o: SecretOracle, n: Name)
    requires n != SecretName(r.name) && n !in before.secrets
    ensures n !in BasicAuthNext(w, before, r, false, o).secrets
  {
    hide CredentialsFrom, NewSecret, Asks, SecretName;
  }

  lemma {:induction false} NobodyElseCreates(w: World, secrets: map<Name, Secret>, routes: seq<Route>,
                                             o: SecretOracle, r: Route)
    requires SecretName(r.name) !in secrets && forall x :: x in routes ==> x.name != r.name
    ensures SecretName(r.name) !in BasicAuthAll(w, secrets, routes, false, o).secrets
  {
    hide BasicAuthNext, SecretName;
    if routes != [] {
      var front, last := routes[..|routes| - 1], routes[|routes| - 1];
      assert last in routes;
      NobodyElseCreates(w, secrets, front, o, r);
      SecretNamesDiffer(r.name, last.name);
      NextLeavesAlone(w, BasicAuthAll(w, secrets, front, false, o), last, o, SecretName(r.name));
    }
  }

  /** This pass finds no Secret for a served route that asks, and is allowed to make one. */
  ghost predicate Creates(w: World, cfg: Config, f: Faults, c: ClusterState, s: ServerState, r: Route) {
    && DistinctCluster(c.objects) && Preparation(w, cfg, c, s, f).Ready? && !cfg.dryRun
    && r in c.objects.routes && ParentsOf(r, InputOf(w, cfg, c, s, f)) != []
    && Asks(r) && w.dnsSubdomain(SecretName(r.name).name) && SecretName(r.name) !in c.secrets
  }

  /** The pass that creates a route's Secret stores the drawn password in it and renders
      with that very password. */
  lemma PassCreatesSecret(w: World, cfg: Config, f: Faults, c: ClusterState, s: ServerState, mid: ServerState,
                          o: PassEnd, r: Route)
    requires PassResult(w, cfg, f, c, s, mid, o) && Creates(w, cfg, f, c, s, r)
    ensures Holds(o.c.secrets, SecretName(r.name), NewSecret(r, f.secrets.password(SecretName(r.name))))
    ensures Gives(InputOf(w, cfg, c, s, f), r.name, Granted(r.name.name, f.secrets.password(SecretName(r.name))))
  {
    hide PassResult, Preparation, InputOf, ParentsOf, BasicAuthAll, ServedRoutes, NewSecret, Asks, SecretName,
         KnownInputs;
    var input := InputOf(w, cfg, c, s, f);
    SecretsOfPass(w, cfg, f, c, s, mid, o);
    ServedOfPass(w, cfg, f, c, s, r);
    PreparedProtections(w, cfg, f, c, s);
    PreparedServes(w, cfg, f, c, s);
    ResolutionCreates(w, c.secrets, ServedRoutes(input.routes, input), f.secrets, r);
  }

  lemma PreparedServes(w: World, cfg: Config, f: Faults, c: ClusterState, s: ServerState)
    requires Preparation(w, cfg, c, s, f).Ready?
    ensures var input := InputOf(w, cfg, c, s, f);
      Preparation(w, cfg, c, s, f).secrets
      == BasicAuthAll(w, c.secrets, ServedRoutes(input.routes, input), cfg.dryRun, f.secrets).secrets
  {
    hide BasicAuthAll, ServedRoutes, MTLSAll;
    ServedIgnoresResolved(c.objects.routes, KnownInputs(cfg, c.objects, s, f), InputOf(w, cfg, c, s, f));
  }

  // ---------- a protected route is never published without its credentials ----------

  lemma TrimKeepsTrue(v: string)
    requires ToLower(v) == "true"
    ensures TrimSpace(v) != ""
  {
    var left, right := TrimParts(v);
    assert ToLower(v)[0] == 't' && LowerChar(v[0]) == 't';
    assert TrimSpace(v) == "" ==> v == left + right;
  }

  lemma AskingRefusesPolicies(r: Route, input: Inputs, policies: map<Name, ResourceVerdict>)
    requires Asks(r) && PolicyFor(r, input, policies).Ok?
    ensures PolicyFor(r, input, policies) == Ok("")
  {
    TrimKeepsTrue(Value(r, BASIC_AUTH));
    assert BASIC_AUTH in POLICY_CONFLICTS;
  }

  lemma AskingIsAnnotated(r: Route)
    requires Asks(r)
    ensures BASIC_AUTH in NOT_ON_PRIVATE && BASIC_AUTH in r.annotations
  {}

  /** Asking for basic auth rules out both a shared policy and the private section. */
  lemma AskingGoesInline(w: World, r: Route, input: Inputs, policies: map<Name, ResourceVerdict>)
    requires Asks(r) && TranslateRoute(w, r, input, policies).Ok?
    ensures var e := TranslateRoute(w, r, input, policies).value; e.section.InPublic? && e.section.public.policy == ""
  {
    hide TranslateRoute, PolicyFor, Asks;
    var e := TranslateRoute(w, r, input, policies).value;
    AskingIsAnnotated(r);
    match e.section {
      case InPrivate(res) =>
        Faithful.PrivateRouteAsAsked(w, r, input, policies, res);
        assert false;
      case InPublic(res) =>
        RenderLaws.RoutePolicy(w, r, input, policies);
        AskingRefusesPolicies(r, input, policies);
    }
  }

  /** The blueprint sends these credentials under the key. */
  predicate CarriesCredentials(b: Blueprint, key: string, credentials: BasicAuth) {
    key in b.public && b.public[key].auth.basicAuth == Some(credentials)
  }

  /** A published route that asks for basic auth carries exactly the resolved
      credentials in the blueprint. */
  lemma PublishedWithCredentials(w: World, input: Inputs, r: Route) returns (credentials: BasicAuth)
    requires DistinctObjects(input) && r in input.routes && Asks(r) && RoutePublished(RenderedOf(w, input), r.name)
    ensures GivesCredentials(input, r.name, credentials)
    ensures CarriesCredentials(RenderedOf(w, input).blueprint, Key(r.name), credentials.(extended := true))
  {
    hide TranslateRoute, ParentsOf, RenderedOf, DistinctObjects, Asks, PolicyVerdicts, Key, RoutePublished;
    var e := RenderLaws.PublishedTranslation(w, input, r);
    AskingGoesInline(w, r, input, PolicyVerdicts(w, input));
    Faithful.PublicRouteAsAsked(w, r, input, PolicyVerdicts(w, input), e.section.public);
    credentials := input.basicAuth[r.name].credentials.value;
  }

  /** The resolver found these credentials for a route. */
  predicate GivesCredentials(input: Inputs, n: Name, credentials: BasicAuth) {
    n in input.basicAuth && input.basicAuth[n].credentials == Some(credentials)
  }

  // ---------- over runs ----------

  lemma NewSecretGrants(made: Route, password: string, r: Route)
    requires made.name == r.name && made.uid == r.uid && r.name.name != "" && password != ""
    ensures CredentialsFrom(NewSecret(made, password), r) == Granted(r.name.name, password)
  {
    var secret := NewSecret(made, password);
    assert Owner(r.uid, "HTTPRoute") in secret.owners;
    assert USERNAME[0] != PASSWORD[0];
  }

  /** This pass publishes a route that asks for basic auth. */
  ghost predicate Publishes(w: World, cfg: Config, f: Faults, a: Place, r: Route) {
    && Preparation(w, cfg, a.c, a.s, f).Ready? && r in a.c.objects.routes && Asks(r)
    && RoutePublished(RenderedOf(w, InputOf(w, cfg, a.c, a.s, f)), r.name)
  }

  lemma GrantedIsCarried(w: World, cfg: Config, f: Faults, a: Place, r: Route, password: string)
    requires DistinctCluster(a.c.objects) && Publishes(w, cfg, f, a, r)
    requires Gives(InputOf(w, cfg, a.c, a.s, f), r.name, Granted(r.name.name, password))
    ensures CarriesCredentials(BlueprintOf(w, cfg, f, a), Key(r.name), BasicAuth(r.name.name, password, true))
  {
    hide Preparation, InputOf, RenderedOf, Asks, RoutePublished, CarriesCredentials, DistinctObjects;
    PreparedInputs(w, cfg, a.c, a.s, f);
    var credentials := PublishedWithCredentials(w, InputOf(w, cfg, a.c, a.s, f), r);
  }

  lemma PublishedIsServed(w: World, cfg: Config, f: Faults, a: Place, r: Route)
    requires DistinctCluster(a.c.objects) && Publishes(w, cfg, f, a, r)
    ensures ParentsOf(r, InputOf(w, cfg, a.c, a.s, f)) != []
  {
    hide Preparation, InputOf, RenderedOf, Asks, RoutePublished, DistinctObjects, ParentsOf, TranslateRoute;
    PreparedInputs(w, cfg, a.c, a.s, f);
    var e := RenderLaws.PublishedTranslation(w, InputOf(w, cfg, a.c, a.s, f), r);
  }

  /** While the Secret of a route stands, every blueprint that publishes the route carries
      the password in it. */
  lemma PasswordStands(w: World, run: Run, cfg: Config, f: Faults, made: Route, password: string, r: Route)
    requires IsRun(w, run) && made.name == r.name && made.uid == r.uid && r.name.name != "" && password != ""
    requires w.dnsSubdomain(SecretName(r.name).name)
    requires Holds(First(run).c.secrets, SecretName(r.name), NewSecret(made, password))
    requires AllLeaveSecret(run, SecretName(r.name), NewSecret(made, password))
    requires Publishes(w, cfg, f, run.place, r)
    ensures CarriesCredentials(BlueprintOf(w, cfg, f, run.place), Key(r.name), BasicAuth(r.name.name, password, true))
  {
    hide IsRun, AllLeaveSecret, Holds, Gives, NewSecret, SecretName, DistinctCluster, RenderedOf, Preparation, InputOf,
         ParentsOf, Asks, RoutePublished, CarriesCredentials, BlueprintOf, CredentialsFrom, Key;
    var a := run.place;
    RunKeepsState(w, run);
    SecretStands(w, run, SecretName(r.name), NewSecret(made, password));
    PublishedIsServed(w, cfg, f, a, r);
    PassReadsSecret(w, cfg, f, a.c, a.s, r, NewSecret(made, password));
    NewSecretGrants(made, password, r);
    GrantedIsCarried(w, cfg, f, a, r, password);
  }

  /** The pass that draws a password publishes the route, if it does, with that password. */
  lemma DrawnPasswordIsPublished(w: World, cfg: Config, f: Faults, a: Place, mid: ServerState, o: PassEnd, r: Route)
    requires PassResult(w, cfg, f, a.c, a.s, mid, o) && Creates(w, cfg, f, a.c, a.s, r) && Publishes(w, cfg, f, a, r)
    ensures CarriesCredentials(BlueprintOf(w, cfg, f, a), Key(r.name),
                               BasicAuth(r.name.name, f.secrets.password(SecretName(r.name)), true))
  {
    hide PassResult, Publishes, CarriesCredentials, BlueprintOf, Key, SecretName, NewSecret, Preparation, InputOf,
         DistinctCluster, ParentsOf, Asks;
    PassCreatesSecret(w, cfg, f, a.c, a.s, mid, o, r);
    GrantedIsCarried(w, cfg, f, a, r, f.secrets.password(SecretName(r.name)));
  }

  /** From the pass that draws a password on, over every run, each later blueprint that
      publishes the route carries that password, until the Secret is edited or deleted. */
  lemma GeneratedPasswordStands(w: World, a: Place, cfg: Config, f: Faults, mid: ServerState, o: PassEnd, made: Route,
                                run: Run, later: Config, faults: Faults, r: Route, password: string)
    requires PassResult(w, cfg, f, a.c, a.s, mid, o) && Creates(w, cfg, f, a.c, a.s, made)
    requires password == f.secrets.password(SecretName(made.name)) && password != ""
    requires IsRun(w, run) && First(run) == Place(o.c, o.s)
    requires AllLeaveSecret(run, SecretName(made.name), NewSecret(made, password))
    requires made.name == r.name && made.uid == r.uid && r.name.name != "" && Publishes(w, later, faults, run.place, r)
    ensures CarriesCredentials(BlueprintOf(w, later, faults, run.place), Key(r.name),
                               BasicAuth(r.name.name, password, true))
  {
    hide PassResult, IsRun, AllLeaveSecret, Publishes, Holds, Gives, CarriesCredentials, BlueprintOf, Key, SecretName,
         NewSecret, Preparation, InputOf, DistinctCluster, ParentsOf, Asks;
    PassCreatesSecret(w, cfg, f, a.c, a.s, mid, o, made);
    PasswordStands(w, run, later, faults, made, password, r);
  }
}
