/** The listings of sites, machines and users only ever refuse: a pass whose listings fail
    does what it would have done with listings that hold every name in use. */
module Listings {
  import opened Text
  import opened Types
  import opened Policies
  import opened Collisions
  import opened Translate
  import opened Render
  import opened Server
  import opened Secrets
  import opened ClusterObjects
  import opened Pass
  import opened Prune
  import opened Verify
  import Acceptance
  import Passwords
  import RenderOrder
  import Validators

  // ---------- what a pass hands to its render ----------

  /** The objects and the settings go through untouched; a listing is used when it was
      asked for and succeeded, and a failed one stays unknown. */
  lemma PreparedFrom(w: World, cfg: Config, c: ClusterState, s: ServerState, f: Faults)
    requires Preparation(w, cfg, c, s, f).Ready?
    ensures var input := InputOf(w, cfg, c, s, f);
      && input.routes == c.objects.routes && input.gateways == c.objects.gateways && input.classes == c.objects.classes
      && input.privateResources == c.objects.resources && input.policies == c.objects.policies
      && input.controllerName == cfg.controllerName && input.defaultSite == cfg.defaultSite
      && input.licensed == cfg.licensed
      && input.knownSites == (if f.sites then None else Some(s.sites))
      && (f.machines ==> input.knownMachines == None)
      && (input.knownMachines.Some? ==> input.knownMachines.value == s.machines)
      && (f.users ==> input.knownUsers == None)
      && (input.knownUsers.Some? ==> forall u :: u in input.knownUsers.value <==> NamesSomeone(s.users, u))
  {
    hide BasicAuthAll, MTLSAll, ServedRoutes, Acceptance.AsksForMachines, Acceptance.AsksForUsers, Acceptance.UserIds;
    UserIdsMean(s.users);
  }

  /** Some user goes by this name or address. */
  predicate NamesSomeone(users: set<User>, name: string) {
    name != "" && exists u | u in users :: u.username == name || u.email == name
  }

  lemma UserIdsMean(users: set<User>)
    ensures forall n :: n in Acceptance.UserIds(users) <==> NamesSomeone(users, n)
  {}

  // ---------- names in use ----------

  /** Every site the objects name, or fall back to, is in the set. */
  ghost predicate NamesSites(input: Inputs, sites: set<string>) {
    && input.defaultSite in sites
    && (forall r :: r in input.routes && Value(r, SITE) != "" ==> Value(r, SITE) in sites)
    && (forall o, x :: o in input.privateResources && x in o.spec.sites ==> x in sites)
  }

  ghost predicate NamesMachines(input: Inputs, machines: set<string>) {
    forall o, x :: o in input.privateResources && x in o.spec.machines ==> x in machines
  }

  /** The users a route lists, once its annotation parses. */
  ghost predicate RouteNamesUsers(r: Route, users: set<string>) {
    var names := Validators.GrantNames(Annotated(r, USERS));
    names.Some? ==> forall x :: x in names.value ==> x in users
  }

  ghost predicate NamesUsers(input: Inputs, users: set<string>) {
    && (forall r :: r in input.routes ==> RouteNamesUsers(r, users))
    && (forall o, x :: o in input.privateResources && x in o.spec.users ==> x in users)
  }

  /** Nothing but the listings differs, and where they do, b's holds all names in use and a
      has none. */
  ghost predicate Blindfolded(a: Inputs, b: Inputs) {
    && b == a.(knownSites := b.knownSites, knownMachines := b.knownMachines, knownUsers := b.knownUsers)
    && (b.knownSites == a.knownSites || (a.knownSites.None? && NamesSites(a, b.knownSites.value)))
    && (b.knownMachines == a.knownMachines || (a.knownMachines.None? && NamesMachines(a, b.knownMachines.value)))
    && (b.knownUsers == a.knownUsers || (a.knownUsers.None? && NamesUsers(a, b.knownUsers.value)))
  }

  // ---------- one object ----------

  lemma {:induction false} AllKnown(names: seq<string>, known: set<string>)
    requires forall n :: n in names ==> n in known
    ensures Unknown(names, known) == []
  {
    if names != [] { AllKnown(names[..|names| - 1], known); }
  }

  lemma SameNotes(list: string, reason: Reason, names: seq<string>, x: Option<set<string>>, y: Option<set<string>>)
    requires y == x || (x.None? && y.Some? && forall n :: n in names ==> n in y.value)
    ensures GrantNotes(list, reason, names, x) == GrantNotes(list, reason, names, y)
  {
    if y != x { AllKnown(names, y.value); }
  }

  lemma SameGrants(roles: seq<string>, users: seq<string>, machines: seq<string>, a: Inputs, b: Inputs)
    requires b.knownUsers == a.knownUsers
             || (a.knownUsers.None? && b.knownUsers.Some? && forall n :: n in users ==> n in b.knownUsers.value)
    requires b.knownMachines == a.knownMachines
             || (a.knownMachines.None? && b.knownMachines.Some?
                 && forall n :: n in machines ==> n in b.knownMachines.value)
    ensures PrivateGrants(roles, users, machines, a) == PrivateGrants(roles, users, machines, b)
  {
    hide GrantNotes;
    SameNotes("users", ReasonUnknownUser, users, a.knownUsers, b.knownUsers);
    SameNotes("machines", ReasonUnknownMachine, machines, a.knownMachines, b.knownMachines);
  }

  lemma SamePlace(r: Route, a: Inputs, b: Inputs)
    requires Blindfolded(a, b) && r in a.routes
    ensures Translate.Place(r, a) == Translate.Place(r, b)
  {
    hide RouteShape, RouteName, Value, NamesMachines, NamesUsers;
  }

  lemma SamePrivateEntry(r: Route, a: Inputs, b: Inputs, p: Placement)
    requires Blindfolded(a, b) && r in a.routes
    ensures PrivateEntry(r, a, p) == PrivateEntry(r, b, p)
  {
    hide PrivateGrants, Validators.GrantNames, AnyAnnotated, NamesSites, NamesMachines, Value;
    var roles, users := Validators.GrantNames(Annotated(r, ROLES)), Validators.GrantNames(Annotated(r, USERS));
    if roles.Some? && users.Some? {
      assert RouteNamesUsers(r, if b.knownUsers.Some? then b.knownUsers.value else {}) || b.knownUsers == a.knownUsers;
      SameGrants(roles.value, users.value, [], a, b);
    }
  }

  lemma SameTranslation(w: World, r: Route, a: Inputs, b: Inputs, policies: map<Name, ResourceVerdict>)
    requires Blindfolded(a, b) && r in a.routes
    ensures TranslateRoute(w, r, a, policies) == TranslateRoute(w, r, b, policies)
  {
    hide Translate.Place, PublicEntry, PrivateEntry, WantsPrivate, Key, NamesSites, NamesMachines, NamesUsers;
    SamePlace(r, a, b);
    if Translate.Place(r, a).Ok? {
      SamePrivateEntry(r, a, b, Translate.Place(r, a).value);
      SamePublicEntry(w, r, a, b, policies, Translate.Place(r, a).value);
    }
  }

  lemma SamePublicEntry(w: World, r: Route, a: Inputs, b: Inputs, policies: map<Name, ResourceVerdict>, p: Placement)
    requires b.licensed == a.licensed && b.basicAuth == a.basicAuth && b.mtls == a.mtls
    ensures PublicEntry(w, r, a, policies, p) == PublicEntry(w, r, b, policies, p)
  {
    hide InlineAuth, SharedPolicyAuth, PolicyFor, Required;
    RenderOrder.SamePolicy(r, a, b, policies);
    RenderOrder.SameInline(w, r, a, b);
  }

  lemma {:induction false} SameSiteCheck(sites: seq<string>, a: Inputs, b: Inputs)
    requires b.knownSites == a.knownSites
             || (a.knownSites.None? && b.knownSites.Some? && forall x :: x in sites ==> x in b.knownSites.value)
    ensures CheckSites(sites, a) == CheckSites(sites, b)
  {
    if sites != [] { SameSiteCheck(sites[1..], a, b); }
  }

  lemma SamePrivate(w: World, o: PrivateObject, a: Inputs, b: Inputs)
    requires Blindfolded(a, b) && o in a.privateResources
    ensures TranslatePrivate(w, o, a) == TranslatePrivate(w, o, b)
  {
    hide CheckSites, ModeProblem, ModeFields, PrivateGrants, ShownName, PrivateResourceKey, ResourceHostnames;
    SameSiteCheck(PrivateSites(o.spec, a), a, b);
    SameGrants(o.spec.roles, o.spec.users, o.spec.machines, a, b);
  }

  // ---------- without any listing ----------

  function Blind(input: Inputs): Inputs { input.(knownSites := None, knownMachines := None, knownUsers := None) }

  /** The same entry, notes aside. */
  predicate SameEntry(a: Result<Entry, ConditionResult>, b: Result<Entry, ConditionResult>) {
    a.Ok? && b.Ok? && a.value == b.value.(notes := [])
  }

  lemma BlindGrants(roles: seq<string>, users: seq<string>, machines: seq<string>, input: Inputs)
    requires PrivateGrants(roles, users, machines, input).Ok?
    ensures PrivateGrants(roles, users, machines, Blind(input)) == Ok([])
  {
    hide GrantNotes;
    BlindNotes("users", ReasonUnknownUser, users);
    BlindNotes("machines", ReasonUnknownMachine, machines);
    var nothing: seq<Note> := [];
    assert nothing + nothing == nothing;
  }

  lemma BlindNotes(list: string, reason: Reason, names: seq<string>)
    ensures GrantNotes(list, reason, names, None) == Ok([])
  {}

  /** What passes under any listing at all passes with none, as the same entry. */
  lemma BlindAcceptsRoute(w: World, r: Route, input: Inputs, policies: map<Name, ResourceVerdict>)
    requires TranslateRoute(w, r, input, policies).Ok?
    ensures SameEntry(TranslateRoute(w, r, Blind(input), policies), TranslateRoute(w, r, input, policies))
  {
    hide Translate.Place, PublicEntry, PrivateEntry, WantsPrivate, Key;
    BlindPlace(r, input);
    var p := Translate.Place(r, input).value;
    SamePublicEntry(w, r, input, Blind(input), policies, p);
    if PrivateEntry(r, input, p).Ok? { BlindPrivateEntry(r, input, p); }
  }

  lemma BlindPlace(r: Route, input: Inputs)
    requires Translate.Place(r, input).Ok?
    ensures Translate.Place(r, Blind(input)) == Translate.Place(r, input)
  {
    hide RouteShape, RouteName, Value;
  }

  lemma BlindPrivateEntry(r: Route, input: Inputs, p: Placement)
    requires PrivateEntry(r, input, p).Ok?
    ensures PrivateEntry(r, Blind(input), p) == Ok((PrivateEntry(r, input, p).value.0, []))
  {
    hide PrivateGrants, AnyAnnotated, Value, Validators.GrantNames;
    var roles, users := Validators.GrantNames(Annotated(r, ROLES)), Validators.GrantNames(Annotated(r, USERS));
    BlindGrants(roles.value, users.value, [], input);
  }

  lemma {:induction false} BlindSites(sites: seq<string>, input: Inputs)
    requires CheckSites(sites, input).Ok?
    ensures CheckSites(sites, Blind(input)).Ok?
  {
    if sites != [] { BlindSites(sites[1..], input); }
  }

  lemma BlindAcceptsResource(w: World, o: PrivateObject, input: Inputs)
    requires TranslatePrivate(w, o, input).Ok?
    ensures SameEntry(TranslatePrivate(w, o, Blind(input)), TranslatePrivate(w, o, input))
  {
    hide CheckSites, ModeProblem, ModeFields, PrivateGrants, ShownName, PrivateResourceKey, ResourceHostnames;
    BlindSites(PrivateSites(o.spec, input), input);
    BlindGrants(o.spec.roles, o.spec.users, o.spec.machines, input);
  }

  // ---------- all objects ----------

  lemma {:induction false} SameRoutes(w: World, routes: seq<Route>, a: Inputs, b: Inputs,
                                      policies: map<Name, ResourceVerdict>)
    requires Blindfolded(a, b) && forall r :: r in routes ==> r in a.routes
    ensures RouteVerdicts(w, routes, a, policies) == RouteVerdicts(w, routes, b, policies)
    ensures RouteCandidates(w, routes, a, policies) == RouteCandidates(w, routes, b, policies)
  {
    hide TranslateRoute, ServedParents, OnlyUnresolvable, NamesSites, NamesMachines, NamesUsers;
    if routes != [] {
      var front, r := routes[..|routes| - 1], routes[|routes| - 1];
      SameRoutes(w, front, a, b, policies);
      assert r in a.routes;
      SameTranslation(w, r, a, b, policies);
      SameOpinion(r, a, b);
    }
  }

  lemma SameOpinion(r: Route, a: Inputs, b: Inputs)
    requires b.gateways == a.gateways && b.classes == a.classes && b.controllerName == a.controllerName
    ensures ParentsOf(r, a) == ParentsOf(r, b) && (OnlyUnresolvable(r, a) <==> OnlyUnresolvable(r, b))
  {
    hide ServedParents;
  }

  lemma {:induction false} SameResources(w: World, os: seq<PrivateObject>, a: Inputs, b: Inputs)
    requires Blindfolded(a, b) && forall o :: o in os ==> o in a.privateResources
    ensures ResourceVerdicts(w, os, a) == ResourceVerdicts(w, os, b)
    ensures ResourceCandidates(w, os, a) == ResourceCandidates(w, os, b)
  {
    hide TranslatePrivate, NamesSites, NamesMachines, NamesUsers;
    if os != [] {
      SameResources(w, os[..|os| - 1], a, b);
      SamePrivate(w, os[|os| - 1], a, b);
    }
  }

  /** Without a listing the render is the one any listing gives that holds all names in
      use: whatever is unknown refuses nobody. */
  lemma BlindRenderIsTheSame(w: World, a: Inputs, b: Inputs)
    requires Blindfolded(a, b)
    ensures RenderedOf(w, a) == RenderedOf(w, b)
  {
    hide NamesSites, NamesMachines, NamesUsers, RouteVerdicts, RouteCandidates, ResourceVerdicts, ResourceCandidates,
         ResolveCandidates, SettleRoute, SettleResource;
    SameRoutes(w, a.routes, a, b, PolicyVerdicts(w, a));
    SameResources(w, a.privateResources, a, b);
  }

  // ---------- the pass ----------

  /** The same pass with its three listings answered. */
  function Sighted(f: Faults): Faults { f.(sites := false, machines := false, users := false) }

  /** The server's listings hold every name the cluster uses. */
  ghost predicate AllListed(input: Inputs, s: ServerState) {
    NamesSites(input, s.sites) && NamesMachines(input, s.machines) && NamesUsers(input, Acceptance.UserIds(s.users))
  }

  lemma SightedPreparation(w: World, cfg: Config, c: ClusterState, s: ServerState, f: Faults)
    requires Preparation(w, cfg, c, s, f).Ready? && AllListed(InputOf(w, cfg, c, s, f), s)
    ensures Preparation(w, cfg, c, s, Sighted(f)).Ready?
    ensures Preparation(w, cfg, c, s, Sighted(f)).secrets == Preparation(w, cfg, c, s, f).secrets
    ensures Blindfolded(InputOf(w, cfg, c, s, f), InputOf(w, cfg, c, s, Sighted(f)))
  {
    hide BasicAuthAll, MTLSAll, ServedRoutes, NamesSites, NamesMachines, NamesUsers, Acceptance.AsksForMachines,
         Acceptance.AsksForUsers, Acceptance.UserIds;
    var a, b := KnownInputs(cfg, c.objects, s, f), KnownInputs(cfg, c.objects, s, Sighted(f));
    Passwords.ServedIgnoresResolved(c.objects.routes, a, b);
  }

  /** A pass whose listings fail is the pass with answered listings that hold all names in
      use: same blueprint, same server, same deletes, same statuses, same answer. A failed
      listing unpublishes nobody and deletes nothing. */
  lemma FailedListingsChangeNothing(w: World, cfg: Config, f: Faults, c: ClusterState, s: ServerState, mid: ServerState,
                                    o: PassEnd)
    requires PassResult(w, cfg, f, c, s, mid, o)
    requires Preparation(w, cfg, c, s, f).Ready? && AllListed(InputOf(w, cfg, c, s, f), s)
    ensures PassResult(w, cfg, Sighted(f), c, s, mid, o)
  {
    hide RenderedOf, Preparation, PassResult, AfterApply, Finished, InputOf, Blindfolded, AllListed;
    var secrets := Preparation(w, cfg, c, s, f).secrets;
    var a, b := InputOf(w, cfg, c, s, f), InputOf(w, cfg, c, s, Sighted(f));
    SightedPreparation(w, cfg, c, s, f);
    BlindRenderIsTheSame(w, a, b);
    PassEnds(w, cfg, f, c, s, mid, o);
    SameAfterListing(w, cfg, f, c.(secrets := secrets), s, RenderedOf(w, a), mid, a, b);
    InputIs(w, cfg, c, s, Sighted(f));
    FinishedPass(w, cfg, Sighted(f), c, s, secrets, b, mid);
  }

  lemma InputIs(w: World, cfg: Config, c: ClusterState, s: ServerState, f: Faults)
    requires Preparation(w, cfg, c, s, f).Ready?
    ensures Preparation(w, cfg, c, s, f) == Ready(Preparation(w, cfg, c, s, f).secrets, InputOf(w, cfg, c, s, f))
  {
    hide Preparation;
  }

  /** After the render nothing looks at the listings. */
  lemma SameAfterListing(w: World, cfg: Config, f: Faults, c: ClusterState, s: ServerState, r: Rendered,
                         mid: ServerState, a: Inputs, b: Inputs)
    requires Blindfolded(a, b)
    ensures a.mtls == b.mtls
    ensures AfterApply(w, cfg, f, s, r.blueprint, mid) <==> AfterApply(w, cfg, Sighted(f), s, r.blueprint, mid)
    ensures Finished(w, cfg, f, c, s, r, a.mtls, mid) == Finished(w, cfg, Sighted(f), c, s, r, b.mtls, mid)
  {
    hide Acceptable, Applied, PruneOutcome, WriteAll, VerifiedAll, NamesSites, NamesMachines, NamesUsers;
  }
}
