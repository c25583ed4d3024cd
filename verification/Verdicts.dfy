/** Exactly which objects are valid, read off their own fields, and what the others are told. */
module Verdicts {
  import opened Text
  import opened Sorting
  import opened Types
  import opened Policies
  import opened Collisions
  import opened Translate
  import opened Render
  import opened Faithful
  import opened Acceptance
  import Server
  import Laws = CollisionLaws
  import PathGlob
  import RenderLaws
  import Serving
  import Validators

  // ---------- access rules ----------

  /** What an access rule may say. */
  ghost predicate RuleFits(w: World, r: Rule) {
    && r.action in {"allow", "deny", "pass"}
    && ((r.match_ == "ip" && w.isIP(r.value)) || (r.match_ == "cidr" && w.isCIDR(r.value))
        || (r.match_ == "path" && PathGlob.InGrammar(r.value)) || r.match_ in {"country", "asn", "region"})
  }

  lemma MatchesDiffer(m: string)
    ensures m == "ip" ==> m != "cidr" && m != "path" && m !in {"country", "asn", "region"}
    ensures m == "cidr" ==> m != "ip" && m != "path" && m !in {"country", "asn", "region"}
    ensures m == "path" ==> m != "ip" && m != "cidr" && m !in {"country", "asn", "region"}
  {
    assert |"ip"| == 2 && |"cidr"| == 4 && |"path"| == 4 && |"country"| == 7 && |"asn"| == 3 && |"region"| == 6;
    assert "cidr"[0] != "path"[0];
  }

  /** The controller's check, and the server's, which lets an empty value pass. */
  lemma RuleFitsIff(w: World, r: Rule)
    ensures ValidRule(w, r) <==> RuleFits(w, r) && r.value != ""
    ensures Server.CheckRule(w, r) <==> RuleFits(w, r)
  {
    hide PathGlob.InGrammar, PathGlob.IsPathGlob;
    MatchesDiffer(r.match_);
    PathGlob.GlobMatchesGrammar(r.value);
  }

  // ---------- where a route lives ----------

  /** One hostname, and no wildcard. */
  predicate OneHost(r: Route) { |r.hostnames| == 1 && (r.hostnames[0] == "" || r.hostnames[0][0] != '*') }

  /** A core Service. */
  predicate IsService(b: BackendRef) {
    (b.kind.None? || b.kind.value == "Service") && (b.group.None? || b.group.value == "")
  }

  predicate InNamespace(b: BackendRef, ns: string) { b.ns.None? || b.ns.value == ns }

  predicate HasName(r: Route) { DISPLAY_NAME !in r.annotations || TrimSpace(r.annotations[DISPLAY_NAME]) != "" }

  /** The site of a route, or the default. */
  function SiteOf(r: Route, input: Inputs): string { if Value(r, SITE) != "" then Value(r,
                                                                                        SITE) else input.defaultSite }

  predicate Listed(site: string, input: Inputs) { input.knownSites.Some? ==> site in input.knownSites.value }

  ghost predicate Placed(r: Route, input: Inputs) {
    && OneHost(r) && (exists b :: HasBackend(r, b) && IsService(b) && InNamespace(b, r.name.ns) && b.port.Some?)
    && HasName(r) && Listed(SiteOf(r, input), input)
  }

  lemma StarPrefix(s: string)
    ensures HasPrefix(s, "*") <==> s != "" && s[0] == '*'
  {
    if s != "" && s[0] == '*' { assert "*" <= s; }
  }

  predicate HasOneBackend(r: Route) { |r.rules| == 1 && r.rules[0].filters == 0 && |r.rules[0].backendRefs| == 1 }

  lemma BackendsAre(r: Route)
    ensures forall b :: HasBackend(r, b) <==> HasOneBackend(r) && b == r.rules[0].backendRefs[0]
    ensures HasOneBackend(r) ==> HasBackend(r, r.rules[0].backendRefs[0])
  {
    forall b ensures HasBackend(r, b) <==> HasOneBackend(r) && b == r.rules[0].backendRefs[0] {
      if HasOneBackend(r) { assert r.rules[0].backendRefs == [r.rules[0].backendRefs[0]]; }
    }
  }

  /** Exactly when a route can be placed. */
  lemma PlacedIff(r: Route, input: Inputs)
    ensures Place(r, input).Ok? <==> Placed(r, input)
  {
    hide TrimSpace, Value, HasBackend;
    if |r.hostnames| == 1 { StarPrefix(r.hostnames[0]); }
    BackendsAre(r);
  }

  /** What a route that cannot be placed is told. */
  lemma PlacementReasons(r: Route, input: Inputs)
    requires Place(r, input).Err?
    ensures var c := Place(r, input).error;
      && !c.status
      && (c.reason == ReasonInvalidKind <==> OneHost(r) && exists b :: HasBackend(r, b) && !IsService(b))
      && (c.reason == ReasonRefNotPermitted
          <==> OneHost(r) && exists b :: HasBackend(r, b) && IsService(b) && !InNamespace(b, r.name.ns))
      && (c.reason == ReasonUnknownSite
          <==> OneHost(r) && HasName(r) && !Listed(SiteOf(r, input), input)
               && exists b :: HasBackend(r, b) && IsService(b) && InNamespace(b, r.name.ns) && b.port.Some?)
      && (c.reason in {ReasonInvalidKind, ReasonRefNotPermitted, ReasonUnknownSite, ReasonUnsupportedValue})
  {
    hide TrimSpace, Value, HasBackend;
    if |r.hostnames| == 1 { StarPrefix(r.hostnames[0]); }
    BackendsAre(r);
  }

  // ---------- who may reach it ----------

  /** One of the words a switch takes, in any case. */
  predicate Word(r: Route, a: string, word: string) { ToLower(Value(r, a)) == word }

  predicate IsSwitch(r: Route, a: string) { Value(r, a) == "" || Word(r, a, "true") || Word(r, a, "false") }

  predicate GrantsParse(r: Route) {
    Validators.GrantNames(Annotated(r, ROLES)).Some? && Validators.GrantNames(Annotated(r, USERS)).Some?
  }

  /** The CA set it asks for is there. */
  predicate CAsReady(r: Route, input: Inputs) {
    MTLSRequested(r) ==> r.name in input.mtls && input.mtls[r.name].Trusted? && input.mtls[r.name].certificates != []
  }

  /** The credentials it asks for are there. */
  predicate CredentialsReady(r: Route, input: Inputs) {
    Word(r, BASIC_AUTH, "true") ==> r.name in input.basicAuth && input.basicAuth[r.name].credentials.Some?
  }

  ghost predicate RulesParse(w: World, r: Route) {
    TrimSpace(Value(r, ACCESS_RULES)) == ""
    || exists rules :: w.decodeRules(Value(r, ACCESS_RULES)) == Some(rules)
         && forall x :: x in rules ==> RuleFits(w, x) && x.value != ""
  }

  /** Everything an inline route says about access can be honoured. */
  ghost predicate InlineFits(w: World, r: Route, input: Inputs) {
    && IsSwitch(r, SSO) && (Word(r, SSO, "false") ==> ROLES !in r.annotations && USERS !in r.annotations)
    && GrantsParse(r)
    && IsSwitch(r, BASIC_AUTH) && CredentialsReady(r, input)
    && w.pincode(Value(r, PINCODE)).Some? && Validators.InlineWhitelist(Value(r, EMAIL_WHITELIST)).Some?
    && CAsReady(r, input) && RulesParse(w, r)
  }

  /** The policy it names is this controller's to give, and nothing contradicts it. */
  ghost predicate SharedFits(r: Route, input: Inputs, policies: map<Name, ResourceVerdict>) {
    var n := Name(r.name.ns, TrimSpace(Value(r, POLICY)));
    && input.licensed && (forall a :: a in POLICY_CONFLICTS ==> TrimSpace(Value(r, a)) == "")
    && n in policies && policies[n].key != "" && CAsReady(r, input)
  }

  lemma BoolIff(r: Route, a: string, fallback: bool)
    ensures BoolAnnotation(r, a, fallback).Ok? <==> IsSwitch(r, a)
    ensures BoolAnnotation(r, a, fallback) == Ok(true) <==> Word(r, a, "true") || (Value(r, a) == "" && fallback)
    ensures BoolAnnotation(r, a, fallback) == Ok(false) <==> Word(r, a, "false") || (Value(r, a) == "" && !fallback)
  {
    hide Value;
    assert "true"[0] != "false"[0];
    if Value(r, a) == "" { assert |ToLower(Value(r, a))| == 0; }
  }

  lemma RulesIff(w: World, r: Route)
    ensures RulesFor(w, r).Ok? <==> RulesParse(w, r)
  {
    hide ValidRule, RuleFits, TrimSpace, Value;
    forall x ensures ValidRule(w, x) <==> RuleFits(w, x) && x.value != "" { RuleFitsIff(w, x); }
  }

  lemma MTLSIff(r: Route, input: Inputs)
    ensures MTLSFor(r, input).Ok? <==> CAsReady(r, input)
  {
    hide MTLSRequested;
  }

  lemma BasicAuthIff(r: Route, input: Inputs)
    ensures BasicAuthFor(r, input).Ok? <==> IsSwitch(r, BASIC_AUTH) && CredentialsReady(r, input)
  {
    hide BoolAnnotation, IsSwitch, Word;
    BoolIff(r, BASIC_AUTH, false);
    assert "true"[0] != "false"[0];
    WordsDiffer(r, BASIC_AUTH);
  }

  lemma WordsDiffer(r: Route, a: string)
    ensures !(Word(r, a, "true") && Word(r, a, "false"))
    ensures Value(r, a) == "" ==> !Word(r, a, "true") && !Word(r, a, "false")
  {
    hide Value;
    assert "true"[0] != "false"[0];
  }

  lemma SignInIff(r: Route)
    ensures SignInFor(r).Ok?
            <==> IsSwitch(r, SSO) && (Word(r, SSO, "false") ==> ROLES !in r.annotations && USERS !in r.annotations)
                 && GrantsParse(r)
  {
    hide BoolAnnotation, IsSwitch, Word, Validators.GrantNames;
    BoolIff(r, SSO, true);
    WordsDiffer(r, SSO);
    assert AnyAnnotated(r, [ROLES, USERS]) <==> ROLES in r.annotations || USERS in r.annotations by {
      assert ROLES in [ROLES, USERS] && USERS in [ROLES, USERS];
    }
  }

  lemma InlineIff(w: World, r: Route, input: Inputs)
    ensures InlineAuth(w, r, input).Ok? <==> InlineFits(w, r, input)
  {
    hide SignInFor, BasicAuthFor, MTLSFor, RulesFor, GrantsParse, IsSwitch, Word, CredentialsReady, CAsReady,
         RulesParse, Validators.InlineWhitelist;
    SignInIff(r);
    BasicAuthIff(r, input);
    MTLSIff(r, input);
    RulesIff(w, r);
  }

  lemma PolicyIff(r: Route, input: Inputs, policies: map<Name, ResourceVerdict>)
    ensures var n := Name(r.name.ns, TrimSpace(Value(r, POLICY)));
      && (n.name == "" ==> PolicyFor(r, input, policies) == Ok(""))
      && (n.name != "" ==>
           (PolicyFor(r, input, policies).Ok?
            <==> input.licensed && (forall a :: a in POLICY_CONFLICTS ==> TrimSpace(Value(r, a)) == "")
                 && n in policies && policies[n].key != "")
           && (PolicyFor(r, input, policies).Ok? ==> PolicyFor(r, input, policies).value != ""))
  {
    hide TrimSpace, Value;
  }

  /** The target whose healthcheck its annotations set. */
  function TargetOf(p: Placement): Target { Target(p.site, p.backend, p.port, None) }

  /** What a public route must satisfy besides its place. */
  ghost predicate PublicFits(w: World, r: Route, input: Inputs, policies: map<Name, ResourceVerdict>, p: Placement) {
    && (if TrimSpace(Value(r, POLICY)) != "" then SharedFits(r, input, policies) else InlineFits(w, r, input))
    && w.healthcheck(r.annotations, TargetOf(p)).Some?
  }

  lemma PublicIff(w: World, r: Route, input: Inputs, policies: map<Name, ResourceVerdict>, p: Placement)
    ensures PublicEntry(w, r, input, policies, p).Ok? <==> PublicFits(w, r, input, policies, p)
  {
    hide PolicyFor, InlineAuth, InlineFits, TrimSpace, Value, MTLSFor, CAsReady;
    PolicyIff(r, input, policies);
    InlineIff(w, r, input);
    MTLSIff(r, input);
  }

  // ---------- a private route ----------

  /** Nothing a private resource cannot honour, and grants somebody can use. */
  ghost predicate PrivateFits(r: Route, input: Inputs) {
    && (forall a :: a in NOT_ON_PRIVATE + HEALTHCHECK_ANNOTATIONS ==> a !in r.annotations)
    && TrimSpace(Value(r, POLICY)) == ""
    && exists roles, users ::
         && Validators.GrantNames(Annotated(r, ROLES)) == Some(roles)
         && Validators.GrantNames(Annotated(r, USERS)) == Some(users)
         && "Admin" !in roles && SomeKnown(users, input.knownUsers)
  }

  lemma {:induction false} TrimAllTrims(parts: seq<string>)
    ensures forall x :: x in Validators.TrimAll(parts) ==> TrimSpace(x) == x
  {
    forall x | x in Validators.TrimAll(parts) ensures TrimSpace(x) == x {
      var i :| 0 <= i < |parts| && Validators.TrimAll(parts)[i] == x;
      var left, right := TrimParts(parts[i]);
      TrimTrimmed(x);
    }
  }

  lemma GrantsAreNotBlank(annotation: Option<string>)
    ensures Validators.GrantNames(annotation).Some? ==> !BlankEntry(Validators.GrantNames(annotation).value)
  {
    hide TrimSpace;
    if annotation.Some? { TrimAllTrims(Split(annotation.value, ',')); }
  }

  lemma SomeKnownIff(list: string, reason: Reason, names: seq<string>, known: Option<set<string>>)
    ensures GrantNotes(list, reason, names, known).Ok? <==> SomeKnown(names, known)
    ensures GrantNotes(list, reason, names, known).Err? ==>
      && !GrantNotes(list, reason, names, known).error.status
      && GrantNotes(list, reason, names, known).error.reason == reason
  {
    hide Unknown;
    if known.Some? { SomeNameIsKnown(names, known.value); }
  }

  lemma GrantsIff(roles: seq<string>, users: seq<string>, machines: seq<string>, input: Inputs)
    ensures PrivateGrants(roles, users, machines, input).Ok?
            <==> !BlankEntry(roles) && !BlankEntry(users) && !BlankEntry(machines) && "Admin" !in roles
                 && SomeKnown(users, input.knownUsers) && SomeKnown(machines, input.knownMachines)
  {
    hide GrantNotes, BlankEntry, SomeKnown;
    SomeKnownIff("users", ReasonUnknownUser, users, input.knownUsers);
    SomeKnownIff("machines", ReasonUnknownMachine, machines, input.knownMachines);
  }

  lemma PrivateIff(r: Route, input: Inputs, p: Placement)
    ensures PrivateEntry(r, input, p).Ok? <==> PrivateFits(r, input)
  {
    hide PrivateGrants, BlankEntry, Validators.GrantNames, TrimSpace, Value, SomeKnown;
    var roles, users := Validators.GrantNames(Annotated(r, ROLES)), Validators.GrantNames(Annotated(r, USERS));
    GrantsAreNotBlank(Annotated(r, ROLES));
    GrantsAreNotBlank(Annotated(r, USERS));
    if roles.Some? && users.Some? { GrantsIff(roles.value, users.value, [], input); }
    NoneBlank();
    SomeKnownNone(input.knownMachines);
    AnnotatedIff(r);
  }

  lemma NoneBlank()
    ensures !BlankEntry([])
  {}

  lemma SomeKnownNone(known: Option<set<string>>)
    ensures SomeKnown([], known)
  {}

  lemma AnnotatedIff(r: Route)
    ensures (!AnyAnnotated(r, NOT_ON_PRIVATE) && !AnyAnnotated(r, HEALTHCHECK_ANNOTATIONS))
            <==> forall a :: a in NOT_ON_PRIVATE + HEALTHCHECK_ANNOTATIONS ==> a !in r.annotations
  {
    hide NOT_ON_PRIVATE, HEALTHCHECK_ANNOTATIONS;
  }

  // ---------- a route ----------

  /** Exactly the routes that can be published, public unless they say private. */
  ghost predicate Publishable(w: World, r: Route, input: Inputs, policies: map<Name, ResourceVerdict>) {
    && Placed(r, input)
    && (Value(r, VISIBILITY) == "private" ==> PrivateFits(r, input))
    && (Value(r, VISIBILITY) != "private" ==>
         && Value(r, VISIBILITY) in {"", "public"}
         && Place(r, input).Ok? && PublicFits(w, r, input, policies, Place(r, input).value))
  }

  lemma PublishableIff(w: World, r: Route, input: Inputs, policies: map<Name, ResourceVerdict>)
    ensures TranslateRoute(w, r, input, policies).Ok? <==> Publishable(w, r, input, policies)
    ensures TranslateRoute(w, r, input, policies).Ok? ==>
      (TranslateRoute(w, r, input, policies).value.section.InPrivate? <==> Value(r, VISIBILITY) == "private")
  {
    hide Place, PublicEntry, PrivateEntry, Key, Value, Placed, PublicFits, PrivateFits;
    PlacedIff(r, input);
    if Place(r, input).Ok? {
      var p := Place(r, input).value;
      PublicIff(w, r, input, policies, p);
      PrivateIff(r, input, p);
    }
  }

  /** The reasons a route may be refused for. */
  ghost predicate RouteRefusal(r: Route, input: Inputs, c: ConditionResult) {
    && !c.status
    && (c.reason == ReasonInvalidKind <==> OneHost(r) && exists b :: HasBackend(r, b) && !IsService(b))
    && (c.reason == ReasonRefNotPermitted
        <==> OneHost(r) && exists b :: HasBackend(r, b) && IsService(b) && !InNamespace(b, r.name.ns))
    && (c.reason == ReasonUnknownSite
        <==> OneHost(r) && HasName(r) && !Listed(SiteOf(r, input), input)
             && exists b :: HasBackend(r, b) && IsService(b) && InNamespace(b, r.name.ns) && b.port.Some?)
    && c.reason in {ReasonInvalidKind, ReasonRefNotPermitted, ReasonUnknownSite, ReasonUnsupportedValue}
  }

  lemma RouteRefusalIs(w: World, r: Route, input: Inputs, policies: map<Name, ResourceVerdict>, c: ConditionResult)
    requires TranslateRoute(w, r, input, policies) == Err(c)
    ensures RouteRefusal(r, input, c)
  {
    hide Place, PublicEntry, PrivateEntry, Key, Value, IsService, InNamespace, OneHost, HasName, Listed, HasBackend;
    if Place(r, input).Err? {
      PlacementReasons(r, input);
    } else {
      PlacedIff(r, input);
      BackendsAre(r);
    }
  }

  /** How a refused route that is served ends: its backend's fault is told by ResolvedRefs,
      anything else by Accepted. */
  ghost predicate SaysRefused(v: Verdict, r: Route, c: ConditionResult) {
    && v.key == "" && v.generation == r.generation
    && if c.reason in {ReasonInvalidKind, ReasonRefNotPermitted} then
         v.accepted == ConditionResult(false, ReasonUnsupportedValue, c.message) && v.resolvedRefs == c
       else v.accepted == c && v.resolvedRefs.status && v.resolvedRefs.reason == ReasonResolvedRefs
  }

  ghost predicate TellsRefusal(verdicts: map<Name, Verdict>, r: Route, c: ConditionResult) {
    r.name in verdicts && SaysRefused(verdicts[r.name], r, c)
  }

  lemma RefusalIsTold(w: World, input: Inputs, r: Route, c: ConditionResult)
    requires DistinctObjects(input) && r in input.routes && ParentsOf(r, input) != []
    requires TranslateRoute(w, r, input, PolicyVerdicts(w, input)) == Err(c)
    ensures TellsRefusal(RenderedOf(w, input).routes, r, c)
  {
    hide RenderedOf, PolicyVerdicts, ParentsOf, TranslateRoute, RouteRefusal, DistinctObjects;
    Serving.OpinionSettles(w, input, r);
    RouteRefusalIs(w, r, input, PolicyVerdicts(w, input), c);
    ReasonsOf(r, input, c);
  }

  lemma ReasonsOf(r: Route, input: Inputs, c: ConditionResult)
    requires RouteRefusal(r, input, c)
    ensures c.reason in {ReasonInvalidKind, ReasonRefNotPermitted, ReasonUnknownSite, ReasonUnsupportedValue}
  {}

  /** What an accepted object is told: that it is, and which of its grants nobody answers. */
  ghost predicate TellsAcceptance(a: ConditionResult, notes: seq<Note>) {
    && a.status && a.reason == ReasonAccepted
    && match a.message
       case Say(_) => notes == []
       case WithNotes(_, told) => notes != [] && told == notes
       case _ => false
  }

  lemma RoutePublishedSays(w: World, input: Inputs, r: Route) returns (e: Entry)
    requires DistinctObjects(input) && r in input.routes && RoutePublished(RenderedOf(w, input), r.name)
    ensures TranslateRoute(w, r, input, PolicyVerdicts(w, input)) == Ok(e)
    ensures RouteTells(RenderedOf(w, input).routes, r, e.notes)
  {
    hide RenderedOf, PolicyVerdicts, ParentsOf, TranslateRoute, DistinctPolicies, AllCandidates, RouteVerdicts,
         ResolveCandidates, Key, RenderLaws.InBlueprint;
    var policies := PolicyVerdicts(w, input);
    e := RenderLaws.PublishedTranslation(w, input, r);
    var c := Candidate(Claimant(HTTPRouteKind, r.name), r.createdAt, e);
    RenderLaws.CandidateOfRoute(w, input, r, c);
    CandidatesDistinct(w, input);
    Laws.CandidateOutcome(AllCandidates(w, input), c);
    OutcomeHasVerdict(w, input, c.claimant);
    VerdictsOfRoutes(w, input.routes, input, policies, r);
    RenderLaws.SettledRoute(w, input, r.name);
  }

  ghost predicate RouteTells(verdicts: map<Name, Verdict>, r: Route, notes: seq<Note>) {
    && r.name in verdicts && TellsAcceptance(verdicts[r.name].accepted, notes)
    && verdicts[r.name].resolvedRefs.status && verdicts[r.name].resolvedRefs.reason == ReasonResolvedRefs
  }

  ghost predicate ResourceTells(verdicts: map<Name, ResourceVerdict>, o: PrivateObject, notes: seq<Note>) {
    && o.name in verdicts && verdicts[o.name].generation == o.generation
    && TellsAcceptance(verdicts[o.name].accepted, notes)
  }

  lemma ResourcePublishedSays(w: World, input: Inputs, o: PrivateObject, e: Entry)
    requires DistinctObjects(input) && o in input.privateResources && TranslatePrivate(w, o, input) == Ok(e)
    requires RenderLaws.PublishedAs(w, input, Claimant(PrivateResourceKind, o.name), e.key)
    ensures ResourceTells(RenderedOf(w, input).resources, o, e.notes)
  {
    hide RenderedOf, TranslatePrivate, DistinctPolicies, AllCandidates, ResourceVerdicts, ResolveCandidates;
    var c := Candidate(Claimant(PrivateResourceKind, o.name), o.createdAt, e);
    RenderLaws.CandidateOfResource(w, input, o, c);
    CandidatesDistinct(w, input);
    Laws.CandidateOutcome(AllCandidates(w, input), c);
    OutcomeHasVerdict(w, input, c.claimant);
    VerdictsOfResources(w, input.privateResources, input);
    RenderLaws.SettledResource(w, input, o.name);
  }

  /** The names a list holds that no listing does. */
  function Missing(known: set<string>): string -> bool { n => n !in known }

  lemma {:induction false} UnknownIsMissing(names: seq<string>, known: set<string>)
    ensures Unknown(names, known) == Filter(names, Missing(known))
  {
    if names != [] { UnknownIsMissing(names[..|names| - 1], known); }
  }

  /** What is noted of a list: exactly its unknown names, in order. */
  ghost predicate Notes(list: string, names: seq<string>, known: Option<set<string>>, notes: seq<Note>) {
    if known.None? || Filter(names, Missing(known.value)) == [] then notes == []
    else notes == [Ignored(list, Filter(names, Missing(known.value)))]
  }

  lemma GrantsNoted(roles: seq<string>, users: seq<string>, machines: seq<string>, input: Inputs)
    requires PrivateGrants(roles, users, machines, input).Ok?
    ensures exists u, m ::
              && Notes("users", users, input.knownUsers, u) && Notes("machines", machines, input.knownMachines, m)
              && PrivateGrants(roles, users, machines, input).value == u + m
  {
    hide Unknown, BlankEntry;
    if input.knownUsers.Some? { UnknownIsMissing(users, input.knownUsers.value); }
    if input.knownMachines.Some? { UnknownIsMissing(machines, input.knownMachines.value); }
    var u := GrantNotes("users", ReasonUnknownUser, users, input.knownUsers).value;
    var m := GrantNotes("machines", ReasonUnknownMachine, machines, input.knownMachines).value;
    assert Notes("users", users, input.knownUsers, u) && Notes("machines", machines, input.knownMachines, m);
  }

  // ---------- a PrivateResource ----------

  /** Both port lists are ones a resource may have. */
  predicate PortsFit(spec: PrivateSpec) {
    Validators.ClientPortRanges(spec.tcpPorts) && Validators.ClientPortRanges(spec.udpPorts)
  }

  /** What its mode asks of a spec, and forbids. */
  predicate ModeFits(w: World, spec: PrivateSpec) {
    match spec.mode
    case Host =>
      && spec.fullDomain == "" && spec.ssl.None? && spec.scheme == "" && spec.destinationPort == 0
      && (w.isIP(spec.destination)
          || (Validators.Hostname(spec.destination) && spec.alias != "" && Validators.Hostname(spec.alias)))
      && (spec.alias != "" ==> Validators.AliasName(spec.alias)) && PortsFit(spec)
    case Cidr =>
      && spec.fullDomain == "" && spec.ssl.None? && spec.scheme == "" && spec.destinationPort == 0
      && w.isCIDR(spec.destination) && spec.alias == "" && PortsFit(spec)
    case Http =>
      && spec.tcpPorts == "" && spec.udpPorts == "" && !spec.disableIcmp && spec.alias == ""
      && Validators.Hostname(spec.fullDomain) && spec.fullDomain != "" && spec.fullDomain[0] != '*'
      && (w.isIP(spec.destination) || Validators.Hostname(spec.destination)) && spec.destinationPort != 0
    case Unsupported(_) => false
  }

  lemma ModeIff(w: World, spec: PrivateSpec)
    ensures ModeProblem(w, spec).None? <==> ModeFits(w, spec)
  {
    hide Validators.Hostname, Validators.AliasName, Validators.ClientPortRanges;
    StarPrefix(spec.fullDomain);
  }

  predicate SiteFits(site: string, input: Inputs) { TrimSpace(site) != "" && Listed(site, input) }

  /** Grants without blanks or the Admin role, each list with somebody who exists. */
  ghost predicate GrantsFit(spec: PrivateSpec, input: Inputs) {
    && (forall x :: x in spec.roles + spec.users + spec.machines ==> TrimSpace(x) != "")
    && "Admin" !in spec.roles && SomeKnown(spec.users, input.knownUsers)
      && SomeKnown(spec.machines, input.knownMachines)
  }

  predicate NameFits(display: string) { display == "" || TrimSpace(display) != "" }

  /** The sites of a resource, or the default. */
  function SitesOf(o: PrivateObject, input: Inputs): seq<string> {
    if o.spec.sites == [] then [input.defaultSite] else o.spec.sites
  }

  ghost predicate SitesFit(sites: seq<string>, input: Inputs) { forall x :: x in sites ==> SiteFits(x, input) }

  lemma SitesFitIff(sites: seq<string>, input: Inputs)
    ensures CheckSites(sites, input).Ok? <==> SitesFit(sites, input)
    ensures CheckSites(sites, input).Err? ==> !CheckSites(sites, input).error.status
  {
    hide TrimSpace, CheckSites;
    RenderLaws.SiteErrors(sites, input);
    assert forall x :: SiteFits(x, input)
                       <==> TrimSpace(x) != "" && (input.knownSites.Some? ==> x in input.knownSites.value);
  }

  /** Exactly the resources that can be published. */
  ghost predicate ResourceFits(w: World, o: PrivateObject, input: Inputs) {
    && NameFits(o.spec.displayName)
    && SitesFit(SitesOf(o, input), input) && ModeFits(w, o.spec) && GrantsFit(o.spec, input)
  }

  lemma GrantsFitIff(spec: PrivateSpec, input: Inputs)
    ensures PrivateGrants(spec.roles, spec.users, spec.machines, input).Ok? <==> GrantsFit(spec, input)
  {
    hide SomeKnown, TrimSpace, PrivateGrants;
    GrantsIff(spec.roles, spec.users, spec.machines, input);
    assert forall x :: x in spec.roles + spec.users + spec.machines
                       <==> x in spec.roles || x in spec.users || x in spec.machines;
  }

  lemma ResourceFitsIff(w: World, o: PrivateObject, input: Inputs)
    ensures TranslatePrivate(w, o, input).Ok? <==> ResourceFits(w, o, input)
  {
    hide ModeProblem, ModeFits, ModeFields, PrivateGrants, GrantsFit, CheckSites, TrimSpace, PrivateResourceKey,
         ResourceHostnames, SitesFit;
    SitesFitIff(SitesOf(o, input), input);
    ModeIff(w, o.spec);
    GrantsFitIff(o.spec, input);
  }

  /** The first site that does not fit is a name nobody has. */
  ghost predicate FirstBadIsUnknown(sites: seq<string>, input: Inputs) {
    exists i :: 0 <= i < |sites| && TrimSpace(sites[i]) != "" && !Listed(sites[i], input)
      && forall j :: 0 <= j < i ==> SiteFits(sites[j], input)
  }

  lemma {:induction false} SiteReasons(sites: seq<string>, input: Inputs)
    requires CheckSites(sites, input).Err?
    ensures var c := CheckSites(sites, input).error;
      && c.reason in {ReasonUnknownSite, ReasonInvalidSpec}
      && (c.reason == ReasonUnknownSite <==> FirstBadIsUnknown(sites, input))
  {
    hide TrimSpace;
    var c := CheckSites(sites, input).error;
    if SiteFits(sites[0], input) {
      SiteReasons(sites[1..], input);
      assert forall j :: 0 <= j < |sites| - 1 ==> sites[1..][j] == sites[j + 1];
      if i :| 0 <= i < |sites| && TrimSpace(sites[i]) != "" && !Listed(sites[i], input)
              && forall j :: 0 <= j < i ==> SiteFits(sites[j], input) {
        assert sites[1..][i - 1] == sites[i];
        assert forall j :: 0 <= j < i - 1 ==> SiteFits(sites[1..][j], input);
      }
      if i :| 0 <= i < |sites| - 1 && TrimSpace(sites[1..][i]) != "" && !Listed(sites[1..][i], input)
              && forall j :: 0 <= j < i ==> SiteFits(sites[1..][j], input) {
        assert forall j :: 0 <= j < i + 1 ==> SiteFits(sites[j], input) by {
          forall j | 0 <= j < i + 1 ensures SiteFits(sites[j], input) {
            if j > 0 { assert sites[1..][j - 1] == sites[j]; }
          }
        }
        assert sites[i + 1] == sites[1..][i];
      }
    }
  }

  /** Nothing is wrong with it but that its users, or its machines, are unknown. */
  ghost predicate BarringGrants(w: World, o: PrivateObject, input: Inputs) {
    NameFits(o.spec.displayName) && SitesFit(SitesOf(o, input), input) && ModeFits(w, o.spec) && GrantsClean(o.spec)
  }

  /** No blank entry, and not the Admin role. */
  ghost predicate GrantsClean(spec: PrivateSpec) {
    (forall x :: x in spec.roles + spec.users + spec.machines ==> TrimSpace(x) != "") && "Admin" !in spec.roles
  }

  lemma GrantReasons(spec: PrivateSpec, input: Inputs)
    requires PrivateGrants(spec.roles, spec.users, spec.machines, input).Err?
    ensures var c, clean := PrivateGrants(spec.roles, spec.users, spec.machines, input).error, GrantsClean(spec);
      && c.reason in {ReasonInvalidSpec, ReasonUnknownUser, ReasonUnknownMachine}
      && (c.reason == ReasonUnknownUser <==> clean && !SomeKnown(spec.users, input.knownUsers))
      && (c.reason == ReasonUnknownMachine
          <==> clean && SomeKnown(spec.users, input.knownUsers) && !SomeKnown(spec.machines, input.knownMachines))
  {
    hide GrantNotes, SomeKnown, TrimSpace;
    SomeKnownIff("users", ReasonUnknownUser, spec.users, input.knownUsers);
    SomeKnownIff("machines", ReasonUnknownMachine, spec.machines, input.knownMachines);
    assert forall x :: x in spec.roles + spec.users + spec.machines
                       <==> x in spec.roles || x in spec.users || x in spec.machines;
  }

  /** What a refused PrivateResource is told. */
  ghost predicate ResourceRefusal(w: World, o: PrivateObject, input: Inputs, c: ConditionResult) {
    && !c.status && c.reason in {ReasonInvalidSpec, ReasonUnknownSite, ReasonUnknownUser, ReasonUnknownMachine}
    && (c.reason == ReasonUnknownUser <==> BarringGrants(w, o, input) && !SomeKnown(o.spec.users, input.knownUsers))
    && (c.reason == ReasonUnknownMachine
        <==> BarringGrants(w, o, input) && SomeKnown(o.spec.users, input.knownUsers)
             && !SomeKnown(o.spec.machines, input.knownMachines))
    && (c.reason == ReasonUnknownSite
        <==> NameFits(o.spec.displayName) && FirstBadIsUnknown(SitesOf(o, input), input))
  }

  lemma ResourceRefusalIs(w: World, o: PrivateObject, input: Inputs, c: ConditionResult)
    requires TranslatePrivate(w, o, input) == Err(c)
    ensures ResourceRefusal(w, o, input, c)
  {
    hide ModeProblem, ModeFits, ModeFields, PrivateGrants, CheckSites, TrimSpace, SomeKnown, PrivateResourceKey,
         ResourceHostnames, SitesFit, FirstBadIsUnknown, GrantsClean;
    var sites := SitesOf(o, input);
    SitesFitIff(sites, input);
    RenderLaws.ResourceErrors(w, o, input);
    ModeIff(w, o.spec);
    if CheckSites(sites, input).Err? {
      SiteReasons(sites, input);
    } else {
      FitsHasNoBad(sites, input);
      if PrivateGrants(o.spec.roles, o.spec.users, o.spec.machines, input).Err? { GrantReasons(o.spec, input); }
    }
  }

  lemma FitsHasNoBad(sites: seq<string>, input: Inputs)
    requires SitesFit(sites, input)
    ensures !FirstBadIsUnknown(sites, input)
  {
    hide TrimSpace;
    forall i | 0 <= i < |sites| ensures SiteFits(sites[i], input) { assert sites[i] in sites; }
  }

  // ---------- a ResourcePolicy ----------

  predicate IsPin(s: string) { |s| == 6 && forall i :: 0 <= i < 6 ==> '0' <= s[i] <= '9' }

  /** Exactly the policies that can be published. */
  ghost predicate PolicyFits(w: World, spec: PolicySpec, licensed: bool) {
    && licensed && NameFits(spec.displayName)
    && (spec.sso == Some(false) ==> spec.roles == [] && spec.users == [])
    && (forall x :: x in spec.roles + spec.users ==> TrimSpace(x) != "") && "Admin" !in spec.roles
    && (spec.pincode == "" || IsPin(spec.pincode))
    && (forall e :: e in spec.emailWhitelist ==> Validators.PolicyEntry(ToLower(TrimSpace(e))))
    && (forall x :: x in spec.rules ==> RuleFits(w, x) && x.value != "")
  }

  lemma WhitelistIff(list: seq<string>)
    ensures Validators.PolicyWhitelistOf(list).Some?
            <==> forall e :: e in list ==> Validators.PolicyEntry(ToLower(TrimSpace(e)))
  {
    hide TrimSpace, ToLower, Validators.PolicyEntry, Validators.Dedup;
    var entries := Validators.LowerAll(Validators.TrimAll(list));
    forall i | 0 <= i < |list| ensures entries[i] == ToLower(TrimSpace(list[i])) {}
    if forall e | e in list :: Validators.PolicyEntry(ToLower(TrimSpace(e))) {
      forall x | x in entries ensures Validators.PolicyEntry(x) {
        var i :| 0 <= i < |entries| && entries[i] == x;
        assert list[i] in list;
      }
    }
    if forall x | x in entries :: Validators.PolicyEntry(x) {
      forall e | e in list ensures Validators.PolicyEntry(ToLower(TrimSpace(e))) {
        var i :| 0 <= i < |list| && list[i] == e;
        assert entries[i] in entries;
      }
    }
  }

  lemma PolicyFitsIff(w: World, p: PolicyObject, licensed: bool)
    ensures TranslatePolicy(w, p, licensed).Ok? <==> PolicyFits(w, p.spec, licensed)
    ensures TranslatePolicy(w, p, licensed).Err? ==>
      var c := TranslatePolicy(w, p, licensed).error;
      !c.status && c.reason == if licensed then ReasonInvalidSpec else ReasonNotLicensed
  {
    hide TrimSpace, ValidRule, RuleFits, Validators.PolicyWhitelistOf, Validators.PolicyEntry;
    forall x ensures ValidRule(w, x) <==> RuleFits(w, x) && x.value != "" { RuleFitsIff(w, x); }
    WhitelistIff(p.spec.emailWhitelist);
    BlankIff(p.spec.roles);
    BlankIff(p.spec.users);
  }

  lemma BlankIff(entries: seq<string>)
    ensures BlankEntry(entries) <==> !(forall x :: x in entries ==> TrimSpace(x) != "")
  {}
}
