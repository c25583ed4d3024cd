/** What a translated object says, read off its own fields: a route is published at the
    hostname, backend and protection it asks for, or not at all. */
module Faithful {
  import opened Text
  import opened Types
  import opened Policies
  import opened Collisions
  import opened Translate
  import Validators
  import Secrets

  /** The one backend a publishable route has. */
  ghost predicate HasBackend(r: Route, b: BackendRef) {
    |r.rules| == 1 && r.rules[0].backendRefs == [b] && r.rules[0].filters == 0
  }

  /** A Service in the route's own namespace, and one of its ports. */
  ghost predicate PointsAt(r: Route, host: string, port: int) {
    exists b :: HasBackend(r, b) && b.port == Some(port)
      && host == b.name + "." + r.name.ns + ".svc.cluster.local"
      && (b.ns == None || b.ns == Some(r.name.ns)) && (b.kind == None || b.kind == Some("Service"))
  }

  /** The display name an object asks for, else its namespace and name. */
  ghost predicate NamedAsAsked(asked: Option<string>, n: Name, shown: string) {
    shown != "" && shown == match asked case None => n.ns + "/" + n.name case Some(text) => TrimSpace(text)
  }

  lemma PlacedAsAsked(r: Route, input: Inputs)
    requires Place(r, input).Ok?
    ensures var p := Place(r, input).value;
      && r.hostnames == [p.host] && PointsAt(r, p.backend, p.port)
      && NamedAsAsked(Annotated(r, DISPLAY_NAME), r.name, p.name)
      && p.site == (if Value(r, SITE) != "" then Value(r, SITE) else input.defaultSite)
      && (input.knownSites.Some? ==> p.site in input.knownSites.value)
  {
    var p, b := Place(r, input).value, RouteShape(r).value.1;
    assert HasBackend(r, b) && b.port == Some(p.port);
    assert |r.name.ns + "/" + r.name.name| > 0;
  }

  /** In shared policy mode the resource brings no access decision of its own. */
  predicate NothingInline(res: PublicResource) {
    && !res.auth.sso && res.auth.basicAuth == None && res.auth.pincode == None
    && res.auth.roles == [] && res.auth.users == [] && res.auth.whitelist == [] && res.rules == []
  }

  /** An accepted route's rules are its decoded annotation, every one of them valid. */
  lemma RulesAsAsked(w: World, r: Route)
    requires RulesFor(w, r).Ok?
    ensures var rules, raw := RulesFor(w, r).value, Value(r, ACCESS_RULES);
      && (if TrimSpace(raw) == "" then rules == [] else w.decodeRules(raw) == Some(rules))
      && forall x :: x in rules ==> ValidRule(w, x)
  {}

  lemma NoGrantsWithoutSignIn(r: Route)
    requires !AnyAnnotated(r, [ROLES, USERS])
    ensures Validators.GrantNames(Annotated(r, ROLES)) == Some([])
        && Validators.GrantNames(Annotated(r, USERS)) == Some([])
  {
    assert ROLES in [ROLES, USERS] && USERS in [ROLES, USERS];
  }

  lemma SignInAsAsked(r: Route)
    requires SignInFor(r).Ok?
    ensures var sign := SignInFor(r).value;
      && (sign.sso <==> ToLower(Value(r, SSO)) != "false")
      && (!sign.sso ==> sign.roles == [] && sign.users == [])
      && Validators.GrantNames(Annotated(r, ROLES)) == Some(sign.roles)
      && Validators.GrantNames(Annotated(r, USERS)) == Some(sign.users)
  {
    SsoMeans(r);
    if !SignInFor(r).value.sso { NoGrantsWithoutSignIn(r); }
  }

  lemma InlineSignIn(w: World, r: Route, input: Inputs)
    requires InlineAuth(w, r, input).Ok?
    ensures var auth := InlineAuth(w, r, input).value.0; SignInFor(r) == Ok(SignIn(auth.sso, auth.roles, auth.users))
  {
    hide SignInFor, BasicAuthFor, MTLSFor, RulesFor, Validators.InlineWhitelist;
  }

  /** The settings that need no translation of their own. */
  lemma InlineSettings(w: World, r: Route, input: Inputs)
    requires InlineAuth(w, r, input).Ok?
    ensures var (auth, rules) := InlineAuth(w, r, input).value;
      && BasicAuthFor(r, input) == Ok(auth.basicAuth)
      && w.pincode(Value(r, PINCODE)) == Some(auth.pincode)
      && Validators.InlineWhitelist(Value(r, EMAIL_WHITELIST)) == Some(auth.whitelist)
      && (MTLSFor(r, input).Ok? && auth.mtls == Some(MTLSFor(r, input).value))
      && RulesFor(w, r) == Ok(rules)
  {
    hide SignInFor, BasicAuthFor, MTLSFor, RulesFor, Validators.InlineWhitelist;
  }

  /** The resolved credentials, when and only when basic auth is asked for. */
  lemma BasicAuthAsAsked(r: Route, input: Inputs)
    requires BasicAuthFor(r, input).Ok?
    ensures var b := BasicAuthFor(r, input).value;
      && (b.Some? <==> Secrets.Asks(r))
      && (b.Some? ==>
           r.name in input.basicAuth && input.basicAuth[r.name].credentials.Some?
           && b.value == input.basicAuth[r.name].credentials.value.(extended := true))
  {}

  /** Everything an inline route says about who may reach it. */
  ghost predicate ProtectedAsAsked(w: World, r: Route, input: Inputs, auth: Auth, rules: seq<Rule>) {
    && (auth.sso <==> ToLower(Value(r, SSO)) != "false")
    && (!auth.sso ==> auth.roles == [] && auth.users == [])
    && Validators.GrantNames(Annotated(r, ROLES)) == Some(auth.roles)
    && Validators.GrantNames(Annotated(r, USERS)) == Some(auth.users)
    && (auth.basicAuth.Some? <==> Secrets.Asks(r))
    && (auth.basicAuth.Some? ==>
         r.name in input.basicAuth && input.basicAuth[r.name].credentials.Some?
         && auth.basicAuth.value == input.basicAuth[r.name].credentials.value.(extended := true))
    && w.pincode(Value(r, PINCODE)) == Some(auth.pincode)
    && Validators.InlineWhitelist(Value(r, EMAIL_WHITELIST)) == Some(auth.whitelist)
    && (if TrimSpace(Value(r, ACCESS_RULES)) == "" then rules == []
      else w.decodeRules(Value(r, ACCESS_RULES)) == Some(rules))
  }

  lemma InlineAsAsked(w: World, r: Route, input: Inputs)
    requires InlineAuth(w, r, input).Ok?
    ensures var (auth, rules) := InlineAuth(w, r, input).value;
      && ProtectedAsAsked(w, r, input, auth, rules)
      && (forall x :: x in rules ==> ValidRule(w, x))
      && MTLSFor(r, input).Ok? && auth.mtls == Some(MTLSFor(r, input).value)
  {
    hide InlineAuth, SignInFor, BasicAuthFor, MTLSFor, RulesFor, ValidRule, Secrets.Asks, Validators.InlineWhitelist,
         Validators.GrantNames, BoolAnnotation, TrimSpace, ToLower;
    InlineSignIn(w, r, input);
    InlineSettings(w, r, input);
    SignInAsAsked(r);
    BasicAuthAsAsked(r, input);
    RulesAsAsked(w, r);
  }

  lemma SsoMeans(r: Route)
    requires BoolAnnotation(r, SSO, true).Ok?
    ensures BoolAnnotation(r, SSO, true).value <==> ToLower(Value(r, SSO)) != "false"
  {
    assert "true"[0] != "false"[0];
    if Value(r, SSO) == "" { assert |ToLower(Value(r, SSO))| != |"false"|; }
  }

  /** The CA block is sent on every route: the resolved certificates when mTLS is asked
      for, else the block that clears them. */
  ghost predicate CertifiedAsAsked(r: Route, input: Inputs, m: MTLS) {
    && (m.enabled <==> MTLSRequested(r))
    && (if m.enabled then r.name in input.mtls && input.mtls[r.name] == Trusted(m.certificates) && m.certificates != []
        else m.certificates == [])
  }

  lemma MTLSAsAsked(r: Route, input: Inputs)
    requires MTLSFor(r, input).Ok?
    ensures CertifiedAsAsked(r, input, MTLSFor(r, input).value)
  {}

  lemma PolicyAsAsked(r: Route, input: Inputs, policies: map<Name, ResourceVerdict>)
    requires PolicyFor(r, input, policies).Ok?
    ensures PolicyFor(r, input, policies).value != "" <==> TrimSpace(Value(r, POLICY)) != ""
    ensures PolicyFor(r, input, policies).value != "" ==> input.licensed
  {}

  lemma SharedAsAsked(r: Route, input: Inputs)
    requires SharedPolicyAuth(r, input).Ok?
    ensures var (auth, rules) := SharedPolicyAuth(r, input).value;
      && auth == Auth(false, None, None, auth.mtls, [], [], []) && rules == []
      && MTLSFor(r, input).Ok? && auth.mtls == Some(MTLSFor(r, input).value)
  {
    hide MTLSFor;
  }

  /** The one target, with the healthcheck its annotations give it. */
  ghost predicate TargetsAsAsked(w: World, r: Route, targets: seq<Target>, site: string) {
    && |targets| == 1 && targets[0].site == site && PointsAt(r, targets[0].hostname, targets[0].port)
    && w.healthcheck(r.annotations, targets[0].(healthcheck := None)) == Some(targets[0].healthcheck)
  }

  /** A public route is published at its own name, hostname, site and backend, with exactly
      the protection it asks for. */
  lemma PublicRouteAsAsked(w: World, r: Route, input: Inputs, policies: map<Name, ResourceVerdict>, res: PublicResource)
    requires TranslateRoute(w, r, input, policies).Ok?
    requires TranslateRoute(w, r, input, policies).value.section == InPublic(res)
    ensures NamedAsAsked(Annotated(r, DISPLAY_NAME), r.name, res.name) && r.hostnames == [res.fullDomain]
    ensures TargetsAsAsked(w, r, res.targets, if Value(r, SITE) != "" then Value(r, SITE) else input.defaultSite)
    ensures res.policy != "" <==> TrimSpace(Value(r, POLICY)) != ""
    ensures res.policy != "" ==> NothingInline(res)
    ensures res.policy == "" ==> ProtectedAsAsked(w, r, input, res.auth, res.rules)
    ensures forall x :: x in res.rules ==> ValidRule(w, x)
    ensures res.auth.mtls.Some? && CertifiedAsAsked(r, input, res.auth.mtls.value)
  {
    hide Place, PublicEntry, PrivateEntry, ProtectedAsAsked, CertifiedAsAsked, NothingInline, ValidRule, PointsAt,
         NamedAsAsked, TrimSpace, Annotated;
    var p := Place(r, input).value;
    PlacedAsAsked(r, input);
    PublicEntryAsAsked(w, r, input, policies, p);
  }

  lemma PublicEntryParts(w: World, r: Route, input: Inputs, policies: map<Name, ResourceVerdict>, p: Placement)
    requires PublicEntry(w, r, input, policies, p).Ok?
    ensures var res := PublicEntry(w, r, input, policies, p).value;
      && res.name == p.name && res.fullDomain == p.host && PolicyFor(r, input, policies) == Ok(res.policy)
      && (if res.policy != "" then SharedPolicyAuth(r, input) == Ok((res.auth, res.rules))
          else InlineAuth(w, r, input) == Ok((res.auth, res.rules)))
      && |res.targets| == 1 && res.targets[0].hostname == p.backend && res.targets[0].port == p.port
      && res.targets[0].site == p.site
      && w.healthcheck(r.annotations, res.targets[0].(healthcheck := None)) == Some(res.targets[0].healthcheck)
  {
    hide PolicyFor, SharedPolicyAuth, InlineAuth;
  }

  lemma PublicEntryAsAsked(w: World, r: Route, input: Inputs, policies: map<Name, ResourceVerdict>, p: Placement)
    requires PublicEntry(w, r, input, policies, p).Ok?
    ensures var res := PublicEntry(w, r, input, policies, p).value;
      && res.name == p.name && res.fullDomain == p.host
      && |res.targets| == 1 && res.targets[0].hostname == p.backend && res.targets[0].port == p.port
      && res.targets[0].site == p.site
      && w.healthcheck(r.annotations, res.targets[0].(healthcheck := None)) == Some(res.targets[0].healthcheck)
      && (res.policy != "" <==> TrimSpace(Value(r, POLICY)) != "")
      && (res.policy != "" ==> NothingInline(res))
      && (res.policy == "" ==> ProtectedAsAsked(w, r, input, res.auth, res.rules))
      && (forall x :: x in res.rules ==> ValidRule(w, x))
      && res.auth.mtls.Some? && CertifiedAsAsked(r, input, res.auth.mtls.value)
  {
    hide PublicEntry, PolicyFor, SharedPolicyAuth, InlineAuth, MTLSFor, ProtectedAsAsked, CertifiedAsAsked, ValidRule,
         TrimSpace;
    PublicEntryParts(w, r, input, policies, p);
    PolicyAsAsked(r, input, policies);
    if PolicyFor(r, input, policies) == Ok("") {
      InlineAsAsked(w, r, input);
    } else {
      SharedAsAsked(r, input);
    }
    MTLSAsAsked(r, input);
  }

  /** A private route carries no protection annotation, policy or healthcheck, and its
      grants are those it lists. */
  lemma PrivateRouteAsAsked(w: World, r: Route, input: Inputs, policies: map<Name, ResourceVerdict>,
                            res: PrivateResource)
    requires TranslateRoute(w, r, input, policies).Ok?
    requires TranslateRoute(w, r, input, policies).value.section == InPrivate(res)
    ensures Value(r, VISIBILITY) == "private"
    ensures NamedAsAsked(Annotated(r, DISPLAY_NAME), r.name, res.name) && r.hostnames == [res.fullDomain]
    ensures res.mode == Http && res.scheme == "http" && res.ssl == None && res.alias == ""
    ensures PointsAt(r, res.destination, res.destinationPort)
    ensures res.sites == [if Value(r, SITE) != "" then Value(r, SITE) else input.defaultSite]
    ensures forall a :: a in NOT_ON_PRIVATE + HEALTHCHECK_ANNOTATIONS ==> a !in r.annotations
    ensures TrimSpace(Value(r, POLICY)) == ""
    ensures Validators.GrantNames(Annotated(r, ROLES)) == Some(res.roles) && ADMIN_ROLE !in res.roles
    ensures Validators.GrantNames(Annotated(r, USERS)) == Some(res.users) && res.machines == []
  {
    hide Place, PublicEntry, PrivateEntry, PointsAt, NamedAsAsked, TrimSpace, Validators.GrantNames;
    PlacedAsAsked(r, input);
    PrivateEntryAsAsked(r, input, Place(r, input).value);
  }

  lemma PrivateEntryAsAsked(r: Route, input: Inputs, p: Placement)
    requires PrivateEntry(r, input, p).Ok?
    ensures var res := PrivateEntry(r, input, p).value.0;
      && res == PrivateResource(p.name, Http, [p.site], p.backend, p.port, p.host, "http", None, "", None, None, None,
                                res.roles, res.users, [])
      && (forall a :: a in NOT_ON_PRIVATE + HEALTHCHECK_ANNOTATIONS ==> a !in r.annotations)
      && TrimSpace(Value(r, POLICY)) == ""
      && Validators.GrantNames(Annotated(r, ROLES)) == Some(res.roles) && ADMIN_ROLE !in res.roles
      && Validators.GrantNames(Annotated(r, USERS)) == Some(res.users)
  {
    hide Validators.GrantNames, TrimSpace, GrantNotes;
    assert !AnyAnnotated(r, NOT_ON_PRIVATE) && !AnyAnnotated(r, HEALTHCHECK_ANNOTATIONS);
  }

  /** A PrivateResource is published with its own settings; what its mode does not use is
      absent, and the names it claims are those it makes resolvable. */
  lemma PrivateObjectAsAsked(w: World, o: PrivateObject, input: Inputs)
    requires TranslatePrivate(w, o, input).Ok?
    ensures var e, spec := TranslatePrivate(w, o, input).value, o.spec;
      && e.section.InPrivate?
      && var res := e.section.private;
      && NamedAsAsked(if spec.displayName == "" then None else Some(spec.displayName), o.name, res.name)
      && res.mode == spec.mode && !spec.mode.Unsupported? && res.destination == spec.destination
      && res.alias == spec.alias && (res.alias != "" ==> spec.mode.Host?)
      && res.roles == spec.roles && res.users == spec.users && res.machines == spec.machines
      && res.sites == (if spec.sites == [] then [input.defaultSite] else spec.sites)
      && (if spec.mode.Http? then
            && res.fullDomain == spec.fullDomain != "" && res.destinationPort == spec.destinationPort != 0
            && res.scheme == (if spec.scheme != "" then spec.scheme else "http")
              && res.ssl == Some(spec.ssl != Some(false))
            && res.tcpPorts == None && res.udpPorts == None && res.disableIcmp == None
          else
            && res.fullDomain == "" && res.destinationPort == 0 && res.scheme == "" && res.ssl == None
            && res.tcpPorts == Some(TrimSpace(spec.tcpPorts)) && res.udpPorts == Some(TrimSpace(spec.udpPorts))
            && res.disableIcmp == Some(spec.disableIcmp))
      && (forall h :: h in e.hostnames <==> h != "" && (h == res.fullDomain || h == res.alias))
  {
    hide TrimSpace, CheckSites, PrivateGrants, Validators.Hostname, Validators.AliasName, Validators.ClientPortRanges;
    var e, spec := TranslatePrivate(w, o, input).value, o.spec;
    assert ModeProblem(w, spec).None?;
    assert |o.name.ns + "/" + o.name.name| > 0;
  }

  /** A policy's whitelist is the set of its trimmed, lower-cased entries. */
  lemma PolicyWhitelistAsAsked(list: seq<string>, e: string)
    requires Validators.PolicyWhitelistOf(list).Some?
    ensures e in Validators.PolicyWhitelistOf(list).value <==> exists x :: x in list && e == ToLower(TrimSpace(x))
  {
    hide TrimSpace, Validators.PolicyEntry, Validators.Dedup;
    var entries := Validators.LowerAll(Validators.TrimAll(list));
    Validators.DedupKeepsMembers(entries);
    if e in entries {
      var i :| 0 <= i < |entries| && entries[i] == e;
      assert list[i] in list;
    }
    if exists x :: x in list && e == ToLower(TrimSpace(x)) {
      var x :| x in list && e == ToLower(TrimSpace(x));
      var i :| 0 <= i < |list| && list[i] == x;
      assert entries[i] == e;
    }
  }

  /** An accepted ResourcePolicy is published with its own settings: sign-in off only
      without grants, lists without blanks, and switches that follow the lists. */
  lemma PolicyObjectAsAsked(w: World, p: PolicyObject)
    requires TranslatePolicy(w, p, true).Ok?
    ensures var policy := TranslatePolicy(w, p, true).value;
      && NamedAsAsked(if p.spec.displayName == "" then None else Some(p.spec.displayName), p.name, policy.name)
      && policy.roles == p.spec.roles && policy.users == p.spec.users && policy.rules == p.spec.rules
      && (policy.sso <==> p.spec.sso != Some(false)) && (!policy.sso ==> policy.roles == [] && policy.users == [])
      && (policy.pincode == "" || SixDigits(policy.pincode)) && policy.pincode == p.spec.pincode
      && (policy.whitelistEnabled <==> policy.whitelist != []) && (policy.applyRules <==> policy.rules != [])
      && (forall e :: e in policy.whitelist <==> exists x :: x in p.spec.emailWhitelist && e == ToLower(TrimSpace(x)))
  {
    hide TrimSpace, ToLower, Validators.PolicyWhitelistOf, ValidRule;
    assert |p.name.ns + "/" + p.name.name| > 0;
    var list, policy := p.spec.emailWhitelist, TranslatePolicy(w, p, true).value;
    assert Validators.PolicyWhitelistOf(list) == Some(policy.whitelist);
    forall e ensures e in policy.whitelist <==> exists x :: x in list && e == ToLower(TrimSpace(x)) {
      PolicyWhitelistAsAsked(list, e);
    }
  }
}
