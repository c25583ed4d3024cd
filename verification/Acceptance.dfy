/** A rendered blueprint and the checks of the server it is sent to: exactly when the
    server accepts it. */
module Acceptance {
  import opened Text
  import opened Types
  import opened Policies
  import opened Collisions
  import opened Translate
  import opened Render
  import opened RenderLaws
  import opened Server
  import Validators
  import Laws = CollisionLaws

  // ---------- hypotheses ----------

  /** The names a grant may use for a user. */
  function UserIds(users: set<User>): set<string> {
    (set u | u in users && u.username != "" :: u.username) + (set u | u in users && u.email != "" :: u.email)
  }

  predicate AsksForUsers(input: Inputs) {
    || (exists r | r in input.routes :: USERS in r.annotations)
    || (exists o | o in input.privateResources :: o.spec.users != [])
  }

  predicate AsksForMachines(input: Inputs) {
    exists o | o in input.privateResources :: o.spec.machines != []
  }

  /** One certificate per PEM, and no more of them than a resource may hold. */
  ghost predicate CleanCAs(w: World, certs: seq<string>) {
    && |certs| <= MAX_CERTIFICATES
    && forall c :: c in certs ==> |w.pem(c)| == 1 && w.pem(c)[0].typ == "CERTIFICATE" && w.parses(w.pem(c)[0].der)
  }

  /** The listings succeeded, so the render knows the server's names, and the resolved
      CAs went through validation. */
  ghost predicate Informed(w: World, input: Inputs, s: ServerState) {
    && ValidWorld(w) && DistinctObjects(input)
    && input.knownSites == Some(s.sites)
    && (AsksForUsers(input) ==> input.knownUsers == Some(UserIds(s.users)))
    && (AsksForMachines(input) ==> input.knownMachines == Some(s.machines))
    && (forall n :: n in input.mtls && input.mtls[n].Trusted? ==> CleanCAs(w, input.mtls[n].certificates))
  }

  // ---------- public entries ----------

  lemma ValidRulesPass(w: World, specs: seq<Rule>)
    requires CheckedRules(w, specs).Ok?
    ensures RulesPass(w, CheckedRules(w, specs).value)
  {
    forall r | r in specs ensures CheckRule(w, r) { assert ValidRule(w, r); }
  }

  lemma InlineAuthGood(w: World, r: Route, input: Inputs)
    requires InlineAuth(w, r, input).Ok?
    ensures RulesPass(w, InlineAuth(w, r, input).value.1)
    ensures forall e :: e in InlineAuth(w, r, input).value.0.whitelist ==> Validators.ValidEmail(e)
    ensures MTLSFor(r, input).Ok? && InlineAuth(w, r, input).value.0.mtls == Some(MTLSFor(r, input).value)
  {
    var raw := Value(r, ACCESS_RULES);
    if TrimSpace(raw) != "" && w.decodeRules(raw).Some? && CheckedRules(w, w.decodeRules(raw).value).Ok? {
      ValidRulesPass(w, w.decodeRules(raw).value);
    }
    var list := Value(r, EMAIL_WHITELIST);
    forall e | e in Validators.InlineWhitelist(list).value ensures Validators.ValidEmail(e) {
      Validators.WhitelistEntries(list, e);
    }
  }

  /** What translation guarantees of a public entry. */
  ghost predicate PublicGood(w: World, r: Route, input: Inputs, res: PublicResource) {
    && RulesPass(w, res.rules)
    && (forall e :: e in res.auth.whitelist ==> Validators.ValidEmail(e))
    && (forall t :: t in res.targets ==> input.knownSites.Some? ==> t.site in input.knownSites.value)
    && MTLSFor(r, input).Ok? && res.auth.mtls == Some(MTLSFor(r, input).value)
  }

  lemma PublicEntryGood(w: World, r: Route, input: Inputs, policies: map<Name, ResourceVerdict>, p: Placement)
    requires Place(r, input) == Ok(p) && PublicEntry(w, r, input, policies, p).Ok?
    ensures PublicGood(w, r, input, PublicEntry(w, r, input, policies, p).value)
    ensures PublicEntry(w, r, input, policies, p).value.fullDomain == p.host
  {
    hide InlineAuth;
    if PolicyFor(r, input, policies) == Ok("") { InlineAuthGood(w, r, input); }
  }

  lemma RouteEntryGood(w: World, r: Route, input: Inputs, policies: map<Name, ResourceVerdict>)
    requires TranslateRoute(w, r, input, policies).Ok?
    ensures var e := TranslateRoute(w, r, input, policies).value;
      match e.section
      case InPublic(res) => PublicGood(w, r, input, res) && e.hostnames == [res.fullDomain]
      case InPrivate(res) =>
        Place(r, input).Ok? && PrivateEntry(r, input, Place(r, input).value).Ok?
        && res == PrivateEntry(r, input, Place(r, input).value).value.0 && e.hostnames == [res.fullDomain]
  {
    hide Place;
    var p := Place(r, input).value;
    if WantsPrivate(r) == Ok(false) { PublicEntryGood(w, r, input, policies, p); }
  }

  // ---------- private entries ----------

  ghost predicate SitesKnown(input: Inputs, sites: seq<string>) {
    forall x :: x in sites ==> input.knownSites.Some? ==> x in input.knownSites.value
  }

  ghost predicate SomeKnown(names: seq<string>, known: Option<set<string>>) {
    names == [] || known.None? || exists n :: n in names && n in known.value
  }

  lemma GrantsGood(roles: seq<string>, users: seq<string>, machines: seq<string>, input: Inputs)
    requires PrivateGrants(roles, users, machines, input).Ok?
    ensures ADMIN_ROLE !in roles && SomeKnown(users, input.knownUsers) && SomeKnown(machines, input.knownMachines)
  {
    if input.knownUsers.Some? { SomeNameIsKnown(users, input.knownUsers.value); }
    if input.knownMachines.Some? { SomeNameIsKnown(machines, input.knownMachines.value); }
  }

  /** What translation guarantees of a private entry, whichever object it came from. */
  ghost predicate PrivateGood(w: World, input: Inputs, res: PrivateResource) {
    && PrivateSchema(w, res)
    && SitesKnown(input, res.sites)
    && SomeKnown(res.users, input.knownUsers) && SomeKnown(res.machines, input.knownMachines)
  }

  /** Its hostnames are the names the server checks. */
  ghost predicate NamesItsHosts(e: Entry, res: PrivateResource) {
    && (res.fullDomain != "" ==> res.fullDomain in e.hostnames)
    && (res.alias != "" ==> res.alias in e.hostnames)
  }

  lemma PrivateRouteGood(w: World, r: Route, input: Inputs, p: Placement)
    requires Place(r, input) == Ok(p) && PrivateEntry(r, input, p).Ok?
    ensures PrivateGood(w, input, PrivateEntry(r, input, p).value.0)
    ensures PrivateEntry(r, input, p).value.0.alias == "" && PrivateEntry(r, input, p).value.0.fullDomain == p.host
    ensures PrivateEntry(r, input, p).value.0.machines == []
    ensures PrivateEntry(r, input, p).value.0.users != [] ==> USERS in r.annotations
  {
    hide RouteShape, AnyAnnotated, Validators.ServerPortRanges, BlankEntry, TrimRight, SomeKnown;
    var res := PrivateEntry(r, input, p).value.0;
    assert PrivateGrants(res.roles, res.users, [], input).Ok?;
    GrantsGood(res.roles, res.users, [], input);
    assert |p.backend| >= |".svc.cluster.local"|;
    assert |p.name| > 0;
  }

  /** What the server asks of a destination, by mode. */
  predicate DestinationPasses(w: World, spec: PrivateSpec) {
    && spec.destination != "" && (spec.alias != "" ==> Validators.AliasName(spec.alias))
    && (spec.mode.Host? ==>
         w.isIP(spec.destination)
         || (Validators.Hostname(spec.destination) && spec.alias != "" && Validators.Hostname(spec.alias)))
    && (spec.mode.Cidr? ==> w.isCIDR(spec.destination) && spec.alias == "")
  }

  lemma DestinationGood(w: World, spec: PrivateSpec)
    requires ValidWorld(w) && (spec.mode.Host? || spec.mode.Cidr?) && ModeProblem(w, spec).None?
    ensures DestinationPasses(w, spec)
  {
    Validators.PatternsRefuseEmpty();
  }

  lemma PortsGood(w: World, spec: PrivateSpec)
    requires (spec.mode.Host? || spec.mode.Cidr?) && ModeProblem(w, spec).None?
    ensures Validators.ServerPortRanges(TrimSpace(spec.tcpPorts))
        && Validators.ServerPortRanges(TrimSpace(spec.udpPorts))
  {
    hide Validators.ServerPortRanges, Validators.ClientPortRanges, Validators.Hostname, Validators.AliasName, TrimSpace;
    Validators.PortValidatorsAgree(spec.tcpPorts);
    Validators.PortValidatorsAgree(spec.udpPorts);
  }

  lemma SchemaOfParts(w: World, spec: PrivateSpec, name: string, sites: seq<string>)
    requires (spec.mode.Host? || spec.mode.Cidr?) && name != "" && ADMIN_ROLE !in spec.roles
        && DestinationPasses(w, spec)
    requires Validators.ServerPortRanges(TrimSpace(spec.tcpPorts))
    requires Validators.ServerPortRanges(TrimSpace(spec.udpPorts))
    ensures PrivateSchema(w, ModeFields(spec, name, sites))
  {}

  lemma HostOrCidrGood(w: World, spec: PrivateSpec, name: string, sites: seq<string>)
    requires ValidWorld(w) && !spec.mode.Http? && ModeProblem(w, spec).None? && name != "" && ADMIN_ROLE !in spec.roles
    ensures PrivateSchema(w, ModeFields(spec, name, sites))
  {
    DestinationGood(w, spec);
    PortsGood(w, spec);
    SchemaOfParts(w, spec, name, sites);
  }

  lemma HttpGood(w: World, spec: PrivateSpec, name: string, sites: seq<string>)
    requires ValidWorld(w) && spec.mode.Http? && ModeProblem(w, spec).None? && name != "" && ADMIN_ROLE !in spec.roles
    ensures PrivateSchema(w, ModeFields(spec, name, sites))
  {
    Validators.PatternsRefuseEmpty();
  }

  lemma ModeGood(w: World, spec: PrivateSpec, name: string, sites: seq<string>)
    requires ValidWorld(w) && ModeProblem(w, spec).None? && name != "" && ADMIN_ROLE !in spec.roles
    ensures PrivateSchema(w, ModeFields(spec, name, sites))
  {
    if spec.mode.Http? { HttpGood(w, spec, name, sites); } else { HostOrCidrGood(w, spec, name, sites); }
  }

  lemma ShownNameNonEmpty(display: string, n: Name)
    requires ShownName(display, n).Some?
    ensures ShownName(display, n).value != ""
  {
    assert |n.ns + "/" + n.name| > 0;
  }

  lemma PrivateObjectGood(w: World, o: PrivateObject, input: Inputs)
    requires ValidWorld(w) && TranslatePrivate(w, o, input).Ok?
    ensures var e := TranslatePrivate(w, o, input).value;
      && e.section.InPrivate? && PrivateGood(w, input, e.section.private) && NamesItsHosts(e, e.section.private)
      && e.section.private.users == o.spec.users && e.section.private.machines == o.spec.machines
  {
    var spec, sites := o.spec, PrivateSites(o.spec, input);
    var name := ShownName(spec.displayName, o.name).value;
    SiteErrors(sites, input);
    GrantsGood(spec.roles, spec.users, spec.machines, input);
    ShownNameNonEmpty(spec.displayName, o.name);
    ModeGood(w, spec, name, sites);
  }

  // ---------- policies ----------

  lemma PolicyGood(w: World, p: PolicyObject, licensed: bool)
    requires TranslatePolicy(w, p, licensed).Ok?
    ensures PolicySchema(w, TranslatePolicy(w, p, licensed).value)
            <==> ByteLen(TranslatePolicy(w, p, licensed).value.name) <= 255
  {
    var policy := TranslatePolicy(w, p, licensed).value;
    ShownNameNonEmpty(p.spec.displayName, p.name);
    ValidRulesPass(w, p.spec.rules);
    var entries := Validators.LowerAll(Validators.TrimAll(p.spec.emailWhitelist));
    Validators.DedupKeepsMembers(entries);
    forall e | e in policy.whitelist ensures Validators.ValidEmail(e) || Validators.WildcardEmail(e) {
      assert Validators.PolicyEntry(e);
    }
  }

  // ---------- certificates ----------

  lemma CertificateIsNoKey()
    ensures !Contains("CERTIFICATE", "PRIVATE KEY")
  {
    var s, part := "CERTIFICATE", "PRIVATE KEY";
    forall i | 0 <= i <= |s| ensures !(part <= s[i..]) {
      if i == 0 { assert s[0..][0] == 'C' && part[0] == 'P'; } else { assert |s[i..]| < |part|; }
    }
  }

  lemma {:induction false} CleanBlocks(w: World, certs: seq<string>)
    requires forall c :: c in certs ==> |w.pem(c)| == 1 && w.pem(c)[0].typ == "CERTIFICATE" && w.parses(w.pem(c)[0].der)
    ensures |Blocks(w, certs)| == |certs|
    ensures forall b :: b in Blocks(w, certs) ==> b.typ == "CERTIFICATE" && w.parses(b.der)
  {
    if certs != [] {
      CleanBlocks(w, certs[..|certs| - 1]);
      assert certs[|certs| - 1] in certs;
    }
  }

  lemma {:induction false} FingerprintsBounded(w: World, bs: seq<PemBlock>)
    ensures |CertFingerprints(w, bs)| <= |bs|
  {
    if bs != [] { FingerprintsBounded(w, bs[..|bs| - 1]); }
  }

  lemma {:induction false} DedupBounded(entries: seq<string>)
    ensures |Validators.Dedup(entries)| <= |entries|
  {
    if entries != [] { DedupBounded(entries[..|entries| - 1]); }
  }

  lemma CleanCAsParse(w: World, certs: seq<string>)
    requires CleanCAs(w, certs)
    ensures ParsedCAs(w, certs).Some?
  {
    CleanBlocks(w, certs);
    CertificateIsNoKey();
    FingerprintsBounded(w, Blocks(w, certs));
    DedupBounded(CertFingerprints(w, Blocks(w, certs)));
  }

  // ---------- the document ----------

  /** No stored private resource outside the document holds one of its aliases. */
  ghost predicate AliasesFree(s: ServerState, b: Blueprint) {
    forall k :: k in b.private && b.private[k].alias != "" ==> !AliasTakenInStore(s, b, b.private[k].alias)
  }

  ghost predicate PolicyNamesFit(b: Blueprint) {
    forall k :: k in b.policies ==> ByteLen(b.policies[k].name) <= 255
  }

  /** The one condition translation does not establish by itself. */
  ghost predicate Clear(s: ServerState, b: Blueprint) {
    (b.policies != map[] ==> s.licensed) && PolicyNamesFit(b) && AliasesFree(s, b)
  }

  /** One public entry passes the checks that look at it alone. */
  ghost predicate PublicPasses(w: World, s: ServerState, res: PublicResource) {
    && RulesPass(w, res.rules)
    && (forall e :: e in res.auth.whitelist ==> Validators.ValidEmail(e))
    && (forall t :: t in res.targets ==> t.site in s.sites)
    && (SentCAs(res).Some? ==> ParsedCAs(w, SentCAs(res).value).Some?)
  }

  ghost predicate AllPublicPass(w: World, s: ServerState, b: Blueprint) {
    forall k :: k in b.public ==> PublicPasses(w, s, b.public[k])
  }

  lemma GoodPublicPasses(w: World, r: Route, input: Inputs, s: ServerState, res: PublicResource)
    requires Informed(w, input, s) && PublicGood(w, r, input, res)
    ensures PublicPasses(w, s, res)
  {
    hide RulesPass, Validators.ValidEmail, DistinctObjects, ValidWorld, AsksForUsers, AsksForMachines, UserIds;
    var mtls := MTLSFor(r, input).value;
    if mtls.certificates == [] {
      assert Blocks(w, []) == [] && CertFingerprints(w, []) == [];
    } else {
      CleanCAsParse(w, mtls.certificates);
    }
  }

  /** Every rendered public entry passes. */
  lemma PublicSide(w: World, input: Inputs, s: ServerState)
    requires Informed(w, input, s)
    ensures AllPublicPass(w, s, RenderedOf(w, input).blueprint)
  {
    hide RenderedOf, TranslateRoute, PublicGood, PublicPasses;
    var b := RenderedOf(w, input).blueprint;
    forall k | k in b.public ensures PublicPasses(w, s, b.public[k]) {
      var r := PublicEntryIsARoutes(w, input, k);
      RouteEntryGood(w, r, input, PolicyVerdicts(w, input));
      GoodPublicPasses(w, r, input, s, b.public[k]);
    }
  }

  lemma CandidateGood(w: World, input: Inputs, c: Candidate)
    requires ValidWorld(w) && DistinctObjects(input) && c in AllCandidates(w, input) && c.entry.section.InPrivate?
    ensures PrivateGood(w, input, c.entry.section.private) && NamesItsHosts(c.entry, c.entry.section.private)
    ensures c.entry.section.private.users != [] ==> AsksForUsers(input)
    ensures c.entry.section.private.machines != [] ==> AsksForMachines(input)
  {
    hide TranslateRoute;
    match c.claimant.kind {
      case HTTPRouteKind =>
        var r := RouteOfCandidate(w, input, c);
        RouteEntryGood(w, r, input, PolicyVerdicts(w, input));
        PrivateRouteGood(w, r, input, Place(r, input).value);
      case PrivateResourceKind =>
        var o := ResourceOfCandidate(w, input, c);
        PrivateObjectGood(w, o, input);
    }
  }

  lemma KnownUserIsNamed(s: ServerState, names: seq<string>)
    requires SomeKnown(names, Some(UserIds(s.users)))
    ensures names == [] || NamesUser(s, names)
  {
    if names != [] {
      var n :| n in names && n in UserIds(s.users);
      var u :| u in s.users && (u.username == n || u.email == n);
    }
  }

  /** One private entry passes the checks that look at it alone. */
  ghost predicate PrivateStands(w: World, s: ServerState, res: PrivateResource) {
    PrivateSchema(w, res) && (forall x :: x in res.sites ==> x in s.sites) && GrantsPass(s, res)
  }

  ghost predicate AllPrivateStand(w: World, s: ServerState, b: Blueprint) {
    forall k :: k in b.private ==> PrivateStands(w, s, b.private[k])
  }

  lemma GoodPrivateStands(w: World, input: Inputs, s: ServerState, res: PrivateResource)
    requires Informed(w, input, s) && PrivateGood(w, input, res)
    requires (res.users != [] ==> AsksForUsers(input)) && (res.machines != [] ==> AsksForMachines(input))
    ensures PrivateStands(w, s, res)
  {
    hide PrivateSchema, DistinctObjects, ValidWorld, AsksForUsers, AsksForMachines, UserIds;
    if res.users != [] { KnownUserIsNamed(s, res.users); }
    if res.machines != [] {
      var m :| m in res.machines && m in s.machines;
    }
  }

  /** Every rendered private entry passes them. */
  lemma PrivateSide(w: World, input: Inputs, s: ServerState)
    requires Informed(w, input, s)
    ensures AllPrivateStand(w, s, RenderedOf(w, input).blueprint)
  {
    hide RenderedOf, AllCandidates, PrivateGood, PrivateStands, NamesItsHosts, AsksForUsers, AsksForMachines;
    var b := RenderedOf(w, input).blueprint;
    forall k | k in b.private ensures PrivateStands(w, s, b.private[k]) {
      var c := PrivateEntryIsAnObjects(w, input, k);
      CandidateGood(w, input, c);
      GoodPrivateStands(w, input, s, b.private[k]);
    }
  }

  /** Two entries of one section never share a folded name. */
  lemma HostsApart(w: World, input: Inputs, a: Candidate, b: Candidate, h: string)
    requires DistinctObjects(input) && a in AllCandidates(w, input) && b in AllCandidates(w, input)
    requires Laws.Publishes(ResolveCandidates(AllCandidates(w, input)), a, a.entry.key)
    requires Laws.Publishes(ResolveCandidates(AllCandidates(w, input)), b, b.entry.key)
    requires IsPublic(a.entry) == IsPublic(b.entry) && h in a.entry.hostnames && h in b.entry.hostnames
    ensures a == b
  {
    CandidatesDistinct(w, input);
    if a != b {
      Laws.PublishedDoNotConflict(AllCandidates(w, input), a, b);
      var i :| 0 <= i < |a.entry.hostnames| && a.entry.hostnames[i] == h;
      var j :| 0 <= j < |b.entry.hostnames| && b.entry.hostnames[j] == h;
      assert Holds(a.entry, ToLower(h)) && Holds(b.entry, ToLower(h));
    }
  }

  lemma PublicDomainsDiffer(w: World, input: Inputs)
    requires DistinctObjects(input)
    ensures PublicDomainsUnique(RenderedOf(w, input).blueprint.public)
  {
    hide PoliciesRendered;
    var m := RenderedOf(w, input).blueprint.public;
    CandidatesDistinct(w, input);
    forall a, b | a in m && b in m && a != b && m[a].fullDomain != "" ensures m[a].fullDomain != m[b].fullDomain {
      var x := Laws.PublicEntryHasOwner(AllCandidates(w, input), a);
      var y := Laws.PublicEntryHasOwner(AllCandidates(w, input), b);
      PublicHostnames(w, input, x);
      PublicHostnames(w, input, y);
      if m[a].fullDomain == m[b].fullDomain { HostsApart(w, input, x, y, m[a].fullDomain); }
    }
  }

  lemma PublicHostnames(w: World, input: Inputs, c: Candidate)
    requires DistinctObjects(input) && c in AllCandidates(w, input) && c.entry.section.InPublic?
    ensures c.entry.hostnames == [c.entry.section.public.fullDomain]
  {
    CandidateKeys(w, input, c);
    var r := RouteOfCandidate(w, input, c);
    RouteEntryGood(w, r, input, PolicyVerdicts(w, input));
  }

  /** Neither a domain nor an alias repeats among the private entries. */
  lemma PrivateNamesDiffer(w: World, input: Inputs)
    requires ValidWorld(w) && DistinctObjects(input)
    ensures var m := RenderedOf(w, input).blueprint.private;
      && PrivateDomainsUnique(m)
      && forall a, b :: a in m && b in m && a != b && m[a].alias != "" ==> m[a].alias != m[b].alias
  {
    hide PoliciesRendered, Place, RouteVerdicts;
    var m := RenderedOf(w, input).blueprint.private;
    CandidatesDistinct(w, input);
    forall a, b | a in m && b in m && a != b
      ensures m[a].fullDomain != "" ==> m[a].fullDomain != m[b].fullDomain
      ensures m[a].alias != "" ==> m[a].alias != m[b].alias
    {
      var x := Laws.PrivateEntryHasOwner(AllCandidates(w, input), a);
      var y := Laws.PrivateEntryHasOwner(AllCandidates(w, input), b);
      CandidateGood(w, input, x);
      CandidateGood(w, input, y);
      if m[a].fullDomain != "" && m[a].fullDomain == m[b].fullDomain { HostsApart(w, input, x, y, m[a].fullDomain); }
      if m[a].alias != "" && m[a].alias == m[b].alias { HostsApart(w, input, x, y, m[a].alias); }
    }
  }

  lemma PolicySide(w: World, input: Inputs, k: string)
    requires DistinctObjects(input) && k in RenderedOf(w, input).blueprint.policies
    ensures var p := RenderedOf(w, input).blueprint.policies[k];
            PolicySchema(w, p) <==> ByteLen(p.name) <= 255
  {
    hide RouteVerdicts;
    var p := PolicyEntryHasOwner(w, input.licensed, input.policies, k);
    PolicyGood(w, p, input.licensed);
  }

  lemma PoliciesSide(w: World, input: Inputs, s: ServerState)
    requires Informed(w, input, s)
    ensures var b := RenderedOf(w, input).blueprint;
            PoliciesPass(w, s, b) <==> (b.policies != map[] ==> s.licensed) && PolicyNamesFit(b)
  {
    hide RenderedOf;
    var b := RenderedOf(w, input).blueprint;
    forall k | k in b.policies ensures PolicySchema(w, b.policies[k]) <==> ByteLen(b.policies[k].name) <= 255 {
      PolicySide(w, input, k);
    }
    assert b.policies != map[] ==> exists k :: k in b.policies;
    if (b.policies != map[] ==> s.licensed) && PolicyNamesFit(b) {
      PublicSide(w, input, s);
      forall k | k in b.public ensures ResourcePolicyPasses(s, b, b.public[k]) {
        if b.public[k].policy != "" {
          var r, p := PolicyReferenceIntegrity(w, input, k);
        }
      }
    }
  }

  ghost predicate AllNamesFree(s: ServerState, b: Blueprint) { forall k :: k in b.private ==> PrivatePasses(s, b, k) }

  lemma PrivatePassIff(w: World, input: Inputs, s: ServerState)
    requires Informed(w, input, s)
    ensures var b := RenderedOf(w, input).blueprint; AllNamesFree(s, b) <==> AliasesFree(s, b)
  {
    hide RenderedOf, PrivateSchema;
    PrivateSide(w, input, s);
    PrivateNamesDiffer(w, input);
  }

  /** The server accepts a rendered blueprint exactly when it has the licence the
      policies need, no policy name is longer than 255 bytes, and no stored private
      resource outside the document holds an alias of the document. */
  lemma AcceptedExactlyWhenClear(w: World, input: Inputs, s: ServerState)
    requires Informed(w, input, s)
    ensures Acceptable(w, s, RenderedOf(w, input).blueprint) <==> Clear(s, RenderedOf(w, input).blueprint)
  {
    hide RenderedOf, RulesPass, PrivateSchema, GrantsPass, ParsedCAs, PrivatePasses, PoliciesPass, AliasesFree,
         PolicyNamesFit, PublicDomainsUnique, PrivateDomainsUnique;
    PublicSide(w, input, s);
    PrivateSide(w, input, s);
    PrivatePassIff(w, input, s);
    PublicDomainsDiffer(w, input);
    PrivateNamesDiffer(w, input);
    PoliciesSide(w, input, s);
    assert SitesPass(s, RenderedOf(w, input).blueprint);
    assert CAsPass(w, s, RenderedOf(w, input).blueprint);
  }
}
