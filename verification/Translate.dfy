/** Validating one HTTPRoute or PrivateResource and building its blueprint entry:
    translate, publicResource, privateResource, inlineAuth and translatePrivateResource
    of internal/gateway. An error is the condition that rejects the object. */
module Translate {
  import opened Text
  import opened Types
  import opened Policies
  import opened Collisions
  import Validators

  // ---------- annotations ----------

  const SSO := "pangolin.p3l1.de/sso"
  const SITE := "pangolin.p3l1.de/site"
  const DISPLAY_NAME := "pangolin.p3l1.de/display-name"
  const VISIBILITY := "pangolin.p3l1.de/visibility"
  const ROLES := "pangolin.p3l1.de/roles"
  const USERS := "pangolin.p3l1.de/users"
  const BASIC_AUTH := "pangolin.p3l1.de/basic-auth"
  const PINCODE := "pangolin.p3l1.de/pincode"
  const ACCESS_RULES := "pangolin.p3l1.de/access-rules"
  const EMAIL_WHITELIST := "pangolin.p3l1.de/email-whitelist"
  const POLICY := "pangolin.p3l1.de/policy"
  const MTLS_CA := "pangolin.p3l1.de/mtls-ca"
  const MTLS_CA_SECRET := "pangolin.p3l1.de/mtls-ca-secret"
  const MTLS_CA_CONFIGMAP := "pangolin.p3l1.de/mtls-ca-configmap"

  const MTLS_ANNOTATIONS := [MTLS_CA, MTLS_CA_SECRET, MTLS_CA_CONFIGMAP]
  const POLICY_CONFLICTS := [SSO, PINCODE, BASIC_AUTH, ACCESS_RULES, ROLES, USERS, EMAIL_WHITELIST] + MTLS_ANNOTATIONS
  const NOT_ON_PRIVATE := [SSO, ACCESS_RULES, BASIC_AUTH, PINCODE, EMAIL_WHITELIST] + MTLS_ANNOTATIONS
  const HEALTHCHECK_ANNOTATIONS := [
    "pangolin.p3l1.de/healthcheck-path", "pangolin.p3l1.de/healthcheck-mode",
    "pangolin.p3l1.de/healthcheck-interval", "pangolin.p3l1.de/healthcheck-timeout",
    "pangolin.p3l1.de/healthcheck-status", "pangolin.p3l1.de/healthcheck-method",
    "pangolin.p3l1.de/healthcheck-follow-redirects"]

  function Annotated(r: Route, a: string): Option<string> {
    if a in r.annotations then Some(r.annotations[a]) else None
  }

  /** The value of an annotation, empty when absent. */
  function Value(r: Route, a: string): string { if a in r.annotations then r.annotations[a] else "" }

  predicate AnyAnnotated(r: Route, names: seq<string>) { exists a | a in names :: a in r.annotations }

  function BoolAnnotation(r: Route, a: string, fallback: bool): Result<bool, Message> {
    var v := Value(r, a);
    if v == "" then Ok(fallback)
    else if ToLower(v) == "true" then Ok(true)
    else if ToLower(v) == "false" then Ok(false)
    else Err(Quote(a, v))
  }

  function Required<T>(v: Option<T>, why: Message): Result<T, Message> {
    if v.Some? then Ok(v.value) else Err(why)
  }

  function Check(ok: bool, why: Message): Result<(), Message> { if ok then Ok(()) else Err(why) }

  /** True for the private section, false for the public one. */
  function WantsPrivate(r: Route): Result<bool, Message> {
    var v := Value(r, VISIBILITY);
    if v == "" || v == "public" then Ok(false)
    else if v == "private" then Ok(true)
    else Err(Quote(VISIBILITY, v))
  }

  predicate MTLSRequested(r: Route) { exists a | a in MTLS_ANNOTATIONS :: Value(r, a) != "" }

  function BasicAuthRequested(r: Route): Result<bool, Message> { BoolAnnotation(r, BASIC_AUTH, false) }

  // ---------- keys ----------

  function Key(n: Name): string { KEY_PREFIX + n.ns + "-" + n.name }

  function PrivateResourceKey(n: Name): string { KEY_PREFIX + "pr-" + n.ns + "-" + n.name }

  // ---------- grants on a private entry ----------

  function Unknown(names: seq<string>, known: set<string>): seq<string> {
    if names == [] then []
    else
      var front := Unknown(names[..|names| - 1], known);
      if names[|names| - 1] in known then front else front + [names[|names| - 1]]
  }

  /** One list against its listing: an error when none of its names exist, a note
      when only some do. */
  function GrantNotes(list: string, reason: Reason, names: seq<string>, known: Option<set<string>>)
    : Result<seq<Note>, ConditionResult>
  {
    if known.None? || names == [] then Ok([])
    else
      var unknown := Unknown(names, known.value);
      if |unknown| == |names| then Err(ConditionResult(false, reason, Quote("none exist", list)))
      else if unknown != [] then Ok([Ignored(list, unknown)])
      else Ok([])
  }

  function PrivateGrants(roles: seq<string>, users: seq<string>, machines: seq<string>, input: Inputs)
    : Result<seq<Note>, ConditionResult>
  {
    if BlankEntry(roles) then Err(Invalid("roles has an empty entry"))
    else if BlankEntry(users) then Err(Invalid("users has an empty entry"))
    else if BlankEntry(machines) then Err(Invalid("machines has an empty entry"))
    else if ADMIN_ROLE in roles then Err(Invalid("roles must not name Admin"))
    else
      var u :- GrantNotes("users", ReasonUnknownUser, users, input.knownUsers);
      var m :- GrantNotes("machines", ReasonUnknownMachine, machines, input.knownMachines);
      Ok(u + m)
  }

  /** The loop of checkPrivateGrants that collects the names nobody has. */
  method UnknownNames(names: seq<string>, known: set<string>) returns (unknown: seq<string>)
    ensures unknown == Unknown(names, known)
  {
    unknown := [];
    var i := 0;
    while i < |names|
      invariant 0 <= i <= |names|
      invariant unknown == Unknown(names[..i], known)
    {
      assert names[..i + 1][..i] == names[..i];
      if names[i] !in known { unknown := unknown + [names[i]]; }
      i := i + 1;
    }
    assert names[..i] == names;
  }

  /** A list passes exactly when no listing is held against it or one of its names
      is listed. */
  lemma {:induction false} SomeNameIsKnown(names: seq<string>, known: set<string>)
    ensures |Unknown(names, known)| <= |names|
    ensures |Unknown(names, known)| == |names| <==> forall n :: n in names ==> n !in known
  {
    if names != [] {
      SomeNameIsKnown(names[..|names| - 1], known);
      assert names == names[..|names| - 1] + [names[|names| - 1]];
    }
  }

  // ---------- HTTPRoute ----------

  function Unsupported(why: Message): ConditionResult { ConditionResult(false, ReasonUnsupportedValue, why) }

  function AsCondition<T>(r: Result<T, Message>): Result<T, ConditionResult> {
    match r case Ok(v) => Ok(v) case Err(e) => Err(Unsupported(e))
  }

  /** One hostname, no wildcard, one rule without filters, one same-namespace Service
      backend with a port. */
  function RouteShape(r: Route): Result<(string, BackendRef), ConditionResult> {
    if |r.hostnames| == 0 then Err(Unsupported(Say("a hostname is required")))
    else if |r.hostnames| > 1 then Err(Unsupported(Say("one hostname per route")))
    else if HasPrefix(r.hostnames[0], "*") then Err(Unsupported(Quote("no wildcard resources", r.hostnames[0])))
    else if |r.rules| != 1 then Err(Unsupported(Say("exactly one rule per route")))
    else if r.rules[0].filters > 0 then Err(Unsupported(Say("no route filters")))
    else if |r.rules[0].backendRefs| != 1 then Err(Unsupported(Say("exactly one backendRef per route")))
    else
      var b := r.rules[0].backendRefs[0];
      if b.kind.Some? && b.kind.value != "Service" then
        Err(ConditionResult(false, ReasonInvalidKind, Quote("backendRef kind", b.kind.value)))
      else if b.group.Some? && b.group.value != "" then
        Err(ConditionResult(false, ReasonInvalidKind, Quote("backendRef group", b.group.value)))
      else if b.ns.Some? && b.ns.value != r.name.ns then
        Err(ConditionResult(false, ReasonRefNotPermitted, Quote("cross-namespace backendRef", b.ns.value)))
      else if b.port.None? then Err(Unsupported(Say("backendRef has no port")))
      else Ok((r.hostnames[0], b))
  }

  function RouteName(r: Route): Result<string, ConditionResult> {
    if DISPLAY_NAME !in r.annotations then Ok(r.name.ns + "/" + r.name.name)
    else if TrimSpace(r.annotations[DISPLAY_NAME]) == "" then Err(Unsupported(Say("display name is empty")))
    else Ok(TrimSpace(r.annotations[DISPLAY_NAME]))
  }

  function KnownSite(site: string, input: Inputs): Result<(), ConditionResult> {
    if input.knownSites.Some? && site !in input.knownSites.value
    then Err(ConditionResult(false, ReasonUnknownSite, Quote("site does not exist", site)))
    else Ok(())
  }

  /** What both visibilities share: where the route lives and what it points at. */
  datatype Placement = Placement(name: string, host: string, site: string, backend: string, port: int)

  function Place(r: Route, input: Inputs): Result<Placement, ConditionResult> {
    var shape :- RouteShape(r);
    var name :- RouteName(r);
    var site := if Value(r, SITE) != "" then Value(r, SITE) else input.defaultSite;
    var _ :- KnownSite(site, input);
    Ok(Placement(name, shape.0, site, shape.1.name + "." + r.name.ns + ".svc.cluster.local",
                 if shape.1.port.Some? then shape.1.port.value else 0))
  }

  /** The key of the policy a route references, or empty for none. */
  function PolicyFor(r: Route, input: Inputs, policies: map<Name, ResourceVerdict>): Result<string, Message> {
    var name := TrimSpace(Value(r, POLICY));
    if name == "" then Ok("")
    else if !input.licensed then Err(Say("shared policies are licensed"))
    else if exists a | a in POLICY_CONFLICTS :: TrimSpace(Value(r, a)) != "" then Err(Say("conflicts with the policy"))
    else
      var n := Name(r.name.ns, name);
      if n !in policies then Err(Quote("no such ResourcePolicy", name))
      else if !policies[n].Published() then Err(Because("ResourcePolicy not accepted", policies[n].accepted.message))
      else Ok(policies[n].key)
  }

  const NO_CREDENTIALS := Say("basic auth asked for, but no credentials were resolved")
  const NO_CA := Say("mTLS asked for, but no CA was resolved")

  function BasicAuthFor(r: Route, input: Inputs): Result<Option<BasicAuth>, Message> {
    var requested :- BasicAuthRequested(r);
    if !requested then Ok(None)
    else if r.name !in input.basicAuth then Err(NO_CREDENTIALS)
    else if input.basicAuth[r.name].credentials.None? then
      Err(Because("basic auth credentials are unavailable", input.basicAuth[r.name].reason))
    else Ok(Some(input.basicAuth[r.name].credentials.value.(extended := true)))
  }

  /** Sent on every pass: the resolved CAs, or the disabled block that clears them. */
  function MTLSFor(r: Route, input: Inputs): Result<MTLS, Message> {
    if !MTLSRequested(r) then Ok(MTLS(false, []))
    else if r.name !in input.mtls then Err(NO_CA)
    else match input.mtls[r.name]
      case Untrusted(reason) => Err(Because("mTLS CA is unavailable", reason))
      case Trusted(certs) => if certs == [] then Err(Say("the resolved CA set is empty")) else Ok(MTLS(true, certs))
  }

  function RulesFor(w: World, r: Route): Result<seq<Rule>, Message> {
    var raw := Value(r, ACCESS_RULES);
    if TrimSpace(raw) == "" then Ok([])
    else
      var specs :- Required(w.decodeRules(raw), Say("access rules are not a YAML list"));
      CheckedRules(w, specs)
  }

  function SharedPolicyAuth(r: Route, input: Inputs): Result<(Auth, seq<Rule>), Message> {
    var mtls :- MTLSFor(r, input);
    Ok((Auth(false, None, None, Some(mtls), [], [], []), []))
  }

  /** Whether visitors sign in, and the roles and users let in when they do. */
  datatype SignIn = SignIn(sso: bool, roles: seq<string>, users: seq<string>)

  function SignInFor(r: Route): Result<SignIn, Message> {
    var sso :- BoolAnnotation(r, SSO, true);
    var _ :- Check(sso || !AnyAnnotated(r, [ROLES, USERS]), Say("grants without sign-in"));
    var roles :- Required(Validators.GrantNames(Annotated(r, ROLES)), Say("roles"));
    var users :- Required(Validators.GrantNames(Annotated(r, USERS)), Say("users"));
    Ok(SignIn(sso, roles, users))
  }

  function InlineAuth(w: World, r: Route, input: Inputs): Result<(Auth, seq<Rule>), Message> {
    var sign :- SignInFor(r);
    var basicAuth :- BasicAuthFor(r, input);
    var pincode :- Required(w.pincode(Value(r, PINCODE)), Say("pincode"));
    var whitelist :- Required(Validators.InlineWhitelist(Value(r, EMAIL_WHITELIST)), Say("email whitelist"));
    var mtls :- MTLSFor(r, input);
    var rules :- RulesFor(w, r);
    Ok((Auth(sign.sso, basicAuth, pincode, Some(mtls), sign.roles, sign.users, whitelist), rules))
  }

  function PublicEntry(w: World, r: Route, input: Inputs, policies: map<Name, ResourceVerdict>, p: Placement)
    : Result<PublicResource, Message>
  {
    var policy :- PolicyFor(r, input, policies);
    var auth :- if policy != "" then SharedPolicyAuth(r, input) else InlineAuth(w, r, input);
    var target := Target(p.site, p.backend, p.port, None);
    var check :- Required(w.healthcheck(r.annotations, target), Say("healthcheck"));
    Ok(PublicResource(p.name, p.host, auth.0, policy, [target.(healthcheck := check)], auth.1))
  }

  function PrivateEntry(r: Route, input: Inputs, p: Placement): Result<(PrivateResource, seq<Note>), Message> {
    var _ :- Check(!AnyAnnotated(r, NOT_ON_PRIVATE), Say("no meaning on a private route"));
    var _ :- Check(TrimSpace(Value(r, POLICY)) == "", Say("no policy on a private route"));
    var _ :- Check(!AnyAnnotated(r, HEALTHCHECK_ANNOTATIONS), Say("no healthcheck on a private route"));
    var roles :- Required(Validators.GrantNames(Annotated(r, ROLES)), Say("roles"));
    var users :- Required(Validators.GrantNames(Annotated(r, USERS)), Say("users"));
    match PrivateGrants(roles, users, [], input)
    case Err(c) => Err(c.message)
    case Ok(notes) =>
      Ok((PrivateResource(p.name, Http, [p.site], p.backend, p.port, p.host, "http", None, "",
                          None, None, None, roles, users, []), notes))
  }

  function TranslateRoute(w: World, r: Route, input: Inputs, policies: map<Name, ResourceVerdict>)
    : Result<Entry, ConditionResult>
  {
    var p :- Place(r, input);
    var private :- AsCondition(WantsPrivate(r));
    if private then
      var e :- AsCondition(PrivateEntry(r, input, p));
      Ok(Entry(Key(r.name), [p.host], e.1, InPrivate(e.0)))
    else
      var e :- AsCondition(PublicEntry(w, r, input, policies, p));
      Ok(Entry(Key(r.name), [p.host], [], InPublic(e)))
  }

  // ---------- PrivateResource ----------

  function PrivateSites(spec: PrivateSpec, input: Inputs): seq<string> {
    if spec.sites == [] then [input.defaultSite] else spec.sites
  }

  function CheckSites(sites: seq<string>, input: Inputs): Result<(), ConditionResult> {
    if sites == [] then Ok(())
    else if TrimSpace(sites[0]) == "" then Err(Invalid("sites has an empty entry"))
    else
      var _ :- KnownSite(sites[0], input);
      CheckSites(sites[1..], input)
  }

  predicate AddressOrHostname(w: World, s: string) { w.isIP(s) || Validators.Hostname(s) }

  /** The fields a host or cidr resource may not set, and the checks on the rest. */
  function HostOrCidrProblem(w: World, spec: PrivateSpec): Option<string> {
    if spec.fullDomain != "" || spec.ssl.Some? || spec.scheme != "" || spec.destinationPort != 0
    then Some("field has no meaning in this mode")
    else if spec.mode.Host? && !AddressOrHostname(w, spec.destination) then Some("destination")
    else if spec.mode.Host? && !w.isIP(spec.destination) && spec.alias == "" then Some("alias is required")
    else if spec.mode.Host? && spec.alias != "" && !Validators.AliasName(spec.alias) then Some("alias")
    else if spec.mode.Host? && !w.isIP(spec.destination) && !Validators.Hostname(spec.alias) then Some("alias wildcard")
    else if spec.mode.Cidr? && !w.isCIDR(spec.destination) then Some("destination is not a CIDR block")
    else if spec.mode.Cidr? && spec.alias != "" then Some("alias has no meaning in mode cidr")
    else if !Validators.ClientPortRanges(spec.tcpPorts) then Some("tcpPorts")
    else if !Validators.ClientPortRanges(spec.udpPorts) then Some("udpPorts")
    else None
  }

  function HttpProblem(w: World, spec: PrivateSpec): Option<string> {
    if spec.tcpPorts != "" || spec.udpPorts != "" || spec.disableIcmp || spec.alias != ""
    then Some("field has no meaning in mode http")
    else if spec.fullDomain == "" then Some("fullDomain is required")
    else if HasPrefix(spec.fullDomain, "*") then Some("no wildcard resources")
    else if !Validators.Hostname(spec.fullDomain) then Some("fullDomain")
    else if !AddressOrHostname(w, spec.destination) then Some("destination")
    else if spec.destinationPort == 0 then Some("destinationPort is required")
    else None
  }

  function ModeProblem(w: World, spec: PrivateSpec): Option<string> {
    match spec.mode
    case Host => HostOrCidrProblem(w, spec)
    case Cidr => HostOrCidrProblem(w, spec)
    case Http => HttpProblem(w, spec)
    case Unsupported(_) => Some("mode is not supported")
  }

  function ModeFields(spec: PrivateSpec, name: string, sites: seq<string>): PrivateResource {
    var grants := PrivateResource(name, spec.mode, sites, spec.destination, 0, "", "", None, "", None, None, None,
                                  spec.roles, spec.users, spec.machines);
    if spec.mode.Http? then
      grants.(fullDomain := spec.fullDomain, scheme := if spec.scheme != "" then spec.scheme else "http",
              ssl := Some(spec.ssl.None? || spec.ssl.value), destinationPort := spec.destinationPort)
    else
      grants.(alias := if spec.mode.Host? then spec.alias else "",
              tcpPorts := Some(TrimSpace(spec.tcpPorts)), udpPorts := Some(TrimSpace(spec.udpPorts)),
              disableIcmp := Some(spec.disableIcmp))
  }

  function ResourceHostnames(res: PrivateResource): seq<string> {
    if res.mode.Http? then [res.fullDomain] else if res.alias != "" then [res.alias] else []
  }

  function TranslatePrivate(w: World, o: PrivateObject, input: Inputs): Result<Entry, ConditionResult> {
    var spec := o.spec;
    var shown := ShownName(spec.displayName, o.name);
    var sites := PrivateSites(spec, input);
    if shown.None? then Err(Invalid("displayName is blank"))
    else
      var _ :- CheckSites(sites, input);
      var problem := ModeProblem(w, spec);
      if problem.Some? then Err(Invalid(problem.value))
      else
        var notes :- PrivateGrants(spec.roles, spec.users, spec.machines, input);
        var res := ModeFields(spec, shown.value, sites);
        Ok(Entry(PrivateResourceKey(o.name), ResourceHostnames(res), notes, InPrivate(res)))
  }
}
