/** The values the controller moves around: cluster objects, blueprint entries,
    verdicts, and the foreign code both sides of the API agree on. */
module Types {
  import opened Text

  datatype Result<+T, +E> = Ok(value: T) | Err(error: E) {
    predicate IsFailure() { Err? }

    function PropagateFailure<U>(): Result<U, E>
      requires Err?
    {
      Err(error)
    }

    function Extract(): T
      requires Ok?
    {
      value
    }
  }

  /** types.NamespacedName. */
  datatype Name = Name(ns: string, name: string)

  // ---------- blueprint ----------

  datatype Rule = Rule(action: string, match_: string, value: string)

  datatype BasicAuth = BasicAuth(user: string, password: string, extended: bool)

  datatype MTLS = MTLS(enabled: bool, certificates: seq<string>)

  datatype Auth = Auth(
    sso: bool, basicAuth: Option<BasicAuth>, pincode: Option<int>, mtls: Option<MTLS>,
    roles: seq<string>, users: seq<string>, whitelist: seq<string>)

  datatype Healthcheck = Healthcheck(settings: string)

  datatype Target = Target(site: string, hostname: string, port: int, healthcheck: Option<Healthcheck>)

  datatype PublicResource = PublicResource(
    name: string, fullDomain: string, auth: Auth, policy: string, targets: seq<Target>, rules: seq<Rule>)

  datatype Mode = Host | Cidr | Http | Unsupported(text: string)

  datatype PrivateResource = PrivateResource(
    name: string, mode: Mode, sites: seq<string>, destination: string, destinationPort: int,
    fullDomain: string, scheme: string, ssl: Option<bool>, alias: string,
    tcpPorts: Option<string>, udpPorts: Option<string>, disableIcmp: Option<bool>,
    roles: seq<string>, users: seq<string>, machines: seq<string>)

  datatype PublicPolicy = PublicPolicy(
    name: string, sso: bool, roles: seq<string>, users: seq<string>, pincode: string,
    whitelistEnabled: bool, whitelist: seq<string>, applyRules: bool, rules: seq<Rule>)

  datatype Blueprint = Blueprint(
    public: map<string, PublicResource>,
    private: map<string, PrivateResource>,
    policies: map<string, PublicPolicy>)

  // ---------- cluster objects ----------

  datatype ParentRef = ParentRef(
    group: Option<string>, kind: Option<string>, ns: Option<string>, name: string,
    section: Option<string>, port: Option<int>)

  datatype BackendRef = BackendRef(
    group: Option<string>, kind: Option<string>, ns: Option<string>, name: string, port: Option<int>)

  datatype RouteRule = RouteRule(filters: nat, backendRefs: seq<BackendRef>)

  datatype Route = Route(
    name: Name, uid: string, generation: int, createdAt: int, annotations: map<string, string>,
    hostnames: seq<string>, parentRefs: seq<ParentRef>, rules: seq<RouteRule>)

  datatype Gateway = Gateway(name: Name, generation: int, class_: string)

  datatype GatewayClass = GatewayClass(name: string, generation: int, controllerName: string)

  datatype PrivateSpec = PrivateSpec(
    displayName: string, mode: Mode, sites: seq<string>, destination: string,
    tcpPorts: string, udpPorts: string, disableIcmp: bool, alias: string,
    fullDomain: string, ssl: Option<bool>, scheme: string, destinationPort: int,
    roles: seq<string>, users: seq<string>, machines: seq<string>)

  datatype PrivateObject = PrivateObject(name: Name, generation: int, createdAt: int, spec: PrivateSpec)

  datatype PolicySpec = PolicySpec(
    displayName: string, sso: Option<bool>, roles: seq<string>, users: seq<string>,
    emailWhitelist: seq<string>, pincode: string, rules: seq<Rule>)

  datatype PolicyObject = PolicyObject(name: Name, generation: int, createdAt: int, spec: PolicySpec)

  // ---------- verdicts ----------

  datatype Kind = HTTPRouteKind | PrivateResourceKind

  datatype Claimant = Claimant(kind: Kind, name: Name)

  datatype Reason =
    | ReasonAccepted | ReasonResolvedRefs | ReasonUnsupportedValue | ReasonInvalidKind
    | ReasonRefNotPermitted | ReasonBackendNotFound | ReasonNoMatchingParent
    | ReasonDuplicateKey | ReasonDuplicateHostname
    | ReasonUnknownSite | ReasonPublishFailed | ReasonDryRun | ReasonMtlsNotApplied | ReasonInvalidSpec
    | ReasonUnknownMachine | ReasonUnknownUser | ReasonProgrammed | ReasonNotAccepted | ReasonNotLicensed

  datatype Note = Ignored(list: string, names: seq<string>)

  /** What a condition says. Wording is reduced to a tag and the values it quotes. */
  datatype Message =
    | Say(tag: string)
    | Quote(tag: string, text: string)
    | KeyClaimed(key: string, owner: Claimant)
    | HostClaimed(host: string, owner: Claimant)
    | PolicyKeyClaimed(key: string, policyOwner: Name)
    | WithNotes(base: Message, notes: seq<Note>)
    | Because(tag: string, cause: Message)

  datatype ConditionResult = ConditionResult(status: bool, reason: Reason, message: Message)

  datatype Verdict = Verdict(
    key: string, generation: int, parentRefs: seq<ParentRef>,
    accepted: ConditionResult, resolvedRefs: ConditionResult)
  {
    predicate Published() { key != "" }
  }

  datatype ResourceVerdict = ResourceVerdict(key: string, generation: int, accepted: ConditionResult) {
    predicate Published() { key != "" }
  }

  datatype BasicAuthResult = BasicAuthResult(credentials: Option<BasicAuth>, reason: Message)

  /** Certificates and a reason are exclusive. */
  datatype MTLSResult = Trusted(certificates: seq<string>) | Untrusted(reason: Message)

  // ---------- foreign code ----------

  datatype PemBlock = PemBlock(typ: string, der: string)

  /** Library code outside the repository, as functions both the controller and
      the server call: net.ParseIP and net.ParseCIDR, the YAML decoder, the PIN and
      healthcheck annotations, DNS-1123 names, PEM, X.509 and SHA-256 in hex. */
  datatype World = World(
    isIP: string -> bool,
    isCIDR: string -> bool,
    decodeRules: string -> Option<seq<Rule>>,
    pincode: string -> Option<Option<int>>,
    healthcheck: (map<string, string>, Target) -> Option<Option<Healthcheck>>,
    dnsSubdomain: string -> bool,
    pem: string -> seq<PemBlock>,
    encode: PemBlock -> string,
    parses: string -> bool,
    digest: string -> string)

  predicate LowerHex(s: string) {
    |s| % 2 == 0 && forall i :: 0 <= i < |s| ==> '0' <= s[i] <= '9' || 'a' <= s[i] <= 'f'
  }

  /** What is assumed of it: nothing parses the empty string, PEM decoding undoes the
      encoding of a parsed certificate, and a digest is lower-case hex. */
  ghost predicate ValidWorld(w: World) {
    && !w.isIP("") && !w.isCIDR("")
    && (forall b: PemBlock :: b.typ == "CERTIFICATE" && w.parses(b.der) ==> w.pem(w.encode(b)) == [b])
    && (forall d :: w.digest(d) != "" && LowerHex(w.digest(d)))
  }

  /** Everything one render reads. */
  datatype Inputs = Inputs(
    routes: seq<Route>, gateways: seq<Gateway>, classes: seq<GatewayClass>,
    controllerName: string, defaultSite: string,
    basicAuth: map<Name, BasicAuthResult>, mtls: map<Name, MTLSResult>,
    knownSites: Option<set<string>>, privateResources: seq<PrivateObject>,
    knownMachines: Option<set<string>>, knownUsers: Option<set<string>>,
    licensed: bool, policies: seq<PolicyObject>)

  const KEY_PREFIX := "gw-"

  /** Everything the controller owns carries this prefix. */
  predicate Ours(key: string) { HasPrefix(key, KEY_PREFIX) }
}
