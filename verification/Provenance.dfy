/** Where the credentials and the CA certificates of a pass come from, told from the Secrets
    and ConfigMaps themselves. */
module Provenance {
  import opened Text
  import opened Sorting
  import opened Types
  import opened Translate
  import opened Render
  import opened Server
  import opened Secrets
  import opened ClusterObjects
  import opened Pass
  import Faithful
  import Passwords
  import RenderLaws
  import SecondPass

  // ---------- basic auth ----------

  /** The name of the one Secret a route may draw on. */
  function OwnSecret(n: Name): Name { Name(n.ns, "gw-" + n.name + "-basic-auth") }

  /** This Secret is the route's, and says exactly that. */
  ghost predicate Vouches(secret: Secret, r: Route, b: BasicAuth) {
    && (exists o :: o in secret.owners && o.uid == r.uid && o.kind == "HTTPRoute")
    && "username" in secret.data && secret.data["username"] == b.user
    && "password" in secret.data && secret.data["password"] == b.password
    && !b.extended
  }

  ghost predicate Vouched(secrets: map<Name, Secret>, r: Route, b: BasicAuth) {
    OwnSecret(r.name) in secrets && Vouches(secrets[OwnSecret(r.name)], r, b)
  }

  lemma OwnSecretIs(n: Name)
    ensures SecretName(n) == OwnSecret(n)
  {}

  lemma CredentialsAreVouched(secret: Secret, r: Route)
    ensures var b := CredentialsFrom(secret, r).credentials;
      && (b.Some? ==> Vouches(secret, r, b.value) && b.value.user != "" && b.value.password != "")
      && (forall x :: Vouches(secret, r, x) && x.user != "" && x.password != "" ==> b == Some(x))
  {}

  lemma NewSecretVouches(r: Route, password: string)
    ensures Vouches(NewSecret(r, password), r, BasicAuth(r.name.name, password, false))
  {
    assert Owner(r.uid, "HTTPRoute") in NewSecret(r, password).owners;
    assert USERNAME[0] != PASSWORD[0];
  }

  lemma OneIsVouched(w: World, secrets: map<Name, Secret>, r: Route, dryRun: bool, o: SecretOracle)
    ensures var one := BasicAuthOne(w, secrets, r, dryRun, o);
      one.Some? && one.value.1.credentials.Some? ==> Vouched(one.value.0, r, one.value.1.credentials.value)
  {
    hide CredentialsFrom, NewSecret, Vouches;
    var n := SecretName(r.name);
    OwnSecretIs(r.name);
    if n in secrets { CredentialsAreVouched(secrets[n], r); }
    NewSecretVouches(r, o.password(n));
  }

  /** Whatever a resolution hands out for a route, the route's own Secret says, and no
      other. */
  lemma {:induction false} ResolvedAreVouched(w: World, secrets: map<Name, Secret>, routes: seq<Route>, dryRun: bool,
                                              o: SecretOracle, r: Route, b: BasicAuth)
    requires DistinctRoutes(routes) && r in routes
    requires var all := BasicAuthAll(w, secrets, routes, dryRun, o);
             all.results.Some? && r.name in all.results.value && all.results.value[r.name].credentials == Some(b)
    ensures Vouched(BasicAuthAll(w, secrets, routes, dryRun, o).secrets, r, b)
  {
    hide BasicAuthOne, Vouches, Asks;
    var front, last := routes[..|routes| - 1], routes[|routes| - 1];
    assert routes == front + [last];
    FrontDistinct(routes);
    var before := BasicAuthAll(w, secrets, front, dryRun, o);
    NextKeepsResult(w, before, last, dryRun, o, r.name);
    if r != last {
      ResolvedAreVouched(w, secrets, front, dryRun, o, r, b);
      BasicAuthOneKeeps(w, before.secrets, last, dryRun, o);
    } else {
      OneIsVouched(w, before.secrets, r, dryRun, o);
      if r.name in before.results.value { ResultsNameRoutes(w, secrets, front, dryRun, o, r.name); }
    }
  }

  lemma PassCredentialsAreVouched(w: World, cfg: Config, f: Faults, c: ClusterState, s: ServerState, mid: ServerState,
                                  o: PassEnd, r: Route, b: BasicAuth)
    requires DistinctCluster(c.objects) && PassResult(w, cfg, f, c, s, mid, o) && Preparation(w, cfg, c, s, f).Ready?
    requires r in c.objects.routes && Passwords.GivesCredentials(InputOf(w, cfg, c, s, f), r.name, b)
    ensures Vouched(o.c.secrets, r, b)
  {
    hide PassResult, Preparation, InputOf, BasicAuthAll, MTLSAll, ServedRoutes, Vouched, Asks;
    var input := InputOf(w, cfg, c, s, f);
    var served := ServedRoutes(input.routes, input);
    Passwords.SecretsOfPass(w, cfg, f, c, s, mid, o);
    Passwords.PreparedProtections(w, cfg, f, c, s);
    Passwords.PreparedServes(w, cfg, f, c, s);
    SecondPass.ServedAreRoutes(input.routes, input);
    ResultsNameRoutes(w, c.secrets, served, cfg.dryRun, f.secrets, r.name);
    var x :| x in served && x.name == r.name && Asks(x);
    RenderLaws.SameRoute(c.objects.routes, x, r);
    ResolvedAreVouched(w, c.secrets, served, cfg.dryRun, f.secrets, r, b);
  }

  /** A published route that asks for basic auth carries what its own Secret says, and that
      Secret names it as its owner. */
  lemma PublishedIsVouched(w: World, cfg: Config, f: Faults, c: ClusterState, s: ServerState, mid: ServerState,
                           o: PassEnd, r: Route) returns (b: BasicAuth)
    requires DistinctCluster(c.objects) && PassResult(w, cfg, f, c, s, mid, o) && Preparation(w, cfg, c, s, f).Ready?
    requires r in c.objects.routes && Asks(r) && RoutePublished(RenderedOf(w, InputOf(w, cfg, c, s, f)), r.name)
    ensures Vouched(o.c.secrets, r, b)
    ensures Passwords.CarriesCredentials(RenderedOf(w, InputOf(w, cfg, c, s, f)).blueprint, Key(r.name),
                                         b.(extended := true))
  {
    hide PassResult, Preparation, InputOf, RenderedOf, Vouched, Asks, RoutePublished, Passwords.CarriesCredentials,
         DistinctObjects, DistinctCluster, Key;
    PreparedInputs(w, cfg, c, s, f);
    b := Passwords.PublishedWithCredentials(w, InputOf(w, cfg, c, s, f), r);
    PassCredentialsAreVouched(w, cfg, f, c, s, mid, o, r, b);
  }

  /** A Secret of that name is there, and somebody else's. */
  ghost predicate SomebodyElses(secrets: map<Name, Secret>, r: Route) {
    && OwnSecret(r.name) in secrets
    && forall x :: x in secrets[OwnSecret(r.name)].owners ==> !(x.uid == r.uid && x.kind == "HTTPRoute")
  }

  /** Then it is left alone, and the route is not published. */
  lemma StrangersSecretIsRefused(w: World, cfg: Config, f: Faults, c: ClusterState, s: ServerState, mid: ServerState,
                                 o: PassEnd, r: Route)
    requires DistinctCluster(c.objects) && PassResult(w, cfg, f, c, s, mid, o) && Preparation(w, cfg, c, s, f).Ready?
    requires r in c.objects.routes && Asks(r) && SomebodyElses(c.secrets, r)
    ensures !RoutePublished(RenderedOf(w, InputOf(w, cfg, c, s, f)), r.name)
    ensures Passwords.Kept(c.secrets, o.c.secrets)
  {
    hide PassResult, Preparation, InputOf, RenderedOf, Asks, RoutePublished, Passwords.CarriesCredentials,
         DistinctCluster, Key;
    Passwords.PassKeepsSecrets(w, cfg, f, c, s, mid, o);
    if RoutePublished(RenderedOf(w, InputOf(w, cfg, c, s, f)), r.name) {
      var b := PublishedIsVouched(w, cfg, f, c, s, mid, o, r);
    }
  }

  // ---------- trusted CAs ----------

  /** The text one of two data keys holds, the first if it holds any. */
  ghost predicate Reads(data: map<string, string>, first: string, second: string, raw: string) {
    raw != "" && ((first in data && raw == data[first])
                  || ((first !in data || data[first] == "") && second in data && raw == data[second]))
  }

  /** Exactly one annotation names a source, and the source holds this text. */
  ghost predicate OnlySource(secrets: map<Name, Secret>, configMaps: map<Name, map<string, string>>, r: Route,
                             raw: string) {
    var inline, secret, configMap := Value(r, MTLS_CA), Value(r, MTLS_CA_SECRET), Value(r, MTLS_CA_CONFIGMAP);
    || (inline != "" && secret == "" && configMap == "" && raw == inline)
    || (inline == "" && secret != "" && configMap == "" && Name(r.name.ns, secret) in secrets
        && Reads(secrets[Name(r.name.ns, secret)].data, "ca.crt", "tls.crt", raw))
    || (inline == "" && secret == "" && configMap != "" && Name(r.name.ns, configMap) in configMaps
        && Reads(configMaps[Name(r.name.ns, configMap)], "ca.crt", "root_ca.crt", raw))
  }

  function IsCertificate(): PemBlock -> bool { (b: PemBlock) => b.typ == "CERTIFICATE" }

  /** The certificates of the text: its CERTIFICATE blocks, all of them, in order. */
  ghost predicate CertificatesOf(w: World, raw: string, certs: seq<string>) {
    var blocks := Filter(w.pem(raw), IsCertificate());
    |certs| == |blocks| && forall i :: 0 <= i < |certs| ==> certs[i] == w.encode(blocks[i])
  }

  /** No private key, no broken certificate, and between one and twenty of them. */
  ghost predicate Sound(w: World, raw: string, certs: seq<string>) {
    && (forall b :: b in w.pem(raw) ==> !Contains(b.typ, "PRIVATE KEY"))
    && (forall b :: b in w.pem(raw) && b.typ == "CERTIFICATE" ==> w.parses(b.der))
    && 1 <= |certs| <= 20
  }

  lemma {:induction false} EncodedAre(w: World, bs: seq<PemBlock>)
    ensures var certs, blocks := EncodedCertificates(w, bs), Filter(bs, IsCertificate());
            |certs| == |blocks| && forall i :: 0 <= i < |certs| ==> certs[i] == w.encode(blocks[i])
  {
    if bs != [] { EncodedAre(w, bs[..|bs| - 1]); }
  }

  lemma CheckedIff(w: World, raw: string, certs: seq<string>)
    ensures CheckedCA(w, raw) == Trusted(certs) <==> CertificatesOf(w, raw, certs) && Sound(w, raw, certs)
  {
    hide Contains, EncodedCertificates, Filter;
    var bs := w.pem(raw);
    EncodedAre(w, bs);
    if CertificatesOf(w, raw, certs) { assert certs == EncodedCertificates(w, bs); }
    assert (exists b | b in bs :: BadBlock(w, b))
      <==> !((forall b :: b in bs ==> !Contains(b.typ, "PRIVATE KEY"))
             && (forall b :: b in bs && b.typ == "CERTIFICATE" ==> w.parses(b.der)));
  }

  lemma FirstKeyIff(w: World, data: map<string, string>, a: string, b: string, certs: seq<string>)
    ensures FirstKey(w, data, a, b) == Trusted(certs)
            <==> exists raw :: Reads(data, a, b, raw) && CheckedCA(w, raw) == Trusted(certs)
  {
    hide CheckedCA;
    if a in data && data[a] != "" {
      assert Reads(data, a, b, data[a]);
    } else if b in data && data[b] != "" {
      assert Reads(data, a, b, data[b]);
    }
  }

  /** A set is trusted exactly if one source is named, it can be read, and its certificates
      are these. */
  lemma TrustedIff(w: World, secrets: map<Name, Secret>, configMaps: map<Name, map<string, string>>, r: Route,
                   readFails: Name -> bool, certs: seq<string>)
    requires MTLSRequested(r) && MTLSOne(w, secrets, configMaps, r, readFails).Some?
    ensures MTLSOne(w, secrets, configMaps, r, readFails) == Some(Trusted(certs))
            <==> exists raw ::
                   OnlySource(secrets, configMaps, r, raw) && CertificatesOf(w, raw, certs) && Sound(w, raw, certs)
  {
    hide CheckedCA, FirstKey, Reads, CertificatesOf, Sound, Value;
    forall raw ensures CheckedCA(w, raw) == Trusted(certs) <==> CertificatesOf(w, raw, certs) && Sound(w, raw, certs) {
      CheckedIff(w, raw, certs);
    }
    forall data, a, b
      ensures FirstKey(w, data, a, b) == Trusted(certs)
              <==> exists raw :: Reads(data, a, b, raw) && CheckedCA(w, raw) == Trusted(certs)
    {
      FirstKeyIff(w, data, a, b, certs);
    }
    NamesSource(r);
  }

  lemma NamesSource(r: Route)
    ensures MTLSRequested(r)
            <==> Value(r, MTLS_CA) != "" || Value(r, MTLS_CA_SECRET) != "" || Value(r, MTLS_CA_CONFIGMAP) != ""
  {
    hide Value;
    assert MTLS_CA in MTLS_ANNOTATIONS && MTLS_CA_SECRET in MTLS_ANNOTATIONS && MTLS_CA_CONFIGMAP in MTLS_ANNOTATIONS;
  }

  /** Reading aborts the pass exactly if the one source is an object that cannot be read. */
  lemma AbortsIff(w: World, secrets: map<Name, Secret>, configMaps: map<Name, map<string, string>>, r: Route,
                  readFails: Name -> bool)
    ensures var inline, secret, configMap := Value(r, MTLS_CA), Value(r, MTLS_CA_SECRET), Value(r, MTLS_CA_CONFIGMAP);
      MTLSOne(w, secrets, configMaps, r, readFails).None?
      <==> inline == "" && ((secret != "" && configMap == "" && readFails(Name(r.name.ns, secret)))
                            || (secret == "" && configMap != "" && readFails(Name(r.name.ns, configMap))))
  {
    hide CheckedCA, FirstKey, Value;
  }

  /** Each route that asks has its own result. */
  lemma {:induction false} ResolvedIsItsOwn(w: World, secrets: map<Name, Secret>,
                                            configMaps: map<Name, map<string, string>>,
                                            routes: seq<Route>, readFails: Name -> bool, r: Route)
    requires MTLSAll(w, secrets, configMaps, routes, readFails).Some? && DistinctRoutes(routes)
    requires r in routes && MTLSRequested(r)
    ensures MTLSOne(w, secrets, configMaps, r, readFails).Some?
    ensures var all := MTLSAll(w, secrets, configMaps, routes, readFails).value;
            r.name in all && Some(all[r.name]) == MTLSOne(w, secrets, configMaps, r, readFails)
  {
    hide MTLSOne, MTLSRequested;
    var front, last := routes[..|routes| - 1], routes[|routes| - 1];
    assert routes == front + [last];
    FrontDistinct(routes);
    if r != last { ResolvedIsItsOwn(w, secrets, configMaps, front, readFails, r); }
  }

  /** And nobody else has one. */
  lemma {:induction false} ResolvedNamesRoute(w: World, secrets: map<Name, Secret>,
                                              configMaps: map<Name, map<string, string>>, routes: seq<Route>,
                                              readFails: Name -> bool, n: Name) returns (r: Route)
    requires MTLSAll(w, secrets, configMaps, routes, readFails).Some?
    requires n in MTLSAll(w, secrets, configMaps, routes, readFails).value
    ensures r in routes && r.name == n && MTLSRequested(r)
  {
    hide MTLSOne, MTLSRequested;
    var front, last := routes[..|routes| - 1], routes[|routes| - 1];
    assert routes == front + [last];
    if MTLSRequested(last) && last.name == n {
      r := last;
    } else {
      r := ResolvedNamesRoute(w, secrets, configMaps, front, readFails, n);
    }
  }

  /** The CA set of a pass for a route: trusted exactly if its one source holds it. */
  ghost predicate Backs(w: World, secrets: map<Name, Secret>, configMaps: map<Name, map<string, string>>, r: Route,
                        certs: seq<string>) {
    exists raw :: OnlySource(secrets, configMaps, r, raw) && CertificatesOf(w, raw, certs) && Sound(w, raw, certs)
  }

  ghost predicate TrustsExactly(mtls: map<Name, MTLSResult>, n: Name, certs: seq<string>) {
    n in mtls && mtls[n] == Trusted(certs)
  }

  /** For every served route that asks for mTLS, the pass trusts exactly what its one source
      holds at its end. */
  lemma PassTrustsItsSource(w: World, cfg: Config, f: Faults, c: ClusterState, s: ServerState, mid: ServerState,
                            o: PassEnd, r: Route, certs: seq<string>)
    requires DistinctCluster(c.objects) && PassResult(w, cfg, f, c, s, mid, o) && Preparation(w, cfg, c, s, f).Ready?
    requires r in c.objects.routes && MTLSRequested(r) && ParentsOf(r, InputOf(w, cfg, c, s, f)) != []
    ensures TrustsExactly(InputOf(w, cfg, c, s, f).mtls, r.name, certs) <==>
        Backs(w, o.c.secrets, c.configMaps, r, certs)
  {
    hide PassResult, Preparation, InputOf, BasicAuthAll, MTLSAll, MTLSOne, ServedRoutes, ParentsOf, MTLSRequested,
         OnlySource, CertificatesOf, Sound;
    var input := InputOf(w, cfg, c, s, f);
    var served := ServedRoutes(input.routes, input);
    Passwords.SecretsOfPass(w, cfg, f, c, s, mid, o);
    Passwords.PreparedProtections(w, cfg, f, c, s);
    Passwords.PreparedServes(w, cfg, f, c, s);
    Passwords.ServedOfPass(w, cfg, f, c, s, r);
    ResolvedIsItsOwn(w, o.c.secrets, c.configMaps, served, f.caReads, r);
    TrustedIff(w, o.c.secrets, c.configMaps, r, f.caReads, certs);
  }

  /** The blueprint sends these certificates under the key. */
  ghost predicate SendsCAs(b: Blueprint, key: string, certs: seq<string>) {
    key in b.public && b.public[key].auth.mtls == Some(MTLS(true, certs))
  }

  lemma AskingIsAnnotated(r: Route)
    requires MTLSRequested(r)
    ensures exists a :: a in NOT_ON_PRIVATE + HEALTHCHECK_ANNOTATIONS && a in r.annotations
  {
    var a :| a in MTLS_ANNOTATIONS && Value(r, a) != "";
    assert a in NOT_ON_PRIVATE + HEALTHCHECK_ANNOTATIONS;
  }

  lemma AskingForMTLSIsPublic(w: World, r: Route, input: Inputs, policies: map<Name, ResourceVerdict>)
    requires MTLSRequested(r) && TranslateRoute(w, r, input, policies).Ok?
    ensures TranslateRoute(w, r, input, policies).value.section.InPublic?
  {
    hide TranslateRoute;
    var e := TranslateRoute(w, r, input, policies).value;
    AskingIsAnnotated(r);
    match e.section {
      case InPublic(_) =>
      case InPrivate(res) =>
        Faithful.PrivateRouteAsAsked(w, r, input, policies, res);
        assert false;
    }
  }

  /** A published route that asks for mTLS trusts the certificates of its one source: all of
      them, in order, and nothing else. */
  lemma PublishedTrustsItsSource(w: World, cfg: Config, f: Faults, c: ClusterState, s: ServerState, mid: ServerState,
                                 o: PassEnd, r: Route) returns (certs: seq<string>)
    requires DistinctCluster(c.objects) && PassResult(w, cfg, f, c, s, mid, o) && Preparation(w, cfg, c, s, f).Ready?
    requires r in c.objects.routes && MTLSRequested(r)
    requires RoutePublished(RenderedOf(w, InputOf(w, cfg, c, s, f)), r.name)
    ensures Backs(w, o.c.secrets, c.configMaps, r, certs)
    ensures SendsCAs(RenderedOf(w, InputOf(w, cfg, c, s, f)).blueprint, Key(r.name), certs)
  {
    hide PassResult, Preparation, InputOf, RenderedOf, MTLSRequested, RoutePublished, DistinctObjects, DistinctCluster,
         Key, TranslateRoute, PolicyVerdicts, ParentsOf, Backs;
    var input := InputOf(w, cfg, c, s, f);
    PreparedInputs(w, cfg, c, s, f);
    var e := RenderLaws.PublishedTranslation(w, input, r);
    AskingForMTLSIsPublic(w, r, input, PolicyVerdicts(w, input));
    Faithful.PublicRouteAsAsked(w, r, input, PolicyVerdicts(w, input), e.section.public);
    certs := e.section.public.auth.mtls.value.certificates;
    PassTrustsItsSource(w, cfg, f, c, s, mid, o, r, certs);
  }
}
