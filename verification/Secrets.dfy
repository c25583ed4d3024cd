/** internal/controller/basicauth.go and mtls.go before the render: resolving the
    credentials and the trusted CAs the served routes ask for. */
module Secrets {
  import opened Text
  import opened Types
  import opened Translate
  import opened Render
  import opened Server
  import Acceptance

  datatype Owner = Owner(uid: string, kind: string)

  datatype Secret = Secret(owners: seq<Owner>, data: map<string, string>)

  /** Reads and writes of Secrets that fail in a pass, and the passwords drawn. */
  datatype SecretOracle = SecretOracle(readFails: Name -> bool, createFails: Name -> bool, password: Name -> string)

  const USERNAME := "username"
  const PASSWORD := "password"

  /** Derived from the route's name, so no route can point at a Secret of its choice. */
  function SecretName(n: Name): Name { Name(n.ns, KEY_PREFIX + n.name + "-basic-auth") }

  lemma SecretNamesDiffer(a: Name, b: Name)
    ensures SecretName(a) == SecretName(b) <==> a == b
  {
    var x, y := SecretName(a).name, SecretName(b).name;
    if x == y {
      assert x == KEY_PREFIX + (a.name + "-basic-auth") && y == KEY_PREFIX + (b.name + "-basic-auth");
      assert x[3..] == a.name + "-basic-auth" && y[3..] == b.name + "-basic-auth";
      assert |a.name| == |b.name|;
      assert x[3..][..|a.name|] == a.name && y[3..][..|b.name|] == b.name;
    }
  }

  // ---------- basic auth ----------

  predicate OwnedBy(secret: Secret, r: Route) {
    exists o | o in secret.owners :: o.uid == r.uid && o.kind == "HTTPRoute"
  }

  function Data(secret: Secret, key: string): string { if key in secret.data then secret.data[key] else "" }

  function Refused(tag: string): BasicAuthResult { BasicAuthResult(None, Say(tag)) }

  function Granted(user: string, password: string): BasicAuthResult {
    BasicAuthResult(Some(BasicAuth(user, password, false)), Say(""))
  }

  function CredentialsFrom(secret: Secret, r: Route): BasicAuthResult {
    if !OwnedBy(secret, r) then Refused("Secret is not owned by this route")
    else if Data(secret, USERNAME) == "" || Data(secret, PASSWORD) == "" then Refused("Secret is incomplete")
    else Granted(Data(secret, USERNAME), Data(secret, PASSWORD))
  }

  function NewSecret(r: Route, password: string): Secret {
    Secret([Owner(r.uid, "HTTPRoute")], map[USERNAME := r.name.name, PASSWORD := password])
  }

  /** What resolving one route does: None aborts the pass. */
  function BasicAuthOne(w: World, secrets: map<Name, Secret>, r: Route, dryRun: bool, o: SecretOracle)
    : Option<(map<Name, Secret>, BasicAuthResult)>
  {
    var n := SecretName(r.name);
    if !w.dnsSubdomain(n.name) then Some((secrets, Refused("no Secret can have this name")))
    else if o.readFails(n) then None
    else if n in secrets then Some((secrets, CredentialsFrom(secrets[n], r)))
    else if dryRun then Some((secrets, Refused("dry run")))
    else if o.createFails(n) then None
    else Some((secrets[n := NewSecret(r, o.password(n))], Granted(r.name.name, o.password(n))))
  }

  /** The Secrets afterwards, and the results unless a failure aborted the pass. */
  datatype Resolved<T> = Resolved(secrets: map<Name, Secret>, results: Option<map<Name, T>>)

  predicate Asks(r: Route) { BasicAuthRequested(r) == Ok(true) }

  function BasicAuthNext(w: World, before: Resolved<BasicAuthResult>, r: Route, dryRun: bool, o: SecretOracle)
    : Resolved<BasicAuthResult>
  {
    if before.results.None? || !Asks(r) then before
    else match BasicAuthOne(w, before.secrets, r, dryRun, o)
      case None => Resolved(before.secrets, None)
      case Some((s, result)) => Resolved(s, Some(before.results.value[r.name := result]))
  }

  function BasicAuthAll(w: World, secrets: map<Name, Secret>, routes: seq<Route>, dryRun: bool, o: SecretOracle)
    : Resolved<BasicAuthResult>
  {
    if routes == [] then Resolved(secrets, Some(map[]))
    else BasicAuthNext(w, BasicAuthAll(w, secrets, routes[..|routes| - 1], dryRun, o), routes[|routes| - 1], dryRun, o)
  }

  // ---------- trusted CAs ----------

  /** validatedCA: individual certificate PEMs, or why the value cannot be used. */
  function EncodedCertificates(w: World, bs: seq<PemBlock>): seq<string> {
    if bs == [] then []
    else
      EncodedCertificates(w, bs[..|bs| - 1])
      + (if bs[|bs| - 1].typ == "CERTIFICATE" then [w.encode(bs[|bs| - 1])] else [])
  }

  function CheckedCA(w: World, raw: string): MTLSResult {
    var bs := w.pem(raw);
    var certs := EncodedCertificates(w, bs);
    if exists b | b in bs :: BadBlock(w, b) then Untrusted(Say("private key or unparseable certificate"))
    else if certs == [] then Untrusted(Say("no PEM certificate"))
    else if |certs| > MAX_CERTIFICATES then Untrusted(Say("too many certificates"))
    else Trusted(certs)
  }

  method ValidatedCA(w: World, raw: string) returns (r: MTLSResult)
    ensures r == CheckedCA(w, raw)
  {
    var bs := w.pem(raw);
    var certs: seq<string> := [];
    var i := 0;
    while i < |bs|
      invariant 0 <= i <= |bs|
      invariant forall k :: 0 <= k < i ==> !BadBlock(w, bs[k])
      invariant certs == EncodedCertificates(w, bs[..i])
    {
      var b := bs[i];
      assert bs[..i + 1][..i] == bs[..i];
      if BadBlock(w, b) { return Untrusted(Say("private key or unparseable certificate")); }
      if b.typ == "CERTIFICATE" { certs := certs + [w.encode(b)]; }
      i := i + 1;
    }
    assert bs[..i] == bs;
    if certs == [] { return Untrusted(Say("no PEM certificate")); }
    if |certs| > MAX_CERTIFICATES { return Untrusted(Say("too many certificates")); }
    return Trusted(certs);
  }

  /** The first of the two data keys that holds something. */
  function FirstKey(w: World, data: map<string, string>, a: string, b: string): MTLSResult {
    if a in data && data[a] != "" then CheckedCA(w, data[a])
    else if b in data && data[b] != "" then CheckedCA(w, data[b])
    else Untrusted(Say("no CA key"))
  }

  /** mtlsFor: exactly one source; None aborts the pass. */
  function MTLSOne(w: World, secrets: map<Name, Secret>, configMaps: map<Name, map<string, string>>, r: Route,
                   readFails: Name -> bool): Option<MTLSResult>
  {
    var inline, secret, configMap := Value(r, MTLS_CA), Value(r, MTLS_CA_SECRET), Value(r, MTLS_CA_CONFIGMAP);
    var set_ := (if inline != "" then 1 else 0) + (if secret != "" then 1 else 0) + (if configMap != "" then 1 else 0);
    if set_ > 1 then Some(Untrusted(Say("set only one source")))
    else if secret != "" then
      var n := Name(r.name.ns, secret);
      if readFails(n) then None
      else if n !in secrets then Some(Untrusted(Quote("Secret not found", secret)))
      else Some(FirstKey(w, secrets[n].data, "ca.crt", "tls.crt"))
    else if configMap != "" then
      var n := Name(r.name.ns, configMap);
      if readFails(n) then None
      else if n !in configMaps then Some(Untrusted(Quote("ConfigMap not found", configMap)))
      else Some(FirstKey(w, configMaps[n], "ca.crt", "root_ca.crt"))
    else Some(CheckedCA(w, inline))
  }

  function MTLSAll(w: World, secrets: map<Name, Secret>, configMaps: map<Name, map<string, string>>, routes: seq<Route>,
                   readFails: Name -> bool): Option<map<Name, MTLSResult>>
  {
    if routes == [] then Some(map[])
    else
      var front, r := MTLSAll(w, secrets, configMaps, routes[..|routes| - 1], readFails), routes[|routes| - 1];
      if front.None? || !MTLSRequested(r) then front
      else match MTLSOne(w, secrets, configMaps, r, readFails)
        case None => None
        case Some(result) => Some(front.value[r.name := result])
  }

  // ---------- every protection a served route asks for is resolved ----------

  lemma {:induction false} BasicAuthCovers(w: World, secrets: map<Name, Secret>, routes: seq<Route>, dryRun: bool,
                                           o: SecretOracle, r: Route)
    requires BasicAuthAll(w, secrets, routes, dryRun, o).results.Some? && r in routes && Asks(r)
    ensures r.name in BasicAuthAll(w, secrets, routes, dryRun, o).results.value
  {
    hide BasicAuthRequested;
    var front, last := routes[..|routes| - 1], routes[|routes| - 1];
    assert routes == front + [last];
    if r != last { BasicAuthCovers(w, secrets, front, dryRun, o, r); }
  }

  lemma {:induction false} MTLSCovers(w: World, secrets: map<Name, Secret>, configMaps: map<Name, map<string, string>>,
                                      routes: seq<Route>, readFails: Name -> bool, r: Route)
    requires MTLSAll(w, secrets, configMaps, routes, readFails).Some? && r in routes && MTLSRequested(r)
    ensures r.name in MTLSAll(w, secrets, configMaps, routes, readFails).value
  {
    var front, last := routes[..|routes| - 1], routes[|routes| - 1];
    assert routes == front + [last];
    if r != last { MTLSCovers(w, secrets, configMaps, front, readFails, r); }
  }

  lemma {:induction false} ServedHas(routes: seq<Route>, input: Inputs, r: Route)
    requires r in routes && ParentsOf(r, input) != []
    ensures r in ServedRoutes(routes, input)
  {
    var front, last := routes[..|routes| - 1], routes[|routes| - 1];
    assert routes == front + [last];
    if r != last { ServedHas(front, input, r); }
  }

  /** The two "not resolved" errors of the renderer cannot occur in a pass. */
  lemma ProtectionsAreResolved(w: World, secrets: map<Name, Secret>, configMaps: map<Name, map<string, string>>,
                               input: Inputs, dryRun: bool, o: SecretOracle, caFails: Name -> bool, r: Route)
    requires var served := ServedRoutes(input.routes, input);
             && BasicAuthAll(w, secrets, served, dryRun, o).results == Some(input.basicAuth)
             && MTLSAll(w, BasicAuthAll(w, secrets, served, dryRun, o).secrets, configMaps, served, caFails)
               == Some(input.mtls)
    requires r in input.routes && ParentsOf(r, input) != []
    ensures BasicAuthFor(r, input) != Err(NO_CREDENTIALS) && MTLSFor(r, input) != Err(NO_CA)
  {
    var served := ServedRoutes(input.routes, input);
    ServedHas(input.routes, input, r);
    if BasicAuthRequested(r) == Ok(true) { BasicAuthCovers(w, secrets, served, dryRun, o, r); }
    if MTLSRequested(r) {
      MTLSCovers(w, BasicAuthAll(w, secrets, served, dryRun, o).secrets, configMaps, served, caFails, r);
    }
    if BasicAuthRequested(r).Err? { assert BasicAuthRequested(r).error == Quote(BASIC_AUTH, Value(r, BASIC_AUTH)); }
  }

  // ---------- resolved CAs are clean ----------

  lemma {:induction false} EncodedAreClean(w: World, bs: seq<PemBlock>)
    requires ValidWorld(w) && forall b :: b in bs ==> !BadBlock(w, b)
    ensures forall c :: c in EncodedCertificates(w, bs) ==>
      |w.pem(c)| == 1 && w.pem(c)[0].typ == "CERTIFICATE" && w.parses(w.pem(c)[0].der)
  {
    if bs != [] {
      var front, last := bs[..|bs| - 1], bs[|bs| - 1];
      assert last in bs && forall b :: b in front ==> b in bs;
      EncodedAreClean(w, front);
      if last.typ == "CERTIFICATE" { assert w.pem(w.encode(last)) == [last]; }
    }
  }

  lemma CheckedCAIsClean(w: World, raw: string)
    requires ValidWorld(w) && CheckedCA(w, raw).Trusted?
    ensures Acceptance.CleanCAs(w, CheckedCA(w, raw).certificates)
  {
    EncodedAreClean(w, w.pem(raw));
  }

  /** Whatever the sources hold, a CA set that reaches the render is one the server
      parses. */
  lemma {:induction false} ResolvedCAsAreClean(w: World, secrets: map<Name, Secret>,
                                               configMaps: map<Name, map<string, string>>,
                                               routes: seq<Route>, readFails: Name -> bool, n: Name)
    requires ValidWorld(w) && MTLSAll(w, secrets, configMaps, routes, readFails).Some?
    requires n in MTLSAll(w, secrets, configMaps, routes, readFails).value
    ensures var result := MTLSAll(w, secrets, configMaps, routes, readFails).value[n];
            result.Trusted? ==> Acceptance.CleanCAs(w, result.certificates)
  {
    var front, r := routes[..|routes| - 1], routes[|routes| - 1];
    if MTLSRequested(r) && n == r.name {
      OneCAIsClean(w, secrets, configMaps, r, readFails);
    } else {
      ResolvedCAsAreClean(w, secrets, configMaps, front, readFails, n);
    }
  }

  lemma OneCAIsClean(w: World, secrets: map<Name, Secret>, configMaps: map<Name, map<string, string>>, r: Route,
                     readFails: Name -> bool)
    requires ValidWorld(w)
    ensures var result := MTLSOne(w, secrets, configMaps, r, readFails);
            result.Some? && result.value.Trusted? ==> Acceptance.CleanCAs(w, result.value.certificates)
  {
    forall raw | CheckedCA(w, raw).Trusted? ensures Acceptance.CleanCAs(w, CheckedCA(w, raw).certificates) {
      CheckedCAIsClean(w, raw);
    }
  }

  // ---------- credentials last ----------

  lemma BasicAuthOneKeeps(w: World, secrets: map<Name, Secret>, r: Route, dryRun: bool, o: SecretOracle)
    ensures var one := BasicAuthOne(w, secrets, r, dryRun, o);
            one.Some? ==> forall n :: n in secrets ==> n in one.value.0 && one.value.0[n] == secrets[n]
  {}

  /** A pass never changes or removes a Secret. */
  lemma {:induction false} SecretsSurvive(w: World, secrets: map<Name, Secret>, routes: seq<Route>, dryRun: bool,
                                          o: SecretOracle)
    ensures var after := BasicAuthAll(w, secrets, routes, dryRun, o).secrets;
            forall n :: n in secrets ==> n in after && after[n] == secrets[n]
  {
    if routes != [] {
      SecretsSurvive(w, secrets, routes[..|routes| - 1], dryRun, o);
      BasicAuthOneKeeps(w, BasicAuthAll(w, secrets, routes[..|routes| - 1], dryRun, o).secrets,
                        routes[|routes| - 1], dryRun, o);
    }
  }

  /** In a dry run no Secret is created either. */
  lemma {:induction false} DryRunCreatesNothing(w: World, secrets: map<Name, Secret>, routes: seq<Route>,
                                                o: SecretOracle)
    ensures BasicAuthAll(w, secrets, routes, true, o).secrets == secrets
  {
    if routes != [] { DryRunCreatesNothing(w, secrets, routes[..|routes| - 1], o); }
  }

  /** What a route's result says about the Secret it leaves behind. */
  ghost predicate Backed(w: World, secrets: map<Name, Secret>, r: Route, dryRun: bool, result: BasicAuthResult) {
    var n := SecretName(r.name);
    if !w.dnsSubdomain(n.name) then result == Refused("no Secret can have this name")
    else if n in secrets then result == CredentialsFrom(secrets[n], r)
    else dryRun && result == Refused("dry run")
  }

  ghost predicate Proper(r: Route, o: SecretOracle) { r.name.name != "" && forall n :: o.password(n) != "" }

  lemma OneIsBacked(w: World, secrets: map<Name, Secret>, r: Route, dryRun: bool, o: SecretOracle)
    requires BasicAuthOne(w, secrets, r, dryRun, o).Some? && Proper(r, o)
    ensures var one := BasicAuthOne(w, secrets, r, dryRun, o).value; Backed(w, one.0, r, dryRun, one.1)
  {
    var n := SecretName(r.name);
    var made := NewSecret(r, o.password(n));
    assert Owner(r.uid, "HTTPRoute") in made.owners;
    assert USERNAME != PASSWORD by { assert USERNAME[0] != PASSWORD[0]; }
  }

  lemma BackedSurvives(w: World, a: map<Name, Secret>, b: map<Name, Secret>, r: Route, dryRun: bool,
                       result: BasicAuthResult)
    requires Backed(w, a, r, dryRun, result)
    requires forall n :: n in a ==> n in b && b[n] == a[n]
    requires dryRun ==> b == a
    ensures Backed(w, b, r, dryRun, result)
  {}

  ghost predicate DistinctRoutes(routes: seq<Route>) {
    forall i, j :: 0 <= i < j < |routes| ==> routes[i].name != routes[j].name
  }

  lemma FrontDistinct(routes: seq<Route>)
    requires DistinctRoutes(routes) && routes != []
    ensures DistinctRoutes(routes[..|routes| - 1]) && routes[|routes| - 1] !in routes[..|routes| - 1]
  {
    var front := routes[..|routes| - 1];
    assert forall i :: 0 <= i < |front| ==> front[i] == routes[i];
  }

  lemma NextIsBacked(w: World, before: Resolved<BasicAuthResult>, r: Route, dryRun: bool, o: SecretOracle)
    requires Asks(r) && Proper(r, o) && BasicAuthNext(w, before, r, dryRun, o).results.Some?
    ensures var after := BasicAuthNext(w, before, r, dryRun, o);
            r.name in after.results.value && Backed(w, after.secrets, r, dryRun, after.results.value[r.name])
  {
    OneIsBacked(w, before.secrets, r, dryRun, o);
  }

  lemma NextKeepsBacked(w: World, before: Resolved<BasicAuthResult>, last: Route, dryRun: bool,
                        o: SecretOracle, r: Route)
    requires r.name != last.name && BasicAuthNext(w, before, last, dryRun, o).results.Some?
    requires before.results.Some? && r.name in before.results.value
    requires Backed(w, before.secrets, r, dryRun, before.results.value[r.name])
    ensures var after := BasicAuthNext(w, before, last, dryRun, o);
            r.name in after.results.value && Backed(w, after.secrets, r, dryRun, after.results.value[r.name])
  {
    BasicAuthOneKeeps(w, before.secrets, last, dryRun, o);
    BackedSurvives(w, before.secrets, BasicAuthNext(w, before, last, dryRun, o).secrets, r, dryRun,
                   before.results.value[r.name]);
  }

  /** A failure before is a failure after; a result for another route stays. */
  lemma NextKeepsResult(w: World, before: Resolved<BasicAuthResult>, last: Route, dryRun: bool,
                        o: SecretOracle, n: Name)
    requires BasicAuthNext(w, before, last, dryRun, o).results.Some?
    ensures before.results.Some?
    ensures var after := BasicAuthNext(w, before, last, dryRun, o);
      n != last.name && n in before.results.value ==>
        n in after.results.value && after.results.value[n] == before.results.value[n]
  {
    hide BasicAuthOne;
  }

  /** Every result is backed by the Secrets the pass leaves behind. */
  lemma {:induction false} ResultsAreBacked(w: World, secrets: map<Name, Secret>, routes: seq<Route>, dryRun: bool,
                                            o: SecretOracle, r: Route)
    requires BasicAuthAll(w, secrets, routes, dryRun, o).results.Some? && DistinctRoutes(routes)
    requires r in routes && Asks(r)
    requires forall x :: x in routes ==> Proper(x, o)
    ensures var all := BasicAuthAll(w, secrets, routes, dryRun, o);
            r.name in all.results.value && Backed(w, all.secrets, r, dryRun, all.results.value[r.name])
  {
    hide BasicAuthNext, Backed, Proper, Asks;
    var front, last := routes[..|routes| - 1], routes[|routes| - 1];
    assert routes == front + [last];
    FrontDistinct(routes);
    var before := BasicAuthAll(w, secrets, front, dryRun, o);
    NextKeepsResult(w, before, last, dryRun, o, r.name);
    if r == last {
      NextIsBacked(w, before, r, dryRun, o);
    } else {
      assert r in front && r.name != last.name;
      ResultsAreBacked(w, secrets, front, dryRun, o, r);
      NextKeepsBacked(w, before, last, dryRun, o, r);
    }
  }

  lemma {:induction false} ResultsNameRoutes(w: World, secrets: map<Name, Secret>, routes: seq<Route>, dryRun: bool,
                                             o: SecretOracle, n: Name)
    requires BasicAuthAll(w, secrets, routes, dryRun, o).results.Some?
    requires n in BasicAuthAll(w, secrets, routes, dryRun, o).results.value
    ensures exists r :: r in routes && r.name == n && Asks(r)
  {
    var front, last := routes[..|routes| - 1], routes[|routes| - 1];
    assert routes == front + [last];
    assert last in routes;
    if !(Asks(last) && last.name == n) {
      ResultsNameRoutes(w, secrets, front, dryRun, o, n);
      var r :| r in front && r.name == n && Asks(r);
      assert r in routes;
    }
  }

  /** The Secrets these routes ask for can be read. */
  ghost predicate Readable(w: World, routes: seq<Route>, o: SecretOracle) {
    forall r :: r in routes && Asks(r) && w.dnsSubdomain(SecretName(r.name).name) ==> !o.readFails(SecretName(r.name))
  }

  lemma NextWasReadable(w: World, before: Resolved<BasicAuthResult>, r: Route, dryRun: bool, o: SecretOracle)
    requires BasicAuthNext(w, before, r, dryRun, o).results.Some?
    ensures before.results.Some? && (Asks(r) && w.dnsSubdomain(SecretName(r.name).name) ==>
        !o.readFails(SecretName(r.name)))
  {
    hide CredentialsFrom, NewSecret;
  }

  /** A resolution that succeeds has read them all. */
  lemma {:induction false} ResolvedWasReadable(w: World, secrets: map<Name, Secret>, routes: seq<Route>, dryRun: bool,
                                               o: SecretOracle)
    requires BasicAuthAll(w, secrets, routes, dryRun, o).results.Some?
    ensures Readable(w, routes, o)
  {
    hide BasicAuthNext, Asks, SecretName;
    if routes != [] {
      var front, last := routes[..|routes| - 1], routes[|routes| - 1];
      assert routes == front + [last];
      NextWasReadable(w, BasicAuthAll(w, secrets, front, dryRun, o), last, dryRun, o);
      ResolvedWasReadable(w, secrets, front, dryRun, o);
    }
  }

  /** Results read back so far: no Secret touched, and nothing but the given results. */
  ghost predicate ReadBack(secrets: map<Name, Secret>, results: map<Name, BasicAuthResult>,
                           all: Resolved<BasicAuthResult>) {
    && all.secrets == secrets && all.results.Some?
    && forall n :: n in all.results.value ==> n in results && all.results.value[n] == results[n]
  }

  lemma NextReadsBack(w: World, secrets: map<Name, Secret>, results: map<Name, BasicAuthResult>,
                      before: Resolved<BasicAuthResult>, r: Route, dryRun: bool, o: SecretOracle)
    requires Readable(w, [r], o) && ReadBack(secrets, results, before)
    requires Asks(r) ==> r.name in results && Backed(w, secrets, r, dryRun, results[r.name])
    ensures ReadBack(secrets, results, BasicAuthNext(w, before, r, dryRun, o))
    ensures Asks(r) ==> r.name in BasicAuthNext(w, before, r, dryRun, o).results.value
    ensures before.results.value.Keys <= BasicAuthNext(w, before, r, dryRun, o).results.value.Keys
  {
    assert r in [r];
  }

  /** Resolving routes whose every result the Secrets back changes no Secret and
      returns those results: a settled pass reads its own credentials back. */
  lemma {:induction false} BackedResolvesItself(w: World, secrets: map<Name, Secret>, routes: seq<Route>, dryRun: bool,
                                                o: SecretOracle,
                                                results: map<Name, BasicAuthResult>)
    requires Readable(w, routes, o)
    requires forall r :: r in routes && Asks(r) ==> r.name in results && Backed(w, secrets, r, dryRun, results[r.name])
    ensures var all := BasicAuthAll(w, secrets, routes, dryRun, o);
      && ReadBack(secrets, results, all)
      && forall r :: r in routes && Asks(r) ==> r.name in all.results.value
  {
    if routes != [] {
      var front, last := routes[..|routes| - 1], routes[|routes| - 1];
      assert routes == front + [last];
      assert last in routes;
      BackedResolvesItself(w, secrets, front, dryRun, o, results);
      NextReadsBack(w, secrets, results, BasicAuthAll(w, secrets, front, dryRun, o), last, dryRun, o);
    }
  }

  /** A second resolution, with whatever passwords it would draw, returns the first
      one's credentials and creates nothing. */
  lemma SecondResolutionReadsBack(w: World, secrets: map<Name, Secret>, routes: seq<Route>, dryRun: bool,
                                  first: SecretOracle, second: SecretOracle)
    requires BasicAuthAll(w, secrets, routes, dryRun, first).results.Some? && DistinctRoutes(routes)
    requires forall x :: x in routes ==> Proper(x, first)
    requires second.readFails == first.readFails
    ensures var a := BasicAuthAll(w, secrets, routes, dryRun, first);
            BasicAuthAll(w, a.secrets, routes, dryRun, second) == a
  {
    var a := BasicAuthAll(w, secrets, routes, dryRun, first);
    ResolvedWasReadable(w, secrets, routes, dryRun, first);
    forall r | r in routes && Asks(r)
      ensures r.name in a.results.value && Backed(w, a.secrets, r, dryRun, a.results.value[r.name])
    {
      ResultsAreBacked(w, secrets, routes, dryRun, first, r);
    }
    BackedResolvesItself(w, a.secrets, routes, dryRun, second, a.results.value);
    var b := BasicAuthAll(w, a.secrets, routes, dryRun, second);
    forall n | n in a.results.value ensures n in b.results.value {
      ResultsNameRoutes(w, secrets, routes, dryRun, first, n);
    }
    assert b.results.value == a.results.value;
  }

  lemma NextUsesStored(w: World, before: Resolved<BasicAuthResult>, r: Route, dryRun: bool, o: SecretOracle)
    requires Asks(r) && w.dnsSubdomain(SecretName(r.name).name) && SecretName(r.name) in before.secrets
    requires BasicAuthNext(w, before, r, dryRun, o).results.Some?
    ensures var after := BasicAuthNext(w, before, r, dryRun, o);
            r.name in after.results.value
            && after.results.value[r.name] == CredentialsFrom(before.secrets[SecretName(r.name)], r)
  {}

  /** While a route's complete Secret stands, every pass hands the renderer exactly the
      stored credentials. */
  lemma {:induction false} StoredCredentialsAreUsed(w: World, secrets: map<Name, Secret>, routes: seq<Route>,
                                                    dryRun: bool, o: SecretOracle, r: Route)
    requires BasicAuthAll(w, secrets, routes, dryRun, o).results.Some? && DistinctRoutes(routes)
    requires r in routes && Asks(r) && w.dnsSubdomain(SecretName(r.name).name)
    requires SecretName(r.name) in secrets
    ensures var all := BasicAuthAll(w, secrets, routes, dryRun, o);
            r.name in all.results.value
            && all.results.value[r.name] == CredentialsFrom(secrets[SecretName(r.name)], r)
  {
    hide BasicAuthNext, CredentialsFrom, Asks, SecretName;
    var front, last := routes[..|routes| - 1], routes[|routes| - 1];
    assert routes == front + [last];
    FrontDistinct(routes);
    var before := BasicAuthAll(w, secrets, front, dryRun, o);
    NextKeepsResult(w, before, last, dryRun, o, r.name);
    if r == last {
      SecretsSurvive(w, secrets, front, dryRun, o);
      NextUsesStored(w, before, r, dryRun, o);
    } else {
      assert r in front && r.name != last.name;
      StoredCredentialsAreUsed(w, secrets, front, dryRun, o, r);
    }
  }
}
