/** When the CA check after the apply comes out well: fingerprints digit by digit, and the
    published routes of a pass whose calls succeed. */
module Confirmation {
  import opened Text
  import opened Types
  import opened Translate
  import opened Render
  import opened RenderLaws
  import opened Server
  import opened Acceptance
  import opened Verify
  import opened ClusterObjects
  import opened Pass
  import opened Truth
  import Faithful
  import Passwords
  import Provenance
  import SecondPass
  import Secrets

  // ---------- fingerprints ----------

  /** Character by character: separators go, letters are lowered. */
  lemma {:induction false} NormalizeMeans(a: string, b: string)
    ensures Normalize(a + b) == Normalize(a) + Normalize(b)
    ensures forall c: char :: Normalize([c]) == if c in {':', ' ', '\t', '\n'} then "" else [LowerChar(c)]
  {
    hide LowerChar;
    if a == "" {
      assert a + b == b;
    } else {
      assert (a + b)[0] == a[0] && (a + b)[1..] == a[1..] + b;
      NormalizeMeans(a[1..], b);
    }
    forall c: char ensures Normalize([c]) == if c in {':', ' ', '\t', '\n'} then "" else [LowerChar(c)] {
      assert [c][1..] == "";
    }
  }

  /** The first block of a PEM text is a certificate with this digest. */
  ghost predicate HasDigest(w: World, pem: string, digest: string) {
    w.pem(pem) != [] && w.pem(pem)[0].typ == "CERTIFICATE" && w.digest(w.pem(pem)[0].der) == digest
  }

  /** The set stored under a key covers the certificates exactly if each one's digest is
      there, however the server writes it. */
  lemma CoversMeans(w: World, s: ServerState, k: string, certs: seq<string>)
    requires ValidWorld(w)
    ensures Covers(StoredFor(s, k), WantedFingerprints(w, certs))
            <==> forall c, d :: c in certs && HasDigest(w, c, d) ==>
                   k in s.mtls && exists f :: f in s.mtls[k] && Normalize(f) == d
  {
    hide Normalize, LowerHex;
    var got, want := StoredFor(s, k), WantedFingerprints(w, certs);
    if Covers(got, want) {
      forall c, d | c in certs && HasDigest(w, c, d)
        ensures k in s.mtls && exists f :: f in s.mtls[k] && Normalize(f) == d
      {
        assert FingerprintOf(w, c) == d && d != "" && d in want;
        assert d in Held(got);
      }
    }
    if forall c, d :: c in certs && HasDigest(w, c, d) ==>
         k in s.mtls && exists f :: f in s.mtls[k] && Normalize(f) == d
    {
      forall d | d in want ensures d in Held(got) {
        var c :| c in certs && FingerprintOf(w, c) == d;
        assert HasDigest(w, c, d);
        var f :| f in s.mtls[k] && Normalize(f) == d;
        assert f in got;
      }
    }
  }

  // ---------- a pass whose calls succeed ----------

  /** Whatever the verdict was, the check confirms it. */
  ghost predicate AcceptedAfterCheck(judged: map<Name, Verdict>, n: Name) {
    n in judged && judged[n].key != "" && judged[n].accepted.status
  }

  lemma SentAreStored(w: World, s: ServerState, b: Blueprint, mid: ServerState, k: string, certs: seq<string>)
    requires ValidWorld(w) && ValidState(s) && Applied(w, s, b, mid) && !s.strip
    requires k in b.public && b.public[k].auth.mtls == Some(MTLS(true, certs)) && CleanCAs(w, certs)
    ensures k in mid.public.ids && Covers(StoredFor(mid, k), WantedFingerprints(w, certs))
  {
    hide Covers, WantedFingerprints, ParsedCAs;
    CleanCAsParse(w, certs);
    StoredSetCovers(w, certs);
    assert SentCAs(b.public[k]) == Some(certs);
  }

  lemma CheckPasses(w: World, f: Faults, mid: ServerState, v: Verdict, result: MTLSResult)
    requires !f.verifyList && (forall id :: !f.certReads(id)) && v.key in mid.public.ids
    requires result.Trusted? ==> Covers(StoredFor(mid, v.key), WantedFingerprints(w, result.certificates))
    ensures Confirmed(w, f, mid, v, result)
  {
    var id := mid.public.ids[v.key];
    assert !f.certReads(id);
  }

  /** The CA set of a published route is sent with it. */
  lemma TrustedAreSent(w: World, input: Inputs, r: Route, certs: seq<string>)
    requires DistinctObjects(input) && r in input.routes && RoutePublished(RenderedOf(w, input), r.name)
    requires MTLSRequested(r) && Provenance.TrustsExactly(input.mtls, r.name, certs)
    ensures Provenance.SendsCAs(RenderedOf(w, input).blueprint, Key(r.name), certs)
  {
    hide RenderedOf, TranslateRoute, ParentsOf, PolicyVerdicts, Key, MTLSRequested, DistinctObjects, RoutePublished;
    var e := PublishedTranslation(w, input, r);
    Provenance.AskingForMTLSIsPublic(w, r, input, PolicyVerdicts(w, input));
    Faithful.PublicRouteAsAsked(w, r, input, PolicyVerdicts(w, input), e.section.public);
  }

  /** The resolver speaks for routes that ask, and only of CA sets the server parses. */
  lemma ResolvedForAsking(w: World, cfg: Config, f: Faults, c: ClusterState, s: ServerState, r: Route,
                          certs: seq<string>)
    requires ValidWorld(w) && DistinctCluster(c.objects) && Preparation(w, cfg, c, s, f).Ready? && r in c.objects.routes
    requires Provenance.TrustsExactly(InputOf(w, cfg, c, s, f).mtls, r.name, certs)
    ensures MTLSRequested(r) && CleanCAs(w, certs)
  {
    hide Preparation, InputOf, Secrets.BasicAuthAll, Secrets.MTLSAll, ServedRoutes, MTLSRequested, CleanCAs,
         DistinctCluster;
    var input := InputOf(w, cfg, c, s, f);
    var served := ServedRoutes(input.routes, input);
    var secrets := Secrets.BasicAuthAll(w, c.secrets, served, cfg.dryRun, f.secrets).secrets;
    Passwords.PreparedProtections(w, cfg, f, c, s);
    Secrets.ResolvedCAsAreClean(w, secrets, c.configMaps, served, f.caReads, r.name);
    var x := Provenance.ResolvedNamesRoute(w, secrets, c.configMaps, served, f.caReads, r.name);
    DistinctRoutesOf(c.objects);
    SecondPass.ServedAreRoutes(input.routes, input);
    SameRoute(c.objects.routes, x, r);
  }

  lemma DistinctRoutesOf(o: Objects)
    requires DistinctCluster(o)
    ensures Secrets.DistinctRoutes(o.routes)
  {}

  /** The hypotheses of the two theorems: a real pass whose document was accepted. */
  ghost predicate AcceptedPass(w: World, cfg: Config, f: Faults, c: ClusterState, s: ServerState, mid: ServerState,
                               o: PassEnd) {
    && RealPass(w, cfg, f, c, s, mid, o) && Accepts(w, cfg, f, s, RenderedOf(w, InputOf(w, cfg, c, s, f)).blueprint)
  }

  lemma AppliedInPass(w: World, cfg: Config, f: Faults, c: ClusterState, s: ServerState, mid: ServerState, o: PassEnd)
    requires AcceptedPass(w, cfg, f, c, s, mid, o)
    ensures Applied(w, s, RenderedOf(w, InputOf(w, cfg, c, s, f)).blueprint, mid)
    ensures DistinctObjects(InputOf(w, cfg, c, s, f)) && InputOf(w, cfg, c, s, f).routes == c.objects.routes
  {
    hide PassResult, Preparation, RenderedOf, InputOf, Acceptable, Applied, Finished, DistinctObjects, DistinctCluster;
    PassEnds(w, cfg, f, c, s, mid, o);
    PreparedInputs(w, cfg, c, s, f);
  }

  lemma EntryIsInPlace(w: World, s: ServerState, b: Blueprint, mid: ServerState, k: string)
    requires ValidState(s) && Applied(w, s, b, mid) && k in b.public
    ensures k in mid.public.ids
  {}

  /** The verdict of a published route after the check. */
  ghost predicate Judges(w: World, cfg: Config, f: Faults, mid: ServerState, r: Rendered, mtls: map<Name, MTLSResult>,
                         n: Name, accepted: bool) {
    var judged := JudgedRoutes(w, cfg, f, mid, true, r.routes, mtls);
    n in judged && judged[n].accepted.status == accepted
  }

  lemma JudgesIff(w: World, cfg: Config, f: Faults, mid: ServerState, input: Inputs, r: Route)
    requires DistinctObjects(input) && r in input.routes && !cfg.dryRun && RoutePublished(RenderedOf(w, input), r.name)
    ensures Judges(w, cfg, f, mid, RenderedOf(w, input), input.mtls, r.name,
                   CAConfirmed(w, f, mid, RenderedOf(w, input).routes, input.mtls, r.name))
  {
    hide RenderedOf, CAConfirmed, JudgedRoutes, DistinctObjects, TranslateRoute, ParentsOf, Key;
    RouteVerdictIsItsEntry(w, input, r);
    JudgedTrueIff(w, cfg, f, mid, true, RenderedOf(w, input).routes, input.mtls, r.name);
  }

  /** On a server that keeps CA sets, the check confirms every route the pass published. */
  lemma PublishedAreConfirmed(w: World, cfg: Config, f: Faults, c: ClusterState, s: ServerState, mid: ServerState,
                              o: PassEnd, r: Route)
    requires ValidWorld(w) && AcceptedPass(w, cfg, f, c, s, mid, o) && !s.strip
    requires !f.verifyList && (forall id :: !f.certReads(id))
    requires r in c.objects.routes && RoutePublished(RenderedOf(w, InputOf(w, cfg, c, s, f)), r.name)
    ensures var input := InputOf(w, cfg, c, s, f);
            Judges(w, cfg, f, mid, RenderedOf(w, input), input.mtls, r.name, true)
  {
    hide AcceptedPass, RenderedOf, Applied, InputOf, JudgedRoutes, DistinctObjects, Judges, ValidWorld, CleanCAs, Key,
         Covers, WantedFingerprints, MTLSRequested, TranslateRoute, ParentsOf, ValidState, Confirmed;
    var input := InputOf(w, cfg, c, s, f);
    var b, verdicts := RenderedOf(w, input).blueprint, RenderedOf(w, input).routes;
    AppliedInPass(w, cfg, f, c, s, mid, o);
    RealOf(w, cfg, f, c, s, mid, o);
    JudgesIff(w, cfg, f, mid, input, r);
    RouteVerdictIsItsEntry(w, input, r);
    if r.name in input.mtls {
      match input.mtls[r.name] {
        case Untrusted(_) => NothingToConfirm(w, f, mid, verdicts[r.name], input.mtls[r.name]);
        case Trusted(certs) =>
          ResolvedForAsking(w, cfg, f, c, s, r, certs);
          TrustedAreSent(w, input, r, certs);
          SentAreStored(w, s, b, mid, Key(r.name), certs);
          CheckPasses(w, f, mid, verdicts[r.name], input.mtls[r.name]);
      }
    }
  }

  lemma RealOf(w: World, cfg: Config, f: Faults, c: ClusterState, s: ServerState, mid: ServerState, o: PassEnd)
    requires AcceptedPass(w, cfg, f, c, s, mid, o)
    ensures ValidState(s) && DistinctCluster(c.objects) && !cfg.dryRun && Preparation(w, cfg, c, s, f).Ready?
  {
    hide PassResult, Preparation, ValidState, DistinctCluster, RenderedOf, Accepts;
  }

  lemma NothingToConfirm(w: World, f: Faults, mid: ServerState, v: Verdict, result: MTLSResult)
    requires result.Untrusted?
    ensures Confirmed(w, f, mid, v, result)
  {}

  /** On a server that drops them no route that sends certificates is reported accepted. */
  lemma StrippedAreNotConfirmed(w: World, cfg: Config, f: Faults, c: ClusterState, s: ServerState, mid: ServerState,
                                o: PassEnd, r: Route, certs: seq<string>)
    requires ValidWorld(w) && AcceptedPass(w, cfg, f, c, s, mid, o) && s.strip && StoredFor(s, Key(r.name)) == []
    requires r in c.objects.routes && RoutePublished(RenderedOf(w, InputOf(w, cfg, c, s, f)), r.name)
    requires certs != [] && Provenance.TrustsExactly(InputOf(w, cfg, c, s, f).mtls, r.name, certs)
    ensures var input := InputOf(w, cfg, c, s, f);
            Judges(w, cfg, f, mid, RenderedOf(w, input), input.mtls, r.name, false)
  {
    hide AcceptedPass, RenderedOf, Applied, InputOf, JudgedRoutes, DistinctObjects, Judges, ValidWorld, CleanCAs, Key,
         MTLSRequested, TranslateRoute, ParentsOf, ValidState, StoredFor;
    var input := InputOf(w, cfg, c, s, f);
    AppliedInPass(w, cfg, f, c, s, mid, o);
    RealOf(w, cfg, f, c, s, mid, o);
    JudgesIff(w, cfg, f, mid, input, r);
    RouteVerdictIsItsEntry(w, input, r);
    ResolvedForAsking(w, cfg, f, c, s, r, certs);
    StripStoresNothing(w, s, RenderedOf(w, input).blueprint, mid, Key(r.name));
    WantedNotEmpty(w, certs);
  }

  lemma StripStoresNothing(w: World, s: ServerState, b: Blueprint, mid: ServerState, k: string)
    requires Applied(w, s, b, mid) && s.strip
    ensures StoredFor(mid, k) == StoredFor(s, k)
  {
    hide ParsedCAs;
  }

  lemma WantedNotEmpty(w: World, certs: seq<string>)
    requires ValidWorld(w) && CleanCAs(w, certs) && certs != []
    ensures !Covers([], WantedFingerprints(w, certs))
  {
    hide ValidWorld, CleanCAs, Fingerprint;
    CleanFingerprints(w, certs);
    assert certs[0] in certs;
    assert FingerprintOf(w, certs[0]) in WantedFingerprints(w, certs);
  }
}
