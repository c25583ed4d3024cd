/** What the server refuses, spelled out on the fields of a document, and how far the
    controller's own checks agree with it. */
module ServerChecks {
  import opened Text
  import opened Sorting
  import opened Types
  import opened Server
  import opened Verdicts
  import Translate
  import Validators

  // ---------- one entry ----------

  predicate PortListFits(ports: Option<string>) { ports.Some? ==> Validators.ServerPortRanges(ports.value) }

  /** A private entry the schema takes. */
  ghost predicate PrivateTaken(w: World, res: PrivateResource) {
    && res.name != "" && res.destination != "" && "Admin" !in res.roles
    && (res.alias == "" || Validators.AliasName(res.alias)) && PortListFits(res.tcpPorts) && PortListFits(res.udpPorts)
    && match res.mode
       case Host =>
         w.isIP(res.destination)
         || (Validators.Hostname(res.destination) && res.alias != "" && Validators.Hostname(res.alias))
       case Cidr => w.isCIDR(res.destination)
       case Http => true
       case Unsupported(text) => text in {"ssh", "inference"}
  }

  lemma PrivateTakenIff(w: World, res: PrivateResource)
    ensures PrivateSchema(w, res) <==> PrivateTaken(w, res)
  {
    hide Validators.AliasName, Validators.Hostname, Validators.ServerPortRanges;
    assert |"ssh"| == 3 && |"inference"| == 9;
  }

  /** A policy the schema takes. */
  ghost predicate PolicyTaken(w: World, p: PublicPolicy) {
    && p.name != "" && ByteLen(p.name) <= 255 && "Admin" !in p.roles && (p.pincode == "" || IsPin(p.pincode))
    && (forall e :: e in p.whitelist ==> Validators.ValidEmail(e) || Validators.WildcardEmail(e))
    && (forall r :: r in p.rules ==> RuleFits(w, r))
  }

  lemma PolicyTakenIff(w: World, p: PublicPolicy)
    ensures PolicySchema(w, p) <==> PolicyTaken(w, p)
  {
    hide CheckRule, RuleFits, ByteLen, Validators.ValidEmail, Validators.WildcardEmail;
    forall r ensures CheckRule(w, r) <==> RuleFits(w, r) { RuleFitsIff(w, r); }
  }

  /** For the modes both sides know the controller is exactly as strict as the server. */
  lemma ModesAgree(w: World, spec: PrivateSpec, name: string, sites: seq<string>)
    requires ValidWorld(w) && (spec.mode.Host? || spec.mode.Cidr?) && name != "" && "Admin" !in spec.roles
    requires spec.fullDomain == "" && spec.ssl.None? && spec.scheme == "" && spec.destinationPort == 0
    requires spec.mode.Cidr? ==> spec.alias == ""
    ensures ModeFits(w, spec) <==> PrivateSchema(w, Translate.ModeFields(spec, name, sites))
  {
    hide Validators.AliasName, Validators.Hostname, Validators.ServerPortRanges, Validators.ClientPortRanges;
    Validators.PortValidatorsAgree(spec.tcpPorts);
    Validators.PortValidatorsAgree(spec.udpPorts);
    Validators.PatternsRefuseEmpty();
  }

  // ---------- certificates ----------

  /** The fingerprints of the certificates in a list of PEM texts, each once. */
  ghost predicate DistinctFingerprints(w: World, bs: seq<PemBlock>, out: seq<string>) {
    && Distinct(out)
    && forall f :: f in out <==> exists b :: b in bs && b.typ == "CERTIFICATE" && Fingerprint(w.digest(b.der)) == f
  }

  lemma {:induction false} FingerprintsAre(w: World, bs: seq<PemBlock>, f: string)
    ensures f in CertFingerprints(w, bs)
            <==> exists b :: b in bs && b.typ == "CERTIFICATE" && Fingerprint(w.digest(b.der)) == f
  {
    hide Fingerprint;
    if bs != [] {
      var front, last := bs[..|bs| - 1], bs[|bs| - 1];
      assert bs == front + [last];
      FingerprintsAre(w, front, f);
    }
  }

  /** A list of PEM texts is stored exactly if it holds no private key, every certificate in
      it parses, and at most twenty of them differ. */
  lemma StoredIff(w: World, pems: seq<string>, out: seq<string>)
    requires out == Validators.Dedup(CertFingerprints(w, Blocks(w, pems)))
    ensures DistinctFingerprints(w, Blocks(w, pems), out)
    ensures ParsedCAs(w, pems)
         == if (forall b :: b in Blocks(w, pems) ==>
                 !Contains(b.typ, "PRIVATE KEY") && (b.typ == "CERTIFICATE" ==> w.parses(b.der))) && |out| <= 20
            then Some(out) else None
  {
    hide Contains, Fingerprint, Blocks, CertFingerprints, Validators.Dedup;
    Validators.DedupKeepsMembers(CertFingerprints(w, Blocks(w, pems)));
    forall f
      ensures f in out
              <==> exists b :: b in Blocks(w, pems) && b.typ == "CERTIFICATE" && Fingerprint(w.digest(b.der)) == f
    {
      FingerprintsAre(w, Blocks(w, pems), f);
    }
  }

  /** A fingerprint has the digits of the digest in capitals, a colon after every two. */
  lemma {:induction false} FingerprintSpelled(hex: string)
    requires |hex| % 2 == 0
    ensures |Fingerprint(hex)| == (if hex == "" then 0 else |hex| / 2 * 3 - 1)
    ensures forall i :: 0 <= i < |Fingerprint(hex)| ==>
      Fingerprint(hex)[i] == if i % 3 == 2 then ':' else UpperHex(hex[i / 3 * 2 + i % 3])
  {
    hide UpperHex;
    if |hex| > 2 {
      FingerprintSpelled(hex[2..]);
      var rest := Fingerprint(hex[2..]);
      forall i | 3 <= i < |Fingerprint(hex)|
        ensures Fingerprint(hex)[i] == if i % 3 == 2 then ':' else UpperHex(hex[i / 3 * 2 + i % 3])
      {
        assert Fingerprint(hex)[i] == rest[i - 3];
        assert (i - 3) % 3 == i % 3 && (i - 3) / 3 == i / 3 - 1;
        if i % 3 != 2 { assert hex[2..][(i - 3) / 3 * 2 + (i - 3) % 3] == hex[i / 3 * 2 + i % 3]; }
      }
    }
  }

  // ---------- the document ----------

  predicate SomeUser(s: ServerState, names: seq<string>) {
    exists n | n in names :: exists u | u in s.users :: n == u.username || n == u.email
  }

  predicate SomeMachine(s: ServerState, names: seq<string>) { exists n | n in names :: n in s.machines }

  /** One public entry among the others. */
  ghost predicate PublicTaken(w: World, s: ServerState, b: Blueprint, k: string) {
    k in b.public &&
    var res := b.public[k];
    && (forall r :: r in res.rules ==> RuleFits(w, r))
    && (forall e :: e in res.auth.whitelist ==> Validators.ValidEmail(e))
    && (res.policy != "" ==> s.licensed && (res.policy in b.policies || res.policy in s.policies.rows))
    && (forall t :: t in res.targets ==> t.site == "" || t.site in s.sites)
    && (!s.strip && res.auth.mtls.Some? ==> ParsedCAs(w, res.auth.mtls.value.certificates).Some?)
    && (res.fullDomain != "" ==> forall o :: o in b.public && b.public[o].fullDomain == res.fullDomain ==> o == k)
  }

  /** One private entry among the others and the stored ones. */
  ghost predicate PrivateAmong(w: World, s: ServerState, b: Blueprint, k: string) {
    k in b.private &&
    var res := b.private[k];
    && PrivateTaken(w, res)
    && (forall x :: x in res.sites ==> x == "" || x in s.sites)
    && (res.fullDomain != "" ==> forall o :: o in b.private && b.private[o].fullDomain == res.fullDomain ==> o == k)
    && (res.alias != "" ==>
         && (forall o :: o in b.private && b.private[o].alias == res.alias ==> o == k)
         && (forall o :: o in s.private.rows && s.private.rows[o].alias == res.alias ==> o in b.private))
    && (res.users == [] || SomeUser(s, res.users)) && (res.machines == [] || SomeMachine(s, res.machines))
  }

  ghost predicate PolicyAmong(w: World, s: ServerState, b: Blueprint, k: string) {
    k in b.policies && s.licensed && PolicyTaken(w, b.policies[k])
  }

  ghost predicate DocumentTaken(w: World, s: ServerState, b: Blueprint) {
    && (forall k :: k in b.public ==> PublicTaken(w, s, b, k))
    && (forall k :: k in b.private ==> PrivateAmong(w, s, b, k))
    && (forall k :: k in b.policies ==> PolicyAmong(w, s, b, k))
  }

  /** The checks of the public section together. */
  ghost predicate PublicChecks(w: World, s: ServerState, b: Blueprint) {
    && (forall k :: k in b.public ==> RulesPass(w, b.public[k].rules)) && PublicDomainsUnique(b.public)
    && (forall k :: k in b.public ==> ResourcePolicyPasses(s, b, b.public[k]))
    && (forall k :: k in b.public ==> forall t :: t in b.public[k].targets ==> t.site == "" || t.site in s.sites)
    && CAsPass(w, s, b)
  }

  lemma PublicChecksIff(w: World, s: ServerState, b: Blueprint)
    ensures PublicChecks(w, s, b) <==> forall k :: k in b.public ==> PublicTaken(w, s, b, k)
  {
    hide CheckRule, RuleFits, Validators.ValidEmail, ParsedCAs;
    forall r ensures CheckRule(w, r) <==> RuleFits(w, r) { RuleFitsIff(w, r); }
    if PublicChecks(w, s, b) {
      forall k | k in b.public ensures PublicTaken(w, s, b, k) { assert RulesPass(w, b.public[k].rules); }
    }
    if forall k :: k in b.public ==> PublicTaken(w, s, b, k) {
      forall k | k in b.public ensures RulesPass(w, b.public[k].rules) && ResourcePolicyPasses(s, b, b.public[k]) {
        assert PublicTaken(w, s, b, k);
      }
      forall k, o | k in b.public && o in b.public && k != o && b.public[k].fullDomain != ""
        ensures b.public[k].fullDomain != b.public[o].fullDomain
      {
        assert PublicTaken(w, s, b, k);
      }
      forall k | k in b.public
        ensures forall t :: t in b.public[k].targets ==> t.site == "" || t.site in s.sites
        ensures !s.strip && SentCAs(b.public[k]).Some? ==> ParsedCAs(w, SentCAs(b.public[k]).value).Some?
      {
        assert PublicTaken(w, s, b, k);
      }
    }
  }

  /** The checks of the private section together. */
  ghost predicate PrivateChecks(w: World, s: ServerState, b: Blueprint) {
    && (forall k :: k in b.private ==> PrivateSchema(w, b.private[k])) && PrivateDomainsUnique(b.private)
    && (forall k :: k in b.private ==> forall x :: x in b.private[k].sites ==> x == "" || x in s.sites)
    && (forall k :: k in b.private ==> PrivatePasses(s, b, k))
  }

  lemma GrantsPassIff(s: ServerState, res: PrivateResource)
    ensures GrantsPass(s, res)
            <==> (res.users == [] || SomeUser(s, res.users)) && (res.machines == [] || SomeMachine(s, res.machines))
  {
    if SomeUser(s, res.users) {
      var n :| n in res.users && exists u :: u in s.users && (n == u.username || n == u.email);
      var u :| u in s.users && (n == u.username || n == u.email);
    }
    if NamesUser(s, res.users) {
      var u :| u in s.users && (u.username in res.users || u.email in res.users);
      var n := if u.username in res.users then u.username else u.email;
      assert n in res.users;
    }
  }

  lemma PassesIff(s: ServerState, b: Blueprint, k: string)
    requires k in b.private
    ensures var res := b.private[k];
      PrivatePasses(s, b, k)
      <==> (res.alias != "" ==>
             && (forall o :: o in b.private && b.private[o].alias == res.alias ==> o == k)
             && (forall o :: o in s.private.rows && s.private.rows[o].alias == res.alias ==> o in b.private))
           && (res.users == [] || SomeUser(s, res.users)) && (res.machines == [] || SomeMachine(s, res.machines))
  {
    hide GrantsPass, SomeUser, SomeMachine;
    GrantsPassIff(s, b.private[k]);
  }

  lemma PrivateChecksIff(w: World, s: ServerState, b: Blueprint)
    ensures PrivateChecks(w, s, b) <==> forall k :: k in b.private ==> PrivateAmong(w, s, b, k)
  {
    hide PrivateSchema, PrivateTaken, PrivatePasses, SomeUser, SomeMachine;
    forall k | k in b.private ensures PrivateSchema(w, b.private[k]) <==> PrivateTaken(w, b.private[k]) {
      PrivateTakenIff(w, b.private[k]);
    }
    if PrivateChecks(w, s, b) {
      forall k | k in b.private ensures PrivateAmong(w, s, b, k) {
        PassesIff(s, b, k);
        forall o | o in b.private && o != k && b.private[k].fullDomain != ""
          ensures b.private[o].fullDomain != b.private[k].fullDomain {}
      }
    }
    if forall k :: k in b.private ==> PrivateAmong(w, s, b, k) {
      forall k | k in b.private
        ensures PrivateSchema(w, b.private[k]) && PrivatePasses(s, b, k)
        ensures forall x :: x in b.private[k].sites ==> x == "" || x in s.sites
        ensures b.private[k].fullDomain != "" ==>
          forall o :: o in b.private && b.private[o].fullDomain == b.private[k].fullDomain ==> o == k
      {
        assert PrivateAmong(w, s, b, k);
        PassesIff(s, b, k);
      }
    }
  }

  lemma PolicyChecksIff(w: World, s: ServerState, b: Blueprint)
    ensures (forall k | k in b.policies :: s.licensed && PolicySchema(w, b.policies[k]))
            <==> forall k :: k in b.policies ==> PolicyAmong(w, s, b, k)
  {
    hide PolicySchema, PolicyTaken;
    forall k | k in b.policies ensures PolicySchema(w, b.policies[k]) <==> PolicyTaken(w, b.policies[k]) {
      PolicyTakenIff(w, b.policies[k]);
    }
  }

  /** The apply accepts exactly the documents whose every entry passes, among the others of
      the document and those the server holds. */
  lemma AcceptedIffTaken(w: World, s: ServerState, b: Blueprint)
    ensures Acceptable(w, s, b) <==> DocumentTaken(w, s, b)
  {
    hide RulesPass, PrivateSchema, PolicySchema, PublicDomainsUnique, PrivateDomainsUnique, ResourcePolicyPasses,
         CAsPass, PrivatePasses, PublicTaken, PrivateAmong, PolicyAmong;
    PublicChecksIff(w, s, b);
    PrivateChecksIff(w, s, b);
    PolicyChecksIff(w, s, b);
  }
}
