/** internal/controller/mtls.go after the apply: an mTLS route stays accepted only if its
    CA set is confirmed on the server. */
module Verify {
  import opened Text
  import opened Types
  import opened Server
  import FakeServer = Fake
  import Prune
  import Acceptance
  import Validators

  // ---------- fingerprints ----------

  predicate Separator(c: char) { c == ':' || c == ' ' || c == '\t' || c == '\n' }

  function Normalize(s: string): string {
    if s == "" then ""
    else if Separator(s[0]) then Normalize(s[1..])
    else [LowerChar(s[0])] + Normalize(s[1..])
  }

  function FingerprintOf(w: World, pem: string): string {
    var bs := w.pem(pem);
    if bs == [] || bs[0].typ != "CERTIFICATE" then "" else w.digest(bs[0].der)
  }

  function WantedFingerprints(w: World, certs: seq<string>): set<string> {
    set c | c in certs && FingerprintOf(w, c) != "" :: FingerprintOf(w, c)
  }

  function Held(got: seq<string>): set<string> { set f | f in got :: Normalize(f) }

  /** The server holds every CA that was sent. */
  predicate Covers(got: seq<string>, want: set<string>) { want <= Held(got) }

  lemma NormalizePair(a: char, b: char, rest: string)
    requires LowerHex([a, b])
    ensures Normalize([UpperHex(a), UpperHex(b)] + rest) == [a, b] + Normalize(rest)
  {
    assert [a, b][0] == a && [a, b][1] == b;
    CaseUndone(a);
    CaseUndone(b);
    hide LowerChar, UpperHex, Separator;
    var s := [UpperHex(a), UpperHex(b)] + rest;
    assert s[1..] == [UpperHex(b)] + rest && s[1..][1..] == rest;
    assert [a] + ([b] + Normalize(rest)) == [a, b] + Normalize(rest);
  }

  lemma CaseUndone(c: char)
    requires '0' <= c <= '9' || 'a' <= c <= 'f'
    ensures !Separator(UpperHex(c)) && LowerChar(UpperHex(c)) == c
  {}

  /** The server's colon-separated upper-case form normalizes back to the digest. */
  lemma {:induction false} NormalizeUndoesFormat(hex: string)
    requires LowerHex(hex)
    ensures Normalize(Fingerprint(hex)) == hex
  {
    if hex != "" {
      var a, b, rest := hex[0], hex[1], hex[2..];
      assert hex == [a, b] + rest;
      assert forall i :: 0 <= i < |rest| ==> rest[i] == hex[i + 2];
      NormalizeUndoesFormat(rest);
      var tail := if rest == "" then "" else [':'] + Fingerprint(rest);
      assert Fingerprint(hex) == [UpperHex(a), UpperHex(b)] + tail;
      if rest != "" { assert tail[1..] == Fingerprint(rest); }
      NormalizePair(a, b, tail);
    }
  }

  // ---------- the check ----------

  const UNCONFIRMED := ConditionResult(false, ReasonMtlsNotApplied, Say("could not confirm the mTLS CA was applied"))
  const NOT_IN_EFFECT := ConditionResult(false, ReasonMtlsNotApplied, Say("the mTLS CA set did not take effect"))

  function StoredFor(s: ServerState, k: string): seq<string> { if k in s.mtls then s.mtls[k] else [] }

  predicate NeedsCheck(v: Verdict, result: MTLSResult) {
    v.Published() && result.Trusted? && result.certificates != []
  }

  /** One route's verdict after the check. */
  function Verified(w: World, s: ServerState, v: Verdict, result: MTLSResult, listFails: bool,
                    readFails: int -> bool): Verdict {
    if !NeedsCheck(v, result) then v
    else if listFails || v.key !in s.public.ids then v.(accepted := UNCONFIRMED)
    else if readFails(s.public.ids[v.key]) || !Covers(StoredFor(s, v.key), WantedFingerprints(w, result.certificates))
    then v.(accepted := NOT_IN_EFFECT)
    else v
  }

  function VerifiedAll(w: World, s: ServerState, verdicts: map<Name, Verdict>, mtls: map<Name, MTLSResult>,
                       listFails: bool, readFails: int -> bool): map<Name, Verdict>
  {
    map n | n in verdicts ::
      if n in mtls then Verified(w, s, verdicts[n], mtls[n], listFails, readFails) else verdicts[n]
  }

  /** The rows are those of the map. */
  ghost predicate ListsMap(rows: seq<Row>, ids: map<string, int>) {
    && (forall i :: 0 <= i < |rows| ==> rows[i].key in ids && rows[i].id == ids[rows[i].key])
    && (forall k :: k in ids ==> Row(k, ids[k]) in rows)
  }

  method MapRows(rows: seq<Row>, ghost ids: map<string, int>) returns (found: map<string, int>)
    requires ListsMap(rows, ids)
    ensures found == ids
  {
    found := map[];
    var i := 0;
    while i < |rows|
      invariant 0 <= i <= |rows|
      invariant forall k :: k in found ==> k in ids && found[k] == ids[k]
      invariant forall j :: 0 <= j < i ==> rows[j].key in found
    {
      found := found[rows[i].key := rows[i].id];
      i := i + 1;
    }
    forall k | k in ids ensures k in found {
      assert Row(k, ids[k]) in rows;
    }
  }

  /** publicResourceIDs: the listing as a map. */
  method PublicResourceIDs(server: FakeServer.Fake, fails: bool) returns (byNice: Option<map<string, int>>)
    requires server.Valid()
    ensures byNice == if fails then None else Some(server.State().public.ids)
  {
    var listing := Prune.ListSection(server, PublicSection, fails);
    if listing.None? { return None; }
    ListingIsExact(server.State(), PublicSection);
    var found := MapRows(listing.value, IdsOf(server.State(), PublicSection));
    return Some(found);
  }

  /** What must be confirmed: the fingerprints of every published route with a CA set. */
  ghost predicate Wants(w: World, mtls: map<Name, MTLSResult>, verdicts: map<Name, Verdict>,
                        want: map<Name, set<string>>) {
    && (forall n :: n in want <==> n in verdicts && n in mtls && NeedsCheck(verdicts[n], mtls[n]))
    && (forall n :: n in want ==> mtls[n].Trusted? && want[n] == WantedFingerprints(w, mtls[n].certificates))
  }

  /** The first loop: the fingerprints to confirm, by route. */
  method Wanting(w: World, mtls: map<Name, MTLSResult>, verdicts: map<Name, Verdict>)
    returns (want: map<Name, set<string>>)
    ensures Wants(w, mtls, verdicts, want)
  {
    hide WantedFingerprints;
    want := map[];
    var todo := verdicts.Keys;
    while todo != {}
      invariant todo <= verdicts.Keys
      invariant forall n :: n in want <==> n in verdicts && n !in todo && n in mtls && NeedsCheck(verdicts[n], mtls[n])
      invariant forall n :: n in want ==> mtls[n].Trusted? && want[n] == WantedFingerprints(w, mtls[n].certificates)
      decreases |todo|
    {
      var n :| n in todo;
      todo := todo - {n};
      if !verdicts[n].Published() { continue; }
      if n !in mtls || !mtls[n].Trusted? || mtls[n].certificates == [] { continue; }
      want := want[n := WantedFingerprints(w, mtls[n].certificates)];
    }
  }

  /** The body of the second loop, given the listing or its failure. */
  method VerifyOne(w: World, server: FakeServer.Fake, v: Verdict, result: MTLSResult, want: set<string>,
                   byNice: Option<map<string, int>>, listFails: bool, readFails: int -> bool)
    returns (r: Verdict)
    requires NeedsCheck(v, result) && want == WantedFingerprints(w, result.certificates)
    requires byNice == if listFails then None else Some(server.State().public.ids)
    ensures r == Verified(w, server.State(), v, result, listFails, readFails)
  {
    if byNice.None? || v.key !in byNice.value { return v.(accepted := UNCONFIRMED); }
    var got := if v.key in server.mtlsCerts then server.mtlsCerts[v.key] else [];
    if readFails(byNice.value[v.key]) || !Covers(got, want) { return v.(accepted := NOT_IN_EFFECT); }
    return v;
  }

  method VerifyEach(w: World, server: FakeServer.Fake, mtls: map<Name, MTLSResult>, verdicts: map<Name, Verdict>,
                    want: map<Name, set<string>>, byNice: Option<map<string, int>>, listFails: bool,
                    readFails: int -> bool)
    returns (r: map<Name, Verdict>)
    requires Wants(w, mtls, verdicts, want)
    requires byNice == if listFails then None else Some(server.State().public.ids)
    ensures r == VerifiedAll(w, server.State(), verdicts, mtls, listFails, readFails)
  {
    hide NeedsCheck, Verified, WantedFingerprints, VerifiedBut;
    ghost var s := server.State();
    NoneVerified(w, s, verdicts, mtls, listFails, readFails, want.Keys);
    r := verdicts;
    var todo := want.Keys;
    while todo != {}
      invariant todo <= want.Keys
      invariant r == VerifiedBut(w, s, verdicts, mtls, listFails, readFails, todo)
      decreases |todo|
    {
      var n :| n in todo;
      VerifiedStep(w, s, verdicts, mtls, listFails, readFails, todo, n);
      todo := todo - {n};
      var v := VerifyOne(w, server, verdicts[n], mtls[n], want[n], byNice, listFails, readFails);
      r := r[n := v];
    }
    AllButNone(w, s, verdicts, mtls, listFails, readFails);
  }

  /** The verdicts while some are still to be confirmed. */
  function VerifiedBut(w: World, s: ServerState, verdicts: map<Name, Verdict>, mtls: map<Name, MTLSResult>,
                       listFails: bool, readFails: int -> bool, todo: set<Name>): map<Name, Verdict>
  {
    map n | n in verdicts ::
      if n in mtls && n !in todo then Verified(w, s, verdicts[n], mtls[n], listFails, readFails) else verdicts[n]
  }

  lemma NoneVerified(w: World, s: ServerState, verdicts: map<Name, Verdict>, mtls: map<Name, MTLSResult>,
                     listFails: bool, readFails: int -> bool, todo: set<Name>)
    requires forall n :: n in verdicts && n in mtls && NeedsCheck(verdicts[n], mtls[n]) ==> n in todo
    ensures VerifiedBut(w, s, verdicts, mtls, listFails, readFails, todo) == verdicts
  {
    hide NeedsCheck, Verified;
    UncheckedStand(w, s, verdicts, mtls, listFails, readFails);
  }

  lemma VerifiedStep(w: World, s: ServerState, verdicts: map<Name, Verdict>, mtls: map<Name, MTLSResult>,
                     listFails: bool, readFails: int -> bool, todo: set<Name>, n: Name)
    requires n in todo && n in verdicts && n in mtls
    ensures VerifiedBut(w, s, verdicts, mtls, listFails, readFails, todo - {n})
         == VerifiedBut(w, s, verdicts, mtls, listFails, readFails, todo)
            [n := Verified(w, s, verdicts[n], mtls[n], listFails, readFails)]
  {
    hide Verified;
  }

  lemma AllButNone(w: World, s: ServerState, verdicts: map<Name, Verdict>, mtls: map<Name, MTLSResult>,
                   listFails: bool, readFails: int -> bool)
    ensures VerifiedBut(w, s, verdicts, mtls, listFails, readFails, {})
         == VerifiedAll(w, s, verdicts, mtls, listFails, readFails)
  {
    hide Verified;
  }

  /** verifyMTLS: collect what must be confirmed, then confirm it route by route, in
      map order. */
  method VerifyMTLS(w: World, server: FakeServer.Fake, mtls: map<Name, MTLSResult>, verdicts: map<Name, Verdict>,
                    listFails: bool, readFails: int -> bool)
    returns (r: map<Name, Verdict>)
    requires server.Valid()
    ensures r == VerifiedAll(w, server.State(), verdicts, mtls, listFails, readFails)
  {
    hide NeedsCheck, Verified, WantedFingerprints, ValidTable;
    var want := Wanting(w, mtls, verdicts);
    if want == map[] {
      UncheckedStand(w, server.State(), verdicts, mtls, listFails, readFails);
      assert forall n :: n in verdicts ==> n !in want;
      return verdicts;
    }
    var byNice := PublicResourceIDs(server, listFails);
    r := VerifyEach(w, server, mtls, verdicts, want, byNice, listFails, readFails);
  }

  lemma UncheckedStand(w: World, s: ServerState, verdicts: map<Name, Verdict>, mtls: map<Name, MTLSResult>,
                       listFails: bool, readFails: int -> bool)
    ensures forall n :: n in verdicts && n in mtls && !NeedsCheck(verdicts[n], mtls[n]) ==>
      Verified(w, s, verdicts[n], mtls[n], listFails, readFails) == verdicts[n]
  {}

  // ---------- what a parsed set covers ----------

  lemma {:induction false} CleanFingerprints(w: World, certs: seq<string>)
    requires ValidWorld(w) && Acceptance.CleanCAs(w, certs)
    ensures forall c :: c in certs ==>
      FingerprintOf(w, c) != "" && Fingerprint(FingerprintOf(w, c)) in CertFingerprints(w, Blocks(w, certs))
  {
    if certs != [] {
      var front, last := certs[..|certs| - 1], certs[|certs| - 1];
      assert certs == front + [last];
      assert last in certs && forall c :: c in front ==> c in certs;
      CleanFingerprints(w, front);
      var bs := Blocks(w, front);
      var b := w.pem(last)[0];
      assert w.pem(last) == [b];
      assert (bs + [b])[..|bs|] == bs;
    }
  }

  /** What the server stores for a clean set covers everything that was sent. */
  lemma StoredSetCovers(w: World, certs: seq<string>)
    requires ValidWorld(w) && Acceptance.CleanCAs(w, certs) && ParsedCAs(w, certs).Some?
    ensures Covers(ParsedCAs(w, certs).value, WantedFingerprints(w, certs))
  {
    var stored := ParsedCAs(w, certs).value;
    CleanFingerprints(w, certs);
    Validators.DedupKeepsMembers(CertFingerprints(w, Blocks(w, certs)));
    forall f | f in WantedFingerprints(w, certs) ensures f in Held(stored) {
      var c :| c in certs && FingerprintOf(w, c) == f;
      NormalizeUndoesFormat(f);
      assert Fingerprint(f) in stored;
    }
  }
}
