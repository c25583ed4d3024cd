/** resolveCollisions of internal/gateway/render.go: each key and each hostname goes
    to its oldest claimant. */
module Collisions {
  import opened Text
  import opened Sorting
  import opened Types

  /** Exactly one of the two sections holds an entry. */
  datatype Contents = InPublic(public: PublicResource) | InPrivate(private: PrivateResource)

  datatype Entry = Entry(key: string, hostnames: seq<string>, notes: seq<Note>, section: Contents)

  datatype Candidate = Candidate(claimant: Claimant, createdAt: int, entry: Entry)

  datatype Outcome = Won(key: string) | KeyTaken(owner: Claimant) | HostTaken(host: string, hostOwner: Claimant)

  // ---------- order ----------

  function KindName(k: Kind): string {
    match k case HTTPRouteKind => "HTTPRoute" case PrivateResourceKind => "PrivateResource"
  }

  function CompareTimes(a: int, b: int): int { if a < b then -1 else if b < a then 1 else 0 }

  /** The next key decides only when this one ties. */
  function Then(first: int, next: int): int { if first != 0 then first else next }

  /** Creation time, namespace, name, kind. */
  function CompareCandidates(a: Candidate, b: Candidate): int {
    Then(CompareTimes(a.createdAt, b.createdAt),
         Then(Compare(a.claimant.name.ns, b.claimant.name.ns),
              Then(Compare(a.claimant.name.name, b.claimant.name.name),
                   Compare(KindName(a.claimant.kind), KindName(b.claimant.kind)))))
  }

  function CandidateOrder(): (Candidate, Candidate) -> bool { (a, b) => CompareCandidates(a, b) <= 0 }

  ghost predicate DistinctClaimants(cs: seq<Candidate>) {
    forall i, j :: 0 <= i < j < |cs| ==> cs[i].claimant != cs[j].claimant
  }

  lemma CompareStep(a: string, b: string, c: string)
    ensures Compare(a, b) <= 0 && Compare(b, c) <= 0 ==> Compare(a, c) <= 0
    ensures Compare(a, b) == 0 && Compare(b, c) == 0 ==> Compare(a, c) == 0
    ensures Compare(a, b) < 0 && Compare(b, c) <= 0 ==> Compare(a, c) < 0
    ensures Compare(a, b) <= 0 && Compare(b, c) < 0 ==> Compare(a, c) < 0
  {
    CompareAntisymmetric(a, b);
    CompareAntisymmetric(b, c);
    CompareAntisymmetric(a, c);
    if Compare(a, b) <= 0 && Compare(b, c) <= 0 {
      CompareTransitive(a, b, c);
      if Compare(a, c) == 0 { CompareAntisymmetric(c, b); }
    }
  }

  lemma CandidateAntisymmetric(a: Candidate, b: Candidate)
    ensures CompareCandidates(a, b) == -CompareCandidates(b, a)
    ensures CompareCandidates(a, b) == 0 ==> a.claimant == b.claimant && a.createdAt == b.createdAt
  {
    CompareAntisymmetric(a.claimant.name.ns, b.claimant.name.ns);
    CompareAntisymmetric(a.claimant.name.name, b.claimant.name.name);
    CompareAntisymmetric(KindName(a.claimant.kind), KindName(b.claimant.kind));
    KindNamesDiffer(a.claimant.kind, b.claimant.kind);
  }

  lemma KindNamesDiffer(a: Kind, b: Kind)
    ensures KindName(a) == KindName(b) <==> a == b
  {
    assert "HTTPRoute"[0] != "PrivateResource"[0];
  }

  lemma CandidateTransitive(a: Candidate, b: Candidate, c: Candidate)
    requires CompareCandidates(a, b) <= 0 && CompareCandidates(b, c) <= 0
    ensures CompareCandidates(a, c) <= 0
  {
    CompareStep(a.claimant.name.ns, b.claimant.name.ns, c.claimant.name.ns);
    CompareStep(a.claimant.name.name, b.claimant.name.name, c.claimant.name.name);
    CompareStep(KindName(a.claimant.kind), KindName(b.claimant.kind), KindName(c.claimant.kind));
  }

  lemma CandidateOrderIsTotal()
    ensures TotalPreorder(CandidateOrder())
  {
    var le := CandidateOrder();
    forall a, b ensures le(a, b) || le(b, a) { CandidateAntisymmetric(a, b); }
    forall a, b, c | le(a, b) && le(b, c) ensures le(a, c) { CandidateTransitive(a, b, c); }
  }

  lemma CandidateOrderSeparates(cs: seq<Candidate>)
    requires DistinctClaimants(cs)
    ensures Separates(cs, CandidateOrder())
  {
    forall a, b | a in cs && b in cs && CandidateOrder()(a, b) && CandidateOrder()(b, a) ensures a == b {
      CandidateAntisymmetric(a, b);
    }
  }

  lemma DistinctClaimantsPermute(a: seq<Candidate>, b: seq<Candidate>)
    requires multiset(a) == multiset(b) && DistinctClaimants(a)
    ensures DistinctClaimants(b)
  {
    DistinctPermutes(a, b);
    forall i, j | 0 <= i < j < |b| ensures b[i].claimant != b[j].claimant {
      assert b[i] in multiset(a) && b[j] in multiset(a);
    }
  }

  // ---------- the allocation ----------

  /** Who holds what, and the two blueprint sections. */
  datatype Claims = Claims(
    keyOwner: map<string, Claimant>,
    publicHosts: map<string, Claimant>,
    privateHosts: map<string, Claimant>,
    public: map<string, PublicResource>,
    private: map<string, PrivateResource>)

  datatype Resolution = Resolution(claims: Claims, outcomes: map<Claimant, Outcome>)

  const NOTHING_CLAIMED := Resolution(Claims(map[], map[], map[], map[], map[]), map[])

  predicate IsPublic(e: Entry) { e.section.InPublic? }

  function Hosts(m: Claims, public: bool): map<string, Claimant> {
    if public then m.publicHosts else m.privateHosts
  }

  /** The first hostname somebody holds, compared case-insensitively. */
  function FirstClaimed(hostnames: seq<string>, owners: map<string, Claimant>): Option<(string, Claimant)> {
    if hostnames == [] then None
    else if ToLower(hostnames[0]) in owners then Some((hostnames[0], owners[ToLower(hostnames[0])]))
    else FirstClaimed(hostnames[1..], owners)
  }

  predicate Names(hostnames: seq<string>, h: string) {
    exists n :: 0 <= n < |hostnames| && ToLower(hostnames[n]) == h
  }

  function Claim(owners: map<string, Claimant>, hostnames: seq<string>, c: Claimant): (r: map<string, Claimant>)
    ensures forall h :: h in r <==> h in owners || Names(hostnames, h)
    ensures forall h :: h in r ==> r[h] == if Names(hostnames, h) then c else owners[h]
  {
    if hostnames == [] then owners
    else
      var last := |hostnames| - 1;
      var front := hostnames[..last];
      assert hostnames == front + [hostnames[last]];
      assert forall h :: Names(hostnames, h) <==> Names(front, h) || ToLower(hostnames[last]) == h;
      Claim(owners, front, c)[ToLower(hostnames[last]) := c]
  }

  function Decide(m: Claims, e: Entry): Outcome {
    if e.key in m.keyOwner then KeyTaken(m.keyOwner[e.key])
    else match FirstClaimed(e.hostnames, Hosts(m, IsPublic(e)))
      case Some((host, owner)) => HostTaken(host, owner)
      case None => Won(e.key)
  }

  function Accept(m: Claims, c: Candidate): Claims {
    var e := c.entry;
    var hosts := Claim(Hosts(m, IsPublic(e)), e.hostnames, c.claimant);
    var keyed := m.(keyOwner := m.keyOwner[e.key := c.claimant]);
    match e.section
    case InPublic(res) => keyed.(publicHosts := hosts, public := m.public[e.key := res])
    case InPrivate(res) => keyed.(privateHosts := hosts, private := m.private[e.key := res])
  }

  function Step(r: Resolution, c: Candidate): Resolution {
    var o := Decide(r.claims, c.entry);
    Resolution(if o.Won? then Accept(r.claims, c) else r.claims, r.outcomes[c.claimant := o])
  }

  function Resolve(cs: seq<Candidate>): Resolution {
    if cs == [] then NOTHING_CLAIMED else Step(Resolve(cs[..|cs| - 1]), cs[|cs| - 1])
  }

  function ResolveCandidates(candidates: seq<Candidate>): Resolution {
    Resolve(StableSort(candidates, CandidateOrder()))
  }

  /** The loop over the sorted candidates that fills the owner, outcome and
      blueprint maps. */
  method ResolveCollisions(candidates: seq<Candidate>) returns (r: Resolution)
    ensures r == ResolveCandidates(candidates)
  {
    hide StableSort;
    var sorted := StableSort(candidates, CandidateOrder());
    var keyOwner: map<string, Claimant> := map[];
    var publicHosts: map<string, Claimant> := map[];
    var privateHosts: map<string, Claimant> := map[];
    var public: map<string, PublicResource> := map[];
    var private: map<string, PrivateResource> := map[];
    var outcomes: map<Claimant, Outcome> := map[];
    var i := 0;
    while i < |sorted|
      invariant 0 <= i <= |sorted|
      invariant Resolution(Claims(keyOwner, publicHosts, privateHosts, public, private), outcomes)
             == Resolve(sorted[..i])
    {
      var c := sorted[i];
      var e := c.entry;
      assert sorted[..i + 1][..i] == sorted[..i];
      i := i + 1;
      if e.key in keyOwner {
        outcomes := outcomes[c.claimant := KeyTaken(keyOwner[e.key])];
        continue;
      }
      var hostOwner := if IsPublic(e) then publicHosts else privateHosts;
      var taken := FirstClaimedIn(e.hostnames, hostOwner);
      if taken.Some? {
        outcomes := outcomes[c.claimant := HostTaken(taken.value.0, taken.value.1)];
        continue;
      }
      keyOwner := keyOwner[e.key := c.claimant];
      hostOwner := ClaimAll(hostOwner, e.hostnames, c.claimant);
      match e.section {
        case InPublic(res) => publicHosts, public := hostOwner, public[e.key := res];
        case InPrivate(res) => privateHosts, private := hostOwner, private[e.key := res];
      }
      outcomes := outcomes[c.claimant := Won(e.key)];
    }
    assert sorted[..i] == sorted;
    r := Resolution(Claims(keyOwner, publicHosts, privateHosts, public, private), outcomes);
  }

  method FirstClaimedIn(hostnames: seq<string>, owners: map<string, Claimant>)
    returns (r: Option<(string, Claimant)>)
    ensures r == FirstClaimed(hostnames, owners)
  {
    var i := 0;
    while i < |hostnames|
      invariant 0 <= i <= |hostnames|
      invariant FirstClaimed(hostnames, owners) == FirstClaimed(hostnames[i..], owners)
    {
      assert hostnames[i..][1..] == hostnames[i + 1..];
      if ToLower(hostnames[i]) in owners {
        return Some((hostnames[i], owners[ToLower(hostnames[i])]));
      }
      i := i + 1;
    }
    return None;
  }

  method ClaimAll(owners: map<string, Claimant>, hostnames: seq<string>, c: Claimant)
    returns (r: map<string, Claimant>)
    ensures r == Claim(owners, hostnames, c)
  {
    r := owners;
    var i := 0;
    while i < |hostnames|
      invariant 0 <= i <= |hostnames|
      invariant r == Claim(owners, hostnames[..i], c)
    {
      assert hostnames[..i + 1][..i] == hostnames[..i];
      r := r[ToLower(hostnames[i]) := c];
      i := i + 1;
    }
    assert hostnames[..i] == hostnames;
  }

  // ---------- what the allocation is ----------

  /** Hostname h, already folded, is one the entry makes resolvable. */
  ghost predicate Holds(e: Entry, h: string) { Names(e.hostnames, h) }

  /** Two entries cannot both be published. */
  ghost predicate Conflict(a: Entry, b: Entry) {
    a.key == b.key || (IsPublic(a) == IsPublic(b) && exists h :: Holds(a, h) && Holds(b, h))
  }

  /** The greedy rule, oldest first: published iff no earlier published candidate
      conflicts. */
  ghost function Winners(cs: seq<Candidate>): (w: seq<bool>)
    ensures |w| == |cs|
  {
    if cs == [] then []
    else
      var front := cs[..|cs| - 1];
      var w := Winners(front);
      w + [Unopposed(front, w, cs[|cs| - 1].entry)]
  }

  /** No winner stands in the way of e. */
  ghost predicate Unopposed(cs: seq<Candidate>, w: seq<bool>, e: Entry)
    requires |cs| == |w|
  {
    forall j :: 0 <= j < |cs| && w[j] ==> !Conflict(cs[j].entry, e)
  }

  ghost predicate HoldsKey(cs: seq<Candidate>, w: seq<bool>, j: nat, key: string) {
    j < |cs| == |w| && w[j] && cs[j].entry.key == key
  }

  ghost predicate HoldsHost(cs: seq<Candidate>, w: seq<bool>, j: nat, public: bool, h: string) {
    j < |cs| == |w| && w[j] && IsPublic(cs[j].entry) == public && Holds(cs[j].entry, h)
  }

  /** Hostname n of candidate i is the first that is taken, and j holds it. */
  ghost predicate FirstTakenAt(cs: seq<Candidate>, w: seq<bool>, i: nat, n: nat, j: nat, host: string, owner: Claimant)
    requires i < |cs| == |w|
  {
    var e := cs[i].entry;
    && n < |e.hostnames| && host == e.hostnames[n]
    && j < i && HoldsHost(cs, w, j, IsPublic(e), ToLower(host)) && cs[j].claimant == owner
    && forall m: nat, k: nat :: m < n && k < i ==> !HoldsHost(cs, w, k, IsPublic(e), ToLower(e.hostnames[m]))
  }

  /** Which outcome the rule gives candidate i: who holds its key, or else who holds
      the first of its hostnames that is taken. */
  ghost predicate Deserves(cs: seq<Candidate>, w: seq<bool>, i: nat, o: Outcome)
    requires i < |cs| == |w|
  {
    var key := cs[i].entry.key;
    match o
    case Won(k) => k == key && w[i]
    case KeyTaken(owner) => exists j: nat :: j < i && HoldsKey(cs, w, j, key) && cs[j].claimant == owner
    case HostTaken(host, owner) =>
      && (forall j: nat :: j < i ==> !HoldsKey(cs, w, j, key))
      && exists n: nat, j: nat :: FirstTakenAt(cs, w, i, n, j, host, owner)
  }

  /** The maps hold exactly what the winners claimed. */
  ghost predicate KeysOwned(cs: seq<Candidate>, w: seq<bool>, owners: map<string, Claimant>) {
    && (forall k :: k in owners ==> exists j: nat :: HoldsKey(cs, w, j, k))
    && (forall j: nat, k :: HoldsKey(cs, w, j, k) ==> k in owners && owners[k] == cs[j].claimant)
  }

  ghost predicate HostsOwned(cs: seq<Candidate>, w: seq<bool>, owners: map<string, Claimant>, public: bool) {
    && (forall h :: h in owners ==> exists j: nat :: HoldsHost(cs, w, j, public, h))
    && (forall j: nat, h :: HoldsHost(cs, w, j, public, h) ==> h in owners && owners[h] == cs[j].claimant)
  }

  ghost predicate PublicEntries(cs: seq<Candidate>, w: seq<bool>, m: map<string, PublicResource>) {
    && (forall k :: k in m ==> exists j: nat :: HoldsKey(cs, w, j, k) && IsPublic(cs[j].entry))
    && (forall j: nat, k :: HoldsKey(cs, w, j, k) && IsPublic(cs[j].entry) ==>
         k in m && cs[j].entry.section == InPublic(m[k]))
  }

  ghost predicate PrivateEntries(cs: seq<Candidate>, w: seq<bool>, m: map<string, PrivateResource>) {
    && (forall k :: k in m ==> exists j: nat :: HoldsKey(cs, w, j, k) && !IsPublic(cs[j].entry))
    && (forall j: nat, k :: HoldsKey(cs, w, j, k) && !IsPublic(cs[j].entry) ==>
         k in m && cs[j].entry.section == InPrivate(m[k]))
  }

  ghost predicate GreedyClaims(cs: seq<Candidate>, w: seq<bool>, m: Claims) {
    && KeysOwned(cs, w, m.keyOwner)
    && HostsOwned(cs, w, m.publicHosts, true)
    && HostsOwned(cs, w, m.privateHosts, false)
    && PublicEntries(cs, w, m.public)
    && PrivateEntries(cs, w, m.private)
  }

  ghost predicate OutcomesDeserved(cs: seq<Candidate>, w: seq<bool>, outcomes: map<Claimant, Outcome>)
    requires |cs| == |w|
  {
    && (forall c :: c in outcomes ==> exists j: nat :: j < |cs| && cs[j].claimant == c)
    && (forall j: nat :: j < |cs| ==> cs[j].claimant in outcomes && Deserves(cs, w, j, outcomes[cs[j].claimant]))
  }

  ghost predicate Greedy(cs: seq<Candidate>, r: Resolution) {
    GreedyClaims(cs, Winners(cs), r.claims) && OutcomesDeserved(cs, Winners(cs), r.outcomes)
  }
}
