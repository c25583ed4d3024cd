/** The collision check is the greedy allocation, and what follows from that:
    one solution, no dependence on input order, stability and maximality. */
module CollisionLaws {
  import opened Text
  import opened Sorting
  import opened Types
  import opened Collisions

  // ---------- the loop computes the greedy allocation ----------

  /** Appending a candidate changes nothing for those before it. */
  lemma Before(front: seq<Candidate>, w: seq<bool>, c: Candidate, b: bool)
    requires |front| == |w|
    ensures var cs, w' := front + [c], w + [b];
      && (forall j: nat, k :: j < |front| ==> (HoldsKey(cs, w', j, k) <==> HoldsKey(front, w, j, k)))
      && (forall j: nat, p, h :: j < |front| ==> (HoldsHost(cs, w', j, p, h) <==> HoldsHost(front, w, j, p, h)))
  {}

  /** Position n is the first whose folded name has an owner. */
  ghost predicate ClaimedAt(hostnames: seq<string>, owners: map<string, Claimant>, n: nat, r: (string, Claimant)) {
    && n < |hostnames| && hostnames[n] == r.0
    && ToLower(r.0) in owners && owners[ToLower(r.0)] == r.1
    && forall m: nat :: m < n ==> ToLower(hostnames[m]) !in owners
  }

  lemma {:induction false} FirstClaimedIs(hostnames: seq<string>, owners: map<string, Claimant>)
    ensures FirstClaimed(hostnames, owners).None? <==> forall h :: Names(hostnames, h) ==> h !in owners
    ensures FirstClaimed(hostnames, owners).Some? ==>
            exists n: nat :: ClaimedAt(hostnames, owners, n, FirstClaimed(hostnames, owners).value)
  {
    if hostnames != [] {
      var tail := hostnames[1..];
      FirstClaimedIs(tail, owners);
      assert Names(hostnames, ToLower(hostnames[0]));
      forall h | Names(tail, h) ensures Names(hostnames, h) {
        var n :| 0 <= n < |tail| && ToLower(tail[n]) == h;
        assert hostnames[n + 1] == tail[n];
      }
      forall h | Names(hostnames, h) && h != ToLower(hostnames[0]) ensures Names(tail, h) {
        var n :| 0 <= n < |hostnames| && ToLower(hostnames[n]) == h;
        assert hostnames[n] == tail[n - 1];
      }
      var first := FirstClaimed(hostnames, owners);
      if ToLower(hostnames[0]) in owners {
        assert ClaimedAt(hostnames, owners, 0, first.value);
      } else if first.Some? {
        var n: nat :| ClaimedAt(tail, owners, n, first.value);
        forall m: nat | m < n + 1 ensures ToLower(hostnames[m]) !in owners {
          if m > 0 { assert hostnames[m] == tail[m - 1]; }
        }
        assert ClaimedAt(hostnames, owners, n + 1, first.value);
      }
    }
  }

  /** A candidate finds its key and hostnames free exactly when no winner conflicts. */
  lemma FreeMeansUnopposed(cs: seq<Candidate>, w: seq<bool>, e: Entry, m: Claims)
    requires |cs| == |w| && KeysOwned(cs, w, m.keyOwner) && HostsOwned(cs, w, Hosts(m, IsPublic(e)), IsPublic(e))
    ensures Decide(m, e).Won? <==> Unopposed(cs, w, e)
  {
    var hosts := Hosts(m, IsPublic(e));
    FirstClaimedIs(e.hostnames, hosts);
    if e.key in m.keyOwner {
      var j: nat :| HoldsKey(cs, w, j, e.key);
      assert Conflict(cs[j].entry, e);
    } else if FirstClaimed(e.hostnames, hosts).Some? {
      var h :| Names(e.hostnames, h) && h in hosts;
      var j: nat :| HoldsHost(cs, w, j, IsPublic(e), h);
      assert Holds(e, h) && Conflict(cs[j].entry, e);
    } else {
      forall j: nat | j < |cs| && w[j] ensures !Conflict(cs[j].entry, e) {
        assert HoldsKey(cs, w, j, cs[j].entry.key);
        if IsPublic(cs[j].entry) == IsPublic(e) {
          forall h | Holds(cs[j].entry, h) ensures !Holds(e, h) {
            assert HoldsHost(cs, w, j, IsPublic(e), h);
          }
        }
      }
    }
  }

  lemma KeysStep(front: seq<Candidate>, w: seq<bool>, c: Candidate, b: bool, owners: map<string, Claimant>)
    requires |front| == |w| && KeysOwned(front, w, owners) && (b ==> c.entry.key !in owners)
    ensures KeysOwned(front + [c], w + [b], if b then owners[c.entry.key := c.claimant] else owners)
  {
    var cs, w', n := front + [c], w + [b], |front|;
    var owners' := if b then owners[c.entry.key := c.claimant] else owners;
    Before(front, w, c, b);
    forall k | k in owners' ensures exists j: nat :: HoldsKey(cs, w', j, k) {
      if k in owners {
        var j: nat :| HoldsKey(front, w, j, k);
        assert HoldsKey(cs, w', j, k);
      } else {
        assert HoldsKey(cs, w', n, k);
      }
    }
    forall j: nat, k | HoldsKey(cs, w', j, k) ensures k in owners' && owners'[k] == cs[j].claimant {
      if j < n { assert HoldsKey(front, w, j, k); }
    }
  }

  lemma HostsStep(front: seq<Candidate>, w: seq<bool>, c: Candidate, b: bool, owners: map<string, Claimant>,
                  public: bool)
    requires |front| == |w| && HostsOwned(front, w, owners, public)
    requires b && IsPublic(c.entry) == public ==> forall h :: Names(c.entry.hostnames, h) ==> h !in owners
    ensures HostsOwned(front + [c], w + [b],
                       if b && IsPublic(c.entry) == public
                       then Claim(owners, c.entry.hostnames, c.claimant) else owners, public)
  {
    var cs, w', n := front + [c], w + [b], |front|;
    var joins := b && IsPublic(c.entry) == public;
    var owners' := if joins then Claim(owners, c.entry.hostnames, c.claimant) else owners;
    Before(front, w, c, b);
    forall h | h in owners' ensures exists j: nat :: HoldsHost(cs, w', j, public, h) {
      if h in owners {
        var j: nat :| HoldsHost(front, w, j, public, h);
        assert HoldsHost(cs, w', j, public, h);
      } else {
        assert HoldsHost(cs, w', n, public, h);
      }
    }
    forall j: nat, h | HoldsHost(cs, w', j, public, h) ensures h in owners' && owners'[h] == cs[j].claimant {
      if j < n { assert HoldsHost(front, w, j, public, h); }
    }
  }

  lemma PublicStep(front: seq<Candidate>, w: seq<bool>, c: Candidate, b: bool,
                   owners: map<string, Claimant>, m: map<string, PublicResource>)
    requires |front| == |w| && KeysOwned(front, w, owners) && PublicEntries(front, w, m)
    requires b ==> c.entry.key !in owners
    ensures PublicEntries(front + [c], w + [b],
              if b && IsPublic(c.entry) then m[c.entry.key := c.entry.section.public] else m)
  {
    var cs, w', n := front + [c], w + [b], |front|;
    var m' := if b && IsPublic(c.entry) then m[c.entry.key := c.entry.section.public] else m;
    Before(front, w, c, b);
    forall k | k in m' ensures exists j: nat :: HoldsKey(cs, w', j, k) && IsPublic(cs[j].entry) {
      if k in m {
        var j: nat :| HoldsKey(front, w, j, k) && IsPublic(front[j].entry);
        assert HoldsKey(cs, w', j, k) && IsPublic(cs[j].entry);
      } else {
        assert HoldsKey(cs, w', n, k) && IsPublic(cs[n].entry);
      }
    }
    forall j: nat, k | HoldsKey(cs, w', j, k) && IsPublic(cs[j].entry)
      ensures k in m' && cs[j].entry.section == InPublic(m'[k])
    {
      if j < n { assert HoldsKey(front, w, j, k) && IsPublic(front[j].entry); }
    }
  }

  lemma PrivateStep(front: seq<Candidate>, w: seq<bool>, c: Candidate, b: bool,
                    owners: map<string, Claimant>, m: map<string, PrivateResource>)
    requires |front| == |w| && KeysOwned(front, w, owners) && PrivateEntries(front, w, m)
    requires b ==> c.entry.key !in owners
    ensures PrivateEntries(front + [c], w + [b],
              if b && !IsPublic(c.entry) then m[c.entry.key := c.entry.section.private] else m)
  {
    var cs, w', n := front + [c], w + [b], |front|;
    var m' := if b && !IsPublic(c.entry) then m[c.entry.key := c.entry.section.private] else m;
    Before(front, w, c, b);
    forall k | k in m' ensures exists j: nat :: HoldsKey(cs, w', j, k) && !IsPublic(cs[j].entry) {
      if k in m {
        var j: nat :| HoldsKey(front, w, j, k) && !IsPublic(front[j].entry);
        assert HoldsKey(cs, w', j, k) && !IsPublic(cs[j].entry);
      } else {
        assert HoldsKey(cs, w', n, k) && !IsPublic(cs[n].entry);
      }
    }
    forall j: nat, k | HoldsKey(cs, w', j, k) && !IsPublic(cs[j].entry)
      ensures k in m' && cs[j].entry.section == InPrivate(m'[k])
    {
      if j < n { assert HoldsKey(front, w, j, k) && !IsPublic(front[j].entry); }
    }
  }

  lemma ClaimsStep(front: seq<Candidate>, w: seq<bool>, c: Candidate, m: Claims)
    requires |front| == |w| && GreedyClaims(front, w, m)
    ensures GreedyClaims(front + [c], w + [Unopposed(front, w, c.entry)],
                         if Decide(m, c.entry).Won? then Accept(m, c) else m)
  {
    var b := Unopposed(front, w, c.entry);
    FreeMeansUnopposed(front, w, c.entry, m);
    FirstClaimedIs(c.entry.hostnames, Hosts(m, IsPublic(c.entry)));
    KeysStep(front, w, c, b, m.keyOwner);
    HostsStep(front, w, c, b, m.publicHosts, true);
    HostsStep(front, w, c, b, m.privateHosts, false);
    PublicStep(front, w, c, b, m.keyOwner, m.public);
    PrivateStep(front, w, c, b, m.keyOwner, m.private);
  }

  lemma DeservesBefore(front: seq<Candidate>, w: seq<bool>, c: Candidate, b: bool, j: nat, o: Outcome)
    requires j < |front| == |w| && Deserves(front, w, j, o)
    ensures Deserves(front + [c], w + [b], j, o)
  {
    var cs, w' := front + [c], w + [b];
    Before(front, w, c, b);
    match o
    case Won(_) =>
    case KeyTaken(owner) =>
      var i: nat :| i < j && HoldsKey(front, w, i, front[j].entry.key) && front[i].claimant == owner;
      assert HoldsKey(cs, w', i, cs[j].entry.key);
    case HostTaken(host, owner) =>
      var n: nat, i: nat :| FirstTakenAt(front, w, j, n, i, host, owner);
      assert FirstTakenAt(cs, w', j, n, i, host, owner);
  }

  lemma DeservesNow(front: seq<Candidate>, w: seq<bool>, c: Candidate, m: Claims)
    requires |front| == |w| && KeysOwned(front, w, m.keyOwner)
    requires HostsOwned(front, w, Hosts(m, IsPublic(c.entry)), IsPublic(c.entry))
    ensures Deserves(front + [c], w + [Unopposed(front, w, c.entry)], |front|, Decide(m, c.entry))
  {
    var e, n, b := c.entry, |front|, Unopposed(front, w, c.entry);
    var cs, w' := front + [c], w + [b];
    Before(front, w, c, b);
    FreeMeansUnopposed(front, w, e, m);
    match Decide(m, e)
    case Won(_) =>
    case KeyTaken(_) =>
      var j: nat :| HoldsKey(front, w, j, e.key);
      assert HoldsKey(cs, w', j, e.key);
    case HostTaken(host, owner) =>
      var hosts := Hosts(m, IsPublic(e));
      FirstClaimedIs(e.hostnames, hosts);
      var p: nat :| ClaimedAt(e.hostnames, hosts, p, (host, owner));
      var j: nat :| HoldsHost(front, w, j, IsPublic(e), ToLower(host));
      assert HoldsHost(cs, w', j, IsPublic(e), ToLower(host));
      forall i: nat, k: nat | i < p && k < n
        ensures !HoldsHost(cs, w', k, IsPublic(e), ToLower(e.hostnames[i]))
      {
        assert ToLower(e.hostnames[i]) !in hosts;
      }
      assert FirstTakenAt(cs, w', n, p, j, host, owner);
  }

  lemma OutcomesStep(front: seq<Candidate>, w: seq<bool>, c: Candidate, b: bool,
                     outcomes: map<Claimant, Outcome>, o: Outcome)
    requires |front| == |w| && OutcomesDeserved(front, w, outcomes)
    requires Deserves(front + [c], w + [b], |front|, o)
    requires forall j: nat :: j < |front| ==> front[j].claimant != c.claimant
    ensures OutcomesDeserved(front + [c], w + [b], outcomes[c.claimant := o])
  {
    var cs, w', n, outcomes' := front + [c], w + [b], |front|, outcomes[c.claimant := o];
    forall x | x in outcomes' ensures exists j: nat :: j < |cs| && cs[j].claimant == x {
      if x == c.claimant {
        assert cs[n].claimant == x;
      } else {
        var j: nat :| j < n && front[j].claimant == x;
        assert cs[j].claimant == x;
      }
    }
    forall j: nat | j < |cs|
      ensures cs[j].claimant in outcomes' && Deserves(cs, w', j, outcomes'[cs[j].claimant])
    {
      if j < n {
        assert cs[j] == front[j];
        DeservesBefore(front, w, c, b, j, outcomes[front[j].claimant]);
      }
    }
  }

  lemma GreedyStep(front: seq<Candidate>, w: seq<bool>, c: Candidate, r: Resolution)
    requires |front| == |w| && GreedyClaims(front, w, r.claims) && OutcomesDeserved(front, w, r.outcomes)
    requires forall j: nat :: j < |front| ==> front[j].claimant != c.claimant
    ensures GreedyClaims(front + [c], w + [Unopposed(front, w, c.entry)], Step(r, c).claims)
    ensures OutcomesDeserved(front + [c], w + [Unopposed(front, w, c.entry)], Step(r, c).outcomes)
  {
    ClaimsStep(front, w, c, r.claims);
    DeservesNow(front, w, c, r.claims);
    OutcomesStep(front, w, c, Unopposed(front, w, c.entry), r.outcomes, Decide(r.claims, c.entry));
  }

  /** The allocation satisfies the greedy rule in every map it fills. */
  lemma {:induction false} ResolveIsGreedy(cs: seq<Candidate>)
    requires DistinctClaimants(cs)
    ensures Greedy(cs, Resolve(cs))
  {
    if cs != [] {
      var front, c := cs[..|cs| - 1], cs[|cs| - 1];
      assert cs == front + [c];
      var r, w := Resolve(cs), Winners(cs);
      assert r == Step(Resolve(front), c);
      assert w == Winners(front) + [Unopposed(front, Winners(front), c.entry)];
      assert GreedyClaims(cs, w, r.claims) && OutcomesDeserved(cs, w, r.outcomes) by {
        ResolveIsGreedy(front);
        GreedyStep(front, Winners(front), c, Resolve(front));
      }
    }
  }

  // ---------- consequences ----------

  /** The defining equation of the winners, by position. */
  lemma {:induction false} GreedyRule(cs: seq<Candidate>, i: nat)
    requires i < |cs|
    ensures Winners(cs)[i] <==> forall j :: 0 <= j < i && Winners(cs)[j] ==> !Conflict(cs[j].entry, cs[i].entry)
  {
    if i < |cs| - 1 {
      GreedyRule(cs[..|cs| - 1], i);
    }
  }

  lemma WinnersAgree(cs: seq<Candidate>, i: nat, j: nat)
    requires i < j < |cs| && Winners(cs)[i] && Winners(cs)[j]
    ensures !Conflict(cs[i].entry, cs[j].entry)
  {
    GreedyRule(cs, j);
  }

  /** No two winners conflict, so a key or a folded hostname has one holder. */
  lemma HolderUnique(cs: seq<Candidate>, i: nat, j: nat, public: bool, h: string, key: string)
    requires var w := Winners(cs);
             (HoldsKey(cs, w, i, key) && HoldsKey(cs, w, j, key))
             || (HoldsHost(cs, w, i, public, h) && HoldsHost(cs, w, j, public, h))
    ensures i == j
  {
    if i < j { WinnersAgree(cs, i, j); }
    if j < i { WinnersAgree(cs, j, i); }
  }

  lemma TakenLoses(cs: seq<Candidate>, i: nat, o: Outcome)
    requires i < |cs| && Deserves(cs, Winners(cs), i, o) && !o.Won?
    ensures !Winners(cs)[i]
  {
    var e, w := cs[i].entry, Winners(cs);
    GreedyRule(cs, i);
    match o
    case KeyTaken(owner) =>
      var j: nat :| j < i && HoldsKey(cs, w, j, e.key) && cs[j].claimant == owner;
      assert Conflict(cs[j].entry, e);
    case HostTaken(h, owner) =>
      var n: nat, j: nat :| FirstTakenAt(cs, w, i, n, j, h, owner);
      assert Holds(e, ToLower(h)) && Conflict(cs[j].entry, e);
  }

  /** A candidate deserves one outcome only, named owner included. */
  lemma OutcomeUnique(cs: seq<Candidate>, i: nat, a: Outcome, b: Outcome)
    requires i < |cs| && Deserves(cs, Winners(cs), i, a) && Deserves(cs, Winners(cs), i, b)
    ensures a == b
  {
    hide Winners;
    var e, w := cs[i].entry, Winners(cs);
    if !a.Won? { TakenLoses(cs, i, a); }
    if !b.Won? { TakenLoses(cs, i, b); }
    if a.KeyTaken? && b.KeyTaken? {
      var j: nat :| j < i && HoldsKey(cs, w, j, e.key) && cs[j].claimant == a.owner;
      var k: nat :| k < i && HoldsKey(cs, w, k, e.key) && cs[k].claimant == b.owner;
      HolderUnique(cs, j, k, IsPublic(e), "", e.key);
    } else if a.HostTaken? && b.HostTaken? {
      var n: nat, j: nat :| FirstTakenAt(cs, w, i, n, j, a.host, a.hostOwner);
      var p: nat, k: nat :| FirstTakenAt(cs, w, i, p, k, b.host, b.hostOwner);
      assert n == p;
      HolderUnique(cs, j, k, IsPublic(e), ToLower(a.host), e.key);
    }
  }

  /** Any set of published candidates obeying the rule "in iff no earlier member
      conflicts" is the one the loop publishes. */
  lemma {:induction false} GreedySolutionUnique(cs: seq<Candidate>, published: seq<bool>, i: nat)
    requires |published| == |cs| && i < |cs|
    requires forall k :: 0 <= k < |cs| ==>
      (published[k] <==> forall j :: 0 <= j < k && published[j] ==> !Conflict(cs[j].entry, cs[k].entry))
    ensures published[i] <==> Winners(cs)[i]
    decreases i
  {
    forall j: nat | j < i ensures published[j] <==> Winners(cs)[j] { GreedySolutionUnique(cs, published, j); }
    GreedyRule(cs, i);
  }

  lemma SortedClaimantsDistinct(candidates: seq<Candidate>)
    requires DistinctClaimants(candidates)
    ensures DistinctClaimants(StableSort(candidates, CandidateOrder()))
    ensures Sorted(StableSort(candidates, CandidateOrder()), CandidateOrder())
    ensures multiset(StableSort(candidates, CandidateOrder())) == multiset(candidates)
  {
    SortPermutes(candidates, CandidateOrder());
    DistinctClaimantsPermute(candidates, StableSort(candidates, CandidateOrder()));
    CandidateOrderIsTotal();
    SortSorts(candidates, CandidateOrder());
  }

  /** The whole resolution, outcomes and named owners included, is the same for
      every arrangement of the input. */
  lemma OrderIndependent(a: seq<Candidate>, b: seq<Candidate>)
    requires DistinctClaimants(a) && multiset(a) == multiset(b)
    ensures ResolveCandidates(a) == ResolveCandidates(b)
  {
    CandidateOrderIsTotal();
    CandidateOrderSeparates(a);
    SortPermutationInvariant(a, b, CandidateOrder());
  }

  /** Inserting into a sorted list splits it around the new element. */
  lemma {:induction false} InsertSplits<T(!new)>(s: seq<T>, x: T, le: (T, T) -> bool) returns (p: nat)
    requires Sorted(s, le) && TotalPreorder(le)
    ensures p <= |s| && Insert(s, x, le) == s[..p] + [x] + s[p..]
    ensures forall i :: 0 <= i < p ==> le(s[i], x)
    ensures forall i :: p <= i < |s| ==> !le(s[i], x)
  {
    if s == [] {
      p := 0;
    } else if le(s[|s| - 1], x) {
      p := |s|;
      assert s[..p] + [x] + s[p..] == s + [x];
      forall i | 0 <= i < |s| ensures le(s[i], x) { assert i == |s| - 1 || le(s[i], s[|s| - 1]); }
    } else {
      var front, last := s[..|s| - 1], s[|s| - 1];
      p := InsertSplits(front, x, le);
      assert s[p..] == front[p..] + [last] && s[..p] == front[..p];
      assert front[..p] + [x] + front[p..] + [last] == front[..p] + [x] + (front[p..] + [last]);
    }
  }

  function ResolveFrom(r: Resolution, cs: seq<Candidate>): Resolution {
    if cs == [] then r else Step(ResolveFrom(r, cs[..|cs| - 1]), cs[|cs| - 1])
  }

  lemma {:induction false} ResolveSplits(a: seq<Candidate>, b: seq<Candidate>)
    ensures Resolve(a + b) == ResolveFrom(Resolve(a), b)
  {
    if b == [] {
      assert a + b == a;
    } else {
      assert (a + b)[..|a + b| - 1] == a + b[..|b| - 1];
      ResolveSplits(a, b[..|b| - 1]);
    }
  }

  lemma {:induction false} LaterStepsKeepOutcomes(r: Resolution, cs: seq<Candidate>, c: Claimant)
    requires c in r.outcomes && forall i :: 0 <= i < |cs| ==> cs[i].claimant != c
    ensures c in ResolveFrom(r, cs).outcomes && ResolveFrom(r, cs).outcomes[c] == r.outcomes[c]
  {
    if cs != [] { LaterStepsKeepOutcomes(r, cs[..|cs| - 1], c); }
  }

  lemma {:induction false} OutcomesCover(cs: seq<Candidate>)
    ensures forall i :: 0 <= i < |cs| ==> cs[i].claimant in Resolve(cs).outcomes
  {
    if cs != [] {
      OutcomesCover(cs[..|cs| - 1]);
    }
  }

  lemma OutcomeStaysPut(front: seq<Candidate>, back: seq<Candidate>, i: nat)
    requires i < |front| && forall k :: 0 <= k < |back| ==> back[k].claimant != front[i].claimant
    ensures var c := front[i].claimant;
            c in Resolve(front).outcomes && c in Resolve(front + back).outcomes
            && Resolve(front + back).outcomes[c] == Resolve(front).outcomes[c]
  {
    OutcomesCover(front);
    ResolveSplits(front, back);
    LaterStepsKeepOutcomes(Resolve(front), back, front[i].claimant);
  }

  lemma LaterInside(front: seq<Candidate>, x: Candidate, back: seq<Candidate>, i: nat)
    requires i < |front| && front[i].claimant != x.claimant
    requires forall k :: 0 <= k < |back| ==> back[k].claimant != front[i].claimant
    ensures var c, a, b := front[i].claimant, Resolve(front + back), Resolve(front + [x] + back);
            c in a.outcomes && c in b.outcomes && a.outcomes[c] == b.outcomes[c]
  {
    OutcomeStaysPut(front, back, i);
    OutcomeStaysPut(front, [x] + back, i);
    assert front + [x] + back == front + ([x] + back);
  }

  /** Adding a candidate changes the outcome of nobody who precedes it. */
  lemma LaterCandidateChangesNothing(candidates: seq<Candidate>, x: Candidate, c: Candidate)
    requires DistinctClaimants(candidates + [x]) && c in candidates
    requires CompareCandidates(c, x) <= 0
    ensures var a, b := ResolveCandidates(candidates), ResolveCandidates(candidates + [x]);
            c.claimant in a.outcomes && c.claimant in b.outcomes
            && a.outcomes[c.claimant] == b.outcomes[c.claimant]
  {
    var front, back := SortedAround(candidates, x);
    var i := FoundInFront(candidates, front, back, x, c);
    ClaimantsApart(candidates, x, c);
    BackApart(front, back, i);
    LaterInside(front, x, back, i);
  }

  lemma BackApart(front: seq<Candidate>, back: seq<Candidate>, i: nat)
    requires DistinctClaimants(front + back) && i < |front|
    ensures forall k :: 0 <= k < |back| ==> back[k].claimant != front[i].claimant
  {
    var all := front + back;
    forall k | 0 <= k < |back| ensures back[k].claimant != front[i].claimant {
      assert all[|front| + k] == back[k] && all[i] == front[i];
    }
  }

  lemma FoundInFront(candidates: seq<Candidate>, front: seq<Candidate>, back: seq<Candidate>, x: Candidate,
                     c: Candidate)
    returns (i: nat)
    requires multiset(front + back) == multiset(candidates) && c in candidates
    requires CompareCandidates(c, x) <= 0 && forall b :: b in back ==> !CandidateOrder()(b, x)
    ensures i < |front| && front[i] == c
  {
    assert c in multiset(front + back);
    assert c in front || c in back;
    assert CandidateOrder()(c, x);
    i :| 0 <= i < |front| && front[i] == c;
  }

  lemma ClaimantsApart(candidates: seq<Candidate>, x: Candidate, c: Candidate)
    requires DistinctClaimants(candidates + [x]) && c in candidates
    ensures c.claimant != x.claimant
  {
    var i :| 0 <= i < |candidates| && candidates[i] == c;
    assert (candidates + [x])[i] == c && (candidates + [x])[|candidates|] == x;
  }

  /** The sorted lists with and without x, split at x's place. */
  lemma SortedAround(candidates: seq<Candidate>, x: Candidate)
    returns (front: seq<Candidate>, back: seq<Candidate>)
    requires DistinctClaimants(candidates + [x])
    ensures StableSort(candidates, CandidateOrder()) == front + back
    ensures StableSort(candidates + [x], CandidateOrder()) == front + [x] + back
    ensures DistinctClaimants(front + back)
    ensures multiset(front + back) == multiset(candidates)
    ensures forall b :: b in back ==> !CandidateOrder()(b, x)
  {
    hide CompareCandidates, StableSort, Insert, DistinctClaimants;
    PrefixDistinct(candidates, x);
    SortedClaimantsDistinct(candidates);
    CandidateOrderIsTotal();
    SortWithLast(candidates, x);
    var s := StableSort(candidates, CandidateOrder());
    var p := InsertSplits(s, x, CandidateOrder());
    front, back := s[..p], s[p..];
    assert front + back == s;
  }

  lemma PrefixDistinct(candidates: seq<Candidate>, x: Candidate)
    requires DistinctClaimants(candidates + [x])
    ensures DistinctClaimants(candidates)
  {
    assert forall i :: 0 <= i < |candidates| ==> candidates[i] == (candidates + [x])[i];
  }

  lemma SortWithLast(candidates: seq<Candidate>, x: Candidate)
    ensures StableSort(candidates + [x], CandidateOrder())
        == Insert(StableSort(candidates, CandidateOrder()), x, CandidateOrder())
  {
    assert (candidates + [x])[..|candidates + [x]| - 1] == candidates;
  }

  /** Two resolutions that differ only in one claimant's outcome. */
  ghost predicate SameButFor(a: Resolution, b: Resolution, x: Claimant) {
    && a.claims == b.claims
    && (forall c :: c != x && c in a.outcomes ==> c in b.outcomes && a.outcomes[c] == b.outcomes[c])
    && (forall c :: c != x && c in b.outcomes ==> c in a.outcomes)
  }

  lemma {:induction false} RejectedLeavesNoTrace(a: Resolution, b: Resolution, cs: seq<Candidate>, x: Claimant)
    requires SameButFor(a, b, x)
    ensures SameButFor(ResolveFrom(a, cs), ResolveFrom(b, cs), x)
  {
    if cs != [] { RejectedLeavesNoTrace(a, b, cs[..|cs| - 1], x); }
  }

  lemma RejectedInside(front: seq<Candidate>, x: Candidate, back: seq<Candidate>)
    requires forall k :: 0 <= k < |back| ==> back[k].claimant != x.claimant
    requires x.claimant in Resolve(front + [x] + back).outcomes ==>
             !Resolve(front + [x] + back).outcomes[x.claimant].Won?
    ensures SameButFor(Resolve(front + [x] + back), Resolve(front + back), x.claimant)
  {
    var r := Resolve(front);
    ResolveSplits(front, back);
    ResolveSplits(front + [x], back);
    assert (front + [x])[..|front|] == front;
    LaterStepsKeepOutcomes(Step(r, x), back, x.claimant);
    RejectedLeavesNoTrace(Step(r, x), r, back, x.claimant);
  }

  /** Removing a rejected candidate changes nothing for anybody else: not the
      blueprint, not a verdict, not a named owner. */
  lemma RejectedCandidateIsIrrelevant(candidates: seq<Candidate>, x: Candidate)
    requires DistinctClaimants(candidates + [x])
    requires x.claimant in ResolveCandidates(candidates + [x]).outcomes ==>
             !ResolveCandidates(candidates + [x]).outcomes[x.claimant].Won?
    ensures SameButFor(ResolveCandidates(candidates + [x]), ResolveCandidates(candidates), x.claimant)
  {
    var front, back := SortedAround(candidates, x);
    var all := front + back;
    forall k | 0 <= k < |back| ensures back[k].claimant != x.claimant {
      assert all[|front| + k] == back[k] && back[k] in multiset(all);
      assert back[k] in multiset(candidates);
      ClaimantsApart(candidates, x, back[k]);
    }
    RejectedInside(front, x, back);
  }

  /** Nothing rejected could be added: it conflicts with something published
      that precedes it. */
  lemma RejectedConflicts(cs: seq<Candidate>, i: nat)
    requires DistinctClaimants(cs) && i < |cs|
    requires cs[i].claimant in Resolve(cs).outcomes ==> !Resolve(cs).outcomes[cs[i].claimant].Won?
    ensures exists j: nat :: j < i && Winners(cs)[j] && Conflict(cs[j].entry, cs[i].entry)
  {
    ResolveIsGreedy(cs);
    TakenLoses(cs, i, Resolve(cs).outcomes[cs[i].claimant]);
    GreedyRule(cs, i);
    var j :| 0 <= j < i && Winners(cs)[j] && Conflict(cs[j].entry, cs[i].entry);
    assert j >= 0;
  }

  // ---------- what the renderer uses ----------

  ghost predicate EntryLive(m: Claims, e: Entry) {
    match e.section
    case InPublic(res) => e.key in m.public && m.public[e.key] == res
    case InPrivate(res) => e.key in m.private && m.private[e.key] == res
  }

  /** Candidate c was published under key k. */
  ghost predicate Publishes(r: Resolution, c: Candidate, k: string) {
    c.claimant in r.outcomes && r.outcomes[c.claimant] == Won(k) && c.entry.key == k
  }

  lemma SortedHas(candidates: seq<Candidate>, c: Candidate) returns (j: nat)
    requires DistinctClaimants(candidates) && c in candidates
    ensures var cs := StableSort(candidates, CandidateOrder());
            DistinctClaimants(cs) && j < |cs| && cs[j] == c
  {
    var cs := StableSort(candidates, CandidateOrder());
    SortedClaimantsDistinct(candidates);
    assert c in multiset(cs);
    j :| 0 <= j < |cs| && cs[j] == c;
  }

  /** A published candidate has its own entry under its own key. */
  lemma CandidateOutcome(candidates: seq<Candidate>, c: Candidate)
    requires DistinctClaimants(candidates) && c in candidates
    ensures var r := ResolveCandidates(candidates);
      && c.claimant in r.outcomes
      && (r.outcomes[c.claimant].Won? ==> Publishes(r, c, c.entry.key) && EntryLive(r.claims, c.entry))
  {
    var j := SortedHas(candidates, c);
    var cs := StableSort(candidates, CandidateOrder());
    ResolveIsGreedy(cs);
    var o := Resolve(cs).outcomes[c.claimant];
    assert Deserves(cs, Winners(cs), j, o);
    if o.Won? { assert HoldsKey(cs, Winners(cs), j, c.entry.key); }
  }

  lemma WinnerPublishes(candidates: seq<Candidate>, j: nat)
    requires DistinctClaimants(candidates) && j < |StableSort(candidates, CandidateOrder())|
    requires Winners(StableSort(candidates, CandidateOrder()))[j]
    ensures var c := StableSort(candidates, CandidateOrder())[j];
            c in candidates && Publishes(ResolveCandidates(candidates), c, c.entry.key)
  {
    var cs := StableSort(candidates, CandidateOrder());
    SortedClaimantsDistinct(candidates);
    ResolveIsGreedy(cs);
    assert cs[j] in multiset(candidates);
    assert Deserves(cs, Winners(cs), j, Won(cs[j].entry.key));
    OutcomeUnique(cs, j, Won(cs[j].entry.key), Resolve(cs).outcomes[cs[j].claimant]);
  }

  /** Every blueprint entry is that of the candidate published under its key. */
  lemma PublicEntryHasOwner(candidates: seq<Candidate>, k: string) returns (c: Candidate)
    requires DistinctClaimants(candidates) && k in ResolveCandidates(candidates).claims.public
    ensures c in candidates && Publishes(ResolveCandidates(candidates), c, k)
    ensures c.entry.section == InPublic(ResolveCandidates(candidates).claims.public[k])
  {
    var cs := StableSort(candidates, CandidateOrder());
    SortedClaimantsDistinct(candidates);
    ResolveIsGreedy(cs);
    var j: nat :| HoldsKey(cs, Winners(cs), j, k) && IsPublic(cs[j].entry);
    WinnerPublishes(candidates, j);
    c := cs[j];
  }

  lemma PrivateEntryHasOwner(candidates: seq<Candidate>, k: string) returns (c: Candidate)
    requires DistinctClaimants(candidates) && k in ResolveCandidates(candidates).claims.private
    ensures c in candidates && Publishes(ResolveCandidates(candidates), c, k)
    ensures c.entry.section == InPrivate(ResolveCandidates(candidates).claims.private[k])
  {
    var cs := StableSort(candidates, CandidateOrder());
    SortedClaimantsDistinct(candidates);
    ResolveIsGreedy(cs);
    var j: nat :| HoldsKey(cs, Winners(cs), j, k) && !IsPublic(cs[j].entry);
    WinnerPublishes(candidates, j);
    c := cs[j];
  }

  lemma PublishedWins(candidates: seq<Candidate>, c: Candidate) returns (j: nat)
    requires DistinctClaimants(candidates) && c in candidates
    requires Publishes(ResolveCandidates(candidates), c, c.entry.key)
    ensures var cs := StableSort(candidates, CandidateOrder());
            j < |cs| && cs[j] == c && Winners(cs)[j]
  {
    j := SortedHas(candidates, c);
    var cs := StableSort(candidates, CandidateOrder());
    ResolveIsGreedy(cs);
    assert Deserves(cs, Winners(cs), j, Won(c.entry.key));
  }

  lemma ConflictSymmetric(a: Entry, b: Entry)
    ensures Conflict(a, b) <==> Conflict(b, a)
  {}

  /** Two published candidates never conflict. */
  lemma PublishedDoNotConflict(candidates: seq<Candidate>, a: Candidate, b: Candidate)
    requires DistinctClaimants(candidates) && a in candidates && b in candidates && a != b
    requires Publishes(ResolveCandidates(candidates), a, a.entry.key)
    requires Publishes(ResolveCandidates(candidates), b, b.entry.key)
    ensures !Conflict(a.entry, b.entry)
  {
    var i := PublishedWins(candidates, a);
    var j := PublishedWins(candidates, b);
    ConflictSymmetric(a.entry, b.entry);
    if i < j {
      WinnersAgree(StableSort(candidates, CandidateOrder()), i, j);
    } else {
      WinnersAgree(StableSort(candidates, CandidateOrder()), j, i);
    }
  }

  /** Only candidates get outcomes. */
  lemma OutcomesAreCandidates(candidates: seq<Candidate>, x: Claimant)
    requires DistinctClaimants(candidates) && x in ResolveCandidates(candidates).outcomes
    ensures exists c :: c in candidates && c.claimant == x
  {
    var cs := StableSort(candidates, CandidateOrder());
    SortedClaimantsDistinct(candidates);
    ResolveIsGreedy(cs);
    var j: nat :| j < |cs| && cs[j].claimant == x;
    assert cs[j] in multiset(candidates);
  }
}
