/** Contested keys and hostnames go to the oldest object, the order written out on creation
    times and names. */
module Seniority {
  import opened Text
  import opened Sorting
  import opened Types
  import opened Lexical
  import opened Policies
  import opened Collisions
  import opened Render
  import opened RenderLaws
  import Laws = CollisionLaws

  // ---------- the order ----------

  /** Created earlier, or at the same time and first by namespace, then by name. */
  ghost predicate Earlier(s: int, a: Name, t: int, b: Name, tie: bool) {
    s < t || (s == t && (Less(a.ns, b.ns) || (a.ns == b.ns && (Less(a.name, b.name) || (a.name == b.name && tie)))))
  }

  /** Of two objects that agree in all of that, the route comes before the resource. */
  ghost predicate Precedes(a: Candidate, b: Candidate) {
    Earlier(a.createdAt, a.claimant.name, b.createdAt, b.claimant.name,
            a.claimant.kind == HTTPRouteKind && b.claimant.kind == PrivateResourceKind)
  }

  lemma PrecedesIff(a: Candidate, b: Candidate)
    ensures CompareCandidates(a, b) < 0 <==> Precedes(a, b)
  {
    hide Less, Compare;
    CompareMeans(a.claimant.name.ns, b.claimant.name.ns);
    CompareMeans(a.claimant.name.name, b.claimant.name.name);
    CompareAntisymmetric(a.claimant.name.ns, b.claimant.name.ns);
    CompareAntisymmetric(a.claimant.name.name, b.claimant.name.name);
    KindsCompare(a.claimant.kind, b.claimant.kind);
  }

  lemma KindsCompare(a: Kind, b: Kind)
    ensures Compare(KindName(a), KindName(b)) < 0 <==> a == HTTPRouteKind && b == PrivateResourceKind
  {
    CompareReflexive(KindName(a));
    assert "HTTPRoute"[0] == 'H' && "PrivateResource"[0] == 'P';
  }

  ghost predicate PolicyPrecedes(a: PolicyObject, b: PolicyObject) {
    Earlier(a.createdAt, a.name, b.createdAt, b.name, false)
  }

  lemma PolicyPrecedesIff(a: PolicyObject, b: PolicyObject)
    ensures ComparePolicies(a, b) < 0 <==> PolicyPrecedes(a, b)
  {
    hide Less, Compare;
    CompareMeans(a.name.ns, b.name.ns);
    CompareMeans(a.name.name, b.name.name);
    CompareAntisymmetric(a.name.ns, b.name.ns);
    CompareAntisymmetric(a.name.name, b.name.name);
  }

  // ---------- conflicts ----------

  /** One key, or in one section a hostname that differs at most in case. */
  ghost predicate Clash(a: Entry, b: Entry) {
    a.key == b.key
    || (a.section.InPublic? == b.section.InPublic?
        && exists g, h :: g in a.hostnames && h in b.hostnames && ToLower(g) == ToLower(h))
  }

  lemma ClashIff(a: Entry, b: Entry)
    ensures Conflict(a, b) <==> Clash(a, b)
  {
    hide ToLower;
    if exists h :: Holds(a, h) && Holds(b, h) {
      var h :| Holds(a, h) && Holds(b, h);
      var i :| 0 <= i < |a.hostnames| && ToLower(a.hostnames[i]) == h;
      var j :| 0 <= j < |b.hostnames| && ToLower(b.hostnames[j]) == h;
      assert a.hostnames[i] in a.hostnames && b.hostnames[j] in b.hostnames;
    }
    if g, h :| g in a.hostnames && h in b.hostnames && ToLower(g) == ToLower(h) {
      var i :| 0 <= i < |a.hostnames| && a.hostnames[i] == g;
      var j :| 0 <= j < |b.hostnames| && b.hostnames[j] == h;
      assert Holds(a, ToLower(g)) && Holds(b, ToLower(g));
    }
  }

  // ---------- who wins ----------

  /** Candidate c got its key. */
  ghost predicate Wins(cs: seq<Candidate>, c: Candidate) { Laws.Publishes(ResolveCandidates(cs), c, c.entry.key) }

  /** In the sorted list earlier means older. */
  lemma SortedByAge(cs: seq<Candidate>, i: nat, j: nat)
    requires DistinctClaimants(cs)
    requires i < j < |StableSort(cs, CandidateOrder())|
    ensures var sorted := StableSort(cs, CandidateOrder());
            Precedes(sorted[i], sorted[j]) && !Precedes(sorted[j], sorted[i])
  {
    hide CompareCandidates, Precedes;
    var sorted := StableSort(cs, CandidateOrder());
    Laws.SortedClaimantsDistinct(cs);
    assert CandidateOrder()(sorted[i], sorted[j]);
    CandidateAntisymmetric(sorted[i], sorted[j]);
    PrecedesIff(sorted[i], sorted[j]);
    PrecedesIff(sorted[j], sorted[i]);
  }

  lemma SamePosition(cs: seq<Candidate>, c: Candidate, i: nat, j: nat)
    requires DistinctClaimants(cs) && i < |cs| && j < |cs| && cs[i] == cs[j] == c
    ensures i == j
  {}

  lemma WinsIff(cs: seq<Candidate>, c: Candidate, j: nat)
    requires DistinctClaimants(cs) && c in cs
    requires j < |StableSort(cs, CandidateOrder())| && StableSort(cs, CandidateOrder())[j] == c
    ensures Wins(cs, c) <==> Winners(StableSort(cs, CandidateOrder()))[j]
  {
    hide ResolveCandidates, Winners, StableSort;
    var sorted := StableSort(cs, CandidateOrder());
    if Wins(cs, c) {
      var i := Laws.PublishedWins(cs, c);
      Laws.SortedClaimantsDistinct(cs);
      SamePosition(sorted, c, i, j);
    }
    if Winners(sorted)[j] { Laws.WinnerPublishes(cs, j); }
  }

  /** A candidate wins exactly if no older winner claims its key or one of its hostnames. */
  lemma OldestWins(cs: seq<Candidate>, c: Candidate)
    requires DistinctClaimants(cs) && c in cs
    ensures Wins(cs, c) <==> forall x :: x in cs && Wins(cs, x) && Precedes(x, c) ==> !Clash(x.entry, c.entry)
  {
    hide Wins, Winners, Precedes, Clash, Conflict, StableSort;
    var sorted := StableSort(cs, CandidateOrder());
    var j := Laws.SortedHas(cs, c);
    WinsIff(cs, c, j);
    Laws.GreedyRule(sorted, j);
    if !Wins(cs, c) {
      var i :| 0 <= i < j && Winners(sorted)[i] && Conflict(sorted[i].entry, sorted[j].entry);
      ElderAt(cs, c, i, j);
    }
    if Wins(cs, c) {
      forall x | x in cs && Wins(cs, x) && Precedes(x, c) ensures !Clash(x.entry, c.entry) {
        var i := Laws.SortedHas(cs, x);
        WinsIff(cs, x, i);
        if j < i { SortedByAge(cs, j, i); }
        if i == j { NotBeforeItself(c); }
        ClashIff(x.entry, c.entry);
      }
    }
  }

  lemma NotBeforeItself(c: Candidate)
    ensures !Precedes(c, c)
  {
    hide Precedes, Compare;
    PrecedesIff(c, c);
    CandidateAntisymmetric(c, c);
  }

  /** A winner further up the sorted list is older. */
  lemma ElderAt(cs: seq<Candidate>, c: Candidate, i: nat, j: nat)
    requires DistinctClaimants(cs) && i < j < |StableSort(cs, CandidateOrder())|
    requires StableSort(cs, CandidateOrder())[j] == c && Winners(StableSort(cs, CandidateOrder()))[i]
    ensures var x := StableSort(cs, CandidateOrder())[i];
      && x in cs && Wins(cs, x) && Precedes(x, c) && (Conflict(x.entry, c.entry) <==> Clash(x.entry, c.entry))
  {
    hide Winners, Precedes, Clash, Conflict, StableSort, ResolveCandidates;
    var x := StableSort(cs, CandidateOrder())[i];
    Laws.WinnerPublishes(cs, i);
    SortedByAge(cs, i, j);
    ClashIff(x.entry, c.entry);
  }

  ghost predicate OlderWinner(cs: seq<Candidate>, c: Candidate, y: Candidate) {
    y in cs && Wins(cs, y) && Precedes(y, c)
  }

  /** Hostname n is host, and no older winner of the section has an earlier one. */
  ghost predicate FirstContested(cs: seq<Candidate>, c: Candidate, n: nat, host: string) {
    && n < |c.entry.hostnames| && c.entry.hostnames[n] == host
    && forall m: nat, y, h ::
      m < n && OlderWinner(cs, c, y) && y.entry.section.InPublic? == c.entry.section.InPublic?
      && h in y.entry.hostnames ==>
        ToLower(h) != ToLower(c.entry.hostnames[m])
  }

  /** The outcome of a loser names an older winner that claims its key, or else its first
      contested hostname. */
  ghost predicate LosesTo(cs: seq<Candidate>, c: Candidate, x: Candidate, o: Outcome) {
    && x in cs && Wins(cs, x) && Precedes(x, c)
    && match o
       case Won(_) => false
       case KeyTaken(owner) => owner == x.claimant && x.entry.key == c.entry.key
       case HostTaken(host, owner) =>
         && owner == x.claimant && x.entry.section.InPublic? == c.entry.section.InPublic?
         && (exists h :: h in x.entry.hostnames && ToLower(h) == ToLower(host))
         && (exists n: nat :: FirstContested(cs, c, n, host))
         && (forall y :: OlderWinner(cs, c, y) ==> y.entry.key != c.entry.key)
  }

  lemma LoserNamesElder(cs: seq<Candidate>, c: Candidate) returns (x: Candidate)
    requires DistinctClaimants(cs) && c in cs && !Wins(cs, c)
    ensures c.claimant in ResolveCandidates(cs).outcomes
    ensures LosesTo(cs, c, x, ResolveCandidates(cs).outcomes[c.claimant])
  {
    hide Winners, Precedes, Conflict, StableSort, Wins, FirstContested, OlderWinner, ToLower;
    var sorted := StableSort(cs, CandidateOrder());
    var j := Laws.SortedHas(cs, c);
    WinsIff(cs, c, j);
    Laws.ResolveIsGreedy(sorted);
    var o := Resolve(sorted).outcomes[c.claimant];
    assert Deserves(sorted, Winners(sorted), j, o);
    match o {
      case Won(_) => assert false;
      case KeyTaken(owner) =>
        var i: nat :| i < j && HoldsKey(sorted, Winners(sorted), i, c.entry.key) && sorted[i].claimant == owner;
        ElderAt(cs, c, i, j);
        x := sorted[i];
      case HostTaken(host, owner) =>
        var n: nat, i: nat :| FirstTakenAt(sorted, Winners(sorted), j, n, i, host, owner);
        ElderAt(cs, c, i, j);
        x := sorted[i];
        HostnameShared(x.entry, ToLower(host));
        HostComesSecond(cs, c, j, n, i, host, owner);
    }
  }

  lemma ElderPosition(cs: seq<Candidate>, c: Candidate, j: nat, y: Candidate) returns (k: nat)
    requires DistinctClaimants(cs) && j < |StableSort(cs, CandidateOrder())| && StableSort(cs, CandidateOrder())[j] == c
    requires OlderWinner(cs, c, y)
    ensures var sorted := StableSort(cs, CandidateOrder()); k < j && sorted[k] == y && Winners(sorted)[k]
  {
    hide Winners, Precedes, StableSort, ResolveCandidates;
    k := Laws.PublishedWins(cs, y);
    if j < k { SortedByAge(cs, j, k); }
    if j == k { NotBeforeItself(c); }
  }

  lemma HostComesSecond(cs: seq<Candidate>, c: Candidate, j: nat, n: nat, i: nat, host: string, owner: Claimant)
    requires DistinctClaimants(cs) && j < |StableSort(cs, CandidateOrder())| && StableSort(cs, CandidateOrder())[j] == c
    requires var sorted := StableSort(cs, CandidateOrder());
      && FirstTakenAt(sorted, Winners(sorted), j, n, i, host, owner)
      && (forall k: nat :: k < j ==> !HoldsKey(sorted, Winners(sorted), k, c.entry.key))
    ensures FirstContested(cs, c, n, host)
    ensures forall y :: OlderWinner(cs, c, y) ==> y.entry.key != c.entry.key
  {
    hide Winners, OlderWinner, StableSort, ToLower;
    var sorted := StableSort(cs, CandidateOrder());
    forall y | OlderWinner(cs, c, y) ensures y.entry.key != c.entry.key {
      var k := ElderPosition(cs, c, j, y);
      assert !HoldsKey(sorted, Winners(sorted), k, c.entry.key);
    }
    forall m: nat, y, h | m < n && OlderWinner(cs, c, y) && y.entry.section.InPublic? == c.entry.section.InPublic?
                          && h in y.entry.hostnames
      ensures ToLower(h) != ToLower(c.entry.hostnames[m])
    {
      var k := ElderPosition(cs, c, j, y);
      var p :| 0 <= p < |y.entry.hostnames| && y.entry.hostnames[p] == h;
      assert Holds(y.entry, ToLower(h));
      assert !HoldsHost(sorted, Winners(sorted), k, IsPublic(c.entry), ToLower(c.entry.hostnames[m]));
    }
  }

  lemma HostnameShared(e: Entry, folded: string)
    requires Holds(e, folded)
    ensures exists h :: h in e.hostnames && ToLower(h) == folded
  {
    hide ToLower;
    var n :| 0 <= n < |e.hostnames| && ToLower(e.hostnames[n]) == folded;
    assert e.hostnames[n] in e.hostnames;
  }

  /** Nothing but the winners satisfies the rule. */
  lemma OldestWinsUniquely(cs: seq<Candidate>, published: set<Candidate>, c: Candidate)
    requires DistinctClaimants(cs) && c in cs
    requires forall y :: y in cs ==>
      (y in published <==> forall x :: x in cs && x in published && Precedes(x, y) ==> !Clash(x.entry, y.entry))
    ensures c in published <==> Wins(cs, c)
  {
    hide Winners, Precedes, Clash, Conflict, StableSort, Wins;
    var sorted := StableSort(cs, CandidateOrder());
    Laws.SortedClaimantsDistinct(cs);
    var j := Laws.SortedHas(cs, c);
    WinsIff(cs, c, j);
    var flags := seq(|sorted|, i requires 0 <= i < |sorted| => sorted[i] in published);
    forall k | 0 <= k < |sorted|
      ensures flags[k] <==> forall i :: 0 <= i < k && flags[i] ==> !Conflict(sorted[i].entry, sorted[k].entry)
    {
      RuleByPosition(cs, published, k);
    }
    Laws.GreedySolutionUnique(sorted, flags, j);
  }

  /** "Older" and "further up" select the same rivals. */
  lemma RuleByPosition(cs: seq<Candidate>, published: set<Candidate>, k: nat)
    requires DistinctClaimants(cs) && k < |StableSort(cs, CandidateOrder())|
    ensures var sorted := StableSort(cs, CandidateOrder());
      (forall x :: x in cs && x in published && Precedes(x, sorted[k]) ==> !Clash(x.entry, sorted[k].entry))
      <==> forall i :: 0 <= i < k && sorted[i] in published ==> !Conflict(sorted[i].entry, sorted[k].entry)
    ensures StableSort(cs, CandidateOrder())[k] in cs
  {
    hide Precedes, Clash, Conflict, StableSort;
    var sorted := StableSort(cs, CandidateOrder());
    Laws.SortedClaimantsDistinct(cs);
    forall i | 0 <= i < |sorted| ensures sorted[i] in cs { assert sorted[i] in multiset(cs); }
    forall x | x in cs && x in published && Precedes(x, sorted[k])
      ensures exists i :: 0 <= i < k && sorted[i] == x
    {
      var i := Laws.SortedHas(cs, x);
      if k < i { SortedByAge(cs, k, i); }
      if k == i { NotBeforeItself(x); }
    }
    forall i | 0 <= i < k
      ensures Precedes(sorted[i], sorted[k])
      ensures Conflict(sorted[i].entry, sorted[k].entry) <==> Clash(sorted[i].entry, sorted[k].entry)
    {
      SortedByAge(cs, i, k);
      ClashIff(sorted[i].entry, sorted[k].entry);
    }
  }

  // ---------- the render ----------

  /** The candidate speaks for an object of the cluster, with its age. */
  ghost predicate SpeaksFor(input: Inputs, c: Candidate) {
    match c.claimant.kind
    case HTTPRouteKind => exists r :: r in input.routes && r.name == c.claimant.name && r.createdAt == c.createdAt
    case PrivateResourceKind =>
      exists o :: o in input.privateResources && o.name == c.claimant.name && o.createdAt == c.createdAt
  }

  lemma CandidateSpeaks(w: World, input: Inputs, c: Candidate)
    requires DistinctObjects(input) && c in AllCandidates(w, input)
    ensures SpeaksFor(input, c)
  {
    hide Translate.TranslateRoute, Translate.TranslatePrivate, ParentsOf, AllCandidates, DistinctObjects;
    match c.claimant.kind {
      case HTTPRouteKind =>
        var r := RouteOfCandidate(w, input, c);
        assert r.createdAt == c.createdAt;
      case PrivateResourceKind =>
        var o := ResourceOfCandidate(w, input, c);
        assert o.createdAt == c.createdAt;
    }
  }

  /** What a loser is told: the key or the hostname, and who has it. */
  ghost predicate ToldOf(a: ConditionResult, cs: seq<Candidate>, c: Candidate, x: Candidate) {
    && !a.status && x in cs && Wins(cs, x) && Precedes(x, c)
    && match a.message
       case KeyClaimed(key, owner) =>
         a.reason == ReasonDuplicateKey && key == c.entry.key == x.entry.key && owner == x.claimant
       case HostClaimed(host, owner) =>
         && a.reason == ReasonDuplicateHostname && owner == x.claimant
         && x.entry.section.InPublic? == c.entry.section.InPublic?
         && (exists n: nat :: FirstContested(cs, c, n, host))
         && (exists h :: h in x.entry.hostnames && ToLower(h) == ToLower(host))
       case _ => false
  }

  lemma OutcomeTells(cs: seq<Candidate>, c: Candidate, x: Candidate, o: Outcome, accepted: ConditionResult)
    requires LosesTo(cs, c, x, o)
    ensures ToldOf(OutcomeCondition(c.entry.key, o, accepted), cs, c, x) && OutcomeKey(o) == ""
  {
    hide Wins, Precedes, FirstContested, OlderWinner, ToLower;
  }

  ghost predicate RouteTold(verdicts: map<Name, Verdict>, n: Name, cs: seq<Candidate>, c: Candidate, x: Candidate) {
    n in verdicts && verdicts[n].key == "" && ToldOf(verdicts[n].accepted, cs, c, x)
  }

  /** A route that loses its key or hostname is told which older published object has it. */
  lemma RouteLosesToElder(w: World, input: Inputs, r: Route, c: Candidate) returns (x: Candidate)
    requires DistinctObjects(input) && r in input.routes && RouteCandidate(w, r, input, PolicyVerdicts(w, input)) == [c]
    requires !Wins(AllCandidates(w, input), c)
    ensures RouteTold(RenderedOf(w, input).routes, r.name, AllCandidates(w, input), c, x)
    ensures SpeaksFor(input, c) && SpeaksFor(input, x)
  {
    hide RenderedOf, AllCandidates, PolicyVerdicts, Wins, SpeaksFor, RouteVerdict, RouteVerdicts, ToldOf, LosesTo,
         ResolveCandidates, DistinctObjects, Translate.TranslateRoute, ParentsOf;
    var cs, policies := AllCandidates(w, input), PolicyVerdicts(w, input);
    CandidatesDistinct(w, input);
    CandidateOfRoute(w, input, r, c);
    RouteErrors(w, r, input, policies);
    x := LoserNamesElder(cs, c);
    LosersAreCandidates(cs, c, x, ResolveCandidates(cs).outcomes[c.claimant]);
    CandidateSpeaks(w, input, c);
    CandidateSpeaks(w, input, x);
    OutcomeHasVerdict(w, input, c.claimant);
    SettledRoute(w, input, r.name);
    OutcomeTells(cs, c, x, ResolveCandidates(cs).outcomes[c.claimant],
                 RouteVerdicts(w, input.routes, input, policies)[r.name].accepted);
  }

  lemma LosersAreCandidates(cs: seq<Candidate>, c: Candidate, x: Candidate, o: Outcome)
    requires LosesTo(cs, c, x, o)
    ensures x in cs
  {}

  ghost predicate ResourceTold(verdicts: map<Name, ResourceVerdict>, n: Name, cs: seq<Candidate>, c: Candidate,
                               x: Candidate) {
    n in verdicts && verdicts[n].key == "" && ToldOf(verdicts[n].accepted, cs, c, x)
  }

  /** And so is a PrivateResource. */
  lemma ResourceLosesToElder(w: World, input: Inputs, o: PrivateObject, c: Candidate) returns (x: Candidate)
    requires DistinctObjects(input) && o in input.privateResources && ResourceCandidate(w, o, input) == [c]
    requires !Wins(AllCandidates(w, input), c)
    ensures ResourceTold(RenderedOf(w, input).resources, o.name, AllCandidates(w, input), c, x)
    ensures SpeaksFor(input, c) && SpeaksFor(input, x)
  {
    hide RenderedOf, AllCandidates, Wins, SpeaksFor, ResourceVerdictOf, ResourceVerdicts, ToldOf, LosesTo,
         ResolveCandidates, DistinctObjects, Translate.TranslatePrivate;
    var cs := AllCandidates(w, input);
    CandidatesDistinct(w, input);
    CandidateOfResource(w, input, o, c);
    ResourceErrors(w, o, input);
    x := LoserNamesElder(cs, c);
    LosersAreCandidates(cs, c, x, ResolveCandidates(cs).outcomes[c.claimant]);
    CandidateSpeaks(w, input, c);
    CandidateSpeaks(w, input, x);
    OutcomeHasVerdict(w, input, c.claimant);
    SettledResource(w, input, o.name);
    OutcomeTells(cs, c, x, ResolveCandidates(cs).outcomes[c.claimant],
                 ResourceVerdicts(w, input.privateResources, input)[o.name].accepted);
  }

  // ---------- policies ----------

  /** The older valid claimant of p's key. */
  ghost predicate Rival(w: World, licensed: bool, ps: seq<PolicyObject>, p: PolicyObject, q: PolicyObject) {
    q in ps && TranslatePolicy(w, q, licensed).Ok? && PolicyKey(q.name) == PolicyKey(p.name) && PolicyPrecedes(q, p)
  }

  /** What the render says of a policy: its key if it is valid and no older valid one claims
      the key, else why not. */
  ghost predicate PolicyJudged(w: World, licensed: bool, ps: seq<PolicyObject>, p: PolicyObject,
                               verdicts: map<Name, ResourceVerdict>) {
    && p.name in verdicts && verdicts[p.name].generation == p.generation
    && match TranslatePolicy(w, p, licensed)
       case Err(c) => verdicts[p.name].key == "" && verdicts[p.name].accepted == c
       case Ok(_) =>
         if exists q :: Rival(w, licensed, ps, p, q) then
           && verdicts[p.name].key == "" && !verdicts[p.name].accepted.status
           && verdicts[p.name].accepted.reason == ReasonDuplicateKey
           && exists q ::
                && Rival(w, licensed, ps, p, q) && q.name in verdicts && verdicts[q.name].key == PolicyKey(p.name)
                && verdicts[p.name].accepted.message == PolicyKeyClaimed(PolicyKey(p.name), q.name)
         else verdicts[p.name].key == PolicyKey(p.name) && verdicts[p.name].accepted == VALID_POLICY
  }

  /** The same by position in the sorted list. */
  ghost predicate JudgedAt(js: seq<Judged>, i: nat, verdicts: map<Name, ResourceVerdict>)
    requires i < |js|
  {
    var n := js[i].obj.name;
    && n in verdicts && verdicts[n].generation == js[i].obj.generation
    && match js[i].policy
       case Err(c) => verdicts[n].key == "" && verdicts[n].accepted == c
       case Ok(_) =>
         if HoldsPolicyKey(js, i) then verdicts[n].key == KeyOf(js[i]) && verdicts[n].accepted == VALID_POLICY
         else
           && verdicts[n].key == ""
           && exists k: nat :: k < i && HoldsPolicyKey(js, k) && KeyOf(js[k]) == KeyOf(js[i])
                && verdicts[n].accepted
                   == ConditionResult(false, ReasonDuplicateKey, PolicyKeyClaimed(KeyOf(js[i]), js[k].obj.name))
  }

  lemma JudgedBefore(front: seq<Judged>, x: Judged, i: nat, r: PolicyRender)
    requires i < |front| && JudgedAt(front, i, r.verdicts) && front[i].obj.name != x.obj.name
    ensures JudgedAt(front + [x], i, PolicyStep(r, x).verdicts)
  {
    hide HoldsPolicyKey, PolicyKey;
    var js := front + [x];
    HoldersBefore(front, x);
    assert js[i] == front[i];
    if front[i].policy.Ok? && !HoldsPolicyKey(front, i) {
      var k: nat :| k < i && HoldsPolicyKey(front, k) && KeyOf(front[k]) == KeyOf(front[i])
        && r.verdicts[front[i].obj.name].accepted
           == ConditionResult(false, ReasonDuplicateKey, PolicyKeyClaimed(KeyOf(front[i]), front[k].obj.name));
      assert js[k] == front[k];
    }
  }

  lemma JudgedNow(front: seq<Judged>, x: Judged, r: PolicyRender)
    requires PolicyKeysFit(front, r)
    ensures JudgedAt(front + [x], |front|, PolicyStep(r, x).verdicts)
  {
    hide HoldsPolicyKey, PolicyKey;
    var js := front + [x];
    NewHolder(front, x, r);
    HoldersBefore(front, x);
    if x.policy.Ok? && KeyOf(x) in r.owners {
      var k: nat :| OwnsPolicyEntry(front, k, r, KeyOf(x));
      HolderIsListed(front, k);
      assert js[k] == front[k];
    }
  }

  lemma {:induction false} AllJudged(js: seq<Judged>, i: nat)
    requires DistinctJudged(js) && ErrorsAreFalse(js) && i < |js|
    ensures JudgedAt(js, i, PolicyFold(js).verdicts)
  {
    hide JudgedAt, PolicyKeysFit, PolicyVerdictsFit, PolicyStep;
    var front, x := js[..|js| - 1], js[|js| - 1];
    assert js == front + [x];
    if i < |front| {
      AllJudged(front, i);
      assert front[i].obj.name != x.obj.name;
      JudgedBefore(front, x, i, PolicyFold(front));
    } else {
      PolicyFoldFits(front);
      JudgedNow(front, x, PolicyFold(front));
    }
  }

  lemma PoliciesByAge(ps: seq<PolicyObject>, i: nat, j: nat)
    requires DistinctPolicies(ps) && i < j < |StableSort(ps, PolicyOrder())|
    ensures var sorted := StableSort(ps, PolicyOrder());
            PolicyPrecedes(sorted[i], sorted[j]) && !PolicyPrecedes(sorted[j], sorted[i])
  {
    hide PolicyPrecedes, Compare;
    var sorted := StableSort(ps, PolicyOrder());
    SortedPoliciesDistinct(ps);
    PolicyOrderIsTotal();
    SortSorts(ps, PolicyOrder());
    assert PolicyOrder()(sorted[i], sorted[j]);
    CompareAntisymmetric(sorted[i].name.ns, sorted[j].name.ns);
    CompareAntisymmetric(sorted[i].name.name, sorted[j].name.name);
    PolicyPrecedesIff(sorted[i], sorted[j]);
    PolicyPrecedesIff(sorted[j], sorted[i]);
  }

  /** A valid policy holds its key in the sorted list unless it has a rival. */
  lemma HoldsIffNoRival(w: World, licensed: bool, ps: seq<PolicyObject>, i: nat)
    requires DistinctPolicies(ps) && i < |SortedPolicies(w, licensed, ps)|
    requires SortedPolicies(w, licensed, ps)[i].policy.Ok?
    ensures var js := SortedPolicies(w, licensed, ps);
            HoldsPolicyKey(js, i) <==> forall q :: !Rival(w, licensed, ps, js[i].obj, q)
  {
    hide PolicyPrecedes, TranslatePolicy, PolicyKey, StableSort;
    var js, sorted := SortedPolicies(w, licensed, ps), StableSort(ps, PolicyOrder());
    SortedPoliciesDistinct(ps);
    forall q | Rival(w, licensed, ps, js[i].obj, q) ensures !HoldsPolicyKey(js, i) {
      var k :| 0 <= k < |sorted| && sorted[k] == q;
      if i < k { PoliciesByAge(ps, i, k); }
      if i == k { PolicyNotBeforeItself(q); }
    }
    if !HoldsPolicyKey(js, i) {
      var k: nat :| k < i && KeyOf(js[k]) == KeyOf(js[i]) && js[k].policy.Ok?;
      PoliciesByAge(ps, k, i);
      assert sorted[k] in sorted;
      assert Rival(w, licensed, ps, js[i].obj, js[k].obj);
    }
  }

  lemma PolicyNotBeforeItself(p: PolicyObject)
    ensures !PolicyPrecedes(p, p)
  {
    hide PolicyPrecedes, Compare;
    PolicyPrecedesIff(p, p);
    CompareAntisymmetric(p.name.ns, p.name.ns);
    CompareAntisymmetric(p.name.name, p.name.name);
  }

  /** Whatever order they are listed in, a policy key goes to its oldest valid claimant, and
      the others are told whose it is. */
  lemma OldestPolicyWins(w: World, licensed: bool, ps: seq<PolicyObject>, p: PolicyObject)
    requires DistinctPolicies(ps) && p in ps
    ensures PolicyJudged(w, licensed, ps, p, PoliciesRendered(w, licensed, ps).verdicts)
  {
    hide TranslatePolicy, PolicyKey, StableSort, PolicyFold, HoldsPolicyKey, PolicyVerdictsFit, PolicyKeysFit,
         SortedPolicies;
    var js := SortedPolicies(w, licensed, ps);
    SortedPoliciesFit(w, licensed, ps);
    SortedJudged(w, licensed, ps);
    var i: nat :| i < |js| && js[i] == Judged(p, TranslatePolicy(w, p, licensed));
    AllJudged(js, i);
    if js[i].policy.Ok? {
      HoldsIffNoRival(w, licensed, ps, i);
      if !HoldsPolicyKey(js, i) { HolderIsRival(w, licensed, ps, i); }
    }
  }

  lemma SortedJudged(w: World, licensed: bool, ps: seq<PolicyObject>)
    requires DistinctPolicies(ps)
    ensures DistinctJudged(SortedPolicies(w, licensed, ps)) && ErrorsAreFalse(SortedPolicies(w, licensed, ps))
  {
    hide TranslatePolicy, StableSort;
    SortedPoliciesDistinct(ps);
    forall j | j in SortedPolicies(w, licensed, ps) && j.policy.Err? ensures !j.policy.error.status {
      TranslationErrors(w, j.obj, licensed);
    }
  }

  /** The holder named in the verdict of policy i is published, and its rival. */
  lemma HolderIsRival(w: World, licensed: bool, ps: seq<PolicyObject>, i: nat)
    requires DistinctPolicies(ps) && i < |SortedPolicies(w, licensed, ps)|
    ensures var js, verdicts := SortedPolicies(w, licensed, ps), PoliciesRendered(w, licensed, ps).verdicts;
      forall k: nat :: k < i && HoldsPolicyKey(js, k) && KeyOf(js[k]) == KeyOf(js[i]) ==>
        && Rival(w, licensed, ps, js[i].obj, js[k].obj)
        && js[k].obj.name in verdicts && verdicts[js[k].obj.name].key == KeyOf(js[i])
  {
    hide PolicyPrecedes, TranslatePolicy, PolicyKey, StableSort, PolicyFold;
    var js, sorted := SortedPolicies(w, licensed, ps), StableSort(ps, PolicyOrder());
    SortedPoliciesDistinct(ps);
    SortedJudged(w, licensed, ps);
    forall k: nat | k < i && HoldsPolicyKey(js, k) && KeyOf(js[k]) == KeyOf(js[i])
      ensures Rival(w, licensed, ps, js[i].obj, js[k].obj)
      ensures js[k].obj.name in PolicyFold(js).verdicts && PolicyFold(js).verdicts[js[k].obj.name].key == KeyOf(js[i])
    {
      PoliciesByAge(ps, k, i);
      assert sorted[k] in sorted;
      AllJudged(js, k);
    }
  }
}
