/** What a written status says, field by field: conditions by their type, parents by the five
    parts that identify them. */
module Conditions {
  import opened Text
  import opened Sorting
  import opened Types
  import opened Status
  import opened Lexical

  // ---------- conditions ----------

  /** The first condition of a type is the one that counts. */
  ghost predicate FirstOf(cs: seq<Condition>, typ: string, i: nat) {
    i < |cs| && cs[i].typ == typ && forall j :: 0 <= j < i ==> cs[j].typ != typ
  }

  /** It says exactly this. */
  ghost predicate Reports(cs: seq<Condition>, typ: string, r: ConditionResult, generation: int) {
    exists i: nat :: FirstOf(cs, typ, i)
      && cs[i].status == r.status && cs[i].reason == r.reason && cs[i].message == r.message
      && cs[i].generation == generation
  }

  lemma {:induction false} CarriesReports(cs: seq<Condition>, c: Condition)
    ensures Carries(cs, c)
            <==> Reports(cs, c.typ, ConditionResult(c.status, c.reason, c.message), c.generation)
  {
    if cs != [] {
      CarriesReports(cs[1..], c);
      assert forall i :: 0 <= i < |cs| - 1 ==> cs[1..][i] == cs[i + 1];
      if cs[0].typ == c.typ {
        assert FirstOf(cs, c.typ, 0);
      } else {
        forall i: nat ensures FirstOf(cs, c.typ, i + 1) <==> FirstOf(cs[1..], c.typ, i) { FirstLater(cs, c.typ, i); }
        assert !FirstOf(cs, c.typ, 0);
        if Carries(cs, c) {
          var i: nat :| FirstOf(cs[1..], c.typ, i) && SameContent(cs[1..][i], c);
          assert FirstOf(cs, c.typ, i + 1);
        }
        if Reports(cs, c.typ, ConditionResult(c.status, c.reason, c.message), c.generation) {
          var i: nat :| FirstOf(cs, c.typ, i) && SameContent(cs[i], c);
          assert FirstOf(cs[1..], c.typ, i - 1);
        }
      }
    }
  }

  lemma FirstLater(cs: seq<Condition>, typ: string, i: nat)
    requires cs != [] && cs[0].typ != typ
    ensures FirstOf(cs, typ, i + 1) <==> FirstOf(cs[1..], typ, i)
  {
    var tail := cs[1..];
    assert forall j :: 0 <= j < |tail| ==> tail[j] == cs[j + 1];
    if FirstOf(tail, typ, i) {
      forall j | 0 <= j < i + 1 ensures cs[j].typ != typ { if j > 0 { assert tail[j - 1].typ != typ; } }
    }
  }

  /** Its time is that of the last change of status. */
  lemma {:induction false} TimeMovesWithStatus(cs: seq<Condition>, c: Condition, now: int, i: nat)
    requires FirstOf(SetCondition(cs, c, now), c.typ, i)
    ensures SetCondition(cs, c, now)[i].time
         == if i < |cs| && cs[i].typ == c.typ && cs[i].status == c.status then cs[i].time else now
    ensures i < |cs| ==> cs[i].typ == c.typ
  {
    var after := SetCondition(cs, c, now);
    if cs != [] && cs[0].typ != c.typ {
      assert after[0] == cs[0];
      FirstLater(after, c.typ, i - 1);
      assert after[1..] == SetCondition(cs[1..], c, now);
      TimeMovesWithStatus(cs[1..], c, now, i - 1);
    } else {
      assert after[0].typ == c.typ;
    }
  }

  // ---------- parents ----------

  /** What identifies a parent: everything of a ref but the port, defaults filled in. */
  datatype Parent = Parent(group: string, kind: string, ns: string, name: string, section: Option<string>)

  function Given(v: Option<string>, fallback: string): string { match v case Some(x) => x case None => fallback }

  function ParentOf(ref: ParentRef, ns: string): Parent {
    Parent(if Given(ref.group, "") == "" then "gateway.networking.k8s.io" else Given(ref.group, ""),
           Given(ref.kind, "Gateway"), Given(ref.ns, ns), ref.name, ref.section)
  }

  function Slash(): char -> bool { c => c == '/' }

  /** As the API server guarantees of each part. */
  predicate Slashless(p: Parent) {
    && Free(p.group, Slash()) && Free(p.kind, Slash()) && Free(p.ns, Slash()) && Free(p.name, Slash())
    && (p.section.Some? ==> Free(p.section.value, Slash()))
  }

  function Parts(p: Parent): seq<string> {
    [p.group, p.kind, p.ns, p.name] + match p.section case Some(x) => [x] case None => []
  }

  lemma JoinFour(a: string, b: string, c: string, d: string, rest: seq<string>)
    ensures Join([a, b, c, d] + rest, "/")
         == a + "/" + b + "/" + c + "/" + d + (if rest == [] then "" else "/" + Join(rest, "/"))
  {
    var parts := [a, b, c, d] + rest;
    assert parts[1..] == [b, c, d] + rest && parts[1..][1..] == [c, d] + rest && parts[1..][1..][1..] == [d] + rest;
    assert parts[1..][1..][1..][1..] == rest;
    var tail := if rest == [] then "" else "/" + Join(rest, "/");
    assert Join([d] + rest, "/") == d + tail;
    assert Join([c, d] + rest, "/") == c + "/" + (d + tail) == c + "/" + d + tail;
    assert Join([b, c, d] + rest, "/") == b + "/" + (c + "/" + d + tail) == b + "/" + c + "/" + d + tail;
    assert Join(parts, "/") == a + "/" + (b + "/" + c + "/" + d + tail) == a + "/" + b + "/" + c + "/" + d + tail;
  }

  /** The key joins the parts of the parent. */
  lemma RefKeyJoins(ref: ParentRef, ns: string)
    ensures RefKey(ref, ns) == Join(Parts(ParentOf(ref, ns)), "/")
  {
    var p := ParentOf(ref, ns);
    var rest := match p.section case Some(x) => [x] case None => [];
    JoinFour(p.group, p.kind, p.ns, p.name, rest);
    if p.section.None? { assert RefKey(ref, ns) == p.group + "/" + p.kind + "/" + p.ns + "/" + p.name + ""; }
  }

  lemma PartsIdentify(a: Parent, b: Parent)
    requires Slashless(a) && Slashless(b) && Join(Parts(a), "/") == Join(Parts(b), "/")
    ensures a == b
  {
    SplitJoin(Parts(a), '/', Slash());
    SplitJoin(Parts(b), '/', Slash());
    var x, y := Parts(a), Parts(b);
    assert x == y && x[0] == y[0] && x[1] == y[1] && x[2] == y[2] && x[3] == y[3];
    if a.section.Some? { assert |x| == 5 && x[4] == a.section.value; }
    if b.section.Some? { assert |y| == 5 && y[4] == b.section.value; }
  }

  /** Two refs have one key exactly when group, kind, namespace, name and section agree. */
  lemma KeysAgreeIff(a: ParentRef, b: ParentRef, ns: string)
    requires Slashless(ParentOf(a, ns)) && Slashless(ParentOf(b, ns))
    ensures RefKey(a, ns) == RefKey(b, ns) <==> ParentOf(a, ns) == ParentOf(b, ns)
  {
    hide RefKey;
    RefKeyJoins(a, ns);
    RefKeyJoins(b, ns);
    if RefKey(a, ns) == RefKey(b, ns) { PartsIdentify(ParentOf(a, ns), ParentOf(b, ns)); }
  }

  // ---------- the parent list after a write ----------

  function OursFor(w: Writer, p: Parent): ParentStatus -> bool {
    (e: ParentStatus) => e.controller == w.controller && ParentOf(e.ref, w.ns) == p
  }

  ghost predicate AllSlashless(w: Writer, v: Verdict, ps: seq<ParentStatus>) {
    && (forall ref :: ref in v.parentRefs ==> Slashless(ParentOf(ref, w.ns)))
    && (forall e :: e in ps && e.controller == w.controller ==> Slashless(ParentOf(e.ref, w.ns)))
  }

  ghost predicate OursSlashless(w: Writer, ps: seq<ParentStatus>) {
    forall e :: e in ps && e.controller == w.controller ==> Slashless(ParentOf(e.ref, w.ns))
  }

  lemma {:induction false} UpsertSlashless(w: Writer, v: Verdict, ps: seq<ParentStatus>, ref: ParentRef)
    requires OursSlashless(w, ps) && Slashless(ParentOf(ref, w.ns))
    ensures OursSlashless(w, Upsert(w, v, ps, ref))
  {
    hide Slashless, ParentOf, SetCondition, RefKey;
    if ps != [] {
      assert ps == [ps[0]] + ps[1..];
      UpsertSlashless(w, v, ps[1..], ref);
    }
  }

  lemma {:induction false} UpsertsSlashless(w: Writer, v: Verdict, ps: seq<ParentStatus>, refs: seq<ParentRef>)
    requires OursSlashless(w, ps) && forall ref :: ref in refs ==> Slashless(ParentOf(ref, w.ns))
    ensures OursSlashless(w, UpsertAll(w, v, ps, refs))
  {
    hide OursSlashless, Slashless, ParentOf, Upsert;
    if refs != [] {
      UpsertsSlashless(w, v, ps, refs[..|refs| - 1]);
      UpsertSlashless(w, v, UpsertAll(w, v, ps, refs[..|refs| - 1]), refs[|refs| - 1]);
    }
  }

  lemma SettledSlashless(w: Writer, v: Verdict, ps: seq<ParentStatus>)
    requires AllSlashless(w, v, ps)
    ensures OursSlashless(w, Settled(w, v, ps))
  {
    hide Slashless, ParentOf, UpsertAll, RefKey;
    var kept := KeepWanted(w, v, ps);
    FilterMembers(ps, KeptBy(w, WantedKeys(w, v.parentRefs)));
    UpsertsSlashless(w, v, kept, v.parentRefs);
    var mid := UpsertAll(w, v, kept, v.parentRefs);
    SortPermutes(mid, ParentOrder(w.ns));
    forall e | e in Settled(w, v, ps) ensures e in mid { assert e in multiset(Settled(w, v, ps)); }
  }

  /** Our entries for a parent are our entries for its key. */
  lemma {:induction false} SameOurs(w: Writer, ps: seq<ParentStatus>, p: Parent)
    requires OursSlashless(w, ps) && Slashless(p)
    ensures Filter(ps, OursFor(w, p)) == Filter(ps, ForKey(w, Join(Parts(p), "/")))
  {
    hide Slashless, ParentOf, RefKey;
    if ps != [] {
      var front, last := ps[..|ps| - 1], ps[|ps| - 1];
      SameOurs(w, front, p);
      RefKeyJoins(last.ref, w.ns);
      if last.controller == w.controller && RefKey(last.ref, w.ns) == Join(Parts(p), "/") {
        assert last in ps;
        PartsIdentify(ParentOf(last.ref, w.ns), p);
      }
    }
  }

  ghost predicate Wanted(w: Writer, v: Verdict, p: Parent) {
    exists ref :: ref in v.parentRefs && ParentOf(ref, w.ns) == p
  }

  lemma WantedIff(w: Writer, v: Verdict, ps: seq<ParentStatus>, p: Parent)
    requires AllSlashless(w, v, ps) && Slashless(p)
    ensures Join(Parts(p), "/") in WantedKeys(w, v.parentRefs) <==> Wanted(w, v, p)
  {
    hide Slashless, ParentOf, RefKey;
    var k := Join(Parts(p), "/");
    if k in WantedKeys(w, v.parentRefs) {
      var ref :| ref in v.parentRefs && RefKey(ref, w.ns) == k;
      RefKeyJoins(ref, w.ns);
      PartsIdentify(ParentOf(ref, w.ns), p);
    }
    if Wanted(w, v, p) {
      var ref :| ref in v.parentRefs && ParentOf(ref, w.ns) == p;
      RefKeyJoins(ref, w.ns);
    }
  }

  /** Parent by parent: an entry of ours exactly where the verdict names that very parent,
      listener included; one, or as many as there were; and the first reports the verdict's
      two conditions word for word. */
  lemma ParentByParent(w: Writer, v: Verdict, ps: seq<ParentStatus>, p: Parent)
    requires AllSlashless(w, v, ps) && Slashless(p)
    ensures var mine, prior := Filter(Settled(w, v, ps), OursFor(w, p)), Filter(ps, OursFor(w, p));
      && (mine != [] <==> Wanted(w, v, p))
      && (mine != [] ==>
           && |mine| == (if prior == [] then 1 else |prior|)
           && Reports(mine[0].conditions, "Accepted", v.accepted, v.generation)
           && Reports(mine[0].conditions, "ResolvedRefs", v.resolvedRefs, v.generation))
  {
    hide Slashless, ParentOf, RefKey, Settled, Reports;
    var k := Join(Parts(p), "/");
    SettledSlashless(w, v, ps);
    SameOurs(w, Settled(w, v, ps), p);
    SameOurs(w, ps, p);
    WantedIff(w, v, ps, p);
    OursCoverTheWanted(w, v, ps, k);
    SettledPerKey(w, v, ps, k);
    var mine := Filter(Settled(w, v, ps), ForKey(w, k));
    if mine != [] {
      CarriesReports(mine[0].conditions, AcceptedCondition(v));
      CarriesReports(mine[0].conditions, ResolvedCondition(v));
    }
  }

  /** None of our entries is left for a parent the verdict does not name. */
  lemma OursAreWanted(w: Writer, v: Verdict, ps: seq<ParentStatus>, e: ParentStatus)
    requires AllSlashless(w, v, ps) && e in Settled(w, v, ps) && e.controller == w.controller
    ensures Wanted(w, v, ParentOf(e.ref, w.ns))
  {
    hide Slashless, ParentOf, RefKey, Settled, Reports;
    var p := ParentOf(e.ref, w.ns);
    SettledSlashless(w, v, ps);
    FilterMembers(Settled(w, v, ps), OursFor(w, p));
    assert e in Filter(Settled(w, v, ps), OursFor(w, p));
    ParentByParent(w, v, ps, p);
  }

  /** The list is in order of controller and, under one controller, of parent. */
  lemma SettledInOrder(w: Writer, v: Verdict, ps: seq<ParentStatus>, i: nat, j: nat)
    requires i < j < |Settled(w, v, ps)|
    ensures var a, b := Settled(w, v, ps)[i], Settled(w, v, ps)[j];
      && !Less(b.controller, a.controller)
      && (a.controller == b.controller ==>
           !Less(Join(Parts(ParentOf(b.ref, w.ns)), "/"), Join(Parts(ParentOf(a.ref, w.ns)), "/")))
  {
    hide Less, Compare, RefKey, UpsertAll, KeepWanted, StableSort;
    var sorted := Settled(w, v, ps);
    var a, b := sorted[i], sorted[j];
    ParentOrderIsTotal(w.ns);
    SortSorts(UpsertAll(w, v, KeepWanted(w, v, ps), v.parentRefs), ParentOrder(w.ns));
    assert ParentOrder(w.ns)(a, b);
    RefKeyJoins(a.ref, w.ns);
    RefKeyJoins(b.ref, w.ns);
    CompareMeans(b.controller, a.controller);
    CompareAntisymmetric(a.controller, b.controller);
    CompareMeans(RefKey(b.ref, w.ns), RefKey(a.ref, w.ns));
    CompareAntisymmetric(RefKey(a.ref, w.ns), RefKey(b.ref, w.ns));
  }
}
