/** internal/gateway/status.go: bringing the parent statuses of a route in line with its
    verdict, in a list shared with other controllers. */
module Status {
  import opened Text
  import opened Sorting
  import opened Types

  datatype Condition = Condition(
    typ: string, status: bool, reason: Reason, message: Message, generation: int, time: int)

  // ---------- meta.SetStatusCondition ----------

  predicate SameContent(a: Condition, b: Condition) {
    a.status == b.status && a.reason == b.reason && a.message == b.message && a.generation == b.generation
  }

  /** Upsert by type: the first condition of the type takes the new content, and its
      time moves only with its status. */
  function SetCondition(cs: seq<Condition>, c: Condition, now: int): seq<Condition> {
    if cs == [] then [c.(time := now)]
    else if cs[0].typ == c.typ then
      [c.(time := if cs[0].status == c.status then cs[0].time else now)] + cs[1..]
    else [cs[0]] + SetCondition(cs[1..], c, now)
  }

  /** The condition in force for a type, which is the first one listed. */
  predicate Carries(cs: seq<Condition>, c: Condition) {
    if cs == [] then false
    else if cs[0].typ == c.typ then SameContent(cs[0], c)
    else Carries(cs[1..], c)
  }

  lemma {:induction false} SetConditionCarries(cs: seq<Condition>, c: Condition, now: int)
    ensures Carries(SetCondition(cs, c, now), c)
  {
    if cs != [] && cs[0].typ != c.typ { SetConditionCarries(cs[1..], c, now); }
  }

  /** Nothing changes exactly when the content is in force already. */
  lemma {:induction false} SetConditionSettled(cs: seq<Condition>, c: Condition, now: int)
    ensures SetCondition(cs, c, now) == cs <==> Carries(cs, c)
  {
    if cs != [] {
      assert cs == [cs[0]] + cs[1..];
      if cs[0].typ == c.typ {
        var d := c.(time := if cs[0].status == c.status then cs[0].time else now);
        assert SetCondition(cs, c, now)[0] == d;
      } else {
        SetConditionSettled(cs[1..], c, now);
        assert SetCondition(cs, c, now)[1..] == SetCondition(cs[1..], c, now);
      }
    }
  }

  lemma {:induction false} SetConditionApart(cs: seq<Condition>, c: Condition, d: Condition, now: int)
    requires c.typ != d.typ
    ensures Carries(SetCondition(cs, c, now), d) <==> Carries(cs, d)
  {
    if cs != [] && cs[0].typ != c.typ { SetConditionApart(cs[1..], c, d, now); }
  }

  /** What setting means at the place where the search stops. */
  lemma SetAt(cs: seq<Condition>, i: nat, c: Condition, now: int)
    requires i <= |cs|
    ensures i == |cs| ==> SetCondition(cs[i..], c, now) == [c.(time := now)]
    ensures i < |cs| && cs[i].typ != c.typ ==>
      SetCondition(cs[i..], c, now) == [cs[i]] + SetCondition(cs[i + 1..], c, now)
    ensures i < |cs| && cs[i].typ == c.typ ==>
      SetCondition(cs[i..], c, now) == [c.(time := if cs[i].status == c.status then cs[i].time else now)] + cs[i + 1..]
  {
    if i < |cs| { assert cs[i..] == [cs[i]] + cs[i + 1..]; }
  }

  /** The library call, with its report whether anything changed. */
  method SetStatusCondition(cs: seq<Condition>, c: Condition, now: int) returns (r: seq<Condition>, changed: bool)
    ensures r == SetCondition(cs, c, now) && changed == (r != cs)
  {
    hide SetCondition;
    var i := 0;
    assert cs[..0] + SetCondition(cs[0..], c, now) == SetCondition(cs, c, now) by { assert cs[0..] == cs; }
    while i < |cs| && cs[i].typ != c.typ
      invariant 0 <= i <= |cs|
      invariant SetCondition(cs, c, now) == cs[..i] + SetCondition(cs[i..], c, now)
    {
      SetAt(cs, i, c, now);
      assert cs[..i] + ([cs[i]] + SetCondition(cs[i + 1..], c, now)) == cs[..i + 1] + SetCondition(cs[i + 1..], c, now);
      i := i + 1;
    }
    SetAt(cs, i, c, now);
    if i == |cs| {
      r := cs + [c.(time := now)];
      assert |r| != |cs|;
      return r, true;
    }
    changed := !SameContent(cs[i], c);
    var d := c.(time := if cs[i].status == c.status then cs[i].time else now);
    r := cs[i := d];
    assert r == cs[..i] + ([d] + cs[i + 1..]);
    if changed { assert r[i] != cs[i]; } else { assert d == cs[i]; }
  }

  // ---------- parent references ----------

  datatype ParentStatus = ParentStatus(ref: ParentRef, controller: string, conditions: seq<Condition>)

  /** The defaults filled in; the port is not part of the key. */
  function RefKey(ref: ParentRef, ns: string): string {
    (if ref.group.Some? && ref.group.value != "" then ref.group.value else "gateway.networking.k8s.io")
    + "/" + (if ref.kind.Some? then ref.kind.value else "Gateway")
    + "/" + (if ref.ns.Some? then ref.ns.value else ns)
    + "/" + ref.name
    + (if ref.section.Some? then "/" + ref.section.value else "")
  }

  /** Who writes, for which namespace, and when. */
  datatype Writer = Writer(controller: string, ns: string, now: int)

  predicate Mine(w: Writer, e: ParentStatus) { e.controller == w.controller }

  predicate MineFor(w: Writer, e: ParentStatus, k: string) { Mine(w, e) && RefKey(e.ref, w.ns) == k }

  function ForKey(w: Writer, k: string): ParentStatus -> bool { e => MineFor(w, e, k) }

  function Foreign(w: Writer): ParentStatus -> bool { e => !Mine(w, e) }

  function WantedKeys(w: Writer, refs: seq<ParentRef>): set<string> { set r | r in refs :: RefKey(r, w.ns) }

  predicate Kept(w: Writer, wanted: set<string>, e: ParentStatus) { !Mine(w, e) || RefKey(e.ref, w.ns) in wanted }

  function KeptBy(w: Writer, wanted: set<string>): ParentStatus -> bool { e => Kept(w, wanted, e) }

  // ---------- the specification ----------

  const ACCEPTED := "Accepted"
  const RESOLVED_REFS := "ResolvedRefs"

  function AsCondition(typ: string, c: ConditionResult, generation: int): Condition {
    Condition(typ, c.status, c.reason, c.message, generation, 0)
  }

  function AcceptedCondition(v: Verdict): Condition { AsCondition(ACCEPTED, v.accepted, v.generation) }

  function ResolvedCondition(v: Verdict): Condition { AsCondition(RESOLVED_REFS, v.resolvedRefs, v.generation) }

  /** One entry with the verdict's two conditions. */
  function Updated(w: Writer, v: Verdict, e: ParentStatus): ParentStatus {
    e.(conditions := SetCondition(SetCondition(e.conditions, AcceptedCondition(v), w.now), ResolvedCondition(v), w.now))
  }

  predicate CarriesVerdict(v: Verdict, e: ParentStatus) {
    Carries(e.conditions, AcceptedCondition(v)) && Carries(e.conditions, ResolvedCondition(v))
  }

  /** The first entry of ours for the parent is updated, or one is appended. */
  function Upsert(w: Writer, v: Verdict, ps: seq<ParentStatus>, ref: ParentRef): seq<ParentStatus> {
    if ps == [] then [Updated(w, v, ParentStatus(ref, w.controller, []))]
    else if MineFor(w, ps[0], RefKey(ref, w.ns)) then [Updated(w, v, ps[0])] + ps[1..]
    else [ps[0]] + Upsert(w, v, ps[1..], ref)
  }

  function UpsertAll(w: Writer, v: Verdict, ps: seq<ParentStatus>, refs: seq<ParentRef>): seq<ParentStatus> {
    if refs == [] then ps
    else Upsert(w, v, UpsertAll(w, v, ps, refs[..|refs| - 1]), refs[|refs| - 1])
  }

  function CompareParents(ns: string, a: ParentStatus, b: ParentStatus): int {
    if Compare(a.controller, b.controller) != 0 then Compare(a.controller, b.controller)
    else Compare(RefKey(a.ref, ns), RefKey(b.ref, ns))
  }

  function ParentOrder(ns: string): (ParentStatus, ParentStatus) -> bool { (a, b) => CompareParents(ns, a, b) <= 0 }

  function KeepWanted(w: Writer, v: Verdict, ps: seq<ParentStatus>): seq<ParentStatus> {
    Filter(ps, KeptBy(w, WantedKeys(w, v.parentRefs)))
  }

  /** What the parents become. */
  function Settled(w: Writer, v: Verdict, ps: seq<ParentStatus>): seq<ParentStatus> {
    StableSort(UpsertAll(w, v, KeepWanted(w, v, ps), v.parentRefs), ParentOrder(w.ns))
  }

  // ---------- the status writer ----------

  predicate SamePlace(ns: string, a: ParentStatus, b: ParentStatus) {
    a.controller == b.controller && RefKey(a.ref, ns) == RefKey(b.ref, ns)
  }

  predicate SameOrder(ns: string, a: seq<ParentStatus>, b: seq<ParentStatus>) {
    |a| == |b| && forall i :: 0 <= i < |a| ==> SamePlace(ns, a[i], b[i])
  }

  /** Did the upserts report a change: an entry appended or a condition moved. */
  function Reported(w: Writer, v: Verdict, ps: seq<ParentStatus>, refs: seq<ParentRef>): bool {
    if refs == [] then false
    else
      var front := UpsertAll(w, v, ps, refs[..|refs| - 1]);
      Reported(w, v, ps, refs[..|refs| - 1]) || Upsert(w, v, front, refs[|refs| - 1]) != front
  }

  class RouteStatus {
    const ns: string
    var parents: seq<ParentStatus>

    constructor (ns: string, parents: seq<ParentStatus>)
      ensures this.ns == ns && this.parents == parents
    {
      this.ns := ns;
      this.parents := parents;
    }

    /** SetRouteStatus: filter, upsert, sort, assign, and report whether the list is
        any different. */
    method SetRouteStatus(v: Verdict, controllerName: string, now: int) returns (changed: bool)
      modifies this`parents
      ensures parents == Settled(Writer(controllerName, ns, now), v, old(parents))
      ensures changed == (parents != old(parents))
    {
      hide Upsert;
      var w := Writer(controllerName, ns, now);
      var wanted := WantedKeys(w, v.parentRefs);
      var kept, dropped := KeepLoop(w, wanted, parents);
      changed := dropped;
      var i := 0;
      while i < |v.parentRefs|
        invariant 0 <= i <= |v.parentRefs|
        invariant kept == UpsertAll(w, v, KeepWanted(w, v, old(parents)), v.parentRefs[..i])
        invariant changed == (dropped || Reported(w, v, KeepWanted(w, v, old(parents)), v.parentRefs[..i]))
        invariant parents == old(parents)
      {
        assert v.parentRefs[..i + 1][..i] == v.parentRefs[..i];
        var moved;
        kept, moved := UpsertLoop(w, v, kept, v.parentRefs[i]);
        changed := changed || moved;
        i := i + 1;
      }
      assert v.parentRefs[..i] == v.parentRefs;
      kept := StableSort(kept, ParentOrder(ns));
      var same := CompareOrder(parents, kept);
      if !same { changed := true; }
      ChangeIsExact(w, v, old(parents));
      parents := kept;
    }

    method KeepLoop(w: Writer, wanted: set<string>, ps: seq<ParentStatus>)
      returns (kept: seq<ParentStatus>, dropped: bool)
      ensures kept == Filter(ps, KeptBy(w, wanted))
      ensures dropped == (kept != ps)
    {
      kept, dropped := [], false;
      var i := 0;
      while i < |ps|
        invariant 0 <= i <= |ps|
        invariant kept == Filter(ps[..i], KeptBy(w, wanted))
        invariant if dropped then |kept| < i else kept == ps[..i]
      {
        assert ps[..i + 1][..i] == ps[..i];
        if Kept(w, wanted, ps[i]) {
          kept := kept + [ps[i]];
        } else {
          dropped := true;
          FilterShorter(ps[..i], KeptBy(w, wanted));
        }
        i := i + 1;
      }
      assert ps[..i] == ps;
    }

    /** The inner loop: find our entry or append one, then set both conditions. */
    method UpsertLoop(w: Writer, v: Verdict, ps: seq<ParentStatus>, ref: ParentRef)
      returns (r: seq<ParentStatus>, changed: bool)
      ensures r == Upsert(w, v, ps, ref) && changed == (r != ps)
    {
      var key := RefKey(ref, w.ns);
      var i := 0;
      while i < |ps| && !MineFor(w, ps[i], key)
        invariant 0 <= i <= |ps|
        invariant forall k :: 0 <= k < i ==> !MineFor(w, ps[k], key)
      {
        i := i + 1;
      }
      UpsertAt(w, v, ps, ref, i);
      var entry := if i < |ps| then ps[i] else ParentStatus(ref, w.controller, []);
      entry, changed := SetBoth(w, v, entry);
      if i < |ps| {
        r := ps[i := entry];
        assert r[i] == entry;
      } else {
        r := ps + [entry];
        changed := true;
      }
    }

    /** The two conditions of one entry. */
    method SetBoth(w: Writer, v: Verdict, entry: ParentStatus) returns (r: ParentStatus, changed: bool)
      ensures r == Updated(w, v, entry) && changed == (r != entry)
    {
      var cs, first := SetStatusCondition(entry.conditions, AcceptedCondition(v), w.now);
      var ds, second := SetStatusCondition(cs, ResolvedCondition(v), w.now);
      UpdateIsExact(w, v, entry);
      r := entry.(conditions := ds);
      changed := first || second;
    }

    method CompareOrder(a: seq<ParentStatus>, b: seq<ParentStatus>) returns (same: bool)
      ensures same <==> SameOrder(ns, a, b)
    {
      if |a| != |b| { return false; }
      var i := 0;
      while i < |a|
        invariant 0 <= i <= |a|
        invariant forall k :: 0 <= k < i ==> SamePlace(ns, a[k], b[k])
      {
        if !SamePlace(ns, a[i], b[i]) { return false; }
        i := i + 1;
      }
      return true;
    }
  }

  /** Where the upsert happens: at our first entry for the parent, else at the end. */
  lemma {:induction false} UpsertAt(w: Writer, v: Verdict, ps: seq<ParentStatus>, ref: ParentRef, i: nat)
    requires i <= |ps| && forall k :: 0 <= k < i ==> !MineFor(w, ps[k], RefKey(ref, w.ns))
    requires i < |ps| ==> MineFor(w, ps[i], RefKey(ref, w.ns))
    ensures Upsert(w, v, ps, ref)
         == if i < |ps| then ps[i := Updated(w, v, ps[i])]
           else ps + [Updated(w, v, ParentStatus(ref, w.controller, []))]
  {
    hide MineFor, Updated, RefKey;
    if i > 0 {
      var tail := ps[1..];
      assert ps == [ps[0]] + tail;
      assert forall k :: 0 <= k < i - 1 ==> tail[k] == ps[k + 1];
      UpsertAt(w, v, tail, ref, i - 1);
      if i < |ps| {
        assert tail[i - 1] == ps[i] && ps[i := Updated(w, v, ps[i])] == [ps[0]] + tail[i - 1 := Updated(w, v, ps[i])];
      }
    } else if ps != [] {
      assert ps[0 := Updated(w, v, ps[0])] == [Updated(w, v, ps[0])] + ps[1..];
    }
  }

  // ---------- one entry ----------

  /** Updating changes an entry exactly when one of its two conditions changes. */
  lemma UpdateIsExact(w: Writer, v: Verdict, e: ParentStatus)
    ensures CarriesVerdict(v, Updated(w, v, e))
    ensures Updated(w, v, e) == e <==> CarriesVerdict(v, e)
    ensures var a, b := AcceptedCondition(v), ResolvedCondition(v);
            var cs := SetCondition(e.conditions, a, w.now);
            Updated(w, v, e) == e <==> cs == e.conditions && SetCondition(cs, b, w.now) == cs
  {
    var a, b := AcceptedCondition(v), ResolvedCondition(v);
    assert a.typ != b.typ by { assert ACCEPTED[0] != RESOLVED_REFS[0]; }
    var cs := SetCondition(e.conditions, a, w.now);
    SetConditionCarries(e.conditions, a, w.now);
    SetConditionCarries(cs, b, w.now);
    SetConditionApart(cs, b, a, w.now);
    SetConditionApart(e.conditions, a, b, w.now);
    SetConditionSettled(e.conditions, a, w.now);
    SetConditionSettled(cs, b, w.now);
    if Updated(w, v, e) == e { assert CarriesVerdict(v, e); }
  }

  lemma FilterShorter<T>(s: seq<T>, p: T -> bool)
    ensures |Filter(s, p)| <= |s|
  {
    if s != [] { FilterShorter(s[..|s| - 1], p); }
  }

  // ---------- the entries of one key ----------

  /** What becomes of our entries for one wanted key. */
  function Target(w: Writer, v: Verdict, mine: seq<ParentStatus>, ref: ParentRef): seq<ParentStatus> {
    if mine == [] then [Updated(w, v, ParentStatus(ref, w.controller, []))]
    else [Updated(w, v, mine[0])] + mine[1..]
  }

  lemma FilterHead(x: ParentStatus, rest: seq<ParentStatus>, p: ParentStatus -> bool)
    ensures Filter([x] + rest, p) == (if p(x) then [x] else []) + Filter(rest, p)
  {
    FilterConcat([x], rest, p);
    FilterOne(x, p);
  }

  lemma FilterOne(x: ParentStatus, p: ParentStatus -> bool)
    ensures Filter([x], p) == if p(x) then [x] else []
  {
    assert [x][..0] == [];
  }

  lemma {:induction false} UpsertTouchesOneKey(w: Writer, v: Verdict, ps: seq<ParentStatus>, ref: ParentRef, k: string)
    ensures Filter(Upsert(w, v, ps, ref), ForKey(w, k))
         == if k == RefKey(ref, w.ns) then Target(w, v, Filter(ps, ForKey(w, k)), ref) else Filter(ps, ForKey(w, k))
  {
    var p := ForKey(w, k);
    if ps == [] {
      FilterHead(Updated(w, v, ParentStatus(ref, w.controller, [])), [], p);
    } else {
      assert ps == [ps[0]] + ps[1..];
      FilterHead(ps[0], ps[1..], p);
      if MineFor(w, ps[0], RefKey(ref, w.ns)) {
        FilterHead(Updated(w, v, ps[0]), ps[1..], p);
      } else {
        FilterHead(ps[0], Upsert(w, v, ps[1..], ref), p);
        UpsertTouchesOneKey(w, v, ps[1..], ref, k);
      }
    }
  }

  lemma {:induction false} UpsertLeavesForeign(w: Writer, v: Verdict, ps: seq<ParentStatus>, ref: ParentRef)
    ensures Filter(Upsert(w, v, ps, ref), Foreign(w)) == Filter(ps, Foreign(w))
  {
    var p := Foreign(w);
    if ps == [] {
      FilterHead(Updated(w, v, ParentStatus(ref, w.controller, [])), [], p);
    } else {
      assert ps == [ps[0]] + ps[1..];
      FilterHead(ps[0], ps[1..], p);
      if MineFor(w, ps[0], RefKey(ref, w.ns)) {
        FilterHead(Updated(w, v, ps[0]), ps[1..], p);
      } else {
        FilterHead(ps[0], Upsert(w, v, ps[1..], ref), p);
        UpsertLeavesForeign(w, v, ps[1..], ref);
      }
    }
  }

  /** An upsert leaves the list alone exactly when our first entry for the key exists
      and carries the verdict. */
  lemma {:induction false} UpsertChangesIff(w: Writer, v: Verdict, ps: seq<ParentStatus>, ref: ParentRef)
    ensures var mine := Filter(ps, ForKey(w, RefKey(ref, w.ns)));
            Upsert(w, v, ps, ref) == ps <==> mine != [] && CarriesVerdict(v, mine[0])
  {
    var p := ForKey(w, RefKey(ref, w.ns));
    if ps != [] {
      assert ps == [ps[0]] + ps[1..];
      FilterHead(ps[0], ps[1..], p);
      if MineFor(w, ps[0], RefKey(ref, w.ns)) {
        UpdateIsExact(w, v, ps[0]);
        assert Upsert(w, v, ps, ref)[0] == Updated(w, v, ps[0]);
      } else {
        UpsertChangesIff(w, v, ps[1..], ref);
        assert Upsert(w, v, ps, ref)[1..] == Upsert(w, v, ps[1..], ref);
      }
    }
  }

  // ---------- all entries ----------

  function FirstFor(w: Writer, refs: seq<ParentRef>, k: string): Option<ParentRef> {
    if refs == [] then None
    else
      var front := FirstFor(w, refs[..|refs| - 1], k);
      if front.Some? then front
      else if RefKey(refs[|refs| - 1], w.ns) == k then Some(refs[|refs| - 1]) else None
  }

  lemma {:induction false} FirstForWanted(w: Writer, refs: seq<ParentRef>, k: string)
    ensures FirstFor(w, refs, k).Some? <==> k in WantedKeys(w, refs)
  {
    if refs != [] {
      FirstForWanted(w, refs[..|refs| - 1], k);
      assert refs == refs[..|refs| - 1] + [refs[|refs| - 1]];
    }
  }

  lemma TargetSettles(w: Writer, v: Verdict, mine: seq<ParentStatus>, a: ParentRef, b: ParentRef)
    ensures Target(w, v, Target(w, v, mine, a), b) == Target(w, v, mine, a)
    ensures CarriesVerdict(v, Target(w, v, mine, a)[0])
  {
    var e := if mine == [] then ParentStatus(a, w.controller, []) else mine[0];
    UpdateIsExact(w, v, e);
    UpdateIsExact(w, v, Updated(w, v, e));
  }

  /** After all upserts, per key: one update of our first entry, or a new entry for the
      first reference with that key. */
  lemma {:induction false} UpsertAllPerKey(w: Writer, v: Verdict, ps: seq<ParentStatus>,
                                           refs: seq<ParentRef>, k: string)
    ensures Filter(UpsertAll(w, v, ps, refs), ForKey(w, k))
         == match FirstFor(w, refs, k)
            case None => Filter(ps, ForKey(w, k))
            case Some(ref) => Target(w, v, Filter(ps, ForKey(w, k)), ref)
  {
    if refs != [] {
      var front, last := refs[..|refs| - 1], refs[|refs| - 1];
      UpsertAllPerKey(w, v, ps, front, k);
      UpsertTouchesOneKey(w, v, UpsertAll(w, v, ps, front), last, k);
      if FirstFor(w, front, k).Some? {
        TargetSettles(w, v, Filter(ps, ForKey(w, k)), FirstFor(w, front, k).value, last);
      }
    }
  }

  lemma {:induction false} UpsertAllLeavesForeign(w: Writer, v: Verdict, ps: seq<ParentStatus>, refs: seq<ParentRef>)
    ensures Filter(UpsertAll(w, v, ps, refs), Foreign(w)) == Filter(ps, Foreign(w))
  {
    if refs != [] {
      UpsertAllLeavesForeign(w, v, ps, refs[..|refs| - 1]);
      UpsertLeavesForeign(w, v, UpsertAll(w, v, ps, refs[..|refs| - 1]), refs[|refs| - 1]);
    }
  }

  /** The upserts would change our entries for this key. */
  ghost predicate KeyMoves(w: Writer, v: Verdict, ps: seq<ParentStatus>, k: string) {
    var mine := Filter(ps, ForKey(w, k));
    mine == [] || !CarriesVerdict(v, mine[0])
  }

  /** One upsert reports a change exactly for a key not served before that moves. */
  lemma ReportedStep(w: Writer, v: Verdict, ps: seq<ParentStatus>, front: seq<ParentRef>, last: ParentRef)
    ensures var before := UpsertAll(w, v, ps, front);
            Upsert(w, v, before, last) != before
            <==> RefKey(last, w.ns) !in WantedKeys(w, front) && KeyMoves(w, v, ps, RefKey(last, w.ns))
  {
    var k := RefKey(last, w.ns);
    UpsertAllPerKey(w, v, ps, front, k);
    UpsertChangesIff(w, v, UpsertAll(w, v, ps, front), last);
    FirstForWanted(w, front, k);
    if FirstFor(w, front, k).Some? {
      TargetSettles(w, v, Filter(ps, ForKey(w, k)), FirstFor(w, front, k).value, last);
    }
  }

  lemma {:induction false} ReportedIff(w: Writer, v: Verdict, ps: seq<ParentStatus>, refs: seq<ParentRef>)
    ensures Reported(w, v, ps, refs) <==> exists k :: k in WantedKeys(w, refs) && KeyMoves(w, v, ps, k)
    ensures !Reported(w, v, ps, refs) ==> UpsertAll(w, v, ps, refs) == ps
  {
    hide RefKey;
    if refs != [] {
      var front, last := refs[..|refs| - 1], refs[|refs| - 1];
      ReportedIff(w, v, ps, front);
      ReportedStep(w, v, ps, front, last);
      assert refs == front + [last];
      assert WantedKeys(w, refs) == WantedKeys(w, front) + {RefKey(last, w.ns)};
    }
  }

  // ---------- order ----------

  lemma ParentChain(ns: string, a: ParentStatus, b: ParentStatus, c: ParentStatus)
    ensures CompareParents(ns, a, b) == -CompareParents(ns, b, a)
    ensures CompareParents(ns, a, b) == 0 <==> SamePlace(ns, a, b)
    ensures CompareParents(ns, a, b) <= 0 && CompareParents(ns, b, c) <= 0 ==> CompareParents(ns, a, c) <= 0
  {
    var x, y, z := a.controller, b.controller, c.controller;
    var p, q, r := RefKey(a.ref, ns), RefKey(b.ref, ns), RefKey(c.ref, ns);
    CompareAntisymmetric(x, y);
    CompareAntisymmetric(y, z);
    CompareAntisymmetric(x, z);
    CompareAntisymmetric(p, q);
    CompareAntisymmetric(q, r);
    CompareAntisymmetric(p, r);
    if Compare(x, y) <= 0 && Compare(y, z) <= 0 { CompareTransitive(x, y, z); }
    if Compare(p, q) <= 0 && Compare(q, r) <= 0 { CompareTransitive(p, q, r); }
  }

  lemma ParentOrderIsTotal(ns: string)
    ensures TotalPreorder(ParentOrder(ns))
  {
    var le := ParentOrder(ns);
    forall a, b ensures le(a, b) || le(b, a) { ParentChain(ns, a, b, a); }
    forall a, b, c | le(a, b) && le(b, c) ensures le(a, c) { ParentChain(ns, a, b, c); }
  }

  /** Sorting does not reorder our entries of one key. */
  lemma SettledPerKey(w: Writer, v: Verdict, ps: seq<ParentStatus>, k: string)
    ensures Filter(Settled(w, v, ps), ForKey(w, k))
         == match FirstFor(w, v.parentRefs, k)
            case None => []
            case Some(ref) => Target(w, v, Filter(ps, ForKey(w, k)), ref)
  {
    var kept := KeepWanted(w, v, ps);
    forall a, b | ForKey(w, k)(a) && ForKey(w, k)(b) ensures ParentOrder(w.ns)(a, b) {
      ParentChain(w.ns, a, b, a);
    }
    SortStable(UpsertAll(w, v, kept, v.parentRefs), ParentOrder(w.ns), ForKey(w, k));
    UpsertAllPerKey(w, v, kept, v.parentRefs, k);
    FirstForWanted(w, v.parentRefs, k);
    KeepPerKey(w, WantedKeys(w, v.parentRefs), ps, k);
  }

  lemma {:induction false} KeepPerKey(w: Writer, wanted: set<string>, ps: seq<ParentStatus>, k: string)
    ensures Filter(Filter(ps, KeptBy(w, wanted)), ForKey(w, k)) == if k in wanted then Filter(ps, ForKey(w, k)) else []
  {
    if ps != [] {
      var front, last := ps[..|ps| - 1], ps[|ps| - 1];
      KeepPerKey(w, wanted, front, k);
      if Kept(w, wanted, last) {
        var kept := Filter(front, KeptBy(w, wanted));
        assert (kept + [last])[..|kept|] == kept;
      } else {
        assert Filter(ps, KeptBy(w, wanted)) == Filter(front, KeptBy(w, wanted));
      }
    }
  }

  lemma {:induction false} KeepLeavesForeign(w: Writer, wanted: set<string>, ps: seq<ParentStatus>)
    ensures Filter(Filter(ps, KeptBy(w, wanted)), Foreign(w)) == Filter(ps, Foreign(w))
  {
    if ps != [] {
      var front, last := ps[..|ps| - 1], ps[|ps| - 1];
      KeepLeavesForeign(w, wanted, front);
      if Kept(w, wanted, last) {
        var kept := Filter(front, KeptBy(w, wanted));
        assert (kept + [last])[..|kept|] == kept;
      } else {
        assert Filter(ps, KeptBy(w, wanted)) == Filter(front, KeptBy(w, wanted));
      }
    }
  }

  lemma {:induction false} NothingDropped(ps: seq<ParentStatus>, p: ParentStatus -> bool)
    ensures Filter(ps, p) == ps <==> forall e :: e in ps ==> p(e)
  {
    if ps != [] {
      var front, last := ps[..|ps| - 1], ps[|ps| - 1];
      NothingDropped(front, p);
      FilterShorter(front, p);
      assert ps == front + [last];
      if Filter(ps, p) == ps { assert |Filter(front, p)| == |front|; PrefixKept(front, last, p); }
    }
  }

  lemma PrefixKept(front: seq<ParentStatus>, last: ParentStatus, p: ParentStatus -> bool)
    requires Filter(front, p) + (if p(last) then [last] else []) == front + [last]
    ensures p(last) && Filter(front, p) == front
  {
    FilterShorter(front, p);
    assert |Filter(front, p)| == |front|;
    assert (front + [last])[..|front|] == front;
    assert (Filter(front, p) + [last])[..|front|] == Filter(front, p);
  }

  // ---------- the guarantees ----------

  /** Dropping an entry shows: our list for its key was non-empty and becomes empty. */
  lemma DropShows(w: Writer, v: Verdict, ps: seq<ParentStatus>)
    requires KeepWanted(w, v, ps) != ps
    ensures Settled(w, v, ps) != ps
  {
    var wanted := WantedKeys(w, v.parentRefs);
    NothingDropped(ps, KeptBy(w, wanted));
    var e :| e in ps && !Kept(w, wanted, e);
    var k := RefKey(e.ref, w.ns);
    SettledPerKey(w, v, ps, k);
    FirstForWanted(w, v.parentRefs, k);
    FilterMembers(ps, ForKey(w, k));
    assert e in Filter(ps, ForKey(w, k));
  }

  /** A reported upsert shows: our first entry for its key is new or different. */
  lemma ReportShows(w: Writer, v: Verdict, ps: seq<ParentStatus>)
    requires KeepWanted(w, v, ps) == ps && Reported(w, v, ps, v.parentRefs)
    ensures Settled(w, v, ps) != ps
  {
    ReportedIff(w, v, ps, v.parentRefs);
    var k :| k in WantedKeys(w, v.parentRefs) && KeyMoves(w, v, ps, k);
    SettledPerKey(w, v, ps, k);
    FirstForWanted(w, v.parentRefs, k);
    TargetSettles(w, v, Filter(ps, ForKey(w, k)), FirstFor(w, v.parentRefs, k).value,
      FirstFor(w, v.parentRefs, k).value);
  }

  /** With nothing dropped and nothing reported, only the order can differ. */
  lemma OrderShows(w: Writer, v: Verdict, ps: seq<ParentStatus>)
    requires KeepWanted(w, v, ps) == ps && !Reported(w, v, ps, v.parentRefs)
    ensures Settled(w, v, ps) == ps <==> SameOrder(w.ns, ps, Settled(w, v, ps))
  {
    ReportedIff(w, v, ps, v.parentRefs);
    var le, sorted := ParentOrder(w.ns), StableSort(ps, ParentOrder(w.ns));
    assert Settled(w, v, ps) == sorted;
    if SameOrder(w.ns, ps, sorted) {
      ParentOrderIsTotal(w.ns);
      SortSorts(ps, le);
      assert Sorted(ps, le) by {
        forall i, j | 0 <= i < j < |ps| ensures le(ps[i], ps[j]) { assert le(sorted[i], sorted[j]); }
      }
      SortOfSorted(ps, le);
    }
  }

  /** The reported flag is true exactly when the list is different afterwards. */
  lemma ChangeIsExact(w: Writer, v: Verdict, ps: seq<ParentStatus>)
    ensures (KeepWanted(w, v, ps) != ps || Reported(w, v, KeepWanted(w, v, ps), v.parentRefs)
             || !SameOrder(w.ns, ps, Settled(w, v, ps)))
            <==> Settled(w, v, ps) != ps
  {
    if KeepWanted(w, v, ps) != ps {
      DropShows(w, v, ps);
    } else if Reported(w, v, ps, v.parentRefs) {
      ReportShows(w, v, ps);
    } else {
      OrderShows(w, v, ps);
    }
  }

  /** Entries of other controllers survive with unchanged content. */
  lemma ForeignEntriesSurvive(w: Writer, v: Verdict, ps: seq<ParentStatus>)
    ensures multiset(Filter(Settled(w, v, ps), Foreign(w))) == multiset(Filter(ps, Foreign(w)))
  {
    var kept := KeepWanted(w, v, ps);
    var mid := UpsertAll(w, v, kept, v.parentRefs);
    KeepLeavesForeign(w, WantedKeys(w, v.parentRefs), ps);
    UpsertAllLeavesForeign(w, v, kept, v.parentRefs);
    SortPermutes(mid, ParentOrder(w.ns));
    FilterCounts(mid, Foreign(w));
    FilterCounts(Settled(w, v, ps), Foreign(w));
  }

  /** Ours cover exactly the parents the verdict names, and the entry in force for each
      carries the verdict. */
  lemma OursCoverTheWanted(w: Writer, v: Verdict, ps: seq<ParentStatus>, k: string)
    ensures var mine := Filter(Settled(w, v, ps), ForKey(w, k));
            (k in WantedKeys(w, v.parentRefs) <==> mine != []) && (mine != [] ==> CarriesVerdict(v, mine[0]))
  {
    SettledPerKey(w, v, ps, k);
    FirstForWanted(w, v.parentRefs, k);
    if k in WantedKeys(w, v.parentRefs) {
      var ref := FirstFor(w, v.parentRefs, k).value;
      TargetSettles(w, v, Filter(ps, ForKey(w, k)), ref, ref);
    }
  }

  /** All our entries for a wanted key carry the verdict exactly when every surplus
      entry of ours for that key carried it before. */
  lemma EveryEntryCarriesIff(w: Writer, v: Verdict, ps: seq<ParentStatus>, k: string)
    requires k in WantedKeys(w, v.parentRefs)
    ensures var prior := Filter(ps, ForKey(w, k));
            (forall e :: e in Filter(Settled(w, v, ps), ForKey(w, k)) ==> CarriesVerdict(v, e))
            <==> (|prior| <= 1 || forall e :: e in prior[1..] ==> CarriesVerdict(v, e))
  {
    OursCoverTheWanted(w, v, ps, k);
    SettledPerKey(w, v, ps, k);
    FirstForWanted(w, v.parentRefs, k);
    var prior, after := Filter(ps, ForKey(w, k)), Filter(Settled(w, v, ps), ForKey(w, k));
    if |prior| > 1 {
      assert after == [after[0]] + prior[1..];
    } else {
      assert after == [after[0]];
    }
  }

  /** A second write of the same verdict, at any later time, changes nothing. */
  lemma SecondWriteIsSilent(w: Writer, v: Verdict, ps: seq<ParentStatus>, later: int)
    ensures Settled(w.(now := later), v, Settled(w, v, ps)) == Settled(w, v, ps)
  {
    var w2, fin := w.(now := later), Settled(w, v, ps);
    var wanted := WantedKeys(w, v.parentRefs);
    assert WantedKeys(w2, v.parentRefs) == wanted;
    forall e | e in fin ensures KeptBy(w2, wanted)(e) {
      if Mine(w, e) {
        var k := RefKey(e.ref, w.ns);
        FilterMembers(fin, ForKey(w, k));
        assert e in Filter(fin, ForKey(w, k));
        OursCoverTheWanted(w, v, ps, k);
      }
    }
    NothingDropped(fin, KeptBy(w2, wanted));
    assert KeepWanted(w2, v, fin) == fin;
    forall k | k in wanted ensures !KeyMoves(w2, v, fin, k) {
      OursCoverTheWanted(w, v, ps, k);
      SameFilter(fin, w, w2, k);
    }
    ReportedIff(w2, v, fin, v.parentRefs);
    ParentOrderIsTotal(w.ns);
    SortSorts(UpsertAll(w, v, KeepWanted(w, v, ps), v.parentRefs), ParentOrder(w.ns));
    SortOfSorted(fin, ParentOrder(w.ns));
  }

  lemma {:induction false} SameFilter(ps: seq<ParentStatus>, w: Writer, w2: Writer, k: string)
    requires w2.controller == w.controller && w2.ns == w.ns
    ensures Filter(ps, ForKey(w2, k)) == Filter(ps, ForKey(w, k))
  {
    if ps != [] { SameFilter(ps[..|ps| - 1], w, w2, k); }
  }
}
