/** prune and pruneSection of internal/controller/publisher.go: list one section, then
    delete what carries the prefix and is not desired. Other clients may act between
    the listing and each delete. */
module Prune {
  import opened Text
  import opened Types
  import opened Server
  import opened Paging
  import FakeServer = Fake

  /** What a pass cannot choose: which deletes fail, and what others do before each. */
  datatype Weather = Weather(deleteFails: int -> bool, others: nat -> seq<Op>)

  predicate Orphan(row: Row, desired: set<string>) { Ours(row.key) && row.key !in desired }

  /** The state, the keys the controller's own deletes removed, and whether one failed. */
  datatype PruneState = PruneState(s: ServerState, removed: set<string>, failed: bool)

  function PruneStep(p: PruneState, sec: Section, row: Row, desired: set<string>, dryRun: bool,
                     fails: bool, ops: seq<Op>): PruneState
  {
    var s := RunOps(p.s, ops);
    if !Orphan(row, desired) then p.(s := s)
    else if dryRun then p.(s := s)
    else if fails then PruneState(s, p.removed, true)
    else
      var (after, ok) := DeleteIn(s, sec, row.id);
      PruneState(after, if ok then p.removed + KeysWithId(IdsOf(s, sec), row.id) else p.removed, p.failed || !ok)
  }

  function PruneRows(s: ServerState, sec: Section, rows: seq<Row>, desired: set<string>, dryRun: bool,
                     e: Weather): PruneState {
    if rows == [] then PruneState(s, {}, false)
    else
      var n := |rows| - 1;
      PruneStep(PruneRows(s, sec, rows[..n], desired, dryRun, e), sec, rows[n], desired, dryRun,
                e.deleteFails(rows[n].id), e.others(n))
  }

  lemma PruneRowsStep(s: ServerState, sec: Section, rows: seq<Row>, i: nat, desired: set<string>,
                      dryRun: bool, e: Weather)
    requires i < |rows|
    ensures PruneRows(s, sec, rows[..i + 1], desired, dryRun, e)
         == PruneStep(PruneRows(s, sec, rows[..i], desired, dryRun, e), sec, rows[i], desired, dryRun,
                      e.deleteFails(rows[i].id), e.others(i))
  {
    assert rows[..i + 1][..i] == rows[..i];
  }

  /** The listing is answered; policies need a licence. */
  predicate Listable(s: ServerState, sec: Section, listFails: bool) {
    !listFails && (sec.PolicySection? ==> s.licensed)
  }

  /** The whole section: a failed listing prunes nothing. A dry run reads but deletes
      nothing. */
  ghost function PruneOutcome(s: ServerState, sec: Section, desired: set<string>, dryRun: bool,
                              listFails: bool, e: Weather)
    : PruneState
  {
    if !Listable(s, sec, listFails) then PruneState(s, {}, true)
    else PruneRows(s, sec, RowsOf(s, sec), desired, dryRun, e)
  }

  const PAGE_SIZE := 100

  /** Policies are listed by listPages, the other two by hand-written loops. */
  method ListSection(server: FakeServer.Fake, sec: Section, fails: bool) returns (r: Option<seq<Row>>)
    requires server.Valid()
    ensures r == if Listable(server.State(), sec, fails) then Some(RowsOf(server.State(), sec)) else None
  {
    var fetch;
    ghost var total;
    fetch, total := server.Listing(sec, PAGE_SIZE, fails);
    assert ConstantTotal(fetch, total);
    TruthfulListingIsComplete(RowsOf(server.State(), sec), PAGE_SIZE, sec.PolicySection?);
    r := ListPages(fetch, sec.PolicySection?, total);
  }

  /** One turn of the loop: others act, then an orphan is deleted. */
  method PruneRow(server: FakeServer.Fake, ghost p: PruneState, sec: Section, row: Row, desired: set<string>,
                  dryRun: bool, fails: bool, ops: seq<Op>)
    returns (failed: bool, ghost removed: set<string>)
    requires server.Valid() && server.State() == p.s
    modifies server
    ensures server.Valid()
    ensures PruneState(server.State(), removed, p.failed || failed)
        == PruneStep(p, sec, row, desired, dryRun, fails, ops)
  {
    removed := p.removed;
    server.Execute(ops);
    if !Ours(row.key) { return false, removed; }
    if row.key in desired { return false, removed; }
    if dryRun { return false, removed; }
    ghost var there := KeysWithId(IdsOf(server.State(), sec), row.id);
    var ok := server.DeleteById(sec, row.id, fails);
    if ok { removed := removed + there; }
    failed := !ok;
  }

  method PruneLoop(server: FakeServer.Fake, sec: Section, rows: seq<Row>, desired: set<string>,
                   dryRun: bool, e: Weather)
    returns (failed: bool, ghost removed: set<string>)
    requires server.Valid()
    modifies server
    ensures server.Valid()
    ensures PruneState(server.State(), removed, failed) == PruneRows(old(server.State()), sec, rows, desired, dryRun, e)
  {
    removed := {};
    failed := false;
    var i := 0;
    while i < |rows|
      invariant 0 <= i <= |rows| && server.Valid()
      invariant PruneState(server.State(), removed, failed)
             == PruneRows(old(server.State()), sec, rows[..i], desired, dryRun, e)
    {
      PruneRowsStep(old(server.State()), sec, rows, i, desired, dryRun, e);
      var one;
      one, removed := PruneRow(server, PruneState(server.State(), removed, failed), sec, rows[i], desired, dryRun,
                               e.deleteFails(rows[i].id), e.others(i));
      failed := failed || one;
      i := i + 1;
    }
    assert rows[..i] == rows;
  }

  /** pruneSection: one delete per orphan; a refused delete is counted and the loop goes
      on. */
  method PruneSection(server: FakeServer.Fake, sec: Section, desired: set<string>, dryRun: bool,
                      listFails: bool, e: Weather)
    returns (failed: bool, listed: bool, ghost removed: set<string>)
    requires server.Valid()
    modifies server
    ensures server.Valid()
    ensures listed <==> Listable(old(server.State()), sec, listFails)
    ensures PruneState(server.State(), removed, failed)
         == PruneOutcome(old(server.State()), sec, desired, dryRun, listFails, e)
  {
    removed := {};
    var live := ListSection(server, sec, listFails);
    if live.None? { return true, false, removed; }
    listed := true;
    failed, removed := PruneLoop(server, sec, live.value, desired, dryRun, e);
  }

  // ---------- safety under interleaving ----------

  ghost predicate AllReserved(s: ServerState, sec: Section, rows: seq<Row>) {
    forall i :: 0 <= i < |rows| ==> Reserved(s, sec, rows[i])
  }

  lemma DeleteKeepsReserved(s: ServerState, from: Section, id: int, sec: Section, row: Row)
    requires ValidState(s) && Reserved(s, sec, row)
    ensures Reserved(DeleteIn(s, from, id).0, sec, row)
  {
    RunOpKeepsReserved(s, Delete(from, id), sec, row);
  }

  lemma StepIsSafe(p: PruneState, sec: Section, row: Row, desired: set<string>, dryRun: bool, fails: bool,
                   ops: seq<Op>, kept: Row)
    requires ValidState(p.s) && Reserved(p.s, sec, row) && Reserved(p.s, sec, kept)
    ensures var q := PruneStep(p, sec, row, desired, dryRun, fails, ops);
      && ValidState(q.s) && Reserved(q.s, sec, kept)
      && forall k :: k in q.removed ==> k in p.removed || (k == row.key && Orphan(row, desired))
  {
    RunOpsKeep(p.s, ops, sec, row);
    RunOpsKeep(p.s, ops, sec, kept);
    var s := RunOps(p.s, ops);
    DeleteInValid(s, sec, row.id);
    DeleteKeepsReserved(s, sec, row.id, sec, kept);
  }

  lemma {:induction false} RowsAreSafe(s: ServerState, sec: Section, rows: seq<Row>, desired: set<string>,
                                       dryRun: bool, e: Weather, kept: seq<Row>)
    requires ValidState(s) && AllReserved(s, sec, rows) && AllReserved(s, sec, kept)
    ensures var p := PruneRows(s, sec, rows, desired, dryRun, e);
      && ValidState(p.s) && AllReserved(p.s, sec, kept)
      && forall k :: k in p.removed ==> Ours(k) && k !in desired
  {
    if rows != [] {
      var n := |rows| - 1;
      var both := kept + [rows[n]];
      assert AllReserved(s, sec, both);
      RowsAreSafe(s, sec, rows[..n], desired, dryRun, e, both);
      var p := PruneRows(s, sec, rows[..n], desired, dryRun, e);
      assert Reserved(p.s, sec, both[|kept|]);
      forall i | 0 <= i < |kept| ensures Reserved(PruneRows(s, sec, rows, desired, dryRun, e).s, sec, kept[i]) {
        assert Reserved(p.s, sec, both[i]);
        StepIsSafe(p, sec, rows[n], desired, dryRun, e.deleteFails(rows[n].id), e.others(n), kept[i]);
      }
      StepIsSafe(p, sec, rows[n], desired, dryRun, e.deleteFails(rows[n].id), e.others(n), rows[n]);
    }
  }

  /** Whatever others put or delete between the listing and the deletes, each delete
      removes nothing or an entry with the prefix that is not desired: an id never
      comes to mean another entry. */
  lemma PruneIsSafe(s: ServerState, sec: Section, desired: set<string>, dryRun: bool, listFails: bool, e: Weather)
    requires ValidState(s)
    ensures var p := PruneOutcome(s, sec, desired, dryRun, listFails, e);
            ValidState(p.s) && forall k :: k in p.removed ==> Ours(k) && k !in desired
  {
    ListingIsExact(s, sec);
    var rows := RowsOf(s, sec);
    forall i | 0 <= i < |rows| ensures Reserved(s, sec, rows[i]) {}
    RowsAreSafe(s, sec, rows, desired, dryRun, e, []);
  }

  // ---------- without interference ----------

  ghost predicate Quiet(e: Weather) { forall i :: e.others(i) == [] }

  /** The server itself refuses to delete this row. */
  ghost predicate Blocked(s: ServerState, sec: Section, k: string) {
    sec.PolicySection? && (!s.licensed || Named(s, k))
  }

  ghost predicate Goes(s: ServerState, sec: Section, row: Row, desired: set<string>, e: Weather) {
    Orphan(row, desired) && !e.deleteFails(row.id) && !Blocked(s, sec, row.key)
  }

  /** The table without some keys, with the deletes logged. */
  function DropRows<V>(t: Table<V>, drop: set<string>, log: seq<int>): Table<V> {
    Table(t.rows - drop, t.ids - drop, t.next, t.deleted + log)
  }

  function Without(s: ServerState, sec: Section, drop: set<string>, log: seq<int>): ServerState {
    match sec
    case PublicSection => s.(public := DropRows(s.public, drop, log))
    case PrivateSection => s.(private := DropRows(s.private, drop, log))
    case PolicySection => s.(policies := DropRows(s.policies, drop, log))
  }

  /** What a quiet prune of a row list removes, logs, and leaves stuck. */
  ghost function GoneKeys(s: ServerState, sec: Section, rows: seq<Row>, desired: set<string>, e: Weather): set<string> {
    if rows == [] then {}
    else
      var n := |rows| - 1;
      GoneKeys(s, sec, rows[..n], desired, e) + (if Goes(s, sec, rows[n], desired, e) then {rows[n].key} else {})
  }

  ghost function GoneIds(s: ServerState, sec: Section, rows: seq<Row>, desired: set<string>, e: Weather): seq<int> {
    if rows == [] then []
    else
      var n := |rows| - 1;
      GoneIds(s, sec, rows[..n], desired, e) + (if Goes(s, sec, rows[n], desired, e) then [rows[n].id] else [])
  }

  ghost predicate Stuck(s: ServerState, sec: Section, rows: seq<Row>, desired: set<string>, e: Weather) {
    exists i :: 0 <= i < |rows| && Orphan(rows[i], desired) && !Goes(s, sec, rows[i], desired, e)
  }

  lemma {:induction false} GoneKeysAre(s: ServerState, sec: Section, rows: seq<Row>, desired: set<string>,
                                       e: Weather, k: string)
    ensures k in GoneKeys(s, sec, rows, desired, e)
            <==> exists i :: 0 <= i < |rows| && rows[i].key == k && Goes(s, sec, rows[i], desired, e)
  {
    if rows != [] {
      var n := |rows| - 1;
      GoneKeysAre(s, sec, rows[..n], desired, e, k);
      assert forall i :: 0 <= i < n ==> rows[..n][i] == rows[i];
    }
  }

  lemma RemoveOne<V>(t: Table<V>, drop: set<string>, log: seq<int>, k: string)
    requires ValidTable(t) && k in t.ids && k !in drop
    ensures HasId(DropRows(t, drop, log), t.ids[k])
    ensures KeysWithId(DropRows(t, drop, log).ids, t.ids[k]) == {k}
    ensures RemoveId(DropRows(t, drop, log), t.ids[k]) == DropRows(t, drop + {k}, log + [t.ids[k]])
  {
    var d := DropRows(t, drop, log);
    assert k in d.ids && d.ids[k] == t.ids[k];
    assert KeysWithId(d.ids, t.ids[k]) == {k};
    assert t.rows - drop - {k} == t.rows - (drop + {k});
    assert t.ids - drop - {k} == t.ids - (drop + {k});
    assert t.deleted + log + [t.ids[k]] == t.deleted + (log + [t.ids[k]]);
  }

  lemma DeleteListed(s: ServerState, sec: Section, drop: set<string>, log: seq<int>, row: Row)
    requires ValidState(s) && row.key in IdsOf(s, sec) && IdsOf(s, sec)[row.key] == row.id && row.key !in drop
    ensures KeysWithId(IdsOf(Without(s, sec, drop, log), sec), row.id) == {row.key}
    ensures DeleteIn(Without(s, sec, drop, log), sec, row.id)
         == if Blocked(s, sec, row.key) then (Without(s, sec, drop, log), false)
            else (Without(s, sec, drop + {row.key}, log + [row.id]), true)
  {
    match sec
    case PublicSection => RemoveOne(s.public, drop, log, row.key);
    case PrivateSection => RemoveOne(s.private, drop, log, row.key);
    case PolicySection =>
      RemoveOne(s.policies, drop, log, row.key);
      PolicyDeleteMeans(Without(s, sec, drop, log), row.id);
      assert Named(Without(s, sec, drop, log), row.key) <==> Named(s, row.key);
  }

  ghost predicate ListedOnce(s: ServerState, sec: Section, rows: seq<Row>) {
    && (forall i :: 0 <= i < |rows| ==> rows[i].key in IdsOf(s, sec) && rows[i].id == IdsOf(s, sec)[rows[i].key])
    && (forall i, j :: 0 <= i < j < |rows| ==> rows[i].key != rows[j].key)
  }

  lemma WithoutNothing(s: ServerState, sec: Section)
    ensures Without(s, sec, {}, []) == s
  {
    assert s.public.rows - {} == s.public.rows && s.public.ids - {} == s.public.ids;
    assert s.private.rows - {} == s.private.rows && s.private.ids - {} == s.private.ids;
    assert s.policies.rows - {} == s.policies.rows && s.policies.ids - {} == s.policies.ids;
    assert s.public.deleted + [] == s.public.deleted && s.private.deleted + [] == s.private.deleted;
    assert s.policies.deleted + [] == s.policies.deleted;
  }

  lemma QuietStep(s: ServerState, sec: Section, drop: set<string>, log: seq<int>, failed: bool, row: Row,
                  desired: set<string>, e: Weather)
    requires ValidState(s) && row.key in IdsOf(s, sec) && IdsOf(s, sec)[row.key] == row.id && row.key !in drop
    ensures PruneStep(PruneState(Without(s, sec, drop, log), drop, failed), sec, row, desired, false,
        e.deleteFails(row.id), [])
         == if Goes(s, sec, row, desired, e)
            then PruneState(Without(s, sec, drop + {row.key}, log + [row.id]), drop + {row.key}, failed)
            else PruneState(Without(s, sec, drop, log), drop, failed || Orphan(row, desired))
  {
    DeleteListed(s, sec, drop, log, row);
  }

  lemma {:induction false} QuietRows(s: ServerState, sec: Section, rows: seq<Row>, desired: set<string>, e: Weather)
    requires ValidState(s) && ListedOnce(s, sec, rows) && Quiet(e)
    ensures PruneRows(s, sec, rows, desired, false, e)
         == PruneState(Without(s, sec, GoneKeys(s, sec, rows, desired, e), GoneIds(s, sec, rows, desired, e)),
                       GoneKeys(s, sec, rows, desired, e), Stuck(s, sec, rows, desired, e))
  {
    if rows == [] {
      WithoutNothing(s, sec);
    } else {
      var n := |rows| - 1;
      var front, row := rows[..n], rows[n];
      assert ListedOnce(s, sec, front);
      QuietRows(s, sec, front, desired, e);
      GoneKeysAre(s, sec, front, desired, e, row.key);
      StuckStep(s, sec, rows, desired, e);
      QuietStep(s, sec, GoneKeys(s, sec, front, desired, e), GoneIds(s, sec, front, desired, e),
                Stuck(s, sec, front, desired, e), row, desired, e);
      if !Goes(s, sec, row, desired, e) { NothingAdded(s, sec, rows, desired, e); }
    }
  }

  lemma NothingAdded(s: ServerState, sec: Section, rows: seq<Row>, desired: set<string>, e: Weather)
    requires rows != [] && !Goes(s, sec, rows[|rows| - 1], desired, e)
    ensures var n := |rows| - 1;
      && GoneKeys(s, sec, rows, desired, e) == GoneKeys(s, sec, rows[..n], desired, e)
      && GoneIds(s, sec, rows, desired, e) == GoneIds(s, sec, rows[..n], desired, e)
  {}

  lemma StuckStep(s: ServerState, sec: Section, rows: seq<Row>, desired: set<string>, e: Weather)
    requires rows != []
    ensures var n := |rows| - 1;
      Stuck(s, sec, rows, desired, e)
      <==> Stuck(s, sec, rows[..n], desired, e) || (Orphan(rows[n], desired) && !Goes(s, sec, rows[n], desired, e))
  {
    var n := |rows| - 1;
    assert forall i :: 0 <= i < n ==> rows[..n][i] == rows[i];
  }

  /** The keys of a table a quiet prune removes. */
  ghost function Doomed(s: ServerState, sec: Section, desired: set<string>, e: Weather): set<string> {
    set k | k in IdsOf(s, sec) && Goes(s, sec, Row(k, IdsOf(s, sec)[k]), desired, e)
  }

  /** Left alone, a listed section loses exactly its orphans, except those whose delete
      fails or, for a policy, that a resource still names. */
  lemma QuietPruneIsExact(s: ServerState, sec: Section, desired: set<string>, e: Weather)
    requires ValidState(s) && Quiet(e) && (sec.PolicySection? ==> s.licensed)
    ensures var p := PruneOutcome(s, sec, desired, false, false, e);
      && p.removed == Doomed(s, sec, desired, e)
      && p.s == Without(s, sec, Doomed(s, sec, desired, e), GoneIds(s, sec, RowsOf(s, sec), desired, e))
      && (p.failed <==> exists k :: k in IdsOf(s, sec) && Orphan(Row(k, IdsOf(s, sec)[k]), desired)
                                  && k !in Doomed(s, sec, desired, e))
  {
    ListingIsExact(s, sec);
    QuietRows(s, sec, RowsOf(s, sec), desired, e);
    GoneAreDoomed(s, sec, desired, e);
    StuckMeans(s, sec, desired, e);
  }

  lemma GoneAreDoomed(s: ServerState, sec: Section, desired: set<string>, e: Weather)
    ensures GoneKeys(s, sec, RowsOf(s, sec), desired, e) == Doomed(s, sec, desired, e)
  {
    ListingIsExact(s, sec);
    var rows, ids := RowsOf(s, sec), IdsOf(s, sec);
    forall k ensures k in GoneKeys(s, sec, rows, desired, e) <==> k in Doomed(s, sec, desired, e) {
      GoneKeysAre(s, sec, rows, desired, e, k);
      if k in Doomed(s, sec, desired, e) {
        assert Row(k, ids[k]) in rows;
        var i :| 0 <= i < |rows| && rows[i] == Row(k, ids[k]);
      }
      if k in GoneKeys(s, sec, rows, desired, e) {
        var i :| 0 <= i < |rows| && rows[i].key == k && Goes(s, sec, rows[i], desired, e);
        assert rows[i] == Row(k, ids[k]);
      }
    }
  }

  lemma StuckMeans(s: ServerState, sec: Section, desired: set<string>, e: Weather)
    ensures Stuck(s, sec, RowsOf(s, sec), desired, e)
            <==> exists k :: k in IdsOf(s, sec) && Orphan(Row(k, IdsOf(s, sec)[k]), desired)
                             && k !in Doomed(s, sec, desired, e)
  {
    ListingIsExact(s, sec);
    var rows, ids := RowsOf(s, sec), IdsOf(s, sec);
    if Stuck(s, sec, rows, desired, e) {
      var i :| 0 <= i < |rows| && Orphan(rows[i], desired) && !Goes(s, sec, rows[i], desired, e);
      assert rows[i] == Row(rows[i].key, ids[rows[i].key]);
    }
    forall k | k in ids && Orphan(Row(k, ids[k]), desired) && k !in Doomed(s, sec, desired, e)
      ensures Stuck(s, sec, rows, desired, e)
    {
      assert Row(k, ids[k]) in rows;
    }
  }
}
