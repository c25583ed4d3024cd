/** Whole runs: passes with any failures, other clients' requests and cluster edits, in
    any order and number. */
module Runs {
  import opened Types
  import opened Render
  import opened Server
  import opened Prune
  import opened Pass
  import opened Safety
  import opened ClusterObjects
  import SecondPass

  datatype Step =
    | Passed(cfg: Config, f: Faults, mid: ServerState, ok: bool, writes: Attempts)
    | Others(ops: seq<Op>)
    | Edited(c: ClusterState)

  ghost predicate Move(w: World, a: Place, step: Step, b: Place) {
    match step
    case Passed(cfg, f, mid, ok, writes) => PassResult(w, cfg, f, a.c, a.s, mid, PassEnd(b.c, b.s, ok, writes))
    case Others(ops) => b == Place(a.c, RunOps(a.s, ops))
    case Edited(c) => b == Place(c, a.s) && DistinctCluster(c.objects)
  }

  /** A place to start from, and steps taken since. */
  datatype Run = Start(place: Place) | Then(before: Run, step: Step, place: Place)

  function First(run: Run): Place { match run case Start(p) => p case Then(before, _, _) => First(before) }

  ghost predicate IsRun(w: World, run: Run) {
    hide *;
    match run
    case Start(p) => ValidState(p.s) && DistinctCluster(p.c.objects)
    case Then(before, step, p) => IsRun(w, before) && Move(w, before.place, step, p)
  }

  lemma MoveKeepsState(w: World, a: Place, step: Step, b: Place)
    requires ValidState(a.s) && DistinctCluster(a.c.objects) && Move(w, a, step, b)
    ensures ValidState(b.s) && DistinctCluster(b.c.objects)
  {
    hide PassResult, Preparation, RenderedOf, AfterApply, Finished, ValidState, DistinctCluster, RunOps;
    match step
    case Passed(cfg, f, mid, ok, writes) => PassKeepsState(w, cfg, f, a.c, a.s, mid, PassEnd(b.c, b.s, ok, writes));
    case Others(ops) => RunOpsKeep(a.s, ops, PublicSection, Row("", 0));
    case Edited(_) =>
  }

  /** The server's invariants hold wherever a run leads: in each section ids are unique,
      below the counter and never those of a deleted row. */
  lemma {:induction false} RunKeepsState(w: World, run: Run)
    requires IsRun(w, run)
    ensures ValidState(run.place.s) && DistinctCluster(run.place.c.objects)
  {
    hide Move, ValidState, DistinctCluster;
    match run
    case Start(_) =>
    case Then(before, step, p) =>
      RunKeepsState(w, before);
      MoveKeepsState(w, before.place, step, p);
  }

  // ---------- entries of others ----------

  /** No other client touches key k, between passes or during one. */
  ghost predicate OthersSpare(step: Step, sec: Section, k: string, live: Live) {
    match step
    case Passed(_, f, _, _, _) => Undisturbed(f, sec, k, live)
    case Others(ops) => SparesAll(ops, sec, k, live)
    case Edited(_) => true
  }

  lemma MoveKeepsForeign(w: World, a: Place, step: Step, b: Place, sec: Section, k: string)
    requires ValidState(a.s) && DistinctCluster(a.c.objects) && Move(w, a, step, b)
    requires !Ours(k) && OthersSpare(step, sec, k, LiveAt(a.s, sec, k))
    ensures LiveAt(b.s, sec, k) == LiveAt(a.s, sec, k)
  {
    hide PassResult, Preparation, RenderedOf, AfterApply, Finished, ValidState, DistinctCluster, RunOps, LiveAt;
    match step
    case Passed(cfg, f, mid, ok, writes) =>
      PassKeepsForeign(w, cfg, f, a.c, a.s, mid, PassEnd(b.c, b.s, ok, writes), sec, k);
    case Others(ops) => OpsSpare(a.s, ops, sec, k);
    case Edited(_) =>
  }

  ghost predicate AllSpare(run: Run, sec: Section, k: string, live: Live) {
    match run
    case Start(_) => true
    case Then(before, step, _) => AllSpare(before, sec, k, live) && OthersSpare(step, sec, k, live)
  }

  /** Over every run, whatever is edited in the cluster and whatever call fails, an entry
      without the prefix that no other client touches keeps its content and its id, and
      one that is not there is never created. */
  lemma {:induction false} RunKeepsForeign(w: World, run: Run, sec: Section, k: string)
    requires IsRun(w, run) && !Ours(k) && AllSpare(run, sec, k, LiveAt(First(run).s, sec, k))
    ensures LiveAt(run.place.s, sec, k) == LiveAt(First(run).s, sec, k)
  {
    hide Move, ValidState, DistinctCluster, OthersSpare, LiveAt;
    match run
    case Start(_) =>
    case Then(before, step, p) =>
      RunKeepsForeign(w, before, sec, k);
      RunKeepsState(w, before);
      MoveKeepsForeign(w, before.place, step, p, sec, k);
  }

  // ---------- ids ----------

  lemma MergedKeepsReserved<V>(t: Table<V>, doc: map<string, V>, t': Table<V>, row: Row)
    requires Merged(t, doc, t') && row.id < t.next
    requires forall k :: k in t.ids && t.ids[k] == row.id ==> k == row.key
    ensures row.id < t'.next
    ensures forall k :: k in t'.ids && t'.ids[k] == row.id ==> k == row.key
  {}

  lemma ApplyKeepsReserved(w: World, s: ServerState, b: Blueprint, s': ServerState, sec: Section, row: Row)
    requires Applied(w, s, b, s') && Reserved(s, sec, row)
    ensures Reserved(s', sec, row)
  {
    hide StoredCAs, CAsPass, Merged;
    match sec
    case PublicSection =>
      assert IdsOf(s, sec) == s.public.ids;
      MergedKeepsReserved(s.public, b.public, s'.public, row);
    case PrivateSection =>
      assert IdsOf(s, sec) == s.private.ids;
      MergedKeepsReserved(s.private, b.private, s'.private, row);
    case PolicySection =>
      assert IdsOf(s, sec) == s.policies.ids;
      MergedKeepsReserved(s.policies, b.policies, s'.policies, row);
  }

  lemma {:induction false} RowsKeepReserved(s: ServerState, sec': Section, rows: seq<Row>, desired: set<string>,
                                            dryRun: bool, e: Weather, sec: Section, row: Row)
    requires ValidState(s) && Reserved(s, sec, row)
    ensures var s' := PruneRows(s, sec', rows, desired, dryRun, e).s; ValidState(s') && Reserved(s', sec, row)
  {
    hide ValidState, Reserved, RunOps, DeleteIn;
    if rows != [] {
      var n := |rows| - 1;
      RowsKeepReserved(s, sec', rows[..n], desired, dryRun, e, sec, row);
      var p := PruneRows(s, sec', rows[..n], desired, dryRun, e);
      RunOpsKeep(p.s, e.others(n), sec, row);
      var s1 := RunOps(p.s, e.others(n));
      DeleteInValid(s1, sec', rows[n].id);
      DeleteKeepsReserved(s1, sec', rows[n].id, sec, row);
    }
  }

  lemma SectionKeepsReserved(s: ServerState, sec': Section, desired: set<string>, dryRun: bool, listFails: bool,
                             e: Weather, sec: Section, row: Row)
    requires ValidState(s) && Reserved(s, sec, row)
    ensures var s' := PruneOutcome(s, sec', desired, dryRun, listFails, e).s; ValidState(s') && Reserved(s', sec, row)
  {
    hide ValidState, Reserved, PruneRows, RowsOf;
    RowsKeepReserved(s, sec', RowsOf(s, sec'), desired, dryRun, e, sec, row);
  }

  lemma PruneKeepsReserved(cfg: Config, f: Faults, s: ServerState, b: Blueprint, sec: Section, row: Row)
    requires ValidState(s) && Reserved(s, sec, row)
    ensures Reserved(PruneAll(cfg, f, s, b).policies.s, sec, row)
  {
    hide ValidState, Reserved, PruneOutcome;
    SectionKeepsReserved(s, PublicSection, b.public.Keys, cfg.dryRun, f.lists(PublicSection),
      f.weather(PublicSection), sec, row);
    var p := Pruning(cfg, f, s, b, PublicSection);
    SectionKeepsReserved(p.s, PrivateSection, b.private.Keys, cfg.dryRun, f.lists(PrivateSection),
                         f.weather(PrivateSection), sec, row);
    var q := Pruning(cfg, f, p.s, b, PrivateSection);
    SectionKeepsReserved(q.s, PolicySection, b.policies.Keys, cfg.dryRun, f.lists(PolicySection),
                         f.weather(PolicySection), sec, row);
  }

  lemma SideKeepsReserved(w: World, cfg: Config, f: Faults, s: ServerState, b: Blueprint, mid: ServerState,
                          s': ServerState, sec: Section, row: Row)
    requires ValidState(s) && ServerSide(w, cfg, f, s, b, mid, s') && Reserved(s, sec, row)
    ensures Reserved(s', sec, row)
  {
    hide ValidState, Reserved, PruneAll, Acceptable, Applied;
    SideValid(w, cfg, f, s, b, mid, s');
    if !cfg.dryRun && Accepts(w, cfg, f, s, b) { ApplyKeepsReserved(w, s, b, mid, sec, row); }
    PruneKeepsReserved(cfg, f, mid, b, sec, row);
  }

  lemma MoveKeepsReserved(w: World, a: Place, step: Step, b: Place, sec: Section, row: Row)
    requires ValidState(a.s) && Move(w, a, step, b) && Reserved(a.s, sec, row)
    ensures Reserved(b.s, sec, row)
  {
    hide PassResult, Preparation, RenderedOf, AfterApply, Finished, ServerSide, ValidState, DistinctCluster, RunOps,
         Reserved;
    match step
    case Passed(cfg, f, mid, ok, writes) =>
      var o := PassEnd(b.c, b.s, ok, writes);
      PassEnds(w, cfg, f, a.c, a.s, mid, o);
      if Preparation(w, cfg, a.c, a.s, f).Ready? {
        ServerSideOfPass(w, cfg, f, a.c, a.s, mid, o);
        SideKeepsReserved(w, cfg, f, a.s, BlueprintOf(w, cfg, f, a), mid, b.s, sec, row);
      }
    case Others(ops) => RunOpsKeep(a.s, ops, sec, row);
    case Edited(_) =>
  }

  /** An id handed out for a key never comes to mean another key, over every run: neither
      an apply nor a prune nor any other client gives it away, even after a delete. */
  lemma {:induction false} RunKeepsReserved(w: World, run: Run, sec: Section, row: Row)
    requires IsRun(w, run) && Reserved(First(run).s, sec, row)
    ensures Reserved(run.place.s, sec, row)
  {
    hide Move, Reserved, ValidState, DistinctCluster;
    match run
    case Start(_) =>
    case Then(before, step, p) =>
      RunKeepsReserved(w, before, sec, row);
      RunKeepsState(w, before);
      MoveKeepsReserved(w, before.place, step, p, sec, row);
  }

  // ---------- what one pass of a run may do ----------

  /** The blueprint of a pass that gets as far as rendering one. */
  ghost function BlueprintOf(w: World, cfg: Config, f: Faults, a: Place): Blueprint {
    RenderedOf(w, InputOf(w, cfg, a.c, a.s, f)).blueprint
  }

  /** All deletes of the three prunes removed only orphans. */
  ghost predicate RemovedOrphans(p: Pruned, b: Blueprint) {
    && (forall k :: k in p.public.removed ==> Ours(k) && k !in b.public)
    && (forall k :: k in p.private.removed ==> Ours(k) && k !in b.private)
    && (forall k :: k in p.policies.removed ==> Ours(k) && k !in b.policies)
  }

  lemma SideIsSafe(w: World, cfg: Config, f: Faults, s: ServerState, b: Blueprint, mid: ServerState, s': ServerState)
    requires ValidState(s) && ServerSide(w, cfg, f, s, b, mid, s')
    ensures RemovedOrphans(PruneAll(cfg, f, mid, b), b)
    ensures !Accepts(w, cfg, f, s, b) ==> s' == s
    ensures cfg.dryRun && SecondPass.Alone(f) ==> s' == s
  {
    hide Acceptable, Applied, PruneAll, ValidState;
    SideValid(w, cfg, f, s, b, mid, s');
    PruneRemovesOrphans(cfg, f, mid, b);
    if cfg.dryRun && SecondPass.Alone(f) { SecondPass.RehearsedPrune(cfg, f, s, b); }
  }

  /** A pass after any run: an aborted or refused one leaves the server as it was, and so
      does a dry run left alone; otherwise its deletes remove only prefixed entries that
      its blueprint does not hold. */
  lemma PassOfRunIsSafe(w: World, run: Run, cfg: Config, f: Faults, mid: ServerState, o: PassEnd)
    requires IsRun(w, run) && PassResult(w, cfg, f, run.place.c, run.place.s, mid, o)
    ensures Preparation(w, cfg, run.place.c, run.place.s, f).Aborted? ==> o.s == run.place.s && !o.ok
    ensures Preparation(w, cfg, run.place.c, run.place.s, f).Ready? ==>
      var b := BlueprintOf(w, cfg, f, run.place);
      && (!Accepts(w, cfg, f, run.place.s, b) ==> o.s == run.place.s && !o.ok)
      && (cfg.dryRun && SecondPass.Alone(f) ==> o.s == run.place.s)
      && RemovedOrphans(PruneAll(cfg, f, mid, b), b)
  {
    hide IsRun, PassResult, ValidState, DistinctCluster, Preparation, RenderedOf, Accepts, PruneAll, RemovedOrphans,
         ServerSide, InputOf, AfterApply, StatusWrites;
    var a := run.place;
    RunKeepsState(w, run);
    PassEnds(w, cfg, f, a.c, a.s, mid, o);
    if Preparation(w, cfg, a.c, a.s, f).Ready? {
      ServerSideOfPass(w, cfg, f, a.c, a.s, mid, o);
      SideIsSafe(w, cfg, f, a.s, BlueprintOf(w, cfg, f, a), mid, o.s);
    }
  }
}
