/** What a pass may touch on the server, whatever fails and whatever other clients do
    in between. */
module Safety {
  import opened Types
  import opened Server
  import opened Prune
  import opened Pass
  import opened Render
  import opened ClusterObjects
  import RenderLaws

  // ---------- live entries ----------

  /** What the server holds under a key of a section: the entry and its id. */
  datatype Live =
    | Absent
    | LivePublic(public: PublicResource, id: int)
    | LivePrivate(private: PrivateResource, id: int)
    | LivePolicy(policy: PublicPolicy, id: int)

  function LiveAt(s: ServerState, sec: Section, k: string): Live {
    match sec
    case PublicSection =>
      if k in s.public.rows && k in s.public.ids then LivePublic(s.public.rows[k], s.public.ids[k]) else Absent
    case PrivateSection =>
      if k in s.private.rows && k in s.private.ids then LivePrivate(s.private.rows[k], s.private.ids[k]) else Absent
    case PolicySection =>
      if k in s.policies.rows && k in s.policies.ids then LivePolicy(s.policies.rows[k], s.policies.ids[k]) else Absent
  }

  /** The operation neither puts key k nor deletes the id of what lives there. */
  predicate Spares(op: Op, sec: Section, k: string, live: Live) {
    match op
    case PutPublic(key, _) => !(sec.PublicSection? && key == k)
    case PutPrivate(key, _) => !(sec.PrivateSection? && key == k)
    case PutPolicy(key, _) => !(sec.PolicySection? && key == k)
    case Delete(s, id) => !(s == sec && !live.Absent? && live.id == id)
  }

  ghost predicate SparesAll(ops: seq<Op>, sec: Section, k: string, live: Live) {
    forall i :: 0 <= i < |ops| ==> Spares(ops[i], sec, k, live)
  }

  ghost predicate WeatherSpares(e: Weather, sec: Section, k: string, live: Live) {
    forall i :: SparesAll(e.others(i), sec, k, live)
  }

  lemma RemoveSpares<V>(t: Table<V>, id: int, k: string)
    requires ValidTable(t) && (k in t.ids ==> t.ids[k] != id)
    ensures var t' := RemoveId(t, id);
      && (k in t'.rows <==> k in t.rows) && (k in t'.ids <==> k in t.ids)
      && (k in t.rows ==> t'.rows[k] == t.rows[k]) && (k in t.ids ==> t'.ids[k] == t.ids[k])
  {}

  lemma DeleteSpares(s: ServerState, sec': Section, id: int, sec: Section, k: string)
    requires ValidState(s) && Spares(Delete(sec', id), sec, k, LiveAt(s, sec, k))
    ensures LiveAt(DeleteIn(s, sec', id).0, sec, k) == LiveAt(s, sec, k)
  {
    if sec == sec' {
      match sec
      case PublicSection => RemoveSpares(s.public, id, k);
      case PrivateSection => RemoveSpares(s.private, id, k);
      case PolicySection => RemoveSpares(s.policies, id, k);
    }
  }

  lemma OpSpares(s: ServerState, op: Op, sec: Section, k: string)
    requires ValidState(s) && Spares(op, sec, k, LiveAt(s, sec, k))
    ensures LiveAt(RunOp(s, op), sec, k) == LiveAt(s, sec, k)
  {
    if op.Delete? { DeleteSpares(s, op.section, op.id, sec, k); }
  }

  lemma {:induction false} OpsSpare(s: ServerState, ops: seq<Op>, sec: Section, k: string)
    requires ValidState(s) && SparesAll(ops, sec, k, LiveAt(s, sec, k))
    ensures ValidState(RunOps(s, ops)) && LiveAt(RunOps(s, ops), sec, k) == LiveAt(s, sec, k)
  {
    if ops != [] {
      var front := ops[..|ops| - 1];
      assert forall i :: 0 <= i < |front| ==> front[i] == ops[i];
      OpsSpare(s, front, sec, k);
      OpSpares(RunOps(s, front), ops[|ops| - 1], sec, k);
      RunOpValid(RunOps(s, front), ops[|ops| - 1]);
    }
  }

  // ---------- the prune ----------

  /** A prune of section sec' has no business with key k of section sec. */
  predicate OutOfReach(sec': Section, desired: set<string>, sec: Section, k: string) {
    sec == sec' ==> !Ours(k) || k in desired
  }

  lemma StepSpares(p: PruneState, sec': Section, row: Row, desired: set<string>, dryRun: bool, fails: bool,
                   ops: seq<Op>,
                   sec: Section, k: string)
    requires ValidState(p.s) && Reserved(p.s, sec', row) && OutOfReach(sec', desired, sec, k)
    requires SparesAll(ops, sec, k, LiveAt(p.s, sec, k))
    ensures LiveAt(PruneStep(p, sec', row, desired, dryRun, fails, ops).s, sec, k) == LiveAt(p.s, sec, k)
  {
    var s := RunOps(p.s, ops);
    OpsSpare(p.s, ops, sec, k);
    RunOpsKeep(p.s, ops, sec', row);
    assert sec == sec' && !LiveAt(s, sec, k).Absent? ==> k in IdsOf(s, sec) && LiveAt(s, sec, k).id == IdsOf(s, sec)[k];
    if Orphan(row, desired) && !dryRun && !fails { DeleteSpares(s, sec', row.id, sec, k); }
  }

  lemma {:induction false} RowsSpare(s: ServerState, sec': Section, rows: seq<Row>, desired: set<string>,
                                     dryRun: bool, e: Weather,
                                     sec: Section, k: string)
    requires ValidState(s) && AllReserved(s, sec', rows) && OutOfReach(sec', desired, sec, k)
    requires WeatherSpares(e, sec, k, LiveAt(s, sec, k))
    ensures LiveAt(PruneRows(s, sec', rows, desired, dryRun, e).s, sec, k) == LiveAt(s, sec, k)
  {
    if rows != [] {
      var n := |rows| - 1;
      RowsSpare(s, sec', rows[..n], desired, dryRun, e, sec, k);
      RowsAreSafe(s, sec', rows[..n], desired, dryRun, e, [rows[n]]);
      var p := PruneRows(s, sec', rows[..n], desired, dryRun, e);
      assert Reserved(p.s, sec', [rows[n]][0]);
      StepSpares(p, sec', rows[n], desired, dryRun, e.deleteFails(rows[n].id), e.others(n), sec, k);
    }
  }

  lemma SectionSpares(s: ServerState, sec': Section, desired: set<string>, dryRun: bool, listFails: bool, e: Weather,
                      sec: Section, k: string)
    requires ValidState(s) && OutOfReach(sec', desired, sec, k) && WeatherSpares(e, sec, k, LiveAt(s, sec, k))
    ensures var p := PruneOutcome(s, sec', desired, dryRun, listFails, e);
            ValidState(p.s) && LiveAt(p.s, sec, k) == LiveAt(s, sec, k)
  {
    PruneIsSafe(s, sec', desired, dryRun, listFails, e);
    ListingIsExact(s, sec');
    var rows := RowsOf(s, sec');
    forall i | 0 <= i < |rows| ensures Reserved(s, sec', rows[i]) {}
    RowsSpare(s, sec', rows, desired, dryRun, e, sec, k);
  }

  /** Other clients leave key k alone during the whole prune. */
  ghost predicate Undisturbed(f: Faults, sec: Section, k: string, live: Live) {
    forall sec' :: WeatherSpares(f.weather(sec'), sec, k, live)
  }

  /** Every delete of a prune removes only orphans, whatever runs in between. */
  lemma PruneRemovesOrphans(cfg: Config, f: Faults, s: ServerState, b: Blueprint)
    requires ValidState(s)
    ensures var p := PruneAll(cfg, f, s, b);
      && ValidState(p.policies.s)
      && (forall k :: k in p.public.removed ==> Ours(k) && k !in b.public)
      && (forall k :: k in p.private.removed ==> Ours(k) && k !in b.private)
      && (forall k :: k in p.policies.removed ==> Ours(k) && k !in b.policies)
  {
    hide ValidTable;
    PruneIsSafe(s, PublicSection, b.public.Keys, cfg.dryRun, f.lists(PublicSection), f.weather(PublicSection));
    var p := Pruning(cfg, f, s, b, PublicSection);
    PruneIsSafe(p.s, PrivateSection, b.private.Keys, cfg.dryRun, f.lists(PrivateSection), f.weather(PrivateSection));
    var q := Pruning(cfg, f, p.s, b, PrivateSection);
    PruneIsSafe(q.s, PolicySection, b.policies.Keys, cfg.dryRun, f.lists(PolicySection), f.weather(PolicySection));
  }

  /** An entry without the prefix, or one the blueprint holds, comes through the prune
      as it was. */
  lemma PruneSpares(cfg: Config, f: Faults, s: ServerState, b: Blueprint, sec: Section, k: string)
    requires ValidState(s) && (!Ours(k) || k in Desired(b, sec)) && Undisturbed(f, sec, k, LiveAt(s, sec, k))
    ensures LiveAt(PruneAll(cfg, f, s, b).policies.s, sec, k) == LiveAt(s, sec, k)
  {
    hide ValidTable;
    SectionSpares(s, PublicSection, b.public.Keys, cfg.dryRun, f.lists(PublicSection), f.weather(PublicSection),
                  sec, k);
    var p := Pruning(cfg, f, s, b, PublicSection);
    SectionSpares(p.s, PrivateSection, b.private.Keys, cfg.dryRun, f.lists(PrivateSection), f.weather(PrivateSection),
                  sec, k);
    var q := Pruning(cfg, f, p.s, b, PrivateSection);
    SectionSpares(q.s, PolicySection, b.policies.Keys, cfg.dryRun, f.lists(PolicySection), f.weather(PolicySection),
                  sec, k);
  }

  // ---------- the apply ----------

  lemma MergedKeeps<V>(t: Table<V>, doc: map<string, V>, t': Table<V>, k: string)
    requires Merged(t, doc, t') && t.ids.Keys == t.rows.Keys && k !in doc
    ensures (k in t'.rows <==> k in t.rows) && (k in t'.ids <==> k in t.ids)
    ensures k in t.rows ==> t'.rows[k] == t.rows[k]
    ensures k in t.ids ==> t'.ids[k] == t.ids[k]
  {}

  /** An apply leaves every key outside its document alone. */
  lemma ApplyKeepsOthers(w: World, s: ServerState, b: Blueprint, mid: ServerState, sec: Section, k: string)
    requires ValidState(s) && Applied(w, s, b, mid) && k !in Desired(b, sec)
    ensures ValidState(mid) && LiveAt(mid, sec, k) == LiveAt(s, sec, k)
  {
    match sec
    case PublicSection => MergedKeeps(s.public, b.public, mid.public, k);
    case PrivateSection => MergedKeeps(s.private, b.private, mid.private, k);
    case PolicySection => MergedKeeps(s.policies, b.policies, mid.policies, k);
  }

  /** What a document holds is live after its apply, under the id it had if it had one. */
  ghost predicate HoldsEntry(b: Blueprint, sec: Section, k: string, live: Live) {
    match sec
    case PublicSection => k in b.public && live.LivePublic? && live.public == b.public[k]
    case PrivateSection => k in b.private && live.LivePrivate? && live.private == b.private[k]
    case PolicySection => k in b.policies && live.LivePolicy? && live.policy == b.policies[k]
  }

  lemma ApplyPutsDocument(w: World, s: ServerState, b: Blueprint, mid: ServerState, sec: Section, k: string)
    requires ValidState(s) && Applied(w, s, b, mid) && k in Desired(b, sec)
    ensures HoldsEntry(b, sec, k, LiveAt(mid, sec, k))
    ensures !LiveAt(s, sec, k).Absent? ==> LiveAt(mid, sec, k).id == LiveAt(s, sec, k).id
  {}

  // ---------- the pass ----------

  ghost predicate OursOnly(b: Blueprint) {
    forall sec: Section, k :: k in Desired(b, sec) ==> Ours(k)
  }

  lemma RenderedIsOurs(w: World, input: Inputs)
    requires DistinctObjects(input)
    ensures OursOnly(RenderedOf(w, input).blueprint)
  {
    hide RenderedOf;
    RenderLaws.BlueprintKeysAreOurs(w, input);
  }

  /** The server's side of a pass that got as far as the apply. */
  ghost predicate ServerSide(w: World, cfg: Config, f: Faults, s: ServerState, b: Blueprint, mid: ServerState,
                             s': ServerState) {
    && AfterApply(w, cfg, f, s, b, mid)
    && s' == if Accepts(w, cfg, f, s, b) then PruneAll(cfg, f, mid, b).policies.s else mid
  }

  lemma ServerSideOfPass(w: World, cfg: Config, f: Faults, c: ClusterState, s: ServerState,
                         mid: ServerState, o: PassEnd)
    requires PassResult(w, cfg, f, c, s, mid, o) && Preparation(w, cfg, c, s, f).Ready?
    ensures ServerSide(w, cfg, f, s, RenderedOf(w, InputOf(w, cfg, c, s, f)).blueprint, mid, o.s)
  {
    hide RenderedOf, Preparation;
  }

  /** A foreign entry survives the apply and the prune unchanged, and none appears. */
  lemma SideKeepsForeign(w: World, cfg: Config, f: Faults, s: ServerState, b: Blueprint, mid: ServerState,
                         s': ServerState,
                         sec: Section, k: string)
    requires ValidState(s) && ServerSide(w, cfg, f, s, b, mid, s') && OursOnly(b)
    requires !Ours(k) && Undisturbed(f, sec, k, LiveAt(s, sec, k))
    ensures LiveAt(s', sec, k) == LiveAt(s, sec, k)
  {
    assert k !in Desired(b, sec);
    if !cfg.dryRun && Accepts(w, cfg, f, s, b) { ApplyKeepsOthers(w, s, b, mid, sec, k); }
    PruneSpares(cfg, f, mid, b, sec, k);
  }

  lemma SideValid(w: World, cfg: Config, f: Faults, s: ServerState, b: Blueprint, mid: ServerState, s': ServerState)
    requires ValidState(s) && ServerSide(w, cfg, f, s, b, mid, s')
    ensures ValidState(mid) && ValidState(s')
  {
    PruneRemovesOrphans(cfg, f, mid, b);
  }

  /** A pass keeps the server's invariants and the cluster's objects. */
  lemma PassKeepsState(w: World, cfg: Config, f: Faults, c: ClusterState, s: ServerState, mid: ServerState, o: PassEnd)
    requires ValidState(s) && PassResult(w, cfg, f, c, s, mid, o)
    ensures ValidState(mid) && ValidState(o.s) && o.c.objects == c.objects && o.c.configMaps == c.configMaps
  {
    hide RenderedOf, StatusWrites;
    if Preparation(w, cfg, c, s, f).Ready? {
      ServerSideOfPass(w, cfg, f, c, s, mid, o);
      SideValid(w, cfg, f, s, RenderedOf(w, InputOf(w, cfg, c, s, f)).blueprint, mid, o.s);
    }
  }

  /** Whatever fails, and whatever others do to other entries while the pass runs, an
      entry without the prefix is neither created nor changed nor deleted. */
  lemma PassKeepsForeign(w: World, cfg: Config, f: Faults, c: ClusterState, s: ServerState,
                         mid: ServerState, o: PassEnd,
                         sec: Section, k: string)
    requires ValidState(s) && DistinctCluster(c.objects) && PassResult(w, cfg, f, c, s, mid, o)
    requires !Ours(k) && Undisturbed(f, sec, k, LiveAt(s, sec, k))
    ensures LiveAt(o.s, sec, k) == LiveAt(s, sec, k)
  {
    hide RenderedOf, Finished;
    if Preparation(w, cfg, c, s, f).Ready? {
      ServerSideOfPass(w, cfg, f, c, s, mid, o);
      PreparedInputs(w, cfg, c, s, f);
      var input := InputOf(w, cfg, c, s, f);
      RenderedIsOurs(w, input);
      SideKeepsForeign(w, cfg, f, s, RenderedOf(w, input).blueprint, mid, o.s, sec, k);
    }
  }

  /** A pass never takes away what it just applied: every entry of an accepted blueprint
      is on the server at the end, unless another client touched that very entry. */
  lemma PassKeepsItsOwn(w: World, cfg: Config, f: Faults, s: ServerState, b: Blueprint, mid: ServerState,
                        s': ServerState,
                        sec: Section, k: string)
    requires ValidState(s) && ServerSide(w, cfg, f, s, b, mid, s')
    requires !cfg.dryRun && Accepts(w, cfg, f, s, b) && k in Desired(b, sec)
    requires Undisturbed(f, sec, k, LiveAt(mid, sec, k))
    ensures HoldsEntry(b, sec, k, LiveAt(s', sec, k)) && LiveAt(s', sec, k) == LiveAt(mid, sec, k)
  {
    SideValid(w, cfg, f, s, b, mid, s');
    ApplyPutsDocument(w, s, b, mid, sec, k);
    PruneSpares(cfg, f, mid, b, sec, k);
  }
}
