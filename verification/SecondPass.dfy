/** A successful pass settles: run again over the same cluster with the same call
    outcomes it renders the same blueprint, leaves the server as it is and writes no
    status, so the controller cannot loop on its own watch events. */
module SecondPass {
  import opened Types
  import opened Translate
  import opened Render
  import opened Server
  import opened Secrets
  import opened Prune
  import opened Verify
  import opened Pass
  import opened Safety
  import opened Convergence
  import opened ClusterObjects
  import RenderLaws
  import Status
  import Truth

  /** The same outcomes at another time, with whatever passwords would be drawn then. */
  function Again(f: Faults, now: int, password: Name -> string): Faults {
    f.(now := now, secrets := f.secrets.(password := password))
  }

  // ---------- the inputs ----------

  lemma {:induction false} ServedAreRoutes(routes: seq<Route>, input: Inputs)
    requires DistinctRoutes(routes)
    ensures DistinctRoutes(ServedRoutes(routes, input)) && forall r :: r in ServedRoutes(routes, input) ==> r in routes
  {
    if routes != [] {
      var front, last := routes[..|routes| - 1], routes[|routes| - 1];
      assert routes == front + [last];
      ServedAreRoutes(front, input);
      var served := ServedRoutes(front, input);
      forall i | 0 <= i < |served| ensures served[i].name != last.name {
        assert served[i] in front;
      }
    }
  }

  /** The cluster and the parts of the server a render reads are as the first pass left
      them. */
  ghost predicate SameReads(c: ClusterState, s: ServerState, secrets: map<Name, Secret>, c': ClusterState,
                            s': ServerState) {
    && c'.objects == c.objects && c'.configMaps == c.configMaps && c'.secrets == secrets
    && s'.sites == s.sites && s'.machines == s.machines && s'.users == s.users
  }

  /** Route names and drawn passwords are not empty. */
  ghost predicate ProperRoutes(o: Objects, secrets: SecretOracle) { forall r :: r in o.routes ==> Proper(r, secrets) }

  lemma PreparesTheSame(w: World, cfg: Config, c: ClusterState, s: ServerState, f: Faults, c': ClusterState,
                        s': ServerState,
                        now: int, password: Name -> string)
    requires DistinctCluster(c.objects) && ProperRoutes(c.objects, f.secrets) && Preparation(w, cfg, c, s, f).Ready?
    requires SameReads(c, s, Preparation(w, cfg, c, s, f).secrets, c', s')
    ensures Preparation(w, cfg, c', s', Again(f, now, password)) == Preparation(w, cfg, c, s, f)
  {
    var f' := Again(f, now, password);
    var known := KnownInputs(cfg, c.objects, s, f);
    assert KnownInputs(cfg, c'.objects, s', f') == known;
    var served := ServedRoutes(known.routes, known);
    ServedAreRoutes(known.routes, known);
    SecondResolutionReadsBack(w, c.secrets, served, cfg.dryRun, f.secrets, f'.secrets);
  }

  // ---------- the server ----------

  /** Reapplying a document whose rows are all live changes nothing, ids included. */
  lemma ReapplyTable<V>(t: Table<V>, doc: map<string, V>, t': Table<V>)
    requires ValidTable(t) && Merged(t, doc, t') && forall k :: k in doc ==> k in t.rows && t.rows[k] == doc[k]
    ensures t' == t
  {
    assert t.rows + doc == t.rows;
    assert doc.Keys <= t.ids.Keys;
    assert t'.ids == t.ids;
  }

  ghost predicate HoldsDocument(s: ServerState, b: Blueprint) {
    && (forall k :: k in b.public ==> k in s.public.rows && s.public.rows[k] == b.public[k])
    && (forall k :: k in b.private ==> k in s.private.rows && s.private.rows[k] == b.private[k])
    && (forall k :: k in b.policies ==> k in s.policies.rows && s.policies.rows[k] == b.policies[k])
  }

  lemma ReapplyChangesNothing(w: World, s: ServerState, b: Blueprint, s': ServerState, mid: ServerState)
    requires ValidState(s') && Applied(w, s', b, mid) && HoldsDocument(s', b) && CAsPass(w, s, b)
    requires s'.strip == s.strip && s'.mtls == s.mtls + StoredCAs(w, s, b)
    ensures mid == s'
  {
    ReapplyTable(s'.public, b.public, mid.public);
    ReapplyTable(s'.private, b.private, mid.private);
    ReapplyTable(s'.policies, b.policies, mid.policies);
    CertificatesAgain(w, s, b, s');
  }

  lemma CertificatesAgain(w: World, s: ServerState, b: Blueprint, s': ServerState)
    requires CAsPass(w, s, b) && s'.strip == s.strip && s'.mtls == s.mtls + StoredCAs(w, s, b)
    ensures CAsPass(w, s', b) && s'.mtls + StoredCAs(w, s', b) == s'.mtls
  {
    assert StoredCAs(w, s', b) == StoredCAs(w, s, b);
  }

  /** No other client acts while the pass prunes. */
  ghost predicate Alone(f: Faults) { forall sec :: Quiet(f.weather(sec)) }

  lemma AloneIsUndisturbed(f: Faults, sec: Section, k: string, live: Live)
    requires Alone(f)
    ensures Undisturbed(f, sec, k, live)
  {}

  lemma PruneKeepsDocument(cfg: Config, f: Faults, s: ServerState, b: Blueprint)
    requires ValidState(s) && Alone(f) && HoldsDocument(s, b)
    ensures HoldsDocument(PruneAll(cfg, f, s, b).policies.s, b)
  {
    hide PruneOutcome, Pruning, Undisturbed, Alone, PruneAll;
    var s' := PruneAll(cfg, f, s, b).policies.s;
    PruneRemovesOrphans(cfg, f, s, b);
    forall sec: Section, k | k in Desired(b, sec) ensures LiveAt(s', sec, k) == LiveAt(s, sec, k) {
      AloneIsUndisturbed(f, sec, k, LiveAt(s, sec, k));
      PruneSpares(cfg, f, s, b, sec, k);
    }
    forall k | k in b.public ensures k in s'.public.rows && s'.public.rows[k] == b.public[k] {
      assert k in Desired(b, PublicSection) && !LiveAt(s, PublicSection, k).Absent?;
    }
    forall k | k in b.private ensures k in s'.private.rows && s'.private.rows[k] == b.private[k] {
      assert k in Desired(b, PrivateSection) && !LiveAt(s, PrivateSection, k).Absent?;
    }
    forall k | k in b.policies ensures k in s'.policies.rows && s'.policies.rows[k] == b.policies[k] {
      assert k in Desired(b, PolicySection) && !LiveAt(s, PolicySection, k).Absent?;
    }
  }

  /** A quiet prune only ever takes rows away. */
  lemma {:induction false} RowsOnlyShrink(s: ServerState, sec: Section, rows: seq<Row>, desired: set<string>,
                                          dryRun: bool, e: Weather, k: string)
    requires Quiet(e) && k in PruneRows(s, sec, rows, desired, dryRun, e).s.private.rows
    ensures k in s.private.rows && s.private.rows[k] == PruneRows(s, sec, rows, desired, dryRun, e).s.private.rows[k]
  {
    if rows != [] { RowsOnlyShrink(s, sec, rows[..|rows| - 1], desired, dryRun, e, k); }
  }

  lemma PruneOnlyShrinks(cfg: Config, f: Faults, s: ServerState, b: Blueprint, k: string)
    requires Alone(f) && k in PruneAll(cfg, f, s, b).policies.s.private.rows
    ensures k in s.private.rows && s.private.rows[k] == PruneAll(cfg, f, s, b).policies.s.private.rows[k]
  {
    var p := PruneAll(cfg, f, s, b);
    if cfg.licensed && Listable(p.private.s, PolicySection, f.lists(PolicySection)) {
      RowsOnlyShrink(p.private.s, PolicySection, RowsOf(p.private.s, PolicySection), b.policies.Keys, cfg.dryRun,
                     f.weather(PolicySection), k);
    }
    if Listable(p.public.s, PrivateSection, f.lists(PrivateSection)) {
      RowsOnlyShrink(p.public.s, PrivateSection, RowsOf(p.public.s, PrivateSection), b.private.Keys, cfg.dryRun,
                     f.weather(PrivateSection), k);
    }
    if Listable(s, PublicSection, f.lists(PublicSection)) {
      RowsOnlyShrink(s, PublicSection, RowsOf(s, PublicSection), b.public.Keys, cfg.dryRun,
                     f.weather(PublicSection), k);
    }
  }

  lemma AliasStaysFree(s: ServerState, b: Blueprint, s': ServerState, alias: string)
    requires forall k :: k in s'.private.rows && k !in b.private ==>
        k in s.private.rows && s.private.rows[k] == s'.private.rows[k]
    ensures AliasTakenInStore(s', b, alias) ==> AliasTakenInStore(s, b, alias)
  {}

  /** A document accepted once is accepted again after its own pass. */
  lemma StaysAcceptable(w: World, s: ServerState, b: Blueprint, s': ServerState)
    requires Acceptable(w, s, b) && ClosedPolicies(b)
    requires s'.strip == s.strip && s'.licensed == s.licensed && s'.sites == s.sites && s'.machines == s.machines
    requires s'.users == s.users
    requires forall k :: k in s'.private.rows && k !in b.private ==>
        k in s.private.rows && s.private.rows[k] == s'.private.rows[k]
    ensures Acceptable(w, s', b)
  {
    forall k | k in b.private ensures PrivatePasses(s', b, k) {
      assert PrivatePasses(s, b, k);
      AliasStaysFree(s, b, s', b.private[k].alias);
    }
    forall k | k in b.public ensures ResourcePolicyPasses(s', b, b.public[k]) {
      assert ResourcePolicyPasses(s, b, b.public[k]);
    }
  }

  // ---------- the second prune ----------

  lemma {:induction false} NoGoing(s: ServerState, sec: Section, rows: seq<Row>, desired: set<string>, e: Weather)
    requires forall i :: 0 <= i < |rows| ==> !Goes(s, sec, rows[i], desired, e)
    ensures GoneKeys(s, sec, rows, desired, e) == {} && GoneIds(s, sec, rows, desired, e) == []
  {
    if rows != [] { NoGoing(s, sec, rows[..|rows| - 1], desired, e); }
  }

  /** Nothing goes, so nothing changes; it fails only if an orphan is stuck. */
  lemma NothingGoes(s: ServerState, sec: Section, desired: set<string>, e: Weather)
    requires ValidState(s) && Quiet(e) && (sec.PolicySection? ==> s.licensed) && Doomed(s, sec, desired, e) == {}
    ensures var p := PruneOutcome(s, sec, desired, false, false, e);
      && p.s == s && (p.failed <==> Orphans(s, sec, desired) != {})
  {
    QuietPruneIsExact(s, sec, desired, e);
    ListingIsExact(s, sec);
    var rows := RowsOf(s, sec);
    forall i | 0 <= i < |rows| ensures !Goes(s, sec, rows[i], desired, e) {
      var row := rows[i];
      assert row == Row(row.key, IdsOf(s, sec)[row.key]);
      assert row.key in Doomed(s, sec, desired, e) <==> Goes(s, sec, row, desired, e);
    }
    NoGoing(s, sec, rows, desired, e);
    WithoutNothing(s, sec);
    if Orphans(s, sec, desired) != {} {
      var k :| k in Orphans(s, sec, desired);
      assert Orphan(Row(k, IdsOf(s, sec)[k]), desired);
    }
  }

  /** After a quiet prune of a section nothing more of it would go; if it did not fail,
      no orphan is left. */
  lemma AfterQuietPrune(s: ServerState, sec: Section, desired: set<string>, e: Weather) returns (drop: set<string>,
                                                                                                 log: seq<int>)
    requires ValidState(s) && Quiet(e) && (sec.PolicySection? ==> s.licensed)
    ensures var p := PruneOutcome(s, sec, desired, false, false, e);
      && p.s == Without(s, sec, drop, log) && ValidState(p.s)
      && Doomed(p.s, sec, desired, e) == {} && (!p.failed ==> Orphans(p.s, sec, desired) == {})
  {
    QuietPruneIsExact(s, sec, desired, e);
    PruneIsSafe(s, sec, desired, false, false, e);
    drop, log := Doomed(s, sec, desired, e), GoneIds(s, sec, RowsOf(s, sec), desired, e);
    var s' := Without(s, sec, drop, log);
    forall k | k in IdsOf(s', sec) ensures !Goes(s', sec, Row(k, IdsOf(s', sec)[k]), desired, e) {
      assert k in IdsOf(s, sec) && IdsOf(s', sec)[k] == IdsOf(s, sec)[k] && k !in drop;
      assert Blocked(s', sec, k) <==> Blocked(s, sec, k);
    }
    assert Doomed(s', sec, desired, e) == {};
    assert forall k :: k in Orphans(s', sec, desired) ==>
      k in IdsOf(s, sec) && k !in drop && Orphan(Row(k, IdsOf(s, sec)[k]), desired);
  }

  /** One section, pruned once more in a state that agrees on it. */
  lemma StageAgain(cfg: Config, f: Faults, s: ServerState, b: Blueprint, sec: Section)
    requires ValidState(s) && Alone(f) && !cfg.dryRun && Listable(s, sec, f.lists(sec))
    requires Doomed(s, sec, Desired(b, sec), f.weather(sec)) == {}
    ensures var p := Pruning(cfg, f, s, b, sec); p.s == s && (p.failed <==> Orphans(s, sec, Desired(b, sec)) != {})
  {
    NothingGoes(s, sec, Desired(b, sec), f.weather(sec));
  }

  /** No orphan, so none is doomed. */
  lemma NoOrphanIsDoomed(s: ServerState, sec: Section, desired: set<string>, e: Weather)
    requires Orphans(s, sec, desired) == {}
    ensures Doomed(s, sec, desired, e) == {}
  {
    assert forall k :: k in Doomed(s, sec, desired, e) ==> k in Orphans(s, sec, desired);
  }

  /** The public and private sections after a prune that did not fail. */
  lemma FirstTwoClean(cfg: Config, f: Faults, s: ServerState, b: Blueprint)
    requires ValidState(s) && Alone(f) && !cfg.dryRun && !PruneAll(cfg, f, s, b).failed
    ensures var q := PruneAll(cfg, f, s, b).private.s;
      && ValidState(q) && Orphans(q, PublicSection, b.public.Keys) == {}
        && Orphans(q, PrivateSection, b.private.Keys) == {}
      && !f.lists(PublicSection) && !f.lists(PrivateSection)
  {
    var drop, log := AfterQuietPrune(s, PublicSection, b.public.Keys, f.weather(PublicSection));
    var p := Pruning(cfg, f, s, b, PublicSection);
    var drop', log' := AfterQuietPrune(p.s, PrivateSection, b.private.Keys, f.weather(PrivateSection));
    assert p.s.public == Pruning(cfg, f, p.s, b, PrivateSection).s.public;
  }

  /** In the final state of a prune that did not fail: the first two sections are clean
      and no policy that could go is left. */
  lemma FinalStateClean(cfg: Config, f: Faults, s: ServerState, b: Blueprint)
    requires ValidState(s) && Alone(f) && !cfg.dryRun && !PruneAll(cfg, f, s, b).failed
    ensures var r := PruneAll(cfg, f, s, b).policies.s;
      && ValidState(r) && Orphans(r, PublicSection, b.public.Keys) == {}
        && Orphans(r, PrivateSection, b.private.Keys) == {}
      && !f.lists(PublicSection) && !f.lists(PrivateSection)
      && (cfg.licensed ==> Listable(r, PolicySection, f.lists(PolicySection))
                           && Doomed(r, PolicySection, b.policies.Keys, f.weather(PolicySection)) == {})
  {
    FirstTwoClean(cfg, f, s, b);
    if cfg.licensed {
      var q := PruneAll(cfg, f, s, b).private.s;
      var drop, log := AfterQuietPrune(q, PolicySection, b.policies.Keys, f.weather(PolicySection));
      assert PruneAll(cfg, f, s, b).policies.s == Without(q, PolicySection, drop, log);
    }
  }

  /** A prune that did not fail leaves a state the same prune leaves alone. */
  lemma PruneAgain(cfg: Config, f: Faults, s: ServerState, b: Blueprint)
    requires ValidState(s) && Alone(f) && !cfg.dryRun && !PruneAll(cfg, f, s, b).failed
    ensures var r := PruneAll(cfg, f, s, b).policies.s;
            PruneAll(cfg, f, r, b).policies.s == r && !PruneAll(cfg, f, r, b).failed
  {
    FinalStateClean(cfg, f, s, b);
    var r := PruneAll(cfg, f, s, b).policies.s;
    NoOrphanIsDoomed(r, PublicSection, b.public.Keys, f.weather(PublicSection));
    StageAgain(cfg, f, r, b, PublicSection);
    NoOrphanIsDoomed(r, PrivateSection, b.private.Keys, f.weather(PrivateSection));
    StageAgain(cfg, f, r, b, PrivateSection);
    if cfg.licensed { StageAgain(cfg, f, r, b, PolicySection); }
  }

  lemma {:induction false} RehearsedRows(s: ServerState, sec: Section, rows: seq<Row>, desired: set<string>, e: Weather)
    requires Quiet(e)
    ensures PruneRows(s, sec, rows, desired, true, e) == PruneState(s, {}, false)
  {
    if rows != [] { RehearsedRows(s, sec, rows[..|rows| - 1], desired, e); }
  }

  /** A dry run's prune changes nothing. */
  lemma RehearsedPrune(cfg: Config, f: Faults, s: ServerState, b: Blueprint)
    requires Alone(f) && cfg.dryRun
    ensures PruneAll(cfg, f, s, b).policies.s == s
  {
    RehearsedRows(s, PublicSection, RowsOf(s, PublicSection), b.public.Keys, f.weather(PublicSection));
    RehearsedRows(s, PrivateSection, RowsOf(s, PrivateSection), b.private.Keys, f.weather(PrivateSection));
    RehearsedRows(s, PolicySection, RowsOf(s, PolicySection), b.policies.Keys, f.weather(PolicySection));
  }

  // ---------- the server, twice ----------

  lemma SamePrune(cfg: Config, f: Faults, s: ServerState, b: Blueprint, now: int, password: Name -> string)
    ensures PruneAll(cfg, Again(f, now, password), s, b) == PruneAll(cfg, f, s, b)
  {}

  lemma AppliedHoldsDocument(w: World, s: ServerState, b: Blueprint, mid: ServerState)
    requires Applied(w, s, b, mid)
    ensures HoldsDocument(mid, b)
  {}

  /** After an accepted apply and a prune that did not fail, applying and pruning again
      leaves the server exactly as it is. */
  lemma RealSideAgain(w: World, cfg: Config, f: Faults, s: ServerState, b: Blueprint, mid: ServerState, s': ServerState,
                      mid': ServerState, s2: ServerState)
    requires ValidState(s) && Alone(f) && ClosedPolicies(b) && !cfg.dryRun
    requires ServerSide(w, cfg, f, s, b, mid, s') && Accepts(w, cfg, f, s, b) && !PruneAll(cfg, f, mid, b).failed
    requires ServerSide(w, cfg, f, s', b, mid', s2)
    ensures Accepts(w, cfg, f, s', b) && mid' == s' && s2 == s' && !PruneAll(cfg, f, mid', b).failed
  {
    SideValid(w, cfg, f, s, b, mid, s');
    Truth.PruneKeepsSettings(cfg, f, mid, b);
    AppliedHoldsDocument(w, s, b, mid);
    PruneKeepsDocument(cfg, f, mid, b);
    forall k | k in s'.private.rows && k !in b.private
      ensures k in s.private.rows && s.private.rows[k] == s'.private.rows[k]
    {
      PruneOnlyShrinks(cfg, f, mid, b, k);
    }
    StaysAcceptable(w, s, b, s');
    ReapplyChangesNothing(w, s, b, s', mid');
    PruneAgain(cfg, f, mid, b);
  }

  lemma SideAgain(w: World, cfg: Config, f: Faults, s: ServerState, b: Blueprint, mid: ServerState, s': ServerState,
                  mid': ServerState, s2: ServerState)
    requires ValidState(s) && Alone(f) && ClosedPolicies(b)
    requires ServerSide(w, cfg, f, s, b, mid, s') && Accepts(w, cfg, f, s, b) && !PruneAll(cfg, f, mid, b).failed
    requires ServerSide(w, cfg, f, s', b, mid', s2)
    ensures Accepts(w, cfg, f, s', b) && mid' == s' && s2 == s' && !PruneAll(cfg, f, mid', b).failed
  {
    if cfg.dryRun {
      RehearsedPrune(cfg, f, s, b);
    } else {
      RealSideAgain(w, cfg, f, s, b, mid, s', mid', s2);
    }
  }

  // ---------- the verdicts ----------

  lemma {:induction false} CAsAreRequested(w: World, secrets: map<Name, Secret>,
                                           configMaps: map<Name, map<string, string>>,
                                           routes: seq<Route>, readFails: Name -> bool, n: Name)
    requires MTLSAll(w, secrets, configMaps, routes, readFails).Some?
    requires n in MTLSAll(w, secrets, configMaps, routes, readFails).value
    ensures exists r :: r in routes && r.name == n && MTLSRequested(r)
  {
    var front, last := routes[..|routes| - 1], routes[|routes| - 1];
    assert routes == front + [last];
    assert last in routes;
    if !(MTLSRequested(last) && last.name == n) {
      CAsAreRequested(w, secrets, configMaps, front, readFails, n);
      var r :| r in front && r.name == n && MTLSRequested(r);
      assert r in routes;
    }
  }

  /** CAs are resolved only for routes that asked. */
  ghost predicate OnlyRequestedCAs(input: Inputs) {
    forall n :: n in input.mtls ==> exists r :: r in input.routes && r.name == n && MTLSRequested(r)
  }

  lemma PreparedCAsAreRequested(w: World, cfg: Config, c: ClusterState, s: ServerState, f: Faults)
    requires DistinctCluster(c.objects) && Preparation(w, cfg, c, s, f).Ready?
    ensures OnlyRequestedCAs(InputOf(w, cfg, c, s, f))
  {
    var input := InputOf(w, cfg, c, s, f);
    var known := KnownInputs(cfg, c.objects, s, f);
    var served := ServedRoutes(known.routes, known);
    var secrets := BasicAuthAll(w, c.secrets, served, cfg.dryRun, f.secrets).secrets;
    ServedAreRoutes(known.routes, known);
    forall n | n in input.mtls ensures exists r :: r in input.routes && r.name == n && MTLSRequested(r) {
      CAsAreRequested(w, secrets, c.configMaps, served, f.caReads, n);
    }
  }

  lemma RequestIsRefusedOnPrivate(r: Route)
    requires MTLSRequested(r)
    ensures AnyAnnotated(r, NOT_ON_PRIVATE)
  {
    var a :| a in MTLS_ANNOTATIONS && Value(r, a) != "";
    assert a in NOT_ON_PRIVATE;
  }

  /** A published route with a CA set is published in the public section. */
  lemma CAsGoPublic(w: World, input: Inputs, n: Name)
    requires DistinctObjects(input) && OnlyRequestedCAs(input) && n in input.mtls
    requires n in RenderedOf(w, input).routes && RenderedOf(w, input).routes[n].Published()
    ensures RenderedOf(w, input).routes[n].key in RenderedOf(w, input).blueprint.public
  {
    hide RenderedOf;
    var r :| r in input.routes && r.name == n && MTLSRequested(r);
    RenderLaws.RouteVerdictIsItsEntry(w, input, r);
    RouteSections(w, r, input, PolicyVerdicts(w, input));
  }

  lemma RouteSections(w: World, r: Route, input: Inputs, policies: map<Name, ResourceVerdict>)
    requires TranslateRoute(w, r, input, policies).Ok? && MTLSRequested(r)
    ensures TranslateRoute(w, r, input, policies).value.section.InPublic?
  {
    RequestIsRefusedOnPrivate(r);
  }

  /** The check reads the same ids and certificate sets again. */
  lemma VerifiesTheSame(w: World, a: ServerState, b: ServerState, verdicts: map<Name, Verdict>,
                        mtls: map<Name, MTLSResult>,
                        listFails: bool, readFails: int -> bool)
    requires a.mtls == b.mtls
    requires forall n :: n in verdicts && n in mtls && NeedsCheck(verdicts[n], mtls[n]) ==>
      var k := verdicts[n].key; k in a.public.ids && k in b.public.ids && a.public.ids[k] == b.public.ids[k]
    ensures VerifiedAll(w, a, verdicts, mtls, listFails, readFails)
        == VerifiedAll(w, b, verdicts, mtls, listFails, readFails)
  {}

  lemma KeepsPublicIds(w: World, cfg: Config, f: Faults, s: ServerState, b: Blueprint, mid: ServerState,
                       s': ServerState, k: string)
    requires ValidState(s) && Alone(f) && ServerSide(w, cfg, f, s, b, mid, s') && !cfg.dryRun
    requires Accepts(w, cfg, f, s, b)
    requires k in b.public
    ensures k in mid.public.ids && k in s'.public.ids && mid.public.ids[k] == s'.public.ids[k]
  {
    AloneIsUndisturbed(f, PublicSection, k, LiveAt(mid, PublicSection, k));
    PassKeepsItsOwn(w, cfg, f, s, b, mid, s', PublicSection, k);
  }

  /** Every verdict the check looks at is published in the public section. */
  ghost predicate CheckedArePublic(r: Rendered, mtls: map<Name, MTLSResult>) {
    forall n :: n in r.routes && n in mtls && r.routes[n].Published() ==> r.routes[n].key in r.blueprint.public
  }

  lemma RenderedChecksPublic(w: World, input: Inputs)
    requires DistinctObjects(input) && OnlyRequestedCAs(input)
    ensures CheckedArePublic(RenderedOf(w, input), input.mtls)
  {
    hide RenderedOf;
    forall n | n in RenderedOf(w, input).routes && n in input.mtls && RenderedOf(w, input).routes[n].Published()
      ensures RenderedOf(w, input).routes[n].key in RenderedOf(w, input).blueprint.public
    {
      CAsGoPublic(w, input, n);
    }
  }

  lemma JudgesTheSame(w: World, cfg: Config, f: Faults, s: ServerState, r: Rendered, mtls: map<Name, MTLSResult>,
                      mid: ServerState, s': ServerState, now: int, password: Name -> string)
    requires ValidState(s) && Alone(f) && CheckedArePublic(r, mtls)
    requires ServerSide(w, cfg, f, s, r.blueprint, mid, s') && Accepts(w, cfg, f, s, r.blueprint)
    ensures JudgedRoutes(w, cfg, Again(f, now, password), s', true, r.routes, mtls)
         == JudgedRoutes(w, cfg, f, mid, true, r.routes, mtls)
  {
    if !cfg.dryRun {
      Truth.SideKeepsCertificates(w, cfg, f, s, r.blueprint, mid, s');
      forall n | n in r.routes && n in mtls && NeedsCheck(r.routes[n], mtls[n])
        ensures var k := r.routes[n].key;
                k in mid.public.ids && k in s'.public.ids && mid.public.ids[k] == s'.public.ids[k]
      {
        KeepsPublicIds(w, cfg, f, s, r.blueprint, mid, s', r.routes[n].key);
      }
      VerifiesTheSame(w, mid, s', r.routes, mtls, f.verifyList, f.certReads);
    }
  }

  // ---------- the statuses ----------

  /** When no write failed, every object has its target. */
  lemma AllLanded<S>(before: map<Name, S>, none: S, subjects: seq<Subject>, target: (Subject, S) -> S,
                     fails: Name -> bool, x: Subject)
    requires DistinctSubjects(subjects) && x in subjects && !WriteAll(before, none, subjects, target, fails).failed
    ensures Look(WriteAll(before, none, subjects, target, fails).statuses, x.name, none)
        == target(x, Look(before, x.name, none))
  {
    EachWrittenOnce(before, none, subjects, target, fails, x);
  }

  /** If reaching a target twice is reaching it once, the second loop writes nothing. */
  lemma SecondLoopIsSilent<S>(before: map<Name, S>, none: S, subjects: seq<Subject>, first: (Subject, S) -> S,
                              second: (Subject, S) -> S, fails: Name -> bool)
    requires DistinctSubjects(subjects) && !WriteAll(before, none, subjects, first, fails).failed
    requires forall x: Subject, st: S :: second(x, first(x, st)) == first(x, st)
    ensures var after := WriteAll(before, none, subjects, first, fails).statuses;
            WriteAll(after, none, subjects, second, fails) == Written(after, {}, false)
  {
    var after := WriteAll(before, none, subjects, first, fails).statuses;
    forall x | x in subjects ensures second(x, Look(after, x.name, none)) == Look(after, x.name, none) {
      AllLanded(before, none, subjects, first, fails, x);
    }
    SettledWritesNothing(after, none, subjects, second, fails);
  }

  lemma RouteTargetSettles(controllerName: string, now: int, later: int, verdicts: map<Name, Verdict>)
    ensures forall x: Subject, ps ::
      RouteTarget(controllerName, later, verdicts)(x, RouteTarget(controllerName, now, verdicts)(x, ps))
      == RouteTarget(controllerName, now, verdicts)(x, ps)
  {
    forall x: Subject, ps
      ensures RouteTarget(controllerName, later, verdicts)(x, RouteTarget(controllerName, now, verdicts)(x, ps))
                                  == RouteTarget(controllerName, now, verdicts)(x, ps)
    {
      Status.SecondWriteIsSilent(Status.Writer(controllerName, x.name.ns, now), Look(verdicts, x.name, NO_VERDICT), ps,
                                 later);
    }
  }

  lemma KeyTargetSettles(dryRun: bool, applied: bool, now: int, later: int, verdicts: map<Name, ResourceVerdict>)
    ensures forall x: Subject, st ::
      KeyTarget(dryRun, applied, later, verdicts)(x, KeyTarget(dryRun, applied, now, verdicts)(x, st))
      == KeyTarget(dryRun, applied, now, verdicts)(x, st)
  {
    forall x: Subject, st
      ensures KeyTarget(dryRun, applied, later, verdicts)(x, KeyTarget(dryRun, applied, now, verdicts)(x, st))
           == KeyTarget(dryRun, applied, now, verdicts)(x, st)
    {
      var v := Look(verdicts, x.name, NO_RESOURCE_VERDICT);
      var a := Status.AsCondition(Status.ACCEPTED, v.accepted, x.generation);
      var p := Status.AsCondition(PROGRAMMED, Programmed(dryRun, v, applied), x.generation);
      assert Status.ACCEPTED[0] != PROGRAMMED[0];
      PairSettled(st.conditions, a, p, now);
      PairSettled(KeyTarget(dryRun, applied, now, verdicts)(x, st).conditions, a, p, later);
    }
  }

  lemma ClassTargetSettles(now: int, later: int)
    ensures forall x: Subject, cs :: ClassTarget(later)(x, ClassTarget(now)(x, cs)) == ClassTarget(now)(x, cs)
  {
    forall x: Subject, cs ensures ClassTarget(later)(x, ClassTarget(now)(x, cs)) == ClassTarget(now)(x, cs) {
      var a := Status.AsCondition(Status.ACCEPTED, SERVED, x.generation);
      Status.SetConditionCarries(cs, a, now);
      Status.SetConditionSettled(ClassTarget(now)(x, cs), a, later);
    }
  }

  lemma GatewayTargetSettles(now: int, later: int)
    ensures forall x: Subject, cs :: GatewayTarget(later)(x, GatewayTarget(now)(x, cs)) == GatewayTarget(now)(x, cs)
  {
    forall x: Subject, cs ensures GatewayTarget(later)(x, GatewayTarget(now)(x, cs)) == GatewayTarget(now)(x, cs) {
      var a := Status.AsCondition(Status.ACCEPTED, SERVED, x.generation);
      var p := Status.AsCondition(PROGRAMMED, GATEWAY_PROGRAMMED, x.generation);
      assert Status.ACCEPTED[0] != PROGRAMMED[0];
      PairSettled(cs, a, p, now);
      PairSettled(GatewayTarget(now)(x, cs), a, p, later);
    }
  }

  lemma RouteWritesAgain(cfg: Config, f: Faults, c: ClusterState, c': ClusterState, verdicts: map<Name, Verdict>,
                         now: int, password: Name -> string)
    requires DistinctCluster(c.objects) && c'.objects == c.objects
    requires !RouteWrites(cfg, f, c, verdicts).failed && c'.routes == RouteWrites(cfg, f, c, verdicts).statuses
    ensures RouteWrites(cfg, Again(f, now, password), c', verdicts) == Written(c'.routes, {}, false)
  {
    Truth.SubjectsDistinct(c.objects);
    RouteTargetSettles(cfg.controllerName, f.now, now, verdicts);
    SecondLoopIsSilent(c.routes, [], RouteSubjects(c.objects.routes), RouteTarget(cfg.controllerName, f.now, verdicts),
                       RouteTarget(cfg.controllerName, now, verdicts), f.routeStatus);
  }

  lemma ClassWritesAgain(cfg: Config, f: Faults, c: ClusterState, c': ClusterState, now: int, password: Name -> string)
    requires DistinctCluster(c.objects) && c'.objects == c.objects
    requires !ClassWrites(cfg, f, c).failed && c'.classes == ClassWrites(cfg, f, c).statuses
    ensures ClassWrites(cfg, Again(f, now, password), c') == Written(c'.classes, {}, false)
  {
    var served := ServedBy(cfg, c.objects);
    ClassSubjectsDistinct(c.objects.classes, served);
    ClassTargetSettles(f.now, now);
    SecondLoopIsSilent(c.classes, [], ClassSubjects(c.objects.classes, served), ClassTarget(f.now), ClassTarget(now),
                       f.classStatus);
  }

  lemma GatewayWritesAgain(cfg: Config, f: Faults, c: ClusterState, c': ClusterState, now: int,
                           password: Name -> string)
    requires DistinctCluster(c.objects) && c'.objects == c.objects
    requires !GatewayWrites(cfg, f, c).failed && c'.gateways == GatewayWrites(cfg, f, c).statuses
    ensures GatewayWrites(cfg, Again(f, now, password), c') == Written(c'.gateways, {}, false)
  {
    var served := ServedBy(cfg, c.objects);
    GatewaySubjectsDistinct(c.objects.gateways, served);
    GatewayTargetSettles(f.now, now);
    SecondLoopIsSilent(c.gateways, [], GatewaySubjects(c.objects.gateways, served), GatewayTarget(f.now),
                       GatewayTarget(now), f.gatewayStatus);
  }

  lemma ResourceWritesAgain(cfg: Config, f: Faults, c: ClusterState, c': ClusterState, applied: bool,
                            verdicts: map<Name, ResourceVerdict>, now: int, password: Name -> string)
    requires DistinctCluster(c.objects) && c'.objects == c.objects
    requires !ResourceWrites(cfg, f, c, applied, verdicts).failed
    requires c'.resources == ResourceWrites(cfg, f, c, applied, verdicts).statuses
    ensures ResourceWrites(cfg, Again(f, now, password), c', applied, verdicts) == Written(c'.resources, {}, false)
  {
    Truth.SubjectsDistinct(c.objects);
    KeyTargetSettles(cfg.dryRun, applied, f.now, now, verdicts);
    SecondLoopIsSilent(c.resources, NO_STATUS, ResourceSubjects(c.objects.resources),
                       KeyTarget(cfg.dryRun, applied, f.now, verdicts), KeyTarget(cfg.dryRun, applied, now, verdicts),
                       f.resourceStatus);
  }

  lemma PolicyWritesAgain(cfg: Config, f: Faults, c: ClusterState, c': ClusterState, applied: bool,
                          verdicts: map<Name, ResourceVerdict>, now: int, password: Name -> string)
    requires DistinctCluster(c.objects) && c'.objects == c.objects && !PolicyWrites(cfg, f, c, applied, verdicts).failed
    requires c'.policies == PolicyWrites(cfg, f, c, applied, verdicts).statuses
    ensures PolicyWrites(cfg, Again(f, now, password), c', applied, verdicts) == Written(c'.policies, {}, false)
  {
    Truth.SubjectsDistinct(c.objects);
    KeyTargetSettles(cfg.dryRun, applied, f.now, now, verdicts);
    SecondLoopIsSilent(c.policies, NO_STATUS, PolicySubjects(c.objects.policies),
                       KeyTarget(cfg.dryRun, applied, f.now, verdicts), KeyTarget(cfg.dryRun, applied, now, verdicts),
                       f.policyStatus);
  }

  /** Statuses as they are, and no write attempted. */
  function Silence(c: ClusterState): Statuses {
    Statuses(Written(c.routes, {}, false), Written(c.classes, {}, false), Written(c.gateways, {}, false),
             Written(c.resources, {}, false), Written(c.policies, {}, false))
  }

  /** The second status stage, given the same verdicts and answer, writes nothing. */
  lemma StatusesAgain(cfg: Config, f: Faults, c: ClusterState, applied: bool, routes: map<Name, Verdict>,
                      resources: map<Name, ResourceVerdict>, policies: map<Name, ResourceVerdict>,
                      now: int, password: Name -> string)
    requires DistinctCluster(c.objects) && !StatusFailed(WritesOf(cfg, f, c, applied, routes, resources, policies))
    ensures var c' := WithStatuses(c, WritesOf(cfg, f, c, applied, routes, resources, policies));
            WritesOf(cfg, Again(f, now, password), c', applied, routes, resources, policies) == Silence(c')
  {
    hide WriteAll;
    var c' := WithStatuses(c, WritesOf(cfg, f, c, applied, routes, resources, policies));
    RouteWritesAgain(cfg, f, c, c', routes, now, password);
    ClassWritesAgain(cfg, f, c, c', now, password);
    GatewayWritesAgain(cfg, f, c, c', now, password);
    ResourceWritesAgain(cfg, f, c, c', applied, resources, now, password);
    PolicyWritesAgain(cfg, f, c, c', applied, policies, now, password);
  }

  // ---------- the pass, twice ----------

  lemma SideOfFinished(w: World, cfg: Config, f: Faults, c: ClusterState, s: ServerState, r: Rendered,
                       mtls: map<Name, MTLSResult>, mid: ServerState)
    requires AfterApply(w, cfg, f, s, r.blueprint, mid)
    ensures ServerSide(w, cfg, f, s, r.blueprint, mid, Finished(w, cfg, f, c, s, r, mtls, mid).s)
  {
    hide AfterApply, PruneAll, StatusWrites, Accepts;
  }

  /** The pass did all it set out to do: no status write failed, nor any part of the prune
      if there was one. */
  ghost predicate Landed(w: World, cfg: Config, f: Faults, c: ClusterState, s: ServerState, r: Rendered,
                         mtls: map<Name, MTLSResult>, mid: ServerState)
  {
    var applied := Accepts(w, cfg, f, s, r.blueprint);
    && !StatusFailed(StatusWrites(w, cfg, f, c, mid, applied, r, mtls))
    && (applied ==> !PruneAll(cfg, f, mid, r.blueprint).failed)
  }

  /** The status stage of the second pass, in the state the first one left. */
  lemma StatusWritesAgain(w: World, cfg: Config, f: Faults, c: ClusterState, s: ServerState, r: Rendered,
                          mtls: map<Name, MTLSResult>, mid: ServerState, s': ServerState, applied: bool,
                          now: int, password: Name -> string)
    requires ValidState(s) && DistinctCluster(c.objects) && Alone(f) && CheckedArePublic(r, mtls)
    requires ServerSide(w, cfg, f, s, r.blueprint, mid, s') && applied == Accepts(w, cfg, f, s, r.blueprint)
    requires !StatusFailed(StatusWrites(w, cfg, f, c, mid, applied, r, mtls))
    ensures var c' := WithStatuses(c, StatusWrites(w, cfg, f, c, mid, applied, r, mtls));
            StatusWrites(w, cfg, Again(f, now, password), c', s', applied, r, mtls) == Silence(c')
  {
    hide WritesOf, PruneAll, Accepts, AfterApply, VerifiedAll;
    if applied { JudgesTheSame(w, cfg, f, s, r, mtls, mid, s', now, password); }
    StatusesAgain(cfg, f, c, applied, JudgedRoutes(w, cfg, f, mid, applied, r.routes, mtls), r.resources, r.policies,
                  now, password);
  }

  /** The server's side of the second pass, after an accepted one. */
  lemma ServerAgain(w: World, cfg: Config, f: Faults, s: ServerState, b: Blueprint, mid: ServerState, s': ServerState,
                    now: int, password: Name -> string, mid': ServerState)
    requires ValidState(s) && Alone(f) && ClosedPolicies(b)
    requires ServerSide(w, cfg, f, s, b, mid, s') && Accepts(w, cfg, f, s, b) && !PruneAll(cfg, f, mid, b).failed
    requires AfterApply(w, cfg, Again(f, now, password), s', b, mid')
    ensures Accepts(w, cfg, Again(f, now, password), s', b) && mid' == s'
    ensures PruneAll(cfg, Again(f, now, password), mid', b).policies.s == s'
    ensures !PruneAll(cfg, Again(f, now, password), mid', b).failed
  {
    hide Acceptable, Applied, PruneAll;
    SamePrune(cfg, f, mid', b, now, password);
    SideAgain(w, cfg, f, s, b, mid, s', mid',
              if Accepts(w, cfg, f, s', b) then PruneAll(cfg, f, mid', b).policies.s else mid');
  }

  /** And after a refused one. */
  lemma RefusedAgain(w: World, cfg: Config, f: Faults, s: ServerState, b: Blueprint, now: int, password: Name -> string,
                     mid': ServerState)
    requires !Accepts(w, cfg, f, s, b) && AfterApply(w, cfg, Again(f, now, password), s, b, mid')
    ensures !Accepts(w, cfg, Again(f, now, password), s, b) && mid' == s
  {
    hide Acceptable, Applied;
  }

  lemma LandedMeans(w: World, cfg: Config, f: Faults, c: ClusterState, s: ServerState, r: Rendered,
                    mtls: map<Name, MTLSResult>, mid: ServerState)
    requires AfterApply(w, cfg, f, s, r.blueprint, mid) && Landed(w, cfg, f, c, s, r, mtls, mid)
    ensures var o, applied := Finished(w, cfg, f, c, s, r, mtls, mid), Accepts(w, cfg, f, s, r.blueprint);
      && o.ok == applied && o.c == WithStatuses(c, StatusWrites(w, cfg, f, c, mid, applied, r, mtls))
      && (!applied ==> mid == s && o.s == s)
  {
    hide Acceptable, Applied, PruneAll, StatusWrites;
  }

  lemma SilentFinish(w: World, cfg: Config, f: Faults, c: ClusterState, s: ServerState, r: Rendered,
                     mtls: map<Name, MTLSResult>)
    requires var b := r.blueprint;
             Accepts(w, cfg, f, s, b) ==> PruneAll(cfg, f, s, b).policies.s == s && !PruneAll(cfg, f, s, b).failed
    requires StatusWrites(w, cfg, f, c, s, Accepts(w, cfg, f, s, r.blueprint), r, mtls) == Silence(c)
    ensures Finished(w, cfg, f, c, s, r, mtls, s) == PassEnd(c, s, Accepts(w, cfg, f, s, r.blueprint), NO_ATTEMPTS)
  {
    hide Accepts, PruneAll, StatusWrites;
  }

  /** The pass after the render, run a second time. */
  lemma FinishAgain(w: World, cfg: Config, f: Faults, c: ClusterState, s: ServerState, r: Rendered,
                    mtls: map<Name, MTLSResult>, mid: ServerState, now: int,
                    password: Name -> string, mid': ServerState)
    requires ValidState(s) && DistinctCluster(c.objects) && Alone(f) && ClosedPolicies(r.blueprint)
    requires CheckedArePublic(r, mtls)
    requires AfterApply(w, cfg, f, s, r.blueprint, mid) && Landed(w, cfg, f, c, s, r, mtls, mid)
    requires AfterApply(w, cfg, Again(f, now, password), Finished(w, cfg, f, c, s, r, mtls, mid).s, r.blueprint, mid')
    ensures var o := Finished(w, cfg, f, c, s, r, mtls, mid);
      && mid' == o.s
      && Finished(w, cfg, Again(f, now, password), o.c, o.s, r, mtls, mid') == PassEnd(o.c, o.s, o.ok, NO_ATTEMPTS)
  {
    hide Acceptable, Applied, PruneAll, StatusWrites, Finished, AfterApply, Accepts, ServerSide;
    var o, applied := Finished(w, cfg, f, c, s, r, mtls, mid), Accepts(w, cfg, f, s, r.blueprint);
    LandedMeans(w, cfg, f, c, s, r, mtls, mid);
    SideOfFinished(w, cfg, f, c, s, r, mtls, mid);
    if applied {
      ServerAgain(w, cfg, f, s, r.blueprint, mid, o.s, now, password, mid');
    } else {
      RefusedAgain(w, cfg, f, s, r.blueprint, now, password, mid');
    }
    StatusWritesAgain(w, cfg, f, c, s, r, mtls, mid, o.s, applied, now, password);
    SilentFinish(w, cfg, Again(f, now, password), o.c, o.s, r, mtls);
  }

  /** The inputs and the state the first pass ends with, as the second one reads them. */
  lemma FirstPassRead(w: World, cfg: Config, f: Faults, c: ClusterState, s: ServerState, mid: ServerState, o: PassEnd)
    requires ValidState(s) && PassResult(w, cfg, f, c, s, mid, o) && Preparation(w, cfg, c, s, f).Ready? && Alone(f)
    ensures SameReads(c, s, Preparation(w, cfg, c, s, f).secrets, o.c, o.s)
  {
    hide *;
    PassEnds(w, cfg, f, c, s, mid, o);
    var r, input := RenderedOf(w, InputOf(w, cfg, c, s, f)), InputOf(w, cfg, c, s, f);
    FinishedReads(w, cfg, f, c, s, Preparation(w, cfg, c, s, f).secrets, r, input.mtls, mid);
  }

  lemma FinishedReads(w: World, cfg: Config, f: Faults, c: ClusterState, s: ServerState, secrets: map<Name, Secret>,
                      r: Rendered, mtls: map<Name, MTLSResult>, mid: ServerState)
    requires AfterApply(w, cfg, f, s, r.blueprint, mid)
    ensures var o := Finished(w, cfg, f, c.(secrets := secrets), s, r, mtls, mid); SameReads(c, s, secrets, o.c, o.s)
  {
    hide Acceptable, PruneAll, StatusWrites, Merged, StoredCAs, CAsPass;
    Truth.PruneKeepsSettings(cfg, f, mid, r.blueprint);
  }

  /** What the second pass of a pair needs of the first one's render. */
  lemma RenderIsCheckable(w: World, cfg: Config, f: Faults, c: ClusterState, s: ServerState)
    requires DistinctCluster(c.objects) && Preparation(w, cfg, c, s, f).Ready?
    ensures var input := InputOf(w, cfg, c, s, f); var r := RenderedOf(w, input);
            ClosedPolicies(r.blueprint) && CheckedArePublic(r, input.mtls)
  {
    hide *;
    var input := InputOf(w, cfg, c, s, f);
    PreparedInputs(w, cfg, c, s, f);
    PreparedCAsAreRequested(w, cfg, c, s, f);
    RenderedPoliciesClosed(w, input);
    RenderedChecksPublic(w, input);
  }

  /** The pass in hand, as Landed speaks of it. */
  ghost predicate PassLanded(w: World, cfg: Config, f: Faults, c: ClusterState, s: ServerState, mid: ServerState) {
    var secrets, input := Preparation(w, cfg, c, s, f).secrets, InputOf(w, cfg, c, s, f);
    && Preparation(w, cfg, c, s, f).Ready?
    && Landed(w, cfg, f, c.(secrets := secrets), s, RenderedOf(w, input), input.mtls, mid)
  }

  /** A pass that landed, accepted or refused, run again over the same cluster with the
      same call outcomes, no other client in between and any passwords it might draw: the
      same inputs, the same server, the same answer and no status written. */
  lemma LandedPassRepeatsSilently(w: World, cfg: Config, f: Faults, c: ClusterState, s: ServerState, mid: ServerState,
                                  o: PassEnd, now: int, password: Name -> string, mid': ServerState, o': PassEnd)
    requires ValidState(s) && DistinctCluster(c.objects) && ProperRoutes(c.objects, f.secrets) && Alone(f)
    requires PassResult(w, cfg, f, c, s, mid, o) && PassLanded(w, cfg, f, c, s, mid)
    requires PassResult(w, cfg, Again(f, now, password), o.c, o.s, mid', o')
    ensures Preparation(w, cfg, o.c, o.s, Again(f, now, password)) == Preparation(w, cfg, c, s, f)
    ensures mid' == o.s && o' == PassEnd(o.c, o.s, o.ok, NO_ATTEMPTS)
  {
    hide RenderedOf, Preparation, PassResult, Landed, AfterApply, Finished, InputOf;
    var f', secrets, input := Again(f, now, password), Preparation(w, cfg, c, s, f).secrets, InputOf(w, cfg, c, s, f);
    FirstPassRead(w, cfg, f, c, s, mid, o);
    PreparesTheSame(w, cfg, c, s, f, o.c, o.s, now, password);
    SameInput(w, cfg, c, s, f, o.c, o.s, f');
    RenderIsCheckable(w, cfg, f, c, s);
    PassEnds(w, cfg, f, c, s, mid, o);
    PassEnds(w, cfg, f', o.c, o.s, mid', o');
    assert o.c.(secrets := secrets) == o.c;
    FinishAgain(w, cfg, f, c.(secrets := secrets), s, RenderedOf(w, input), input.mtls, mid, now, password, mid');
  }

  lemma SameInput(w: World, cfg: Config, c: ClusterState, s: ServerState, f: Faults, c': ClusterState,
                  s': ServerState, f': Faults)
    requires Preparation(w, cfg, c', s', f') == Preparation(w, cfg, c, s, f) && Preparation(w, cfg, c, s, f).Ready?
    ensures InputOf(w, cfg, c', s', f') == InputOf(w, cfg, c, s, f)
  {
    hide Preparation;
  }

  /** A successful pass settles. */
  lemma SecondPassIsSilent(w: World, cfg: Config, f: Faults, c: ClusterState, s: ServerState, mid: ServerState,
                           o: PassEnd, now: int, password: Name -> string, mid': ServerState, o': PassEnd)
    requires ValidState(s) && DistinctCluster(c.objects) && ProperRoutes(c.objects, f.secrets) && Alone(f)
    requires PassResult(w, cfg, f, c, s, mid, o) && o.ok
    requires PassResult(w, cfg, Again(f, now, password), o.c, o.s, mid', o')
    ensures Preparation(w, cfg, o.c, o.s, Again(f, now, password)) == Preparation(w, cfg, c, s, f)
    ensures mid' == o.s && o' == PassEnd(o.c, o.s, true, NO_ATTEMPTS)
  {
    hide *;
    SuccessLands(w, cfg, f, c, s, mid, o);
    LandedPassRepeatsSilently(w, cfg, f, c, s, mid, o, now, password, mid', o');
  }

  lemma SuccessLands(w: World, cfg: Config, f: Faults, c: ClusterState, s: ServerState, mid: ServerState, o: PassEnd)
    requires PassResult(w, cfg, f, c, s, mid, o) && o.ok
    ensures PassLanded(w, cfg, f, c, s, mid)
  {
    hide RenderedOf, Preparation, Accepts, AfterApply, PruneAll, StatusWrites, InputOf;
    PassEnds(w, cfg, f, c, s, mid, o);
  }

  /** So does a refused one whose status writes landed: it fails again and again without
      writing anything. */
  lemma RefusedPassRepeatsSilently(w: World, cfg: Config, f: Faults, c: ClusterState, s: ServerState, mid: ServerState,
                                   o: PassEnd, now: int, password: Name -> string, mid': ServerState, o': PassEnd)
    requires ValidState(s) && DistinctCluster(c.objects) && ProperRoutes(c.objects, f.secrets) && Alone(f)
    requires PassResult(w, cfg, f, c, s, mid, o) && Preparation(w, cfg, c, s, f).Ready? && StatusesLand(f)
    requires !Accepts(w, cfg, f, s, RenderedOf(w, InputOf(w, cfg, c, s, f)).blueprint)
    requires PassResult(w, cfg, Again(f, now, password), o.c, o.s, mid', o')
    ensures Preparation(w, cfg, o.c, o.s, Again(f, now, password)) == Preparation(w, cfg, c, s, f)
    ensures o.s == s && !o.ok && mid' == s && o' == PassEnd(o.c, s, false, NO_ATTEMPTS)
  {
    hide RenderedOf, Preparation, PassResult, Accepts, AfterApply, Finished, InputOf, StatusWrites, PruneAll;
    var secrets, input := Preparation(w, cfg, c, s, f).secrets, InputOf(w, cfg, c, s, f);
    PassEnds(w, cfg, f, c, s, mid, o);
    LandedStatusesDoNotFail(w, cfg, f, c.(secrets := secrets), mid, false, RenderedOf(w, input), input.mtls);
    LandedMeans(w, cfg, f, c.(secrets := secrets), s, RenderedOf(w, input), input.mtls, mid);
    LandedPassRepeatsSilently(w, cfg, f, c, s, mid, o, now, password, mid', o');
  }
}
