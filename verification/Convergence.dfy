/** A pass in which no call to the server fails makes the controller's part of it equal
    to the blueprint, or is refused and changes nothing. */
module Convergence {
  import opened Types
  import opened Render
  import opened Server
  import opened Secrets
  import opened Prune
  import opened Pass
  import opened Safety
  import opened ClusterObjects
  import opened Acceptance
  import RenderLaws

  /** No apply, listing or delete fails, and no other client acts during the prune. */
  ghost predicate Calm(f: Faults) {
    !f.apply && forall sec :: !f.lists(sec) && Quiet(f.weather(sec)) && forall id :: !f.weather(sec).deleteFails(id)
  }

  /** Every policy a public entry of the document names is in the document. */
  ghost predicate ClosedPolicies(b: Blueprint) {
    forall k :: k in b.public && b.public[k].policy != "" ==> b.public[k].policy in b.policies
  }

  function ForeignRows<V>(m: map<string, V>): map<string, V> { map k | k in m && !Ours(k) :: m[k] }

  /** The prefixed rows are the document's, the others are as they were, and a row that
      was there before has its old id. */
  ghost predicate TableConverged<V>(t: Table<V>, doc: map<string, V>, t': Table<V>) {
    && t'.rows == ForeignRows(t.rows) + doc
    && t'.ids.Keys == t'.rows.Keys
    && (forall k :: k in t'.ids && k in t.ids ==> t'.ids[k] == t.ids[k])
    && (forall k :: k in t'.ids && k !in t.ids ==> t.next <= t'.ids[k])
  }

  /** A resource the controller does not own names the policy. */
  ghost predicate NamedByForeign(s: ServerState, policy: string) {
    exists r :: r in s.public.rows && !Ours(r) && s.public.rows[r].policy == policy
  }

  /** The policies a calm licensed pass leaves: the document's, those without the prefix,
      and the prefixed ones a foreign resource still names. */
  ghost predicate PoliciesConverged(s: ServerState, b: Blueprint, s': ServerState) {
    && (forall k ::
         LiveAt(s', PolicySection, k).Absent?
         <==> k !in b.policies && (k !in s.policies.rows || (Ours(k) && !NamedByForeign(s, k))))
    && (forall k :: k in s'.policies.rows && k in b.policies ==> s'.policies.rows[k] == b.policies[k])
    && (forall k :: k in s'.policies.rows && k !in b.policies ==>
         k in s.policies.rows && s'.policies.rows[k] == s.policies.rows[k])
  }

  ghost predicate Converged(s: ServerState, b: Blueprint, s': ServerState) {
    && TableConverged(s.public, b.public, s'.public)
    && TableConverged(s.private, b.private, s'.private)
  }

  // ---------- one section ----------

  ghost function Orphans(s: ServerState, sec: Section, desired: set<string>): set<string> {
    set k | k in IdsOf(s, sec) && Ours(k) && k !in desired
  }

  /** A calm prune of public or private resources removes every orphan. */
  lemma CalmSection(s: ServerState, sec: Section, desired: set<string>, e: Weather)
    requires ValidState(s) && Quiet(e) && !sec.PolicySection? && forall id :: !e.deleteFails(id)
    ensures var p := PruneOutcome(s, sec, desired, false, false, e);
      && p.s == Without(s, sec, Orphans(s, sec, desired), GoneIds(s, sec, RowsOf(s, sec), desired, e)) && !p.failed
  {
    QuietPruneIsExact(s, sec, desired, e);
    assert Doomed(s, sec, desired, e) == Orphans(s, sec, desired);
  }

  /** A calm prune of policies removes every orphan nothing names. */
  lemma CalmPolicies(s: ServerState, desired: set<string>, e: Weather)
    requires ValidState(s) && Quiet(e) && s.licensed && forall id :: !e.deleteFails(id)
    ensures var p := PruneOutcome(s, PolicySection, desired, false, false, e);
            var gone := set k | k in Orphans(s, PolicySection, desired) && !Named(s, k);
            p.s == Without(s, PolicySection, gone, GoneIds(s, PolicySection, RowsOf(s, PolicySection), desired, e))
  {
    QuietPruneIsExact(s, PolicySection, desired, e);
    var gone := set k | k in Orphans(s, PolicySection, desired) && !Named(s, k);
    DoomedPolicies(s, desired, e, gone);
  }

  lemma DoomedPolicies(s: ServerState, desired: set<string>, e: Weather, gone: set<string>)
    requires s.licensed && forall id :: !e.deleteFails(id)
    requires gone == set k | k in Orphans(s, PolicySection, desired) && !Named(s, k)
    ensures Doomed(s, PolicySection, desired, e) == gone
  {
    forall k ensures k in Doomed(s, PolicySection, desired, e) <==> k in gone {}
  }

  lemma TableConverges<V>(t: Table<V>, doc: map<string, V>, mid: Table<V>, drop: set<string>, log: seq<int>)
    requires ValidTable(t) && Merged(t, doc, mid) && (forall k :: k in doc ==> Ours(k))
    requires drop == set k | k in mid.ids && Ours(k) && k !in doc
    ensures TableConverged(t, doc, DropRows(mid, drop, log))
  {
    hide Injective;
    var left, want := mid.rows - drop, ForeignRows(t.rows) + doc;
    forall k ensures k in left <==> k in want {}
    forall k | k in left ensures left[k] == want[k] {}
    assert left == want;
    assert (mid.ids - drop).Keys == left.Keys;
  }

  // ---------- the whole prune ----------

  /** One calm section of the pass. */
  lemma CalmStage(cfg: Config, f: Faults, s: ServerState, b: Blueprint, sec: Section) returns (log: seq<int>)
    requires ValidState(s) && Calm(f) && !cfg.dryRun && !sec.PolicySection?
    ensures var p := Pruning(cfg, f, s, b, sec);
            p.s == Without(s, sec, Orphans(s, sec, Desired(b, sec)), log) && !p.failed && ValidState(p.s)
  {
    CalmSection(s, sec, Desired(b, sec), f.weather(sec));
    PruneIsSafe(s, sec, Desired(b, sec), false, false, f.weather(sec));
    log := GoneIds(s, sec, RowsOf(s, sec), Desired(b, sec), f.weather(sec));
  }

  lemma CalmPruneConverges(w: World, cfg: Config, f: Faults, s: ServerState, b: Blueprint, mid: ServerState)
    requires ValidState(s) && Applied(w, s, b, mid) && Calm(f) && OursOnly(b) && !cfg.dryRun
    ensures var p := PruneAll(cfg, f, mid, b);
      && Converged(s, b, p.private.s) && p.private.s.policies == mid.policies && p.private.s.licensed == s.licensed
      && ValidState(p.private.s) && !p.public.failed && !p.private.failed
  {
    hide IdsKept, CAsPass, StoredCAs;
    assert forall k :: k in b.public ==> k in Desired(b, PublicSection);
    assert forall k :: k in b.private ==> k in Desired(b, PrivateSection);
    var log := CalmStage(cfg, f, mid, b, PublicSection);
    var p := Pruning(cfg, f, mid, b, PublicSection);
    TableConverges(s.public, b.public, mid.public, Orphans(mid, PublicSection, b.public.Keys), log);
    var log' := CalmStage(cfg, f, p.s, b, PrivateSection);
    TableConverges(s.private, b.private, p.s.private, Orphans(p.s, PrivateSection, b.private.Keys), log');
  }

  /** Once the public section has converged, a prefixed policy outside the document is
      named exactly if a foreign resource names it. */
  lemma NamedMeansForeign(s: ServerState, b: Blueprint, q: ServerState, k: string)
    requires TableConverged(s.public, b.public, q.public) && ClosedPolicies(b) && OursOnly(b) && k !in b.policies
    requires Ours(k)
    ensures Named(q, k) <==> NamedByForeign(s, k)
  {
    if Named(q, k) {
      var r :| r in q.public.rows && q.public.rows[r].policy == k;
      assert r !in b.public;
      assert r in s.public.rows && !Ours(r);
    }
    if NamedByForeign(s, k) {
      var r :| r in s.public.rows && !Ours(r) && s.public.rows[r].policy == k;
      assert r in ForeignRows(s.public.rows);
      assert r !in Desired(b, PublicSection);
      assert q.public.rows[r].policy == k;
    }
  }

  /** Public and private first, then the policies they may have named. */
  lemma CalmPruneOrdersPolicies(w: World, cfg: Config, f: Faults, s: ServerState, b: Blueprint, mid: ServerState)
    requires ValidState(s) && Applied(w, s, b, mid) && Calm(f) && OursOnly(b) && ClosedPolicies(b)
    requires !cfg.dryRun && cfg.licensed && s.licensed
    ensures PoliciesConverged(s, b, PruneAll(cfg, f, mid, b).policies.s)
  {
    hide ValidTable, IdsKept, Calm, Orphans, PoliciesConverged, ClosedPolicies, OursOnly, TableConverged, PruneOutcome;
    CalmPruneConverges(w, cfg, f, s, b, mid);
    var q := PruneAll(cfg, f, mid, b).private.s;
    var gone := set k | k in Orphans(q, PolicySection, b.policies.Keys) && !Named(q, k);
    PoliciesLeft(cfg, f, b, q, gone);
    PoliciesSettle(s, b, mid, q, gone, PruneAll(cfg, f, mid, b).policies.s);
  }

  /** What is left without those that go is what convergence asks for. */
  lemma PoliciesSettle(s: ServerState, b: Blueprint, mid: ServerState, q: ServerState, gone: set<string>,
                       fin: ServerState)
    requires ValidTable(s.policies) && Merged(s.policies, b.policies, mid.policies) && q.policies == mid.policies
    requires TableConverged(s.public, b.public, q.public) && ClosedPolicies(b) && OursOnly(b)
    requires gone == set x | x in Orphans(q, PolicySection, b.policies.Keys) && !Named(q, x)
    requires fin.policies.rows == mid.policies.rows - gone && fin.policies.ids == mid.policies.ids - gone
    ensures PoliciesConverged(s, b, fin)
  {
    hide IdsKept, NamedByForeign, ClosedPolicies, OursOnly, TableConverged, Injective, Named;
    SameKeys(mid.policies);
    forall k
      ensures LiveAt(fin, PolicySection, k).Absent?
              <==> k !in b.policies && (k !in s.policies.rows || (Ours(k) && !NamedByForeign(s, k)))
    {
      PolicyFate(s, b, mid, q, gone, k);
    }
  }

  lemma SameKeys<V>(t: Table<V>)
    requires ValidTable(t)
    ensures t.ids.Keys == t.rows.Keys
  {}

  lemma PoliciesLeft(cfg: Config, f: Faults, b: Blueprint, q: ServerState, gone: set<string>)
    requires ValidState(q) && Calm(f) && !cfg.dryRun && q.licensed
    requires gone == set k | k in Orphans(q, PolicySection, b.policies.Keys) && !Named(q, k)
    ensures var t := Pruning(cfg, f, q, b, PolicySection).s.policies;
            t.rows == q.policies.rows - gone && t.ids == q.policies.ids - gone
  {
    hide PruneOutcome, ValidTable, Named;
    CalmPolicies(q, b.policies.Keys, f.weather(PolicySection));
  }

  lemma PolicyFate(s: ServerState, b: Blueprint, mid: ServerState, q: ServerState, gone: set<string>, k: string)
    requires ValidTable(s.policies) && Merged(s.policies, b.policies, mid.policies) && q.policies == mid.policies
    requires TableConverged(s.public, b.public, q.public) && ClosedPolicies(b) && OursOnly(b)
    requires gone == set x | x in Orphans(q, PolicySection, b.policies.Keys) && !Named(q, x)
    ensures k !in mid.policies.rows - gone
            <==> k !in b.policies && (k !in s.policies.rows || (Ours(k) && !NamedByForeign(s, k)))
  {
    if Ours(k) && k !in b.policies { NamedMeansForeign(s, b, q, k); }
  }

  lemma PoliciesLastKeeps(cfg: Config, f: Faults, s: ServerState, b: Blueprint)
    requires Calm(f)
    ensures var p := PruneAll(cfg, f, s, b);
            p.policies.s.public == p.private.s.public && p.policies.s.private == p.private.s.private
  {
    var q := PruneAll(cfg, f, s, b).private.s;
    RowsKeepTables(q, RowsOf(q, PolicySection), b.policies.Keys, cfg.dryRun, f.weather(PolicySection));
  }

  lemma {:induction false} RowsKeepTables(s: ServerState, rows: seq<Row>, desired: set<string>,
                                          dryRun: bool, e: Weather)
    requires Quiet(e)
    ensures var p := PruneRows(s, PolicySection, rows, desired, dryRun, e);
            p.s.public == s.public && p.s.private == s.private
  {
    if rows != [] { RowsKeepTables(s, rows[..|rows| - 1], desired, dryRun, e); }
  }

  /** The server's side of a calm, accepted pass. */
  lemma CalmSideConverges(w: World, cfg: Config, f: Faults, s: ServerState, b: Blueprint, mid: ServerState,
                          s': ServerState)
    requires ValidState(s) && ServerSide(w, cfg, f, s, b, mid, s') && Calm(f) && OursOnly(b) && ClosedPolicies(b)
    requires !cfg.dryRun && Acceptable(w, s, b) && (cfg.licensed ==> s.licensed)
    ensures Converged(s, b, s') && !PruneAll(cfg, f, mid, b).failed
    ensures cfg.licensed ==> PoliciesConverged(s, b, s')
  {
    CalmPruneConverges(w, cfg, f, s, b, mid);
    PoliciesLastKeeps(cfg, f, mid, b);
    if cfg.licensed { CalmPruneOrdersPolicies(w, cfg, f, s, b, mid); }
  }

  // ---------- the pass ----------

  lemma RenderedPoliciesClosed(w: World, input: Inputs)
    requires DistinctObjects(input)
    ensures ClosedPolicies(RenderedOf(w, input).blueprint)
  {
    hide RenderedOf;
    var b := RenderedOf(w, input).blueprint;
    forall k | k in b.public && b.public[k].policy != "" ensures b.public[k].policy in b.policies {
      var r, p := RenderLaws.PolicyReferenceIntegrity(w, input, k);
    }
  }

  /** A pass whose listings succeed renders with the server's own names. */
  lemma ListedPassIsInformed(w: World, cfg: Config, c: ClusterState, s: ServerState, f: Faults)
    requires ValidWorld(w) && DistinctCluster(c.objects) && !f.sites && !f.machines && !f.users
    requires Preparation(w, cfg, c, s, f).Ready?
    ensures Informed(w, InputOf(w, cfg, c, s, f), s)
  {
    PreparedInputs(w, cfg, c, s, f);
    var input := InputOf(w, cfg, c, s, f);
    var known := KnownInputs(cfg, c.objects, s, f);
    var served := ServedRoutes(known.routes, known);
    var auth := BasicAuthAll(w, c.secrets, served, cfg.dryRun, f.secrets);
    forall n | n in input.mtls && input.mtls[n].Trusted? ensures CleanCAs(w, input.mtls[n].certificates) {
      ResolvedCAsAreClean(w, auth.secrets, c.configMaps, served, f.caReads, n);
    }
  }

  lemma UnlicensedBlueprint(w: World, input: Inputs)
    requires DistinctObjects(input) && !input.licensed
    ensures RenderedOf(w, input).blueprint.policies == map[]
  {
    RenderLaws.UnlicensedNamesNoPolicy(w, input, "");
  }

  /** From any server state, a pass whose calls to the server all succeed either meets a
      document the server refuses, exactly when a policy name is too long or a stored
      resource outside the document holds one of its aliases, and changes nothing; or
      ends with the prefixed public and private entries equal to the blueprint, the
      others untouched, and the only prefixed policies outside it those a foreign
      resource names. */
  lemma CalmPassConvergesOrChangesNothing(w: World, cfg: Config, f: Faults, c: ClusterState, s: ServerState,
                                          mid: ServerState, o: PassEnd)
    requires ValidWorld(w) && ValidState(s) && DistinctCluster(c.objects) && PassResult(w, cfg, f, c, s, mid, o)
    requires Preparation(w, cfg, c, s, f).Ready? && !cfg.dryRun && (cfg.licensed ==> s.licensed)
    requires !f.sites && !f.machines && !f.users && Calm(f)
    ensures var b := RenderedOf(w, InputOf(w, cfg, c, s, f)).blueprint;
      if PolicyNamesFit(b) && AliasesFree(s, b)
      then Converged(s, b, o.s) && (cfg.licensed ==> PoliciesConverged(s, b, o.s))
      else o.s == s && !o.ok
  {
    hide RenderedOf, Preparation, Accepts;
    var input := InputOf(w, cfg, c, s, f);
    PreparedInputs(w, cfg, c, s, f);
    ListedPassIsInformed(w, cfg, c, s, f);
    ServerSideOfPass(w, cfg, f, c, s, mid, o);
    CalmInformedPass(w, cfg, f, s, input, mid, o.s);
  }

  lemma CalmInformedPass(w: World, cfg: Config, f: Faults, s: ServerState, input: Inputs, mid: ServerState,
                         s': ServerState)
    requires Informed(w, input, s) && ValidState(s) && input.licensed == cfg.licensed && !cfg.dryRun
    requires (cfg.licensed ==> s.licensed) && Calm(f)
    requires ServerSide(w, cfg, f, s, RenderedOf(w, input).blueprint, mid, s')
    ensures var b := RenderedOf(w, input).blueprint;
      && (Accepts(w, cfg, f, s, b) <==> PolicyNamesFit(b) && AliasesFree(s, b))
      && if PolicyNamesFit(b) && AliasesFree(s, b)
         then Converged(s, b, s') && (cfg.licensed ==> PoliciesConverged(s, b, s'))
         else s' == s
  {
    hide RenderedOf;
    var b := RenderedOf(w, input).blueprint;
    AcceptedExactlyWhenClear(w, input, s);
    if !cfg.licensed { UnlicensedBlueprint(w, input); }
    RenderedIsOurs(w, input);
    RenderedPoliciesClosed(w, input);
    if Acceptable(w, s, b) { CalmSideConverges(w, cfg, f, s, b, mid, s'); }
  }

  /** No status write fails. */
  ghost predicate StatusesLand(f: Faults) {
    forall n :: !f.routeStatus(n) && !f.classStatus(n) && !f.gatewayStatus(n) && !f.resourceStatus(n)
      && !f.policyStatus(n)
  }

  lemma LandedStatusesDoNotFail(w: World, cfg: Config, f: Faults, c: ClusterState, mid: ServerState, applied: bool,
                                r: Rendered, mtls: map<Name, MTLSResult>)
    requires StatusesLand(f)
    ensures !StatusFailed(StatusWrites(w, cfg, f, c, mid, applied, r, mtls))
  {
    hide WriteAll, JudgedRoutes, ClassSubjects, GatewaySubjects;
    var o, served := c.objects, ServedBy(cfg, c.objects);
    FailuresComeFromWrites(c.routes, [], RouteSubjects(o.routes),
                           RouteTarget(cfg.controllerName, f.now,
                             JudgedRoutes(w, cfg, f, mid, applied, r.routes, mtls)),
                           f.routeStatus);
    FailuresComeFromWrites(c.classes, [], ClassSubjects(o.classes, served), ClassTarget(f.now), f.classStatus);
    FailuresComeFromWrites(c.gateways, [], GatewaySubjects(o.gateways, served), GatewayTarget(f.now), f.gatewayStatus);
    FailuresComeFromWrites(c.resources, NO_STATUS, ResourceSubjects(o.resources),
                           KeyTarget(cfg.dryRun, applied, f.now, r.resources), f.resourceStatus);
    FailuresComeFromWrites(c.policies, NO_STATUS, PolicySubjects(o.policies),
                           KeyTarget(cfg.dryRun, applied, f.now, r.policies), f.policyStatus);
  }

  lemma FinishedSucceedsIff(w: World, cfg: Config, f: Faults, c: ClusterState, s: ServerState, r: Rendered,
                            mtls: map<Name, MTLSResult>, mid: ServerState)
    requires ValidState(s) && Calm(f) && StatusesLand(f) && !cfg.dryRun && (cfg.licensed ==> s.licensed)
    requires OursOnly(r.blueprint) && ClosedPolicies(r.blueprint) && AfterApply(w, cfg, f, s, r.blueprint, mid)
    ensures Finished(w, cfg, f, c, s, r, mtls, mid).ok <==> Acceptable(w, s, r.blueprint)
  {
    hide StatusWrites;
    var applied := Accepts(w, cfg, f, s, r.blueprint);
    LandedStatusesDoNotFail(w, cfg, f, c, mid, applied, r, mtls);
    if applied {
      var s' := PruneAll(cfg, f, mid, r.blueprint).policies.s;
      CalmSideConverges(w, cfg, f, s, r.blueprint, mid, s');
    }
  }

  /** Such a pass succeeds exactly when the document is acceptable: a policy some foreign
      resource still names does not make it fail. */
  lemma CalmPassSucceedsIff(w: World, cfg: Config, f: Faults, c: ClusterState, s: ServerState,
                            mid: ServerState, o: PassEnd)
    requires ValidWorld(w) && ValidState(s) && DistinctCluster(c.objects) && PassResult(w, cfg, f, c, s, mid, o)
    requires Preparation(w, cfg, c, s, f).Ready? && !cfg.dryRun && (cfg.licensed ==> s.licensed)
    requires !f.sites && !f.machines && !f.users && Calm(f) && StatusesLand(f)
    ensures var b := RenderedOf(w, InputOf(w, cfg, c, s, f)).blueprint;
            o.ok <==> PolicyNamesFit(b) && AliasesFree(s, b)
  {
    hide RenderedOf, Finished;
    var secrets, input := Preparation(w, cfg, c, s, f).secrets, InputOf(w, cfg, c, s, f);
    PreparedInputs(w, cfg, c, s, f);
    ListedPassIsInformed(w, cfg, c, s, f);
    AcceptedWhenNamesFit(w, cfg, s, input);
    RenderedIsOurs(w, input);
    RenderedPoliciesClosed(w, input);
    FinishedSucceedsIff(w, cfg, f, c.(secrets := secrets), s, RenderedOf(w, input), input.mtls, mid);
  }

  lemma AcceptedWhenNamesFit(w: World, cfg: Config, s: ServerState, input: Inputs)
    requires Informed(w, input, s) && input.licensed == cfg.licensed && (cfg.licensed ==> s.licensed)
    ensures var b := RenderedOf(w, input).blueprint; Acceptable(w, s, b) <==> PolicyNamesFit(b) && AliasesFree(s, b)
  {
    hide RenderedOf;
    AcceptedExactlyWhenClear(w, input, s);
    if !cfg.licensed { UnlicensedBlueprint(w, input); }
  }
}
