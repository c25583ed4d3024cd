/** A PrivateResource renamed with its alias: the prune that would free the alias runs only
    after an accepted apply, and the alias makes the apply be refused. */
module HeldAliases {
  import opened Types
  import opened Sorting
  import opened Collisions
  import opened Translate
  import opened Render
  import opened Server
  import opened Pass
  import opened Safety
  import opened Runs
  import Laws = CollisionLaws
  import RenderLaws
  import RenderOrder

  /** The store holds the alias under a key. */
  predicate HoldsAlias(live: Live, alias: string) { live.LivePrivate? && live.private.alias == alias != "" }

  /** The document claims the alias under another key than the store. */
  ghost predicate ClaimsAlias(b: Blueprint, k: string, old_: string, alias: string) {
    k in b.private && b.private[k].alias == alias && old_ !in b.private
  }

  lemma HeldAliasIsRefused(w: World, s: ServerState, b: Blueprint, k: string, old_: string, alias: string)
    requires HoldsAlias(LiveAt(s, PrivateSection, old_), alias) && ClaimsAlias(b, k, old_, alias)
    ensures !Acceptable(w, s, b)
  {
    hide PrivateSchema, RulesPass, PoliciesPass, SitesPass, CAsPass, GrantsPass, PublicDomainsUnique,
         PrivateDomainsUnique;
    assert AliasTakenInStore(s, b, alias);
    assert !PrivatePasses(s, b, k);
  }

  /** What a step of the run may do: a real pass whose blueprint claims the alias, any
      edit, and whatever other clients do short of touching the stored row. */
  ghost predicate Persists(w: World, a: Place, step: Step, k: string, old_: string, live: Live, alias: string) {
    match step
    case Passed(cfg, f, _, _, _) =>
      && !cfg.dryRun
      && (Preparation(w, cfg, a.c, a.s, f).Ready? ==> ClaimsAlias(BlueprintOf(w, cfg, f, a), k, old_, alias))
    case Others(ops) => SparesAll(ops, PrivateSection, old_, live)
    case Edited(_) => true
  }

  ghost predicate AllPersist(w: World, run: Run, k: string, old_: string, live: Live, alias: string) {
    hide *;
    match run
    case Start(_) => true
    case Then(before, step, _) =>
      AllPersist(w, before, k, old_, live, alias) && Persists(w, before.place, step, k, old_, live, alias)
  }

  predicate Failed(step: Step) { step.Passed? && !step.ok }

  /** No pass of the run succeeded or changed the server. */
  ghost predicate NoPassWorked(run: Run) {
    match run
    case Start(_) => true
    case Then(before, step, p) => NoPassWorked(before) && (step.Passed? ==> Failed(step) && p.s == before.place.s)
  }

  lemma PersistsOnce(w: World, a: Place, step: Step, b: Place, k: string, old_: string, live: Live, alias: string)
    requires ValidState(a.s) && Move(w, a, step, b) && LiveAt(a.s, PrivateSection, old_) == live
    requires HoldsAlias(live, alias) && Persists(w, a, step, k, old_, live, alias)
    ensures LiveAt(b.s, PrivateSection, old_) == live
    ensures step.Passed? ==> Failed(step) && b.s == a.s
  {
    hide PassResult, ValidState, DistinctCluster, Preparation, BlueprintOf, Acceptable, Applied, PruneAll, StatusWrites,
         LiveAt, RunOps, ClaimsAlias, InputOf, RenderedOf;
    match step
    case Passed(cfg, f, mid, ok, writes) =>
      PassEnds(w, cfg, f, a.c, a.s, mid, PassEnd(b.c, b.s, ok, writes));
      if Preparation(w, cfg, a.c, a.s, f).Ready? {
        BlueprintIs(w, cfg, f, a);
        HeldAliasIsRefused(w, a.s, BlueprintOf(w, cfg, f, a), k, old_, alias);
      }
    case Others(ops) => OpsSpare(a.s, ops, PrivateSection, old_);
    case Edited(_) =>
  }

  lemma BlueprintIs(w: World, cfg: Config, f: Faults, a: Place)
    ensures BlueprintOf(w, cfg, f, a) == RenderedOf(w, InputOf(w, cfg, a.c, a.s, f)).blueprint
  {
    hide RenderedOf, InputOf;
  }

  /** While the cluster goes on claiming a stored alias under another key, the stored row
      is never removed, every pass fails, and none changes the server: for every run, with
      any cluster edits and whatever other clients do to other rows. */
  lemma {:induction false} HeldAliasBlocksForever(w: World, run: Run, k: string, old_: string, live: Live,
                                                  alias: string)
    requires IsRun(w, run) && live == LiveAt(First(run).s, PrivateSection, old_) && HoldsAlias(live, alias)
    requires AllPersist(w, run, k, old_, live, alias)
    ensures LiveAt(run.place.s, PrivateSection, old_) == live && NoPassWorked(run)
  {
    hide Move, ValidState, DistinctCluster, Persists, LiveAt, HoldsAlias;
    match run
    case Start(_) =>
    case Then(before, step, p) =>
      HeldAliasBlocksForever(w, before, k, old_, live, alias);
      RunKeepsState(w, before);
      PersistsOnce(w, before.place, step, p, k, old_, live, alias);
  }

  /** A cluster whose only object that asks for a name is one valid PrivateResource. */
  ghost predicate Lone(w: World, input: Inputs, x: PrivateObject, e: Entry) {
    input.routes == [] && input.privateResources == [x] && input.policies == []
      && TranslatePrivate(w, x, input) == Ok(e)
  }

  lemma LoneCandidate(w: World, input: Inputs, x: PrivateObject, e: Entry)
    requires Lone(w, input, x, e)
    ensures AllCandidates(w, input) == [Candidate(Claimant(PrivateResourceKind, x.name), x.createdAt, e)]
  {
    hide TranslatePrivate, PolicyVerdicts;
    var policies := PolicyVerdicts(w, input);
    assert RouteCandidates(w, input.routes, input, policies) == [];
    assert [x][..0] == [];
    assert ResourceCandidates(w, [x], input) == [] + ResourceCandidate(w, x, input);
  }

  lemma PrivateSectionOf(w: World, input: Inputs)
    ensures RenderedOf(w, input).blueprint.private == ResolveCandidates(AllCandidates(w, input)).claims.private
  {
    hide AllCandidates, ResolveCandidates, RouteVerdicts, ResourceVerdicts;
  }

  /** It is published, and nothing else is private. */
  lemma LoneIsPublished(w: World, input: Inputs, x: PrivateObject, e: Entry, res: PrivateResource)
    requires Lone(w, input, x, e) && e.section == InPrivate(res)
    ensures RenderedOf(w, input).blueprint.private == map[PrivateResourceKey(x.name) := res]
  {
    hide TranslatePrivate, RenderedOf, ResolveCandidates, AllCandidates, PrivateResourceKey;
    RenderLaws.ResourceErrors(w, x, input);
    LoneCandidate(w, input, x, e);
    PrivateSectionOf(w, input);
    LoneWins(Candidate(Claimant(PrivateResourceKind, x.name), x.createdAt, e));
  }

  lemma SortOne(c: Candidate)
    ensures StableSort([c], CandidateOrder()) == [c]
  {
    var cs := StableSort([c], CandidateOrder());
    SortPermutes([c], CandidateOrder());
    assert |multiset(cs)| == |multiset([c])| == 1;
    assert cs[0] in multiset(cs);
  }

  lemma FirstWins(c: Candidate)
    ensures Winners([c]) == [true]
  {
    var front := [c][..0];
    assert front == [] && Winners(front) == [] && Unopposed([], [], c.entry);
  }

  lemma LoneWins(c: Candidate)
    requires c.entry.section.InPrivate?
    ensures ResolveCandidates([c]).claims.private == map[c.entry.key := c.entry.section.private]
  {
    SortOne(c);
    FirstWins(c);
    Laws.WinnerPublishes([c], 0);
    Laws.CandidateOutcome([c], c);
    LoneOwns(c, ResolveCandidates([c]).claims.private);
  }

  lemma LoneOwns(c: Candidate, m: map<string, PrivateResource>)
    requires c.entry.section.InPrivate? && m == ResolveCandidates([c]).claims.private
    requires c.entry.key in m && m[c.entry.key] == c.entry.section.private
    ensures m == map[c.entry.key := c.entry.section.private]
  {
    forall k | k in m ensures k == c.entry.key {
      var owner := Laws.PrivateEntryHasOwner([c], k);
    }
  }

  /** The concrete case: one host resource with an alias, renamed to a name with another
      key and otherwise unchanged. Its new blueprint claims the alias that its first entry,
      once stored, holds: it is refused. */
  lemma RenameKeepingAliasIsRefused(w: World, s: ServerState, input: Inputs, x: PrivateObject, name: Name)
    requires (exists e :: Lone(w, input, x, e)) && x.spec.mode.Host? && x.spec.alias != ""
    requires PrivateResourceKey(name) != PrivateResourceKey(x.name)
    requires HoldsAlias(LiveAt(s, PrivateSection, PrivateResourceKey(x.name)), x.spec.alias)
    ensures var b := RenderedOf(w, input.(privateResources := [x.(name := name)])).blueprint;
      && ClaimsAlias(b, PrivateResourceKey(name), PrivateResourceKey(x.name), x.spec.alias)
      && !Acceptable(w, s, b)
  {
    hide RenderedOf, TranslatePrivate, Acceptable, LiveAt, PrivateResourceKey;
    var renamed := input.(privateResources := [x.(name := name)]);
    var e, res := RenameStaysValid(w, input, renamed, x, name);
    LoneIsPublished(w, renamed, x.(name := name), e, res);
    HeldAliasIsRefused(w, s, RenderedOf(w, renamed).blueprint, PrivateResourceKey(name), PrivateResourceKey(x.name),
                       x.spec.alias);
  }

  lemma RenameStaysValid(w: World, input: Inputs, renamed: Inputs, x: PrivateObject, name: Name)
    returns (e: Entry, res: PrivateResource)
    requires TranslatePrivate(w, x, input).Ok? && x.spec.mode.Host?
    requires renamed == input.(privateResources := [x.(name := name)])
    ensures TranslatePrivate(w, x.(name := name), renamed) == Ok(e) && e.section == InPrivate(res)
    ensures res.alias == x.spec.alias
  {
    hide CheckSites, PrivateGrants, ModeProblem, ResourceHostnames, PrivateResourceKey;
    RenderOrder.SameSites(PrivateSites(x.spec, input), input, renamed);
    RenderOrder.SameGrants(input, renamed);
    e := TranslatePrivate(w, x.(name := name), renamed).value;
    res := e.section.private;
  }
}
