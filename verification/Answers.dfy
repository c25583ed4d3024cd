/** What a pass answers, in terms of what it leaves behind. */
module Answers {
  import opened Types
  import opened Render
  import opened Server
  import opened Prune
  import opened Pass
  import opened Safety
  import opened ClusterObjects
  import Convergence

  // ---------- status writes ----------

  lemma {:induction false} FailedIff<S>(before: map<Name, S>, none: S, subjects: seq<Subject>,
                                        target: (Subject, S) -> S, fails: Name -> bool)
    ensures var w := WriteAll(before, none, subjects, target, fails);
            w.failed <==> exists n :: n in w.writes && fails(n)
  {
    if subjects != [] {
      var front, x := subjects[..|subjects| - 1], subjects[|subjects| - 1];
      FailedIff(before, none, front, target, fails);
      var w := WriteAll(before, none, front, target, fails);
      var after := WriteAll(before, none, subjects, target, fails);
      assert after.writes == w.writes || after.writes == w.writes + {x.name};
    }
  }

  /** Every status write that was attempted succeeded. */
  ghost predicate WritesLanded(f: Faults, writes: Attempts) {
    && (forall n :: n in writes.routes ==> !f.routeStatus(n)) && (forall n :: n in writes.classes ==> !f.classStatus(n))
    && (forall n :: n in writes.gateways ==> !f.gatewayStatus(n))
    && (forall n :: n in writes.resources ==> !f.resourceStatus(n))
    && (forall n :: n in writes.policies ==> !f.policyStatus(n))
  }

  lemma StatusFailedIff(cfg: Config, f: Faults, c: ClusterState, applied: bool, routes: map<Name, Verdict>,
                        resources: map<Name, ResourceVerdict>, policies: map<Name, ResourceVerdict>)
    ensures var st := WritesOf(cfg, f, c, applied, routes, resources, policies);
            StatusFailed(st) <==> !WritesLanded(f, AttemptsOf(st))
  {
    hide WriteAll, RouteTarget, ClassTarget, GatewayTarget, KeyTarget, ClassSubjects, GatewaySubjects, ServedBy;
    var o, served := c.objects, ServedBy(cfg, c.objects);
    FailedIff(c.routes, [], RouteSubjects(o.routes), RouteTarget(cfg.controllerName, f.now, routes), f.routeStatus);
    FailedIff(c.classes, [], ClassSubjects(o.classes, served), ClassTarget(f.now), f.classStatus);
    FailedIff(c.gateways, [], GatewaySubjects(o.gateways, served), GatewayTarget(f.now), f.gatewayStatus);
    FailedIff(c.resources, NO_STATUS, ResourceSubjects(o.resources), KeyTarget(cfg.dryRun, applied, f.now, resources),
              f.resourceStatus);
    FailedIff(c.policies, NO_STATUS, PolicySubjects(o.policies), KeyTarget(cfg.dryRun, applied, f.now, policies),
              f.policyStatus);
  }

  // ---------- the prune ----------

  /** Nothing of the controller's outlived its blueprint. */
  ghost predicate NoOrphans(live: set<string>, desired: set<string>) {
    forall k :: k in live && Ours(k) ==> k in desired
  }

  /** No other client acts during the prune. */
  ghost predicate QuietPass(f: Faults) { forall sec :: Quiet(f.weather(sec)) }

  /** A quiet section fails exactly if it could not be listed or an orphan stays. */
  lemma SectionAnswers(cfg: Config, f: Faults, s: ServerState, b: Blueprint, sec: Section)
    requires ValidState(s) && QuietPass(f) && !cfg.dryRun && !sec.PolicySection?
    ensures var p := Pruning(cfg, f, s, b, sec);
      && ValidState(p.s) && p.s.licensed == s.licensed && p.s.policies == s.policies
      && (sec.PublicSection? ==> p.s.private == s.private) && (sec.PrivateSection? ==> p.s.public == s.public)
      && (p.failed <==> f.lists(sec) || !NoOrphans(IdsOf(p.s, sec).Keys, Desired(b, sec)))
  {
    hide PruneRows, ValidState, RowsOf, GoneIds;
    var desired := Desired(b, sec);
    PruneIsSafe(s, sec, desired, false, f.lists(sec), f.weather(sec));
    if !f.lists(sec) { QuietPruneIsExact(s, sec, desired, f.weather(sec)); }
  }

  lemma PoliciesAnswer(cfg: Config, f: Faults, s: ServerState, b: Blueprint)
    requires QuietPass(f)
    ensures var p := Pruning(cfg, f, s, b, PolicySection); p.s.public == s.public && p.s.private == s.private
  {
    hide PruneRows, RowsOf, Quiet;
    Convergence.RowsKeepTables(s, RowsOf(s, PolicySection), b.policies.Keys, cfg.dryRun, f.weather(PolicySection));
  }

  lemma PruneAnswers(cfg: Config, f: Faults, s: ServerState, b: Blueprint)
    requires ValidState(s) && QuietPass(f) && !cfg.dryRun
    ensures var p := PruneAll(cfg, f, s, b); var after := p.policies.s;
      && (!p.failed
          <==> !f.lists(PublicSection) && !f.lists(PrivateSection)
               && (cfg.licensed ==> s.licensed && !f.lists(PolicySection))
               && NoOrphans(after.public.ids.Keys, b.public.Keys) && NoOrphans(after.private.ids.Keys, b.private.Keys))
      && (!cfg.licensed ==> after.policies == s.policies)
  {
    hide PruneOutcome, Pruning, ValidState, NoOrphans, Quiet;
    SectionAnswers(cfg, f, s, b, PublicSection);
    var one := Pruning(cfg, f, s, b, PublicSection);
    SectionAnswers(cfg, f, one.s, b, PrivateSection);
    var two := Pruning(cfg, f, one.s, b, PrivateSection);
    PoliciesAnswer(cfg, f, two.s, b);
  }

  // ---------- the pass ----------

  /** What success means, of the server and the writes a pass leaves. */
  ghost predicate AllDone(cfg: Config, f: Faults, s: ServerState, b: Blueprint, o: PassEnd) {
    && !f.lists(PublicSection) && !f.lists(PrivateSection) && (cfg.licensed ==> s.licensed && !f.lists(PolicySection))
    && NoOrphans(o.s.public.ids.Keys, b.public.Keys) && NoOrphans(o.s.private.ids.Keys, b.private.Keys)
    && WritesLanded(f, o.writes)
  }

  /** With no other client around, a pass answers success exactly if the document was
      accepted, every listing the prune needs was answered, no public or private orphan is
      left and every status write landed. A policy that stays does not count. */
  lemma AnswerMeans(w: World, cfg: Config, f: Faults, c: ClusterState, s: ServerState, mid: ServerState, o: PassEnd)
    requires PassResult(w, cfg, f, c, s, mid, o) && Preparation(w, cfg, c, s, f).Ready?
    requires ValidState(s) && QuietPass(f) && !cfg.dryRun
    ensures var b := RenderedOf(w, InputOf(w, cfg, c, s, f)).blueprint;
      && (o.ok <==> Accepts(w, cfg, f, s, b) && AllDone(cfg, f, s, b, o))
      && (!cfg.licensed ==> o.s.policies == mid.policies)
  {
    hide PassResult, Preparation, RenderedOf, InputOf, PruneAll, Acceptable, JudgedRoutes, WritesOf, NoOrphans,
         WritesLanded, ValidState, StatusFailed, QuietPass;
    var input := InputOf(w, cfg, c, s, f);
    var r := RenderedOf(w, input);
    PassEnds(w, cfg, f, c, s, mid, o);
    var c1 := c.(secrets := Preparation(w, cfg, c, s, f).secrets);
    var applied := Accepts(w, cfg, f, s, r.blueprint);
    StatusFailedIff(cfg, f, c1, applied, JudgedRoutes(w, cfg, f, mid, applied, r.routes, input.mtls), r.resources,
      r.policies);
    ServerSideOfPass(w, cfg, f, c, s, mid, o);
    SideValid(w, cfg, f, s, r.blueprint, mid, o.s);
    PruneAnswers(cfg, f, mid, r.blueprint);
  }
}
