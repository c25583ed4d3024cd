/** The cluster side of a pass: the objects read at its start, the Secrets it may create
    and the statuses it writes. */
module ClusterObjects {
  import opened Types
  import opened Secrets
  import opened Status

  /** The lists one pass reads. */
  datatype Objects = Objects(
    classes: seq<GatewayClass>, gateways: seq<Gateway>, routes: seq<Route>,
    resources: seq<PrivateObject>, policies: seq<PolicyObject>)

  /** Status of a PrivateResource or a ResourcePolicy. */
  datatype KeyStatus = KeyStatus(key: string, conditions: seq<Condition>)

  const NO_STATUS := KeyStatus("", [])

  datatype ClusterState = ClusterState(
    objects: Objects,
    secrets: map<Name, Secret>,
    configMaps: map<Name, map<string, string>>,
    routes: map<Name, seq<ParentStatus>>,
    classes: map<Name, seq<Condition>>,
    gateways: map<Name, seq<Condition>>,
    resources: map<Name, KeyStatus>,
    policies: map<Name, KeyStatus>)

  /** The part of an object a status write needs. */
  datatype Subject = Subject(name: Name, generation: int)

  ghost predicate DistinctSubjects(subjects: seq<Subject>) {
    forall i, j :: 0 <= i < j < |subjects| ==> subjects[i].name != subjects[j].name
  }

  // ---------- writing statuses ----------

  function Look<S>(m: map<Name, S>, n: Name, none: S): S { if n in m then m[n] else none }

  /** Statuses after a loop of writes, which were attempted, and whether one failed. */
  datatype Written<S> = Written(statuses: map<Name, S>, writes: set<Name>, failed: bool)

  /** One object: nothing to do, a write that fails, or a write that lands. */
  function WriteOne<S(==)>(w: Written<S>, n: Name, status: S, none: S, fails: bool): Written<S> {
    if status == Look(w.statuses, n, none) then w
    else if fails then Written(w.statuses, w.writes + {n}, true)
    else Written(w.statuses[n := status], w.writes + {n}, w.failed)
  }

  /** Every object in turn, each given its target computed from its present status. */
  function WriteAll<S(==)>(before: map<Name, S>, none: S, subjects: seq<Subject>, target: (Subject, S) -> S,
                           fails: Name -> bool): Written<S>
  {
    if subjects == [] then Written(before, {}, false)
    else
      var w, x := WriteAll(before, none, subjects[..|subjects| - 1], target, fails), subjects[|subjects| - 1];
      WriteOne(w, x.name, target(x, Look(w.statuses, x.name, none)), none, fails(x.name))
  }

  lemma WriteNext<S>(before: map<Name, S>, none: S, subjects: seq<Subject>, i: nat, target: (Subject, S) -> S,
                     fails: Name -> bool)
    requires i < |subjects|
    ensures var w, x := WriteAll(before, none, subjects[..i], target, fails), subjects[i];
            WriteAll(before, none, subjects[..i + 1], target, fails)
            == WriteOne(w, x.name, target(x, Look(w.statuses, x.name, none)), none, fails(x.name))
  {
    assert subjects[..i + 1][..i] == subjects[..i];
  }

  lemma {:induction false} WritesNameSubjects<S>(before: map<Name, S>, none: S, subjects: seq<Subject>,
                                                 target: (Subject, S) -> S,
                                                     fails: Name -> bool, n: Name)
    requires forall x :: x in subjects ==> x.name != n
    ensures var w := WriteAll(before, none, subjects, target, fails);
            n !in w.writes && (n in w.statuses <==> n in before) && Look(w.statuses, n, none) == Look(before, n, none)
  {
    if subjects != [] {
      assert subjects[|subjects| - 1] in subjects;
      WritesNameSubjects(before, none, subjects[..|subjects| - 1], target, fails, n);
    }
  }

  /** Each object is written exactly when its status must change, once, and a write that
      lands leaves the target. */
  lemma {:induction false} EachWrittenOnce<S>(before: map<Name, S>, none: S, subjects: seq<Subject>,
                                              target: (Subject, S) -> S,
                                                  fails: Name -> bool, x: Subject)
    requires DistinctSubjects(subjects) && x in subjects
    ensures var w, old_ := WriteAll(before, none, subjects, target, fails), Look(before, x.name, none);
      && (x.name in w.writes <==> target(x, old_) != old_)
      && Look(w.statuses, x.name, none) == (if fails(x.name) then old_ else target(x, old_))
      && (x.name in w.writes && fails(x.name) ==> w.failed)
  {
    var front, last := subjects[..|subjects| - 1], subjects[|subjects| - 1];
    assert subjects == front + [last];
    if x == last {
      WritesNameSubjects(before, none, front, target, fails, x.name);
    } else {
      assert x in front && x.name != last.name;
      EachWrittenOnce(before, none, front, target, fails, x);
    }
  }

  /** When every object already has its target nothing is written. */
  lemma {:induction false} SettledWritesNothing<S>(before: map<Name, S>, none: S, subjects: seq<Subject>,
                                                   target: (Subject, S) -> S,
                                                       fails: Name -> bool)
    requires forall x :: x in subjects ==> target(x, Look(before, x.name, none)) == Look(before, x.name, none)
    ensures WriteAll(before, none, subjects, target, fails) == Written(before, {}, false)
  {
    if subjects != [] {
      SettledWritesNothing(before, none, subjects[..|subjects| - 1], target, fails);
      assert subjects[|subjects| - 1] in subjects;
    }
  }

  /** The loop reports a failure only for a write that failed. */
  lemma {:induction false} FailuresComeFromWrites<S>(before: map<Name, S>, none: S, subjects: seq<Subject>,
                                                     target: (Subject, S) -> S, fails: Name -> bool)
    requires forall n :: !fails(n)
    ensures !WriteAll(before, none, subjects, target, fails).failed
  {
    if subjects != [] { FailuresComeFromWrites(before, none, subjects[..|subjects| - 1], target, fails); }
  }

  /** One more object at the end of the loop. */
  lemma WriteOneMore<S>(before: map<Name, S>, none: S, front: seq<Subject>, x: Subject, target: (Subject, S) -> S,
                        fails: Name -> bool)
    ensures var w := WriteAll(before, none, front, target, fails);
            WriteAll(before, none, front + [x], target, fails)
            == WriteOne(w, x.name, target(x, Look(w.statuses, x.name, none)), none, fails(x.name))
  {
    assert (front + [x])[..|front|] == front;
  }

  /** Cluster-scoped objects have no namespace. */
  function ClassName(c: GatewayClass): Name { Name("", c.name) }

  /** The GatewayClasses this controller serves, and the Gateways of those classes. */
  function ClassSubjects(classes: seq<GatewayClass>, served: set<string>): seq<Subject> {
    if classes == [] then []
    else
      var front, last := ClassSubjects(classes[..|classes| - 1], served), classes[|classes| - 1];
      if last.name in served then front + [Subject(ClassName(last), last.generation)] else front
  }

  function GatewaySubjects(gateways: seq<Gateway>, served: set<string>): seq<Subject> {
    if gateways == [] then []
    else
      var front, last := GatewaySubjects(gateways[..|gateways| - 1], served), gateways[|gateways| - 1];
      if last.class_ in served then front + [Subject(last.name, last.generation)] else front
  }

  lemma ClassNext(classes: seq<GatewayClass>, i: nat, served: set<string>)
    requires i < |classes|
    ensures ClassSubjects(classes[..i + 1], served)
         == if classes[i].name in served
            then ClassSubjects(classes[..i], served) + [Subject(ClassName(classes[i]), classes[i].generation)]
            else ClassSubjects(classes[..i], served)
  {
    assert classes[..i + 1][..i] == classes[..i];
  }

  lemma GatewayNext(gateways: seq<Gateway>, i: nat, served: set<string>)
    requires i < |gateways|
    ensures GatewaySubjects(gateways[..i + 1], served)
         == if gateways[i].class_ in served
            then GatewaySubjects(gateways[..i], served) + [Subject(gateways[i].name, gateways[i].generation)]
            else GatewaySubjects(gateways[..i], served)
  {
    assert gateways[..i + 1][..i] == gateways[..i];
  }

  lemma {:induction false} ClassSubjectsDistinct(classes: seq<GatewayClass>, served: set<string>)
    requires forall i, j :: 0 <= i < j < |classes| ==> classes[i].name != classes[j].name
    ensures DistinctSubjects(ClassSubjects(classes, served))
    ensures forall x :: x in ClassSubjects(classes, served) ==> exists c :: c in classes && ClassName(c) == x.name
  {
    if classes != [] {
      var front, last := classes[..|classes| - 1], classes[|classes| - 1];
      assert classes == front + [last];
      ClassSubjectsDistinct(front, served);
      assert last in classes && forall c :: c in front ==> c in classes && c.name != last.name;
      assert forall x :: x in ClassSubjects(front, served) ==> x.name != ClassName(last);
    }
  }

  lemma {:induction false} GatewaySubjectsDistinct(gateways: seq<Gateway>, served: set<string>)
    requires forall i, j :: 0 <= i < j < |gateways| ==> gateways[i].name != gateways[j].name
    ensures DistinctSubjects(GatewaySubjects(gateways, served))
    ensures forall x :: x in GatewaySubjects(gateways, served) ==> exists g :: g in gateways && g.name == x.name
  {
    if gateways != [] {
      var front, last := gateways[..|gateways| - 1], gateways[|gateways| - 1];
      assert gateways == front + [last];
      GatewaySubjectsDistinct(front, served);
      assert last in gateways && forall g :: g in front ==> g in gateways && g.name != last.name;
      assert forall x :: x in GatewaySubjects(front, served) ==> x.name != last.name;
    }
  }

  function RouteSubjects(routes: seq<Route>): (s: seq<Subject>)
    ensures |s| == |routes| && forall i :: 0 <= i < |s| ==> s[i] == Subject(routes[i].name, routes[i].generation)
  {
    seq(|routes|, i requires 0 <= i < |routes| => Subject(routes[i].name, routes[i].generation))
  }

  function ResourceSubjects(os: seq<PrivateObject>): (s: seq<Subject>)
    ensures |s| == |os| && forall i :: 0 <= i < |s| ==> s[i] == Subject(os[i].name, os[i].generation)
  {
    seq(|os|, i requires 0 <= i < |os| => Subject(os[i].name, os[i].generation))
  }

  function PolicySubjects(os: seq<PolicyObject>): (s: seq<Subject>)
    ensures |s| == |os| && forall i :: 0 <= i < |s| ==> s[i] == Subject(os[i].name, os[i].generation)
  {
    seq(|os|, i requires 0 <= i < |os| => Subject(os[i].name, os[i].generation))
  }

  /** What the API server holds for this controller. Its fields are what a pass reads and
      writes in place. */
  class Cluster {
    var objects: Objects
    var secrets: map<Name, Secret>
    var configMaps: map<Name, map<string, string>>
    var routeStatus: map<Name, seq<ParentStatus>>
    var classStatus: map<Name, seq<Condition>>
    var gatewayStatus: map<Name, seq<Condition>>
    var resourceStatus: map<Name, KeyStatus>
    var policyStatus: map<Name, KeyStatus>

    ghost function State(): ClusterState
      reads this
    {
      ClusterState(objects, secrets, configMaps, routeStatus, classStatus, gatewayStatus, resourceStatus, policyStatus)
    }

    constructor (c: ClusterState)
      ensures State() == c
    {
      objects, secrets, configMaps := c.objects, c.secrets, c.configMaps;
      routeStatus, classStatus, gatewayStatus := c.routes, c.classes, c.gateways;
      resourceStatus, policyStatus := c.resources, c.policies;
    }
  }
}
