/** internal/gateway/policy.go and rules.go: validating ResourcePolicies, awarding each
    policy key to its oldest valid claimant, and reading access rules. */
module Policies {
  import opened Text
  import opened Sorting
  import opened Types
  import PathGlob
  import Validators

  const ADMIN_ROLE := "Admin"

  /** Not injective: "a-b"/"c" and "a"/"b-c" share a key. */
  function PolicyKey(n: Name): string { KEY_PREFIX + n.ns + "-" + n.name }

  // ---------- access rules ----------

  predicate KnownAction(a: string) { a == "allow" || a == "deny" || a == "pass" }

  predicate ValidRule(w: World, r: Rule) {
    && KnownAction(r.action)
    && r.value != ""
    && (if r.match_ == "ip" then w.isIP(r.value)
        else if r.match_ == "cidr" then w.isCIDR(r.value)
        else if r.match_ == "path" then PathGlob.IsPathGlob(r.value)
        else r.match_ == "country" || r.match_ == "asn" || r.match_ == "region")
  }

  function CheckedRules(w: World, specs: seq<Rule>): Result<seq<Rule>, Message> {
    if forall r | r in specs :: ValidRule(w, r) then Ok(specs) else Err(Say("invalid rule"))
  }

  /** The validating loop of rulesFor and translatePolicy: order is priority. */
  method CollectRules(w: World, specs: seq<Rule>) returns (r: Result<seq<Rule>, Message>)
    ensures r == CheckedRules(w, specs)
  {
    var rules: seq<Rule> := [];
    var i := 0;
    while i < |specs|
      invariant 0 <= i <= |specs| && rules == specs[..i]
      invariant forall k :: 0 <= k < i ==> ValidRule(w, specs[k])
    {
      var s := specs[i];
      if !ValidRule(w, s) { return Err(Say("invalid rule")); }
      rules := rules + [Rule(s.action, s.match_, s.value)];
      i := i + 1;
    }
    assert rules == specs;
    return Ok(rules);
  }

  // ---------- one policy ----------

  function Invalid(tag: string): ConditionResult { ConditionResult(false, ReasonInvalidSpec, Say(tag)) }

  predicate BlankEntry(entries: seq<string>) { exists e | e in entries :: TrimSpace(e) == "" }

  predicate SixDigits(s: string) { |s| == 6 && AllDigits(s) }

  /** The name shown in Pangolin: the trimmed display name, else namespace/name. */
  function ShownName(display: string, n: Name): Option<string> {
    if display == "" then Some(n.ns + "/" + n.name)
    else if TrimSpace(display) == "" then None
    else Some(TrimSpace(display))
  }

  function TranslatePolicy(w: World, p: PolicyObject, licensed: bool): Result<PublicPolicy, ConditionResult> {
    var spec := p.spec;
    var name := ShownName(spec.displayName, p.name);
    var sso := spec.sso.None? || spec.sso.value;
    var whitelist := Validators.PolicyWhitelistOf(spec.emailWhitelist);
    var rules := CheckedRules(w, spec.rules);
    if !licensed then Err(ConditionResult(false, ReasonNotLicensed, Say("not licensed")))
    else if name.None? then Err(Invalid("displayName is blank"))
    else if !sso && (spec.roles != [] || spec.users != []) then Err(Invalid("grants without sso"))
    else if BlankEntry(spec.roles) then Err(Invalid("roles has an empty entry"))
    else if BlankEntry(spec.users) then Err(Invalid("users has an empty entry"))
    else if ADMIN_ROLE in spec.roles then Err(Invalid("roles must not name Admin"))
    else if spec.pincode != "" && !SixDigits(spec.pincode) then Err(Invalid("pincode must be six digits"))
    else if whitelist.None? then Err(Invalid("emailWhitelist"))
    else if rules.Err? then Err(ConditionResult(false, ReasonInvalidSpec, rules.error))
    else Ok(PublicPolicy(name.value, sso, spec.roles, spec.users, spec.pincode,
                         |whitelist.value| > 0, whitelist.value, |rules.value| > 0, rules.value))
  }

  // ---------- all policies ----------

  function ComparePolicies(a: PolicyObject, b: PolicyObject): int {
    var t := if a.createdAt < b.createdAt then -1 else if b.createdAt < a.createdAt then 1 else 0;
    if t != 0 then t
    else if Compare(a.name.ns, b.name.ns) != 0 then Compare(a.name.ns, b.name.ns)
    else Compare(a.name.name, b.name.name)
  }

  function PolicyOrder(): (PolicyObject, PolicyObject) -> bool { (a, b) => ComparePolicies(a, b) <= 0 }

  datatype PolicyRender = PolicyRender(
    verdicts: map<Name, ResourceVerdict>, entries: map<string, PublicPolicy>, owners: map<string, Name>)

  const VALID_POLICY := ConditionResult(true, ReasonAccepted, Say("Policy is valid and its key is unclaimed"))

  /** A policy with what its validation returned. */
  datatype Judged = Judged(obj: PolicyObject, policy: Result<PublicPolicy, ConditionResult>)

  function Judge(w: World, licensed: bool, ps: seq<PolicyObject>): (js: seq<Judged>)
    ensures |js| == |ps|
    ensures forall i :: 0 <= i < |ps| ==> js[i] == Judged(ps[i], TranslatePolicy(w, ps[i], licensed))
  {
    seq(|ps|, i requires 0 <= i < |ps| => Judged(ps[i], TranslatePolicy(w, ps[i], licensed)))
  }

  function PolicyStep(r: PolicyRender, j: Judged): PolicyRender {
    var n, key := j.obj.name, PolicyKey(j.obj.name);
    if j.policy.Err? then
      r.(verdicts := r.verdicts[n := ResourceVerdict("", j.obj.generation, j.policy.error)])
    else if key in r.owners then
      r.(verdicts := r.verdicts[n := ResourceVerdict("", j.obj.generation,
           ConditionResult(false, ReasonDuplicateKey, PolicyKeyClaimed(key, r.owners[key])))])
    else
      PolicyRender(r.verdicts[n := ResourceVerdict(key, j.obj.generation, VALID_POLICY)],
                   r.entries[key := j.policy.value], r.owners[key := n])
  }

  function PolicyFold(js: seq<Judged>): PolicyRender {
    if js == [] then PolicyRender(map[], map[], map[])
    else PolicyStep(PolicyFold(js[..|js| - 1]), js[|js| - 1])
  }

  function SortedPolicies(w: World, licensed: bool, ps: seq<PolicyObject>): seq<Judged> {
    Judge(w, licensed, StableSort(ps, PolicyOrder()))
  }

  function PoliciesRendered(w: World, licensed: bool, ps: seq<PolicyObject>): PolicyRender {
    PolicyFold(SortedPolicies(w, licensed, ps))
  }

  /** renderPolicies: oldest first, each valid policy takes its key if it is free. */
  method RenderPolicies(w: World, licensed: bool, ps: seq<PolicyObject>)
    returns (verdicts: map<Name, ResourceVerdict>, entries: map<string, PublicPolicy>)
    ensures verdicts == PoliciesRendered(w, licensed, ps).verdicts
    ensures entries == PoliciesRendered(w, licensed, ps).entries
  {
    var ordered := StableSort(ps, PolicyOrder());
    ghost var js := Judge(w, licensed, ordered);
    verdicts, entries := map[], map[];
    var owners: map<string, Name> := map[];
    var i := 0;
    while i < |ordered|
      invariant 0 <= i <= |ordered|
      invariant PolicyRender(verdicts, entries, owners) == PolicyFold(js[..i])
    {
      var p := ordered[i];
      assert js[..i + 1][..i] == js[..i];
      var v := ResourceVerdict("", p.generation, VALID_POLICY);
      var policy := TranslatePolicy(w, p, licensed);
      var key := PolicyKey(p.name);
      i := i + 1;
      if policy.Err? {
        verdicts := verdicts[p.name := v.(accepted := policy.error)];
        continue;
      }
      if key in owners {
        verdicts := verdicts[p.name := v.(accepted :=
          ConditionResult(false, ReasonDuplicateKey, PolicyKeyClaimed(key, owners[key])))];
        continue;
      }
      owners := owners[key := p.name];
      entries := entries[key := policy.value];
      verdicts := verdicts[p.name := v.(key := key)];
    }
    assert js[..i] == js;
  }

  // ---------- what the rendering guarantees ----------

  ghost predicate DistinctPolicies(ps: seq<PolicyObject>) {
    forall i, j :: 0 <= i < j < |ps| ==> ps[i].name != ps[j].name
  }

  ghost predicate DistinctJudged(js: seq<Judged>) {
    forall i, j :: 0 <= i < j < |js| ==> js[i].obj.name != js[j].obj.name
  }

  function KeyOf(j: Judged): string { PolicyKey(j.obj.name) }

  /** Policy i holds its key: it is valid and no valid claimant precedes it. */
  ghost predicate HoldsPolicyKey(js: seq<Judged>, i: nat) {
    && i < |js| && js[i].policy.Ok?
    && forall j: nat :: j < i && KeyOf(js[j]) == KeyOf(js[i]) ==> js[j].policy.Err?
  }

  /** Key k and its entry belong to policy i. */
  ghost predicate OwnsPolicyEntry(js: seq<Judged>, i: nat, r: PolicyRender, k: string) {
    && HoldsPolicyKey(js, i) && KeyOf(js[i]) == k
    && k in r.owners && r.owners[k] == js[i].obj.name
    && k in r.entries && js[i].policy == Ok(r.entries[k])
  }

  ghost predicate PolicyKeysFit(js: seq<Judged>, r: PolicyRender) {
    && r.owners.Keys == r.entries.Keys
    && (forall k :: k in r.owners ==> exists i: nat :: OwnsPolicyEntry(js, i, r, k))
    && (forall i: nat :: i < |js| && js[i].policy.Ok? ==> KeyOf(js[i]) in r.owners)
  }

  /** Policy i's verdict: its key iff it holds it, and True exactly then. */
  ghost predicate PolicyVerdictFits(js: seq<Judged>, i: nat, r: PolicyRender)
    requires i < |js|
  {
    var n := js[i].obj.name;
    && n in r.verdicts
    && r.verdicts[n].key == (if HoldsPolicyKey(js, i) then KeyOf(js[i]) else "")
    && (r.verdicts[n].accepted.status <==> HoldsPolicyKey(js, i))
  }

  ghost predicate PolicyVerdictsFit(js: seq<Judged>, r: PolicyRender) {
    && (forall i: nat :: i < |js| ==> PolicyVerdictFits(js, i, r))
    && (forall n :: n in r.verdicts ==> exists i: nat :: i < |js| && js[i].obj.name == n)
  }

  ghost predicate ErrorsAreFalse(js: seq<Judged>) {
    forall j :: j in js && j.policy.Err? ==> !j.policy.error.status
  }

  lemma HoldersBefore(front: seq<Judged>, x: Judged)
    ensures forall i: nat :: i < |front| ==> (HoldsPolicyKey(front + [x], i) <==> HoldsPolicyKey(front, i))
  {
    var js := front + [x];
    forall i: nat | i < |front| ensures HoldsPolicyKey(js, i) <==> HoldsPolicyKey(front, i) {
      assert forall j: nat :: j <= i ==> js[j] == front[j];
    }
  }

  lemma NewHolder(front: seq<Judged>, x: Judged, r: PolicyRender)
    requires PolicyKeysFit(front, r)
    ensures HoldsPolicyKey(front + [x], |front|) <==> x.policy.Ok? && KeyOf(x) !in r.owners
  {
    var js := front + [x];
    if x.policy.Ok? && KeyOf(x) in r.owners {
      var i: nat :| OwnsPolicyEntry(front, i, r, KeyOf(x));
      assert js[i] == front[i];
    } else if x.policy.Ok? {
      forall j: nat | j < |front| && KeyOf(js[j]) == KeyOf(x) ensures js[j].policy.Err? {
        assert js[j] == front[j];
      }
    }
  }

  /** An owner keeps its entry. */
  lemma OwnerStays(front: seq<Judged>, x: Judged, r: PolicyRender, i: nat, k: string)
    requires OwnsPolicyEntry(front, i, r, k)
    ensures OwnsPolicyEntry(front + [x], i, PolicyStep(r, x), k)
  {
    hide HoldsPolicyKey, PolicyKey;
    HoldersBefore(front, x);
    assert i < |front| by { HolderIsListed(front, i); }
    assert (front + [x])[i] == front[i];
  }

  lemma HolderIsListed(js: seq<Judged>, i: nat)
    requires HoldsPolicyKey(js, i)
    ensures i < |js|
  {}

  lemma OwnerStep(front: seq<Judged>, x: Judged, r: PolicyRender, k: string)
    requires PolicyKeysFit(front, r) && k in PolicyStep(r, x).owners
    ensures exists i: nat :: OwnsPolicyEntry(front + [x], i, PolicyStep(r, x), k)
  {
    if k in r.owners {
      var i: nat :| OwnsPolicyEntry(front, i, r, k);
      hide PolicyStep, OwnsPolicyEntry, HoldsPolicyKey, PolicyKeysFit;
      OwnerStays(front, x, r, i, k);
    } else {
      NewHolder(front, x, r);
      hide HoldsPolicyKey, PolicyKey;
      assert OwnsPolicyEntry(front + [x], |front|, PolicyStep(r, x), k);
    }
  }

  lemma PolicyKeysStep(front: seq<Judged>, x: Judged, r: PolicyRender)
    requires PolicyKeysFit(front, r)
    ensures PolicyKeysFit(front + [x], PolicyStep(r, x))
  {
    var js, r' := front + [x], PolicyStep(r, x);
    forall k | k in r'.owners ensures exists i: nat :: OwnsPolicyEntry(js, i, r', k) {
      OwnerStep(front, x, r, k);
    }
    hide OwnsPolicyEntry, HoldsPolicyKey, PolicyKey;
    forall i: nat | i < |js| && js[i].policy.Ok? ensures KeyOf(js[i]) in r'.owners {
      if i < |front| { assert js[i] == front[i]; }
    }
  }

  lemma PolicyVerdictsStep(front: seq<Judged>, x: Judged, r: PolicyRender)
    requires PolicyKeysFit(front, r) && PolicyVerdictsFit(front, r)
    requires forall i :: 0 <= i < |front| ==> front[i].obj.name != x.obj.name
    requires x.policy.Err? ==> !x.policy.error.status
    ensures PolicyVerdictsFit(front + [x], PolicyStep(r, x))
  {
    hide PolicyKey, OwnsPolicyEntry;
    var js, r', n := front + [x], PolicyStep(r, x), |front|;
    HoldersBefore(front, x);
    NewHolder(front, x, r);
    forall m | m in r'.verdicts ensures exists i: nat :: i < |js| && js[i].obj.name == m {
      if m == x.obj.name {
        assert js[n].obj.name == m;
      } else {
        var i: nat :| i < n && front[i].obj.name == m;
        assert js[i].obj.name == m;
      }
    }
    forall i: nat | i < |js| ensures PolicyVerdictFits(js, i, r') {
      if i < n {
        assert js[i] == front[i];
        assert PolicyVerdictFits(front, i, r);
      }
    }
  }

  lemma {:induction false} PolicyFoldFits(js: seq<Judged>)
    requires DistinctJudged(js) && ErrorsAreFalse(js)
    ensures PolicyKeysFit(js, PolicyFold(js)) && PolicyVerdictsFit(js, PolicyFold(js))
  {
    if js != [] {
      var front, x := js[..|js| - 1], js[|js| - 1];
      assert js == front + [x];
      PolicyFoldFits(front);
      PolicyKeysStep(front, x, PolicyFold(front));
      PolicyVerdictsStep(front, x, PolicyFold(front));
    }
  }

  lemma TranslationErrors(w: World, p: PolicyObject, licensed: bool)
    ensures TranslatePolicy(w, p, licensed).Err? ==> !TranslatePolicy(w, p, licensed).error.status
  {}

  lemma SortedPoliciesDistinct(ps: seq<PolicyObject>)
    requires DistinctPolicies(ps)
    ensures DistinctPolicies(StableSort(ps, PolicyOrder()))
    ensures forall p :: p in ps <==> p in StableSort(ps, PolicyOrder())
  {
    var sorted := StableSort(ps, PolicyOrder());
    SortPermutes(ps, PolicyOrder());
    DistinctPermutes(ps, sorted);
    forall p ensures p in ps <==> p in sorted {
      assert p in multiset(ps) <==> p in multiset(sorted);
    }
    forall i, j | 0 <= i < j < |sorted| ensures sorted[i].name != sorted[j].name {
      assert sorted[i] in ps && sorted[j] in ps;
    }
  }

  lemma SortedPoliciesFit(w: World, licensed: bool, ps: seq<PolicyObject>)
    requires DistinctPolicies(ps)
    ensures var js := SortedPolicies(w, licensed, ps);
      && PolicyKeysFit(js, PolicyFold(js)) && PolicyVerdictsFit(js, PolicyFold(js))
      && (forall p :: p in ps ==> Judged(p, TranslatePolicy(w, p, licensed)) in js)
      && (forall j :: j in js ==> j.obj in ps && j.policy == TranslatePolicy(w, j.obj, licensed))
  {
    var sorted, js := StableSort(ps, PolicyOrder()), SortedPolicies(w, licensed, ps);
    SortedPoliciesDistinct(ps);
    forall j | j in js ensures j.obj in ps && j.policy == TranslatePolicy(w, j.obj, licensed) {
      var i :| 0 <= i < |js| && js[i] == j;
      assert sorted[i] in ps;
    }
    forall j | j in js && j.policy.Err? ensures !j.policy.error.status {
      TranslationErrors(w, j.obj, licensed);
    }
    forall p | p in ps ensures Judged(p, TranslatePolicy(w, p, licensed)) in js {
      var i :| 0 <= i < |sorted| && sorted[i] == p;
      assert js[i] in js;
    }
    PolicyFoldFits(js);
  }

  /** A published policy's key holds the translation of that very policy, although
      other policies may share the key. */
  lemma PublishedPolicyIsItsOwn(w: World, licensed: bool, ps: seq<PolicyObject>, p: PolicyObject)
    requires DistinctPolicies(ps) && p in ps
    ensures var r := PoliciesRendered(w, licensed, ps);
      && p.name in r.verdicts
      && (r.verdicts[p.name].Published() <==> r.verdicts[p.name].accepted.status)
      && (r.verdicts[p.name].Published() ==>
           && r.verdicts[p.name].key == PolicyKey(p.name)
           && PolicyKey(p.name) in r.entries
           && TranslatePolicy(w, p, licensed) == Ok(r.entries[PolicyKey(p.name)]))
  {
    hide TranslatePolicy, PolicyFold, SortedPolicies, DistinctPolicies;
    SortedPoliciesFit(w, licensed, ps);
    var js := SortedPolicies(w, licensed, ps);
    var r := PolicyFold(js);
    var i: nat :| i < |js| && js[i] == Judged(p, TranslatePolicy(w, p, licensed));
    assert PolicyVerdictFits(js, i, r);
    if HoldsPolicyKey(js, i) {
      var k: nat :| OwnsPolicyEntry(js, k, r, KeyOf(js[i]));
      assert k == i;
    }
  }

  /** Every entry is the translation of one published policy. */
  lemma PolicyEntryHasOwner(w: World, licensed: bool, ps: seq<PolicyObject>, k: string) returns (p: PolicyObject)
    requires DistinctPolicies(ps) && k in PoliciesRendered(w, licensed, ps).entries
    ensures var r := PoliciesRendered(w, licensed, ps);
      && p in ps && PolicyKey(p.name) == k && p.name in r.verdicts && r.verdicts[p.name].key == k
      && TranslatePolicy(w, p, licensed) == Ok(r.entries[k])
  {
    SortedPoliciesFit(w, licensed, ps);
    var js := SortedPolicies(w, licensed, ps);
    var r := PolicyFold(js);
    var i: nat :| OwnsPolicyEntry(js, i, r, k);
    assert PolicyVerdictFits(js, i, r);
    assert js[i] in js;
    p := js[i].obj;
  }

  /** Unlicensed, nothing is rendered and nothing is published. */
  lemma UnlicensedRendersNoPolicy(w: World, ps: seq<PolicyObject>)
    requires DistinctPolicies(ps)
    ensures PoliciesRendered(w, false, ps).entries == map[]
    ensures forall n :: n in PoliciesRendered(w, false, ps).verdicts ==>
        !PoliciesRendered(w, false, ps).verdicts[n].Published()
  {
    var r := PoliciesRendered(w, false, ps);
    forall k | k in r.entries ensures false {
      var p := PolicyEntryHasOwner(w, false, ps, k);
    }
    SortedPoliciesFit(w, false, ps);
    forall n | n in r.verdicts ensures !r.verdicts[n].Published() {
      var js := SortedPolicies(w, false, ps);
      var i: nat :| i < |js| && js[i].obj.name == n;
      assert js[i] in js;
      assert PolicyVerdictFits(js, i, r);
    }
  }

  lemma CompareChain(a: string, b: string, c: string)
    ensures Compare(a, b) == -Compare(b, a) && (Compare(a, b) == 0 <==> a == b)
    ensures Compare(a, b) <= 0 && Compare(b, c) <= 0 ==> Compare(a, c) <= 0
  {
    CompareAntisymmetric(a, b);
    if Compare(a, b) <= 0 && Compare(b, c) <= 0 { CompareTransitive(a, b, c); }
  }

  lemma PolicyOrderIsTotal()
    ensures TotalPreorder(PolicyOrder())
  {
    var le := PolicyOrder();
    forall a, b ensures le(a, b) || le(b, a) {
      CompareChain(a.name.ns, b.name.ns, "");
      CompareChain(a.name.name, b.name.name, "");
    }
    forall a, b, c | le(a, b) && le(b, c) ensures le(a, c) {
      CompareChain(a.name.ns, b.name.ns, c.name.ns);
      CompareChain(b.name.ns, c.name.ns, a.name.ns);
      CompareChain(a.name.ns, c.name.ns, b.name.ns);
      CompareChain(c.name.ns, a.name.ns, b.name.ns);
      CompareChain(a.name.name, b.name.name, c.name.name);
    }
  }

  /** The rendered policies do not depend on the order they are listed in. */
  lemma PolicyOrderIndependent(w: World, licensed: bool, a: seq<PolicyObject>, b: seq<PolicyObject>)
    requires DistinctPolicies(a) && multiset(a) == multiset(b)
    ensures PoliciesRendered(w, licensed, a) == PoliciesRendered(w, licensed, b)
  {
    PolicyOrderIsTotal();
    forall x, y | x in a && y in a && PolicyOrder()(x, y) && PolicyOrder()(y, x) ensures x == y {
      CompareChain(x.name.ns, y.name.ns, "");
      CompareChain(x.name.name, y.name.name, "");
      assert x.name == y.name;
    }
    SortPermutationInvariant(a, b, PolicyOrder());
  }

  /** Two namespaces can claim one key. */
  lemma PolicyKeyNotInjective()
    ensures PolicyKey(Name("a-b", "c")) == PolicyKey(Name("a", "b-c")) && Name("a-b", "c") != Name("a", "b-c")
  {
    assert "a-b" != "a" by { assert |"a-b"| != |"a"|; }
    assert "gw-" + "a-b" + "-" + "c" == "gw-a-b-c" == "gw-" + "a" + "-" + "b-c";
  }
}
