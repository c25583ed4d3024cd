/** Inputs on which a stronger claim would be false, next to the exact conditions proved
    elsewhere. */
module Witnesses {
  import opened Text
  import opened Sorting
  import opened Types
  import opened Policies
  import opened Server
  import opened Status
  import Acceptance

  // ---------- a policy named by its namespace and name ----------

  lemma {:induction false} BytesAtLeastChars(s: string)
    ensures ByteLen(s) >= |s|
  {
    if s != "" { BytesAtLeastChars(s[1..]); }
  }

  const BARE := PolicySpec("", None, [], [], [], "", [])

  /** 63 characters of namespace and 253 of name are what Kubernetes allows. */
  function LongestName(): Name { Name(seq(63, _ => 'n'), seq(253, _ => 'p')) }

  lemma BareTranslates(w: World, p: PolicyObject)
    requires p.spec == BARE
    ensures TranslatePolicy(w, p, true).Ok? && TranslatePolicy(w, p, true).value.name == p.name.ns + "/" + p.name.name
  {}

  lemma LonePolicyIsPublished(w: World, p: PolicyObject)
    requires p.spec == BARE
    ensures var r := PoliciesRendered(w, true, [p]);
      && r.entries == map[PolicyKey(p.name) := TranslatePolicy(w, p, true).value]
      && p.name in r.verdicts && r.verdicts[p.name] == ResourceVerdict(PolicyKey(p.name), p.generation, VALID_POLICY)
  {
    BareTranslates(w, p);
    assert [p][..0] == [];
    assert StableSort([p], PolicyOrder()) == [p];
    FoldOne(Judge(w, true, [p]));
  }

  lemma FoldOne(js: seq<Judged>)
    requires |js| == 1
    ensures PolicyFold(js) == PolicyStep(PolicyRender(map[], map[], map[]), js[0])
  {
    assert js[..|js| - 1] == [];
  }

  lemma LongNameIsRefused(w: World, s: ServerState, b: Blueprint, k: string)
    requires k in b.policies && ByteLen(b.policies[k].name) > 255
    ensures !Acceptance.PolicyNamesFit(b) && !Acceptable(w, s, b)
  {
    assert !PolicySchema(w, b.policies[k]);
  }

  /** A valid, accepted ResourcePolicy without a display name and with the longest name
      allowed gets a name of 317 bytes in the blueprint: every apply that carries the
      rendered policies is refused, and with it the whole document. */
  lemma LongPolicyNameIsRefused(w: World, s: ServerState, p: PolicyObject, b: Blueprint)
    requires p.spec == BARE && p.name == LongestName()
    requires b.policies == PoliciesRendered(w, true, [p]).entries
    ensures var verdicts := PoliciesRendered(w, true, [p]).verdicts;
            p.name in verdicts && verdicts[p.name].accepted.status
    ensures !Acceptance.PolicyNamesFit(b) && !Acceptable(w, s, b)
  {
    LonePolicyIsPublished(w, p);
    BareTranslates(w, p);
    BytesAtLeastChars(p.name.ns + "/" + p.name.name);
    LongNameIsRefused(w, s, b, PolicyKey(p.name));
  }

  // ---------- two entries of ours for one parent ----------

  const GATEWAY := ParentRef(None, None, None, "gw", None, None)
  const STALE := ParentStatus(GATEWAY, "c", [])
  const REJECTION := Verdict("", 1, [GATEWAY], ConditionResult(false, ReasonUnsupportedValue, Say("")),
                             ConditionResult(true, ReasonResolvedRefs, Say("")))

  /** Given two prior entries of ours for one parent, only the first is updated. */
  lemma DuplicateStaysStale(w: Writer)
    requires w.controller == "c"
    ensures var k := RefKey(GATEWAY, w.ns);
            exists e :: e in Filter(Settled(w, REJECTION, [STALE, STALE]), ForKey(w, k))
              && !CarriesVerdict(REJECTION, e)
  {
    var k, ps := RefKey(GATEWAY, w.ns), [STALE, STALE];
    assert GATEWAY in REJECTION.parentRefs;
    assert ps[..1] == [STALE] && [STALE][..0] == [];
    assert Filter([STALE], ForKey(w, k)) == [STALE];
    assert Filter(ps, ForKey(w, k)) == ps;
    assert ps[1..] == [STALE] && !CarriesVerdict(REJECTION, ps[1..][0]);
    EveryEntryCarriesIff(w, REJECTION, ps, k);
  }
}
