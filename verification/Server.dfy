/** The state of a Pangolin organisation and what each request does to it, as
    test/pangolinfake/fake.go spells it out. */
module Server {
  import opened Text
  import opened Sorting
  import opened Types
  import opened Policies
  import PathGlob
  import Validators

  // ---------- tables ----------

  /** One kind of resource: rows by niceId, their numeric ids, the id counter and
      the log of deleted ids. */
  datatype Table<V> = Table(rows: map<string, V>, ids: map<string, int>, next: int, deleted: seq<int>)

  ghost predicate Injective(ids: map<string, int>) {
    forall a, b :: a in ids && b in ids && ids[a] == ids[b] ==> a == b
  }

  /** Ids are unique, and every id handed out so far is below the counter. */
  ghost predicate ValidTable<V>(t: Table<V>) {
    && t.ids.Keys == t.rows.Keys
    && Injective(t.ids)
    && (forall k :: k in t.ids ==> t.ids[k] < t.next)
    && (forall i :: 0 <= i < |t.deleted| ==> t.deleted[i] < t.next)
    && (forall k, i :: k in t.ids && 0 <= i < |t.deleted| ==> t.ids[k] != t.deleted[i])
  }

  function PutRow<V>(t: Table<V>, k: string, v: V): Table<V> {
    if k in t.ids then t.(rows := t.rows[k := v])
    else Table(t.rows[k := v], t.ids[k := t.next], t.next + 1, t.deleted)
  }

  predicate HasId<V>(t: Table<V>, id: int) { exists k | k in t.ids :: t.ids[k] == id }

  function KeysWithId(ids: map<string, int>, id: int): set<string> { set k | k in ids && ids[k] == id }

  function RemoveId<V>(t: Table<V>, id: int): Table<V> {
    if HasId(t, id)
    then Table(t.rows - KeysWithId(t.ids, id), t.ids - KeysWithId(t.ids, id), t.next, t.deleted + [id])
    else t
  }

  lemma PutRowValid<V>(t: Table<V>, k: string, v: V)
    requires ValidTable(t)
    ensures ValidTable(PutRow(t, k, v))
  {}

  lemma RemoveIdValid<V>(t: Table<V>, id: int)
    requires ValidTable(t)
    ensures ValidTable(RemoveId(t, id))
  {}

  function Sub<V>(m: map<string, V>, keys: set<string>): map<string, V> { map k | k in m && k in keys :: m[k] }

  /** Old ids survive, and new rows get ids never handed out before. */
  ghost predicate IdsKept<V>(t: Table<V>, keys: set<string>, t': Table<V>) {
    && (forall k :: k in t.ids ==> k in t'.ids && t'.ids[k] == t.ids[k])
    && (forall k :: k in t'.ids && k !in t.ids ==> t.next <= t'.ids[k])
    && t.next <= t'.next
    && (keys <= t.ids.Keys ==> t'.next == t.next)
    && t'.deleted == t.deleted
  }

  /** t' is t with the document's rows put into it. */
  ghost predicate Merged<V>(t: Table<V>, doc: map<string, V>, t': Table<V>) {
    t'.rows == t.rows + doc && ValidTable(t') && IdsKept(t, doc.Keys, t')
  }

  lemma MergedNothing<V>(t: Table<V>, doc: map<string, V>)
    requires ValidTable(t)
    ensures Merged(t, Sub(doc, {}), t)
  {
    assert t.rows + Sub(doc, {}) == t.rows;
  }

  lemma SubStep<V>(rows: map<string, V>, doc: map<string, V>, done: set<string>, k: string)
    requires k in doc
    ensures rows + Sub(doc, done + {k}) == (rows + Sub(doc, done))[k := doc[k]]
    ensures Sub(doc, done + {k}).Keys == Sub(doc, done).Keys + {k}
  {}

  lemma IdsStep<V>(t: Table<V>, keys: set<string>, t': Table<V>, k: string, v: V)
    requires IdsKept(t, keys, t')
    ensures IdsKept(t, keys + {k}, PutRow(t', k, v))
  {
    if keys + {k} <= t.ids.Keys {
      assert keys <= t.ids.Keys && k in t.ids;
    }
  }

  lemma MergedStep<V>(t: Table<V>, doc: map<string, V>, done: set<string>, t': Table<V>, k: string)
    requires Merged(t, Sub(doc, done), t') && k in doc
    ensures Merged(t, Sub(doc, done + {k}), PutRow(t', k, doc[k]))
  {
    PutRowValid(t', k, doc[k]);
    SubStep(t.rows, doc, done, k);
    IdsStep(t, Sub(doc, done).Keys, t', k, doc[k]);
  }

  lemma SubAll<V>(doc: map<string, V>)
    ensures Sub(doc, doc.Keys) == doc
  {}

  // ---------- the whole state ----------

  datatype User = User(username: string, email: string)

  datatype ServerState = ServerState(
    public: Table<PublicResource>,
    private: Table<PrivateResource>,
    policies: Table<PublicPolicy>,
    mtls: map<string, seq<string>>,
    strip: bool,
    licensed: bool,
    sites: set<string>,
    machines: set<string>,
    users: set<User>)

  ghost predicate ValidState(s: ServerState) {
    ValidTable(s.public) && ValidTable(s.private) && ValidTable(s.policies)
  }

  datatype Section = PublicSection | PrivateSection | PolicySection

  function IdsOf(s: ServerState, sec: Section): map<string, int> {
    match sec
    case PublicSection => s.public.ids
    case PrivateSection => s.private.ids
    case PolicySection => s.policies.ids
  }

  function NextOf(s: ServerState, sec: Section): int {
    match sec
    case PublicSection => s.public.next
    case PrivateSection => s.private.next
    case PolicySection => s.policies.next
  }

  // ---------- listings ----------

  datatype Row = Row(key: string, id: int)

  function StringOrder(): (string, string) -> bool { (a, b) => Compare(a, b) <= 0 }

  /** The keys of a table in order, as sortedKeys returns them. */
  ghost function SortedKeys(keys: set<string>): (s: seq<string>)
    ensures forall k :: k in s <==> k in keys
    ensures Distinct(s) && Sorted(s, StringOrder())
  {
    if keys == {} then []
    else
      LeastExists(keys);
      var least :| least in keys && forall k :: k in keys ==> Compare(least, k) <= 0;
      [least] + SortedKeys(keys - {least})
  }

  lemma {:induction false} LeastExists(keys: set<string>)
    requires keys != {}
    ensures exists m :: m in keys && forall k :: k in keys ==> Compare(m, k) <= 0
  {
    var x :| x in keys;
    CompareReflexive(x);
    if keys == {x} {
      assert forall k :: k in keys ==> Compare(x, k) <= 0;
    } else {
      LeastExists(keys - {x});
      var m :| m in keys - {x} && forall k :: k in keys - {x} ==> Compare(m, k) <= 0;
      CompareAntisymmetric(x, m);
      if Compare(m, x) <= 0 {
        assert forall k :: k in keys ==> Compare(m, k) <= 0;
      } else {
        forall k | k in keys ensures Compare(x, k) <= 0 {
          if k != x { CompareTransitive(x, m, k); }
        }
      }
    }
  }

  ghost function RowsOf(s: ServerState, sec: Section): seq<Row> {
    var ids := IdsOf(s, sec);
    var keys := SortedKeys(ids.Keys);
    seq(|keys|, i requires 0 <= i < |keys| => Row(keys[i], ids[keys[i]]))
  }

  /** A listing names every row once, with its id. */
  lemma ListingIsExact(s: ServerState, sec: Section)
    ensures var rows, ids := RowsOf(s, sec), IdsOf(s, sec);
      && (forall i :: 0 <= i < |rows| ==> rows[i].key in ids && rows[i].id == ids[rows[i].key])
      && (forall k :: k in ids ==> Row(k, ids[k]) in rows)
      && (forall i, j :: 0 <= i < j < |rows| ==> rows[i].key != rows[j].key)
  {
    var rows, ids := RowsOf(s, sec), IdsOf(s, sec);
    var keys := SortedKeys(ids.Keys);
    assert |rows| == |keys|;
    forall i | 0 <= i < |rows| ensures rows[i].key in ids && rows[i].id == ids[rows[i].key] {
      assert keys[i] in keys;
    }
    forall k | k in ids ensures Row(k, ids[k]) in rows {
      assert k in keys;
      var i :| 0 <= i < |keys| && keys[i] == k;
      assert rows[i] == Row(k, ids[k]);
    }
  }

  // ---------- deletes and other clients ----------

  predicate Named(s: ServerState, policy: string) {
    exists k | k in s.public.rows :: s.public.rows[k].policy == policy
  }

  /** A delete request: the new state and whether it was answered with success. A
      policy some resource still names is refused, as is any policy request without a
      licence. */
  function DeleteIn(s: ServerState, sec: Section, id: int): (ServerState, bool) {
    match sec
    case PublicSection => (s.(public := RemoveId(s.public, id)), HasId(s.public, id))
    case PrivateSection => (s.(private := RemoveId(s.private, id)), HasId(s.private, id))
    case PolicySection =>
      if !s.licensed || exists k | k in KeysWithId(s.policies.ids, id) :: Named(s, k) then (s, false)
      else (s.(policies := RemoveId(s.policies, id)), HasId(s.policies, id))
  }

  /** A policy goes exactly when it exists, the organisation is licensed and no
      resource names it. */
  lemma PolicyDeleteMeans(s: ServerState, id: int)
    ensures var free := s.licensed && HasId(s.policies, id)
                        && forall k :: k in KeysWithId(s.policies.ids, id) ==> !Named(s, k);
            DeleteIn(s, PolicySection, id) == (if free then s.(policies := RemoveId(s.policies, id)) else s, free)
  {
    if !HasId(s.policies, id) { assert s.(policies := RemoveId(s.policies, id)) == s; }
  }

  /** What another client of the organisation may do. */
  datatype Op =
    | PutPublic(key: string, public: PublicResource)
    | PutPrivate(key: string, private: PrivateResource)
    | PutPolicy(key: string, policy: PublicPolicy)
    | Delete(section: Section, id: int)

  function RunOp(s: ServerState, op: Op): ServerState {
    match op
    case PutPublic(k, v) => s.(public := PutRow(s.public, k, v))
    case PutPrivate(k, v) => s.(private := PutRow(s.private, k, v))
    case PutPolicy(k, v) => s.(policies := PutRow(s.policies, k, v))
    case Delete(sec, id) => DeleteIn(s, sec, id).0
  }

  function RunOps(s: ServerState, ops: seq<Op>): ServerState {
    if ops == [] then s else RunOp(RunOps(s, ops[..|ops| - 1]), ops[|ops| - 1])
  }

  lemma DeleteInValid(s: ServerState, sec: Section, id: int)
    requires ValidState(s)
    ensures ValidState(DeleteIn(s, sec, id).0)
  {
    RemoveIdValid(s.public, id);
    RemoveIdValid(s.private, id);
    RemoveIdValid(s.policies, id);
  }

  lemma RunOpValid(s: ServerState, op: Op)
    requires ValidState(s)
    ensures ValidState(RunOp(s, op))
  {
    match op
    case PutPublic(k, v) => PutRowValid(s.public, k, v);
    case PutPrivate(k, v) => PutRowValid(s.private, k, v);
    case PutPolicy(k, v) => PutRowValid(s.policies, k, v);
    case Delete(sec, id) => DeleteInValid(s, sec, id);
  }

  /** The id belongs to that key for good: no other row has it, and none will. */
  ghost predicate Reserved(s: ServerState, sec: Section, row: Row) {
    && row.id < NextOf(s, sec)
    && forall k :: k in IdsOf(s, sec) && IdsOf(s, sec)[k] == row.id ==> k == row.key
  }

  lemma RunOpKeepsReserved(s: ServerState, op: Op, sec: Section, row: Row)
    requires ValidState(s) && Reserved(s, sec, row)
    ensures Reserved(RunOp(s, op), sec, row)
  {
    var s' := RunOp(s, op);
    assert NextOf(s, sec) <= NextOf(s', sec);
    forall k | k in IdsOf(s', sec) && IdsOf(s', sec)[k] == row.id ensures k == row.key {
      assert k in IdsOf(s, sec) && IdsOf(s, sec)[k] == row.id by { OpKeepsIds(s, op, sec, k); }
    }
  }

  /** An id below the counter was there before. */
  lemma OpKeepsIds(s: ServerState, op: Op, sec: Section, k: string)
    requires k in IdsOf(RunOp(s, op), sec)
    ensures IdsOf(RunOp(s, op), sec)[k] == NextOf(s, sec)
        || (k in IdsOf(s, sec) && IdsOf(s, sec)[k] == IdsOf(RunOp(s, op), sec)[k])
  {}

  lemma {:induction false} RunOpsKeep(s: ServerState, ops: seq<Op>, sec: Section, row: Row)
    requires ValidState(s)
    ensures ValidState(RunOps(s, ops))
    ensures Reserved(s, sec, row) ==> Reserved(RunOps(s, ops), sec, row)
  {
    if ops != [] {
      RunOpsKeep(s, ops[..|ops| - 1], sec, row);
      RunOpValid(RunOps(s, ops[..|ops| - 1]), ops[|ops| - 1]);
      if Reserved(s, sec, row) {
        RunOpKeepsReserved(RunOps(s, ops[..|ops| - 1]), ops[|ops| - 1], sec, row);
      }
    }
  }

  // ---------- what an apply checks ----------

  predicate CheckRule(w: World, r: Rule) {
    && KnownAction(r.action)
    && (if r.match_ == "ip" then w.isIP(r.value)
        else if r.match_ == "cidr" then w.isCIDR(r.value)
        else if r.match_ == "path" then PathGlob.IsPathGlob(r.value)
        else r.match_ == "country" || r.match_ == "asn" || r.match_ == "region")
  }

  predicate RulesPass(w: World, rules: seq<Rule>) { forall r | r in rules :: CheckRule(w, r) }

  /** checkRules: the assigned priorities are the positions, so they never collide. */
  method CheckRules(w: World, rules: seq<Rule>) returns (ok: bool)
    ensures ok <==> RulesPass(w, rules)
  {
    var priorities: set<int> := {};
    var i := 0;
    while i < |rules|
      invariant 0 <= i <= |rules|
      invariant forall k :: 0 <= k < i ==> CheckRule(w, rules[k])
      invariant forall p :: p in priorities ==> p <= i
    {
      if !CheckRule(w, rules[i]) { return false; }
      if i + 1 in priorities { assert false; }
      priorities := priorities + {i + 1};
      i := i + 1;
    }
    return true;
  }

  predicate PrivateSchema(w: World, res: PrivateResource) {
    && res.name != "" && res.mode != Unsupported("") && res.destination != ""
    && (res.mode.Unsupported? ==> res.mode.text == "ssh" || res.mode.text == "inference")
    && ADMIN_ROLE !in res.roles
    && (res.alias != "" ==> Validators.AliasName(res.alias))
    && (res.tcpPorts.Some? ==> Validators.ServerPortRanges(res.tcpPorts.value))
    && (res.udpPorts.Some? ==> Validators.ServerPortRanges(res.udpPorts.value))
    && (res.mode.Host? ==>
         (w.isIP(res.destination)
          || (Validators.Hostname(res.destination) && res.alias != "" && Validators.Hostname(res.alias))))
    && (res.mode.Cidr? ==> w.isCIDR(res.destination))
  }

  predicate PolicySchema(w: World, p: PublicPolicy) {
    && p.name != "" && ByteLen(p.name) <= 255
    && (p.pincode != "" ==> SixDigits(p.pincode))
    && ADMIN_ROLE !in p.roles
    && (forall e | e in p.whitelist :: Validators.ValidEmail(e) || Validators.WildcardEmail(e))
    && RulesPass(w, p.rules)
  }

  ghost predicate PublicDomainsUnique(m: map<string, PublicResource>) {
    forall a, b :: a in m && b in m && a != b && m[a].fullDomain != "" ==> m[a].fullDomain != m[b].fullDomain
  }

  ghost predicate PrivateDomainsUnique(m: map<string, PrivateResource>) {
    forall a, b :: a in m && b in m && a != b && m[a].fullDomain != "" ==> m[a].fullDomain != m[b].fullDomain
  }

  /** checkPolicies for one resource. */
  predicate ResourcePolicyPasses(s: ServerState, b: Blueprint, res: PublicResource) {
    && (forall e | e in res.auth.whitelist :: Validators.ValidEmail(e))
    && (res.policy != "" ==> s.licensed && (res.policy in b.policies || res.policy in s.policies.rows))
  }

  predicate PoliciesPass(w: World, s: ServerState, b: Blueprint) {
    && (forall k | k in b.policies :: s.licensed && PolicySchema(w, b.policies[k]))
    && (forall k | k in b.public :: ResourcePolicyPasses(s, b, b.public[k]))
  }

  predicate SitesPass(s: ServerState, b: Blueprint) {
    && (forall k | k in b.public :: forall t | t in b.public[k].targets :: t.site == "" || t.site in s.sites)
    && (forall k | k in b.private :: forall x | x in b.private[k].sites :: x == "" || x in s.sites)
  }

  predicate AliasTakenInDocument(b: Blueprint, k: string, alias: string) {
    exists o | o in b.private :: o != k && b.private[o].alias == alias
  }

  /** An alias belongs to one resource in the organisation, stored ones included. */
  predicate AliasTakenInStore(s: ServerState, b: Blueprint, alias: string) {
    exists o | o in s.private.rows :: o !in b.private && s.private.rows[o].alias == alias
  }

  predicate NamesUser(s: ServerState, names: seq<string>) {
    exists u | u in s.users :: u.username in names || u.email in names
  }

  predicate GrantsPass(s: ServerState, res: PrivateResource) {
    && (res.machines != [] ==> exists m | m in res.machines :: m in s.machines)
    && (res.users != [] ==> NamesUser(s, res.users))
  }

  predicate PrivatePasses(s: ServerState, b: Blueprint, k: string)
    requires k in b.private
  {
    var res := b.private[k];
    && (res.alias != "" ==> !AliasTakenInDocument(b, k, res.alias) && !AliasTakenInStore(s, b, res.alias))
    && GrantsPass(s, res)
  }

  // ---------- trusted certificates ----------

  function UpperHex(c: char): char {
    if 'a' <= c <= 'f' then (c as int - 32) as char else c
  }

  /** Upper-case hex in colon-separated pairs. */
  function Fingerprint(hex: string): string {
    if |hex| < 2 then ""
    else if |hex| == 2 then [UpperHex(hex[0]), UpperHex(hex[1])]
    else [UpperHex(hex[0]), UpperHex(hex[1]), ':'] + Fingerprint(hex[2..])
  }

  function Blocks(w: World, pems: seq<string>): seq<PemBlock> {
    if pems == [] then [] else Blocks(w, pems[..|pems| - 1]) + w.pem(pems[|pems| - 1])
  }

  predicate BadBlock(w: World, b: PemBlock) {
    Contains(b.typ, "PRIVATE KEY") || (b.typ == "CERTIFICATE" && !w.parses(b.der))
  }

  /** The fingerprints of the certificate blocks, in order. */
  function CertFingerprints(w: World, bs: seq<PemBlock>): seq<string> {
    if bs == [] then []
    else
      var last := bs[|bs| - 1];
      CertFingerprints(w, bs[..|bs| - 1]) + (if last.typ == "CERTIFICATE" then [Fingerprint(w.digest(last.der))]
        else [])
  }

  const MAX_CERTIFICATES := 20

  /** The set the server would store, or None for a document it rejects. */
  function ParsedCAs(w: World, pems: seq<string>): Option<seq<string>> {
    var bs := Blocks(w, pems);
    if exists b | b in bs :: BadBlock(w, b) then None
    else
      var out := Validators.Dedup(CertFingerprints(w, bs));
      if |out| > MAX_CERTIFICATES then None else Some(out)
  }

  lemma NoFingerprints(w: World, bs: seq<PemBlock>)
    ensures Validators.Dedup(CertFingerprints(w, bs[..0])) == []
  {}

  lemma NextFingerprint(w: World, bs: seq<PemBlock>, i: nat)
    requires i < |bs|
    ensures var before, fp := Validators.Dedup(CertFingerprints(w, bs[..i])), Fingerprint(w.digest(bs[i].der));
      Validators.Dedup(CertFingerprints(w, bs[..i + 1]))
      == if bs[i].typ == "CERTIFICATE" && fp !in before then before + [fp] else before
  {
    assert bs[..i + 1][..i] == bs[..i];
    var before, fp := CertFingerprints(w, bs[..i]), Fingerprint(w.digest(bs[i].der));
    assert (before + [fp])[..|before|] == before;
    assert before + [] == before;
  }

  /** parseMtlsCertificates: split bundles, reject keys and unparseable certificates,
      drop repeated fingerprints, cap the set. */
  method ParseMtlsCertificates(w: World, pems: seq<string>) returns (r: Option<seq<string>>)
    ensures r == ParsedCAs(w, pems)
  {
    hide Contains, Fingerprint, CertFingerprints, Validators.Dedup;
    var bs := Blocks(w, pems);
    var out: seq<string> := [];
    var seen: set<string> := {};
    var i := 0;
    NoFingerprints(w, bs);
    while i < |bs|
      invariant 0 <= i <= |bs|
      invariant forall k :: 0 <= k < i ==> !BadBlock(w, bs[k])
      invariant out == Validators.Dedup(CertFingerprints(w, bs[..i]))
      invariant forall f :: f in seen <==> f in out
    {
      var b := bs[i];
      NextFingerprint(w, bs, i);
      if Contains(b.typ, "PRIVATE KEY") { assert BadBlock(w, b); return None; }
      if b.typ == "CERTIFICATE" {
        if !w.parses(b.der) { assert BadBlock(w, b); return None; }
        var fp := Fingerprint(w.digest(b.der));
        if fp !in seen {
          seen := seen + {fp};
          out := out + [fp];
        }
      }
      i := i + 1;
    }
    assert bs[..i] == bs;
    if |out| > MAX_CERTIFICATES { return None; }
    return Some(out);
  }

  function SentCAs(res: PublicResource): Option<seq<string>> {
    if res.auth.mtls.Some? then Some(res.auth.mtls.value.certificates) else None
  }

  predicate CAsPass(w: World, s: ServerState, b: Blueprint) {
    s.strip || forall k | k in b.public :: SentCAs(b.public[k]).Some? ==> ParsedCAs(w, SentCAs(b.public[k]).value).Some?
  }

  /** The certificate sets an apply stores; an open-source build stores none. */
  ghost function StoredCAs(w: World, s: ServerState, b: Blueprint): map<string, seq<string>>
    requires CAsPass(w, s, b)
  {
    map k | k in b.public && !s.strip && SentCAs(b.public[k]).Some? :: ParsedCAs(w, SentCAs(b.public[k]).value).value
  }

  // ---------- apply ----------

  /** Everything handleApply checks before it parses certificates. */
  ghost predicate DocumentPasses(w: World, s: ServerState, b: Blueprint) {
    && (forall k :: k in b.public ==> RulesPass(w, b.public[k].rules))
    && (forall k :: k in b.private ==> PrivateSchema(w, b.private[k]))
    && PublicDomainsUnique(b.public)
    && PrivateDomainsUnique(b.private)
    && PoliciesPass(w, s, b)
    && SitesPass(s, b)
    && (forall k :: k in b.private ==> PrivatePasses(s, b, k))
  }

  ghost predicate Acceptable(w: World, s: ServerState, b: Blueprint) {
    DocumentPasses(w, s, b) && CAsPass(w, s, b)
  }

  /** What an accepted apply does: additive, and nothing besides. */
  ghost predicate Applied(w: World, s: ServerState, b: Blueprint, s': ServerState) {
    && CAsPass(w, s, b)
    && Merged(s.public, b.public, s'.public)
    && Merged(s.private, b.private, s'.private)
    && Merged(s.policies, b.policies, s'.policies)
    && s'.mtls == s.mtls + StoredCAs(w, s, b)
    && s'.strip == s.strip && s'.licensed == s.licensed
    && s'.sites == s.sites && s'.machines == s.machines && s'.users == s.users
  }
}
