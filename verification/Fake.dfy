/** The fake Pangolin of test/pangolinfake/fake.go: maps, id counters and delete logs,
    updated in place by the request handlers. */
module Fake {
  import opened Text
  import opened Sorting
  import opened Types
  import opened Server
  import opened Paging
  import Validators

  /** No two of the given keys share a non-empty domain. */
  ghost predicate UniqueAmong(domains: map<string, string>, keys: set<string>) {
    forall a, b :: a in domains && b in domains && a in keys && b in keys && a != b ==>
      domains[a] == "" || domains[a] != domains[b]
  }

  /** No key of the set has this domain. */
  ghost predicate Fresh(domains: map<string, string>, keys: set<string>, d: string) {
    forall k :: k in domains && k in keys ==> domains[k] != d
  }

  lemma UniqueStep(domains: map<string, string>, keys: set<string>, k: string)
    requires UniqueAmong(domains, keys) && k in domains && (domains[k] == "" || Fresh(domains, keys, domains[k]))
    ensures UniqueAmong(domains, keys + {k})
  {}

  lemma TwoAlike(domains: map<string, string>, a: string, b: string)
    requires a in domains && b in domains && a != b && domains[a] == domains[b] != ""
    ensures !UniqueAmong(domains, domains.Keys)
  {}

  /** The duplicate check: a map of domains seen so far, filled in any order. */
  method CheckDomains(domains: map<string, string>) returns (ok: bool)
    ensures ok <==> UniqueAmong(domains, domains.Keys)
  {
    var seen: map<string, string> := map[];
    var done: set<string> := {};
    assert UniqueAmong(domains, done);
    hide UniqueAmong;
    while done != domains.Keys
      invariant done <= domains.Keys && UniqueAmong(domains, done)
      invariant forall d :: d in seen ==> d != "" && seen[d] in done && domains[seen[d]] == d
      invariant forall k :: k in done && domains[k] != "" ==> domains[k] in seen
      decreases |domains.Keys - done|
    {
      var k :| k in domains && k !in done;
      var d := domains[k];
      if d != "" && d in seen {
        TwoAlike(domains, seen[d], k);
        return false;
      }
      UniqueStep(domains, done, k);
      if d != "" { seen := seen[d := k]; }
      done := done + {k};
    }
    return true;
  }

  /** The key with an id, found by walking the map. */
  method KeyOf(ids: map<string, int>, id: int) returns (found: Option<string>)
    requires Injective(ids)
    ensures found.None? <==> forall k :: k in ids ==> ids[k] != id
    ensures found.Some? ==> found.value in ids && ids[found.value] == id && KeysWithId(ids, id) == {found.value}
  {
    var todo := ids.Keys;
    while todo != {}
      invariant todo <= ids.Keys
      invariant forall k :: k in ids && k !in todo ==> ids[k] != id
      decreases |todo|
    {
      var k :| k in todo;
      todo := todo - {k};
      if ids[k] == id { return Some(k); }
    }
    found := None;
  }

  class Fake {
    const w: World

    var resources: map<string, PublicResource>
    var ids: map<string, int>
    var nextID: int
    var deleted: seq<int>

    var privateResources: map<string, PrivateResource>
    var privateIDs: map<string, int>
    var nextPrivateID: int
    var privateDeleted: seq<int>

    var policies: map<string, PublicPolicy>
    var policyIDs: map<string, int>
    var nextPolicyID: int
    var policyDeleted: seq<int>

    var mtlsCerts: map<string, seq<string>>
    var mtlsStrip: bool
    var licensed: bool
    var sites: set<string>
    var machines: set<string>
    var users: set<User>

    ghost function PublicTable(): Table<PublicResource>
      reads this`resources, this`ids, this`nextID, this`deleted
    {
      Table(resources, ids, nextID, deleted)
    }

    ghost function PrivateTable(): Table<PrivateResource>
      reads this`privateResources, this`privateIDs, this`nextPrivateID, this`privateDeleted
    {
      Table(privateResources, privateIDs, nextPrivateID, privateDeleted)
    }

    ghost function PolicyTable(): Table<PublicPolicy>
      reads this`policies, this`policyIDs, this`nextPolicyID, this`policyDeleted
    {
      Table(policies, policyIDs, nextPolicyID, policyDeleted)
    }

    ghost function State(): ServerState
      reads this
    {
      ServerState(PublicTable(), PrivateTable(), PolicyTable(), mtlsCerts, mtlsStrip, licensed, sites, machines, users)
    }

    ghost predicate Valid()
      reads this
    {
      ValidState(State())
    }

    constructor (w: World)
      ensures Valid() && this.w == w
      ensures State() == ServerState(Table(map[], map[], 1, []), Table(map[], map[], 1, []), Table(map[], map[], 1, []),
                                     map[], false, false, {"test-site", "default-site"}, {"test-machine"},
                                     {User("test-user", "test-user@example.com")})
    {
      this.w := w;
      resources, ids, nextID, deleted := map[], map[], 1, [];
      privateResources, privateIDs, nextPrivateID, privateDeleted := map[], map[], 1, [];
      policies, policyIDs, nextPolicyID, policyDeleted := map[], map[], 1, [];
      mtlsCerts, mtlsStrip, licensed := map[], false, false;
      sites, machines := {"test-site", "default-site"}, {"test-machine"};
      users := {User("test-user", "test-user@example.com")};
    }

    // ---------- puts ----------

    method Put(k: string, v: PublicResource) returns (id: int)
      requires ValidTable(PublicTable())
      modifies this`resources, this`ids, this`nextID
      ensures ValidTable(PublicTable()) && PublicTable() == PutRow(old(PublicTable()), k, v)
      ensures State() == old(State()).(public := PublicTable())
      ensures k in ids && id == ids[k]
    {
      hide ValidTable;
      PutRowValid(PublicTable(), k, v);
      resources := resources[k := v];
      if k in ids { return ids[k]; }
      id := nextID;
      nextID := nextID + 1;
      ids := ids[k := id];
    }

    method PutPrivateRow(k: string, v: PrivateResource) returns (id: int)
      requires ValidTable(PrivateTable())
      modifies this`privateResources, this`privateIDs, this`nextPrivateID
      ensures ValidTable(PrivateTable()) && PrivateTable() == PutRow(old(PrivateTable()), k, v)
      ensures State() == old(State()).(private := PrivateTable())
      ensures k in privateIDs && id == privateIDs[k]
    {
      hide ValidTable;
      PutRowValid(PrivateTable(), k, v);
      privateResources := privateResources[k := v];
      if k in privateIDs { return privateIDs[k]; }
      id := nextPrivateID;
      nextPrivateID := nextPrivateID + 1;
      privateIDs := privateIDs[k := id];
    }

    method PutPolicyRow(k: string, v: PublicPolicy) returns (id: int)
      requires ValidTable(PolicyTable())
      modifies this`policies, this`policyIDs, this`nextPolicyID
      ensures ValidTable(PolicyTable()) && PolicyTable() == PutRow(old(PolicyTable()), k, v)
      ensures State() == old(State()).(policies := PolicyTable())
      ensures k in policyIDs && id == policyIDs[k]
    {
      hide ValidTable;
      PutRowValid(PolicyTable(), k, v);
      policies := policies[k := v];
      if k in policyIDs { return policyIDs[k]; }
      id := nextPolicyID;
      nextPolicyID := nextPolicyID + 1;
      policyIDs := policyIDs[k := id];
    }

    method PutAllPublic(doc: map<string, PublicResource>)
      requires ValidTable(PublicTable())
      modifies this`resources, this`ids, this`nextID
      ensures Merged(old(PublicTable()), doc, PublicTable())
      ensures State() == old(State()).(public := PublicTable())
    {
      MergedNothing(PublicTable(), doc);
      var done: set<string> := {};
      while done != doc.Keys
        invariant done <= doc.Keys
        invariant Merged(old(PublicTable()), Sub(doc, done), PublicTable())
        invariant State() == old(State()).(public := PublicTable())
        decreases |doc.Keys - done|
      {
        var k :| k in doc && k !in done;
        MergedStep(old(PublicTable()), doc, done, PublicTable(), k);
        var _ := Put(k, doc[k]);
        done := done + {k};
      }
      SubAll(doc);
    }

    method PutAllPrivate(doc: map<string, PrivateResource>)
      requires ValidTable(PrivateTable())
      modifies this`privateResources, this`privateIDs, this`nextPrivateID
      ensures Merged(old(PrivateTable()), doc, PrivateTable())
      ensures State() == old(State()).(private := PrivateTable())
    {
      MergedNothing(PrivateTable(), doc);
      var done: set<string> := {};
      while done != doc.Keys
        invariant done <= doc.Keys
        invariant Merged(old(PrivateTable()), Sub(doc, done), PrivateTable())
        invariant State() == old(State()).(private := PrivateTable())
        decreases |doc.Keys - done|
      {
        var k :| k in doc && k !in done;
        MergedStep(old(PrivateTable()), doc, done, PrivateTable(), k);
        var _ := PutPrivateRow(k, doc[k]);
        done := done + {k};
      }
      SubAll(doc);
    }

    method PutAllPolicies(doc: map<string, PublicPolicy>)
      requires ValidTable(PolicyTable())
      modifies this`policies, this`policyIDs, this`nextPolicyID
      ensures Merged(old(PolicyTable()), doc, PolicyTable())
      ensures State() == old(State()).(policies := PolicyTable())
    {
      MergedNothing(PolicyTable(), doc);
      var done: set<string> := {};
      while done != doc.Keys
        invariant done <= doc.Keys
        invariant Merged(old(PolicyTable()), Sub(doc, done), PolicyTable())
        invariant State() == old(State()).(policies := PolicyTable())
        decreases |doc.Keys - done|
      {
        var k :| k in doc && k !in done;
        MergedStep(old(PolicyTable()), doc, done, PolicyTable(), k);
        var _ := PutPolicyRow(k, doc[k]);
        done := done + {k};
      }
      SubAll(doc);
    }

    // ---------- apply ----------

    /** Every resource's rules, then the domains. */
    method CheckPublic(b: Blueprint) returns (ok: bool)
      requires Valid()
      ensures ok <==> (forall k :: k in b.public ==> RulesPass(w, b.public[k].rules)) && PublicDomainsUnique(b.public)
    {
      var todo := b.public.Keys;
      while todo != {}
        invariant todo <= b.public.Keys
        invariant forall k :: k in b.public && k !in todo ==> RulesPass(w, b.public[k].rules)
        decreases |todo|
      {
        var k :| k in todo;
        todo := todo - {k};
        ok := CheckRules(w, b.public[k].rules);
        if !ok { return; }
      }
      var domains := map k | k in b.public :: b.public[k].fullDomain;
      ok := CheckDomains(domains);
      assert UniqueAmong(domains, domains.Keys) <==> PublicDomainsUnique(b.public) by {
        assert forall k :: k in b.public ==> k in domains && domains[k] == b.public[k].fullDomain;
      }
    }

    method CheckPrivate(b: Blueprint) returns (ok: bool)
      requires Valid()
      ensures ok <==> (forall k :: k in b.private ==> PrivateSchema(w, b.private[k])) && PrivateDomainsUnique(b.private)
    {
      var todo := b.private.Keys;
      while todo != {}
        invariant todo <= b.private.Keys
        invariant forall k :: k in b.private && k !in todo ==> PrivateSchema(w, b.private[k])
        decreases |todo|
      {
        var k :| k in todo;
        todo := todo - {k};
        if !PrivateSchema(w, b.private[k]) { return false; }
      }
      var domains := map k | k in b.private :: b.private[k].fullDomain;
      ok := CheckDomains(domains);
      assert UniqueAmong(domains, domains.Keys) <==> PrivateDomainsUnique(b.private) by {
        assert forall k :: k in b.private ==> k in domains && domains[k] == b.private[k].fullDomain;
      }
    }

    /** The addresses and the policy one resource names. */
    method CheckResourcePolicy(b: Blueprint, res: PublicResource) returns (ok: bool)
      ensures ok <==> ResourcePolicyPasses(State(), b, res)
    {
      var i := 0;
      while i < |res.auth.whitelist|
        invariant 0 <= i <= |res.auth.whitelist|
        invariant forall j :: 0 <= j < i ==> Validators.ValidEmail(res.auth.whitelist[j])
      {
        if !Validators.ValidEmail(res.auth.whitelist[i]) { return false; }
        i := i + 1;
      }
      if res.policy == "" { return true; }
      if !licensed { return false; }
      return res.policy in b.policies || res.policy in policies;
    }

    /** checkPolicies: the policies of the document, then what each resource names. It
        stops at the first complaint, whatever the order. */
    method CheckPolicies(b: Blueprint) returns (ok: bool)
      ensures ok <==> PoliciesPass(w, State(), b)
    {
      var todo := b.policies.Keys;
      while todo != {}
        invariant todo <= b.policies.Keys
        invariant forall k :: k in b.policies && k !in todo ==> licensed && PolicySchema(w, b.policies[k])
        decreases |todo|
      {
        var k :| k in todo;
        todo := todo - {k};
        if !licensed { return false; }
        if !PolicySchema(w, b.policies[k]) { return false; }
      }
      todo := b.public.Keys;
      while todo != {}
        invariant todo <= b.public.Keys
        invariant forall k :: k in b.public && k !in todo ==> ResourcePolicyPasses(State(), b, b.public[k])
        decreases |todo|
      {
        var k :| k in todo;
        todo := todo - {k};
        ok := CheckResourcePolicy(b, b.public[k]);
        if !ok { return; }
      }
      ok := true;
    }

    /** One list of site names; an empty name asks for none. */
    method KnowsSites(names: seq<string>) returns (ok: bool)
      ensures ok <==> forall x :: x in names ==> x == "" || x in sites
    {
      var i := 0;
      while i < |names|
        invariant 0 <= i <= |names|
        invariant forall j :: 0 <= j < i ==> names[j] == "" || names[j] in sites
      {
        if names[i] != "" && names[i] !in sites { return false; }
        i := i + 1;
      }
      ok := true;
    }

    method CheckSites(b: Blueprint) returns (ok: bool)
      ensures ok <==> SitesPass(State(), b)
    {
      var todo := b.public.Keys;
      while todo != {}
        invariant todo <= b.public.Keys
        invariant forall k :: k in b.public && k !in todo ==>
          forall t :: t in b.public[k].targets ==> t.site == "" || t.site in sites
        decreases |todo|
      {
        var k :| k in todo;
        todo := todo - {k};
        var targets := b.public[k].targets;
        var names := seq(|targets|, i requires 0 <= i < |targets| => targets[i].site);
        assert forall i :: 0 <= i < |targets| ==> names[i] == targets[i].site && names[i] in names;
        ok := KnowsSites(names);
        if !ok { return; }
      }
      todo := b.private.Keys;
      while todo != {}
        invariant todo <= b.private.Keys
        invariant forall k :: k in b.private && k !in todo ==>
          forall x :: x in b.private[k].sites ==> x == "" || x in sites
        decreases |todo|
      {
        var k :| k in todo;
        todo := todo - {k};
        ok := KnowsSites(b.private[k].sites);
        if !ok { return; }
      }
      ok := true;
    }

    /** aliasOwner: somebody else in the document, or in the store and not in the document. */
    method AliasTaken(b: Blueprint, key: string, alias: string) returns (taken: bool)
      requires key in b.private
      ensures taken <==> AliasTakenInDocument(b, key, alias) || AliasTakenInStore(State(), b, alias)
    {
      var todo := b.private.Keys;
      while todo != {}
        invariant todo <= b.private.Keys
        invariant forall o :: o in b.private && o !in todo ==> o == key || b.private[o].alias != alias
        decreases |todo|
      {
        var o :| o in todo;
        todo := todo - {o};
        if o != key && b.private[o].alias == alias { return true; }
      }
      todo := privateResources.Keys;
      while todo != {}
        invariant todo <= privateResources.Keys
        invariant forall o :: o in privateResources && o !in todo ==>
            o in b.private || privateResources[o].alias != alias
        decreases |todo|
      {
        var o :| o in todo;
        todo := todo - {o};
        if o in b.private || o == key { continue; }
        if privateResources[o].alias == alias { return true; }
      }
      taken := false;
    }

    method AnyMachine(names: seq<string>) returns (any: bool)
      ensures any <==> exists m :: m in names && m in machines
    {
      var i := 0;
      while i < |names|
        invariant 0 <= i <= |names|
        invariant forall j :: 0 <= j < i ==> names[j] !in machines
      {
        if names[i] in machines { return true; }
        i := i + 1;
      }
      any := false;
    }

    /** A name is some user's username or address. */
    method IsUser(name: string) returns (yes: bool)
      ensures yes <==> exists u :: u in users && (name == u.username || name == u.email)
    {
      var todo := users;
      while todo != {}
        invariant todo <= users
        invariant forall u :: u in users && u !in todo ==> name != u.username && name != u.email
        decreases |todo|
      {
        var u :| u in todo;
        todo := todo - {u};
        if name == u.username || name == u.email { return true; }
      }
      yes := false;
    }

    method AnyUser(names: seq<string>) returns (any: bool)
      ensures any <==> NamesUser(State(), names)
    {
      var i := 0;
      while i < |names|
        invariant 0 <= i <= |names|
        invariant forall j, u :: 0 <= j < i && u in users ==> names[j] != u.username && names[j] != u.email
      {
        any := IsUser(names[i]);
        if any { return; }
        i := i + 1;
      }
      any := false;
    }

    /** The alias and grant checks on one private entry. */
    method CheckGrants(b: Blueprint, k: string) returns (ok: bool)
      requires k in b.private
      ensures ok <==> PrivatePasses(State(), b, k)
    {
      var res := b.private[k];
      if res.alias != "" {
        var taken := AliasTaken(b, k, res.alias);
        if taken { return false; }
      }
      if |res.machines| > 0 {
        var known := AnyMachine(res.machines);
        if !known { return false; }
      }
      ok := true;
      if |res.users| > 0 { ok := AnyUser(res.users); }
    }

    /** The parsed certificate sets, or failure for a document with a bad one. */
    method ParseAll(b: Blueprint) returns (ok: bool, certs: map<string, seq<string>>)
      ensures ok <==> CAsPass(w, State(), b)
      ensures ok ==> certs == StoredCAs(w, State(), b)
    {
      hide ParsedCAs;
      certs := map[];
      if mtlsStrip { return true, certs; }
      var todo := b.public.Keys;
      while todo != {}
        invariant todo <= b.public.Keys
        invariant forall k :: k in b.public && k !in todo && SentCAs(b.public[k]).Some? ==>
          ParsedCAs(w, SentCAs(b.public[k]).value).Some?
          && k in certs && certs[k] == ParsedCAs(w, SentCAs(b.public[k]).value).value
        invariant forall k :: k in certs ==> k in b.public && k !in todo && SentCAs(b.public[k]).Some?
        decreases |todo|
      {
        var k :| k in todo;
        todo := todo - {k};
        var sent := SentCAs(b.public[k]);
        if sent.Some? {
          var parsed := ParseMtlsCertificates(w, sent.value);
          if parsed.None? { return false, certs; }
          certs := certs[k := parsed.value];
        }
      }
      ok := true;
    }

    method CheckAllGrants(b: Blueprint) returns (ok: bool)
      ensures ok <==> forall k :: k in b.private ==> PrivatePasses(State(), b, k)
    {
      var todo := b.private.Keys;
      while todo != {}
        invariant todo <= b.private.Keys
        invariant forall k :: k in b.private && k !in todo ==> PrivatePasses(State(), b, k)
        decreases |todo|
      {
        var k :| k in todo;
        todo := todo - {k};
        ok := CheckGrants(b, k);
        if !ok { return; }
      }
      ok := true;
    }

    /** The writes, once every check has passed. */
    method Write(b: Blueprint, certs: map<string, seq<string>>)
      requires Valid() && CAsPass(w, State(), b) && certs == StoredCAs(w, State(), b)
      modifies this
      ensures Valid() && Applied(w, old(State()), b, State())
    {
      hide ValidTable;
      PutAllPublic(b.public);
      mtlsCerts := mtlsCerts + certs;
      PutAllPrivate(b.private);
      PutAllPolicies(b.policies);
    }

    method CheckDocument(b: Blueprint) returns (ok: bool)
      requires Valid()
      ensures ok <==> DocumentPasses(w, State(), b)
    {
      ok := CheckPublic(b);
      if !ok { return; }
      ok := CheckPrivate(b);
      if !ok { return; }
      ok := CheckPolicies(b);
      if !ok { return; }
      ok := CheckSites(b);
      if !ok { return; }
      ok := CheckAllGrants(b);
    }

    /** handleApply: refused as a whole or applied as a whole, whatever order the
        maps are walked in. */
    method HandleApply(b: Blueprint, fails: bool) returns (ok: bool)
      requires Valid()
      modifies this
      ensures Valid()
      ensures ok <==> !fails && Acceptable(w, old(State()), b)
      ensures if ok then Applied(w, old(State()), b, State()) else State() == old(State())
    {
      if fails { return false; }
      ok := CheckDocument(b);
      if !ok { return; }
      var certs;
      ok, certs := ParseAll(b);
      if !ok { return; }
      Write(b, certs);
    }

    // ---------- listings ----------

    /** handleList and its two siblings: how the listing answers each page request
        while the tables stand still. Policies need a licence. */
    method Listing(sec: Section, size: int, fails: bool) returns (fetch: int -> Reply<Row>, ghost total: int)
      requires Valid()
      ensures total == |RowsOf(State(), sec)|
      ensures fetch == if fails || (sec.PolicySection? && !licensed) then Refuse()
                       else Serve(RowsOf(State(), sec), PageSize(size), total)
    {
      total := |RowsOf(State(), sec)|;
      if fails || (sec.PolicySection? && !licensed) { return Refuse(), total; }
      var table := match sec
        case PublicSection => ids
        case PrivateSection => privateIDs
        case PolicySection => policyIDs;
      var keys := KeysInOrder(table.Keys);
      var rows := seq(|keys|, i requires 0 <= i < |keys| => Row(keys[i], table[keys[i]]));
      assert rows == RowsOf(State(), sec);
      fetch := Serve(rows, if size < 1 then 20 else size, |rows|);
    }

    // ---------- deletes ----------

    /** Some resource names the policy. */
    method IsNamed(policy: string) returns (named: bool)
      ensures named <==> Named(State(), policy)
    {
      var todo := resources.Keys;
      while todo != {}
        invariant todo <= resources.Keys
        invariant forall r :: r in resources && r !in todo ==> resources[r].policy != policy
        decreases |todo|
      {
        var r :| r in todo;
        todo := todo - {r};
        if resources[r].policy == policy { return true; }
      }
      named := false;
    }

    method HandleDelete(id: int, fails: bool) returns (ok: bool)
      requires ValidTable(PublicTable())
      modifies this`resources, this`ids, this`deleted
      ensures ValidTable(PublicTable())
      ensures ok <==> !fails && HasId(old(PublicTable()), id)
      ensures PublicTable() == if fails then old(PublicTable()) else RemoveId(old(PublicTable()), id)
      ensures State() == old(State()).(public := PublicTable())
    {
      RemoveIdValid(PublicTable(), id);
      if fails { return false; }
      var found := KeyOf(ids, id);
      if found.None? { return false; }
      var k := found.value;
      resources := resources - {k};
      ids := ids - {k};
      deleted := deleted + [id];
      ok := true;
    }

    method HandlePrivateDelete(id: int, fails: bool) returns (ok: bool)
      requires ValidTable(PrivateTable())
      modifies this`privateResources, this`privateIDs, this`privateDeleted
      ensures ValidTable(PrivateTable())
      ensures ok <==> !fails && HasId(old(PrivateTable()), id)
      ensures PrivateTable() == if fails then old(PrivateTable()) else RemoveId(old(PrivateTable()), id)
      ensures State() == old(State()).(private := PrivateTable())
    {
      RemoveIdValid(PrivateTable(), id);
      if fails { return false; }
      var found := KeyOf(privateIDs, id);
      if found.None? { return false; }
      var k := found.value;
      privateResources := privateResources - {k};
      privateIDs := privateIDs - {k};
      privateDeleted := privateDeleted + [id];
      ok := true;
    }

    method RemovePolicy(k: string, id: int)
      requires ValidTable(PolicyTable()) && k in policyIDs && policyIDs[k] == id && KeysWithId(policyIDs, id) == {k}
      modifies this`policies, this`policyIDs, this`policyDeleted
      ensures ValidTable(PolicyTable()) && PolicyTable() == RemoveId(old(PolicyTable()), id)
      ensures State() == old(State()).(policies := PolicyTable())
    {
      RemoveIdValid(PolicyTable(), id);
      hide ValidTable;
      policies := policies - {k};
      policyIDs := policyIDs - {k};
      policyDeleted := policyDeleted + [id];
    }

    /** Refused while a resource still names the policy. */
    method HandlePolicyDelete(id: int, fails: bool) returns (ok: bool)
      requires ValidTable(PolicyTable())
      modifies this`policies, this`policyIDs, this`policyDeleted
      ensures ValidTable(PolicyTable())
      ensures (State(), ok) == if fails then (old(State()), false) else DeleteIn(old(State()), PolicySection, id)
    {
      PolicyDeleteMeans(State(), id);
      hide DeleteIn, RemoveId, Named;
      if fails || !licensed { return false; }
      var found := KeyOf(policyIDs, id);
      if found.None? { return false; }
      var named := IsNamed(found.value);
      if named { return false; }
      RemovePolicy(found.value, id);
      ok := true;
    }

    /** Which handler a delete of a section goes to. */
    method DeleteById(sec: Section, id: int, fails: bool) returns (ok: bool)
      requires Valid()
      modifies this
      ensures Valid() && State() == (if fails then old(State()) else DeleteIn(old(State()), sec, id).0)
      ensures ok <==> !fails && DeleteIn(old(State()), sec, id).1
    {
      match sec {
        case PublicSection => ok := HandleDelete(id, fails);
        case PrivateSection => ok := HandlePrivateDelete(id, fails);
        case PolicySection =>
          ok := HandlePolicyDelete(id, fails);
      }
    }

    // ---------- other clients ----------

    method ExecuteOne(op: Op)
      requires Valid()
      modifies this
      ensures Valid() && State() == RunOp(old(State()), op)
    {
      match op {
        case PutPublic(k, v) => var _ := Put(k, v);
        case PutPrivate(k, v) => var _ := PutPrivateRow(k, v);
        case PutPolicy(k, v) => var _ := PutPolicyRow(k, v);
        case Delete(sec, id) => var _ := DeleteById(sec, id, false);
      }
    }

    method Execute(ops: seq<Op>)
      requires Valid()
      modifies this
      ensures Valid() && State() == RunOps(old(State()), ops)
    {
      var i := 0;
      while i < |ops|
        invariant 0 <= i <= |ops| && Valid()
        invariant State() == RunOps(old(State()), ops[..i])
      {
        assert ops[..i + 1][..i] == ops[..i];
        ExecuteOne(ops[i]);
        i := i + 1;
      }
      assert ops[..i] == ops;
    }
  }

  /** A missing or senseless page size means 20. */
  function PageSize(asked: int): (size: int)
    ensures size >= 1
  {
    if asked < 1 then 20 else asked
  }

  /** A request answered with an error status, page after page. */
  function Refuse<T>(): int -> Reply<T> { p => Failed }

  /** The keys of a map, sorted. */
  method KeysInOrder(keys: set<string>) returns (s: seq<string>)
    ensures s == SortedKeys(keys)
  {
    var found: seq<string> := [];
    var todo := keys;
    while todo != {}
      invariant todo <= keys && Distinct(found)
      invariant forall k :: k in found <==> k in keys - todo
      decreases |todo|
    {
      var k :| k in todo;
      assert k !in found;
      todo := todo - {k};
      found := found + [k];
    }
    s := StableSort(found, StringOrder());
    StringOrderIsTotal();
    SortSorts(found, StringOrder());
    SortPermutes(found, StringOrder());
    SameElements(s, SortedKeys(keys), found);
    forall a, b | a in s && b in s && StringOrder()(a, b) && StringOrder()(b, a) ensures a == b {
      CompareAntisymmetric(a, b);
    }
    SortedUnique(s, SortedKeys(keys), StringOrder());
  }

  lemma StringOrderIsTotal()
    ensures TotalPreorder(StringOrder())
  {
    var le := StringOrder();
    forall a, b ensures le(a, b) || le(b, a) { CompareAntisymmetric(a, b); }
    forall a, b, c | le(a, b) && le(b, c) ensures le(a, c) { CompareTransitive(a, b, c); }
  }

  /** Duplicate-free lists of the same elements are permutations of each other. */
  lemma SameElements(s: seq<string>, t: seq<string>, found: seq<string>)
    requires multiset(s) == multiset(found) && Distinct(found) && Distinct(t)
    requires forall k :: k in found <==> k in t
    ensures multiset(s) == multiset(t)
  {
    forall k ensures multiset(found)[k] == multiset(t)[k] {
      OccursOnce(found, k);
      OccursOnce(t, k);
      assert (k in multiset(found) <==> k in found) && (k in multiset(t) <==> k in t);
    }
  }
}
