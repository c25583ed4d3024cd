/** The value validators: the client's in internal/gateway, the server's in
    test/pangolinfake/fake.go, and the patterns both sides share. */
module Validators {
  import opened Text
  import opened Sorting

  // ---------- patterns ----------

  predicate IsLetter(c: char) { 'a' <= c <= 'z' || 'A' <= c <= 'Z' }

  predicate IsAlnum(c: char) { IsLetter(c) || IsDigit(c) }

  predicate Letters2(s: string) { |s| >= 2 && forall i :: 0 <= i < |s| ==> IsLetter(s[i]) }

  /** One label of 1 to 63 characters whose ends may not be hyphens. */
  predicate Label(s: string, extra: string) {
    && 1 <= |s| <= 63
    && (forall i :: 0 <= i < |s| ==> IsAlnum(s[i]) || s[i] in extra || s[i] == '-')
    && s[0] != '-' && s[|s| - 1] != '-'
  }

  predicate Hostname(s: string) {
    var labels := Split(s, '.');
    forall i :: 0 <= i < |labels| ==> Label(labels[i], "")
  }

  /** At least two labels; all but the last may hold wildcards. */
  predicate AliasName(s: string) {
    var labels := Split(s, '.');
    && |labels| >= 2
    && forall i :: 0 <= i < |labels| ==> Label(labels[i], if i < |labels| - 1 then "*?" else "")
  }

  predicate EmailDomainLabel(s: string) {
    s != "" && IsAlnum(s[0]) && forall i :: 0 <= i < |s| ==> IsAlnum(s[i]) || s[i] == '-'
  }

  predicate ValidEmail(s: string) {
    var halves := Split(s, '@');
    && !HasPrefix(s, ".")
    && (forall i :: 0 <= i < |s| - 1 ==> !(s[i] == '.' && s[i + 1] == '.'))
    && |halves| == 2
    && halves[0] != ""
    && (forall i :: 0 <= i < |halves[0]| ==> IsAlnum(halves[0][i]) || halves[0][i] in "_'+-.")
    && halves[0][|halves[0]| - 1] != '\'' && halves[0][|halves[0]| - 1] != '.'
    && var labels := Split(halves[1], '.');
       && |labels| >= 2
       && Letters2(labels[|labels| - 1])
       && forall i :: 0 <= i < |labels| - 1 ==> EmailDomainLabel(labels[i])
  }

  /** "*@domain", which only a policy whitelist takes. */
  predicate WildcardEmail(s: string) {
    && HasPrefix(s, "*@")
    && var domain := s[2..];
       var labels := Split(domain, '.');
       && |labels| >= 2
       && Letters2(labels[|labels| - 1])
       && |domain| > |labels[|labels| - 1]| + 1
       && forall i :: 0 <= i < |domain| ==> IsAlnum(domain[i]) || domain[i] in "_.-"
  }

  lemma PatternsRefuseEmpty()
    ensures !Hostname("") && !AliasName("") && !ValidEmail("")
  {
    assert Split("", '.') == [""] && Split("", '@') == [""];
    assert !Label(Split("", '.')[0], "");
  }

  // ---------- port ranges ----------

  function PortNumber(s: string): Option<int> {
    var n := Atoi(TrimSpace(s));
    if n.None? || n.value < 1 || n.value > 65535 then None else n
  }

  /** strings.Cut at the first hyphen. */
  function Cut(s: string): (string, string, bool) {
    if s == "" then ("", "", false)
    else if s[0] == '-' then ("", s[1..], true)
    else var r := Cut(s[1..]); ([s[0]] + r.0, r.1, r.2)
  }

  /** One entry as the controller checks it. */
  predicate ClientPortEntry(entry: string) {
    var part := TrimSpace(entry);
    var (lo, hi, isRange) := Cut(part);
    && part != ""
    && PortNumber(lo).Some?
    && (isRange ==> PortNumber(hi).Some? && PortNumber(lo).value <= PortNumber(hi).value)
  }

  /** One entry as the server checks it. */
  predicate ServerPortEntry(entry: string) {
    var part := TrimSpace(entry);
    var (lo, rest, isRange) := Cut(part);
    var hi := if isRange then rest else lo;
    var start, end := Atoi(TrimSpace(lo)), Atoi(TrimSpace(hi));
    && part != ""
    && start.Some? && end.Some?
    && start.value >= 1 && end.value <= 65535 && start.value <= end.value
  }

  predicate EveryPort(raw: string) { TrimSpace(raw) == "" || TrimSpace(raw) == "*" }

  predicate ClientPortRanges(raw: string) {
    EveryPort(raw) || forall p | p in Split(raw, ',') :: ClientPortEntry(p)
  }

  predicate ServerPortRanges(raw: string) {
    EveryPort(raw) || forall p | p in Split(raw, ',') :: ServerPortEntry(p)
  }

  method CheckPortRanges(raw: string) returns (ok: bool)
    ensures ok <==> ClientPortRanges(raw)
  {
    hide TrimSpace, Cut, PortNumber, Split;
    var s := TrimSpace(raw);
    if s == "" || s == "*" { return true; }
    var parts := Split(raw, ',');
    var i := 0;
    while i < |parts|
      invariant 0 <= i <= |parts|
      invariant forall k :: 0 <= k < i ==> ClientPortEntry(parts[k])
    {
      assert parts[i] in parts;
      var part := TrimSpace(parts[i]);
      if part == "" { return false; }
      var (lo, hi, isRange) := Cut(part);
      var start := PortNumber(lo);
      if start.None? { return false; }
      var end := start;
      if isRange {
        end := PortNumber(hi);
        if end.None? { return false; }
      }
      if start.value > end.value { return false; }
      i := i + 1;
    }
    return true;
  }

  /** The two checks agree on every entry, although one bounds each port and the
      other only the outer ends of the range. */
  lemma PortEntriesAgree(entry: string)
    ensures ClientPortEntry(entry) <==> ServerPortEntry(entry)
  {}

  /** Trimming the list trims only its first and last entries. */
  lemma TrimmedEntries(raw: string)
    ensures var a, b := Split(raw, ','), Split(TrimSpace(raw), ',');
            |a| == |b| && forall i :: 0 <= i < |a| ==> TrimSpace(a[i]) == TrimSpace(b[i])
  {
    hide TrimSpace;
    var left, right := TrimParts(raw);
    var core := TrimSpace(raw);
    var sep := Is(',');
    assert Free(left, sep) && Free(right, sep);
    var b := SplitBy(core, sep);
    var n := |b| - 1;
    SplitPadLeft(left, core, sep);
    var c := SplitBy(left + core, sep);
    SplitPadRight(left + core, right, sep);
    var a := SplitBy(left + core + right, sep);
    forall i | 0 <= i < |a| ensures TrimSpace(a[i]) == TrimSpace(b[i]) {
      if i == 0 && n == 0 {
        TrimPadding(left, b[0], right);
        assert a[0] == left + b[0] + right;
      } else if i == 0 {
        TrimPadding(left, b[0], "");
        assert a[0] == left + b[0] + "";
      } else if i == n {
        TrimPadding("", b[n], right);
        assert a[n] == "" + b[n] + right;
      }
    }
  }

  /** Client and server accept the same port lists, and the server accepts what
      the controller sends, which is the list trimmed. */
  lemma PortValidatorsAgree(raw: string)
    ensures ClientPortRanges(raw) <==> ServerPortRanges(raw)
    ensures ClientPortRanges(raw) <==> ServerPortRanges(TrimSpace(raw))
  {
    hide PortNumber, Atoi, Cut, Split;
    forall p: string { PortEntriesAgree(p); }
    var _, _ := TrimParts(raw);
    TrimTrimmed(TrimSpace(raw));
    TrimmedEntries(raw);
    var a, b := Split(raw, ','), Split(TrimSpace(raw), ',');
    if forall p | p in a :: ClientPortEntry(p) {
      forall p | p in b ensures ServerPortEntry(p) {
        var i :| 0 <= i < |b| && b[i] == p;
        assert ClientPortEntry(a[i]);
      }
    }
    if forall p | p in b :: ServerPortEntry(p) {
      forall p | p in a ensures ClientPortEntry(p) {
        var i :| 0 <= i < |a| && a[i] == p;
        assert ServerPortEntry(b[i]);
      }
    }
  }

  // ---------- grant lists ----------

  function TrimAll(parts: seq<string>): (r: seq<string>)
    ensures |r| == |parts| && forall i :: 0 <= i < |parts| ==> r[i] == TrimSpace(parts[i])
  {
    seq(|parts|, i requires 0 <= i < |parts| => TrimSpace(parts[i]))
  }

  /** The grants an annotation lists; None stands for the error that rejects the
      route, and an absent annotation grants nothing. */
  function GrantNames(annotation: Option<string>): Option<seq<string>> {
    if annotation.None? then Some([])
    else if TrimSpace(annotation.value) == "" then None
    else
      var names := TrimAll(Split(annotation.value, ','));
      if "" in names then None else Some(names)
  }

  method GrantList(annotation: Option<string>) returns (r: Option<seq<string>>)
    ensures r == GrantNames(annotation)
  {
    if annotation.None? { return Some([]); }
    var raw := annotation.value;
    if TrimSpace(raw) == "" { return None; }
    var parts := Split(raw, ',');
    var out: seq<string> := [];
    var i := 0;
    while i < |parts|
      invariant 0 <= i <= |parts|
      invariant out == TrimAll(parts)[..i]
      invariant "" !in out
    {
      var entry := TrimSpace(parts[i]);
      if entry == "" {
        assert TrimAll(parts)[i] == "";
        return None;
      }
      out := out + [entry];
      i := i + 1;
    }
    assert out == TrimAll(parts);
    return Some(out);
  }

  lemma {:induction false} JoinHasFirst(pieces: seq<string>, sep: string)
    requires |pieces| >= 1
    ensures pieces[0] <= Join(pieces, sep)
  {
    if |pieces| > 1 {
      assert pieces[0] + sep + Join(pieces[1..], sep) == pieces[0] + (sep + Join(pieces[1..], sep));
    }
  }

  lemma TrimEmptyMeansSpaces(s: string)
    ensures TrimSpace(s) == "" <==> AllSpace(s)
  {
    var left, right := TrimParts(s);
    if AllSpace(s) { TrimAllSpace(s); }
    if TrimSpace(s) == "" { assert s == left + right; }
  }

  /** Parsing undoes joining: any comma-free pieces, however padded, come back as
      their trimmed names. */
  lemma GrantsRoundTrip(pieces: seq<string>)
    requires |pieces| >= 1
    requires forall i :: 0 <= i < |pieces| ==> Free(pieces[i], Is(',')) && TrimSpace(pieces[i]) != ""
    ensures GrantNames(Some(Join(pieces, ","))) == Some(TrimAll(pieces))
  {
    SplitJoin(pieces, ',', Is(','));
    TrimEmptyMeansSpaces(pieces[0]);
    TrimEmptyMeansSpaces(Join(pieces, ","));
    JoinHasFirst(pieces, ",");
    var i :| 0 <= i < |pieces[0]| && !IsSpace(pieces[0][i]);
    assert Join(pieces, ",")[i] == pieces[0][i];
  }

  // ---------- e-mail whitelists ----------

  predicate IsListSeparator(c: char) { c == ',' || IsSpace(c) }

  function ListSeparators(): char -> bool { c => IsListSeparator(c) }

  /** strings.FieldsFunc: the non-empty pieces between separators. */
  function NonEmpty(parts: seq<string>): (r: seq<string>)
  {
    if parts == [] then []
    else NonEmpty(parts[..|parts| - 1])
         + (if parts[|parts| - 1] != "" then [parts[|parts| - 1]] else [])
  }

  function Fields(raw: string): seq<string> { NonEmpty(SplitBy(raw, ListSeparators())) }

  function LowerAll(fields: seq<string>): (r: seq<string>)
    ensures |r| == |fields| && forall i :: 0 <= i < |fields| ==> r[i] == ToLower(fields[i])
  {
    seq(|fields|, i requires 0 <= i < |fields| => ToLower(fields[i]))
  }

  /** First occurrences, in order. */
  function Dedup(entries: seq<string>): seq<string> {
    if entries == [] then []
    else
      var front, last := Dedup(entries[..|entries| - 1]), entries[|entries| - 1];
      if last in front then front else front + [last]
  }

  lemma {:induction false} DedupKeepsMembers(entries: seq<string>)
    ensures Distinct(Dedup(entries))
    ensures forall e :: e in Dedup(entries) <==> e in entries
  {
    if entries != [] {
      DedupKeepsMembers(entries[..|entries| - 1]);
      assert entries == entries[..|entries| - 1] + [entries[|entries| - 1]];
    }
  }

  lemma {:induction false} DedupOfDistinct(entries: seq<string>)
    requires Distinct(entries)
    ensures Dedup(entries) == entries
  {
    if entries != [] {
      DedupOfDistinct(entries[..|entries| - 1]);
      assert entries == entries[..|entries| - 1] + [entries[|entries| - 1]];
    }
  }

  predicate InlineEntry(entry: string) { !HasPrefix(entry, "*") && ValidEmail(entry) }

  predicate PolicyEntry(entry: string) { ValidEmail(entry) || WildcardEmail(entry) }

  /** The inline whitelist: lowercased and deduplicated in the order written. */
  function InlineWhitelist(raw: string): Option<seq<string>> {
    var entries := LowerAll(Fields(raw));
    if forall e | e in entries :: InlineEntry(e) then Some(Dedup(entries)) else None
  }

  /** A policy's whitelist, which may also hold wildcards. */
  function PolicyWhitelistOf(list: seq<string>): Option<seq<string>> {
    var entries := LowerAll(TrimAll(list));
    if forall e | e in entries :: PolicyEntry(e) then Some(Dedup(entries)) else None
  }

  /** The loop both parsers share: check each entry, keep its first occurrence. */
  method CollectEntries(entries: seq<string>, ok: string -> bool) returns (r: Option<seq<string>>)
    ensures r == if forall e | e in entries :: ok(e) then Some(Dedup(entries)) else None
  {
    var out: seq<string> := [];
    var seen: set<string> := {};
    var i := 0;
    while i < |entries|
      invariant 0 <= i <= |entries|
      invariant forall k :: 0 <= k < i ==> ok(entries[k])
      invariant out == Dedup(entries[..i])
      invariant forall e :: e in seen <==> e in out
    {
      var entry := entries[i];
      if !ok(entry) { return None; }
      assert entries[..i + 1][..i] == entries[..i];
      if entry !in seen {
        seen := seen + {entry};
        out := out + [entry];
      }
      i := i + 1;
    }
    assert entries[..i] == entries;
    return Some(out);
  }

  method EmailWhitelistFor(raw: string) returns (r: Option<seq<string>>)
    ensures r == InlineWhitelist(raw)
  {
    r := CollectEntries(LowerAll(Fields(raw)), e => InlineEntry(e));
  }

  method PolicyWhitelist(list: seq<string>) returns (r: Option<seq<string>>)
    ensures r == PolicyWhitelistOf(list)
  {
    r := CollectEntries(LowerAll(TrimAll(list)), e => PolicyEntry(e));
  }

  lemma {:induction false} NonEmptyMembers(parts: seq<string>)
    ensures forall p :: p in NonEmpty(parts) <==> p in parts && p != ""
  {
    if parts != [] {
      NonEmptyMembers(parts[..|parts| - 1]);
      assert parts == parts[..|parts| - 1] + [parts[|parts| - 1]];
    }
  }

  lemma {:induction false} NonEmptyOfNonEmpty(parts: seq<string>)
    requires "" !in parts
    ensures NonEmpty(parts) == parts
  {
    if parts != [] {
      NonEmptyOfNonEmpty(parts[..|parts| - 1]);
      assert parts == parts[..|parts| - 1] + [parts[|parts| - 1]];
    }
  }

  lemma LowerStaysFree(field: string)
    requires Free(field, ListSeparators())
    ensures Free(ToLower(field), ListSeparators()) && ToLower(ToLower(field)) == ToLower(field)
  {
    assert forall c: char :: IsListSeparator(LowerChar(c)) ==> IsListSeparator(c);
  }

  /** What the parser keeps of a list is lower-case and free of separators. */
  lemma WhitelistEntries(raw: string, e: string)
    requires InlineWhitelist(raw).Some? && e in InlineWhitelist(raw).value
    ensures e != "" && ToLower(e) == e && Free(e, ListSeparators()) && InlineEntry(e)
  {
    hide NonEmpty, InlineEntry;
    var fields := Fields(raw);
    var entries := LowerAll(fields);
    DedupKeepsMembers(entries);
    var i :| 0 <= i < |entries| && entries[i] == e;
    var parts := SplitBy(raw, ListSeparators());
    NonEmptyMembers(parts);
    assert fields[i] in fields;
    SplitFree(raw, ListSeparators());
    assert Free(fields[i], ListSeparators());
    LowerStaysFree(fields[i]);
  }

  lemma FieldsOfJoin(out: seq<string>)
    requires forall e :: e in out ==> e != "" && Free(e, ListSeparators())
    ensures Fields(Join(out, ",")) == out
  {
    if out == [] {
      assert NonEmpty([""]) == [];
    } else {
      assert ListSeparators()(',');
      SplitJoin(out, ',', ListSeparators());
      NonEmptyOfNonEmpty(out);
    }
  }

  /** Re-parsing the comma-joined result gives the same list. */
  lemma WhitelistRoundTrip(raw: string)
    requires InlineWhitelist(raw).Some?
    ensures Distinct(InlineWhitelist(raw).value)
    ensures InlineWhitelist(Join(InlineWhitelist(raw).value, ",")) == InlineWhitelist(raw)
  {
    var out := InlineWhitelist(raw).value;
    DedupKeepsMembers(LowerAll(Fields(raw)));
    forall e | e in out
      ensures e != "" && ToLower(e) == e && Free(e, ListSeparators()) && InlineEntry(e)
    {
      WhitelistEntries(raw, e);
    }
    FieldsOfJoin(out);
    assert LowerAll(out) == out;
    DedupOfDistinct(out);
  }
}
