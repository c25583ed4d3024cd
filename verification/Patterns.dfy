/** The regular expressions both sides share, with their usual meaning, and that the label
    lists of the validators decide exactly their languages. */
module Patterns {
  import opened Text
  import opened Validators

  // ---------- regular expressions ----------

  /** A run of lo to hi characters of a class, a sequence, a repetition, an option. */
  datatype Regex = Run(lo: nat, hi: Option<nat>, cls: char -> bool) | Cat(a: Regex,
                                                                          b: Regex) | Star(r: Regex) | Maybe(r: Regex)

  /** The whole string matches. */
  ghost predicate Matches(r: Regex, s: string)
    decreases r, |s|
  {
    match r
    case Run(lo, hi, cls) => lo <= |s| && (hi.Some? ==> |s| <= hi.value) && forall i :: 0 <= i < |s| ==> cls(s[i])
    case Cat(a, b) => exists i :: 0 <= i <= |s| && Matches(a, s[..i]) && Matches(b, s[i..])
    case Maybe(a) => s == "" || Matches(a, s)
    case Star(a) => s == "" || exists i :: 0 < i <= |s| && Matches(a, s[..i]) && Matches(r, s[i..])
  }

  function One(cls: char -> bool): Regex { Run(1, Some(1), cls) }

  function Plus(r: Regex): Regex { Cat(r, Star(r)) }

  function Dot(): Regex { One(Is('.')) }

  predicate LetterOrDigit(c: char) { 'a' <= c <= 'z' || 'A' <= c <= 'Z' || '0' <= c <= '9' }

  function Alnum(): char -> bool { c => LetterOrDigit(c) }

  /** Letters, digits and a few more. */
  function AlnumOr(more: string): char -> bool { c => LetterOrDigit(c) || c in more }

  function Alpha(): char -> bool { c => 'a' <= c <= 'z' || 'A' <= c <= 'Z' }

  /** An edge character, or two with up to 61 inner ones between them. */
  function LabelRegex(edge: char -> bool, inner: char -> bool): Regex {
    Cat(One(edge), Maybe(Cat(Run(0, Some(61), inner), One(edge))))
  }

  function HostLabel(): Regex { LabelRegex(Alnum(), AlnumOr("-")) }

  function HostnameRegex(): Regex { Cat(Star(Cat(HostLabel(), Dot())), HostLabel()) }

  function AliasRegex(): Regex { Cat(Plus(Cat(LabelRegex(AlnumOr("*?"), AlnumOr("*?-")), Dot())), HostLabel()) }

  function DomainLabel(): Regex { Cat(One(Alnum()), Run(0, None, AlnumOr("-"))) }

  function EmailRegex(): Regex {
    Cat(Run(0, None, AlnumOr("_'+-.")),
        Cat(One(AlnumOr("_+-")),
            Cat(One(Is('@')), Cat(Plus(Cat(DomainLabel(), Dot())), Run(2, None, Alpha())))))
  }

  function WildcardRegex(): Regex {
    Cat(One(Is('*')), Cat(One(Is('@')), Cat(Run(1, None, AlnumOr("_.-")), Cat(Dot(), Run(2, None, Alpha())))))
  }

  // ---------- one label ----------

  lemma OneMatches(cls: char -> bool, s: string)
    ensures Matches(One(cls), s) <==> |s| == 1 && cls(s[0])
  {}

  /** A sequence matches when it can be cut in two. */
  lemma CatAt(a: Regex, b: Regex, s: string, t: string)
    requires Matches(a, s) && Matches(b, t)
    ensures Matches(Cat(a, b), s + t)
  {
    var i := |s|;
    assert (s + t)[..i] == s && (s + t)[i..] == t;
  }

  lemma CatCut(a: Regex, b: Regex, s: string) returns (x: string, y: string)
    requires Matches(Cat(a, b), s)
    ensures s == x + y && Matches(a, x) && Matches(b, y)
  {
    var i :| 0 <= i <= |s| && Matches(a, s[..i]) && Matches(b, s[i..]);
    x, y := s[..i], s[i..];
  }

  lemma RunMatches(lo: nat, hi: Option<nat>, cls: char -> bool, s: string)
    ensures Matches(Run(lo, hi, cls), s)
            <==> lo <= |s| && (hi.Some? ==> |s| <= hi.value) && forall i :: 0 <= i < |s| ==> cls(s[i])
  {}

  /** Edges at both ends, inner characters between them, 63 in all. */
  ghost predicate IsLabel(edge: char -> bool, inner: char -> bool, s: string) {
    1 <= |s| <= 63 && edge(s[0]) && edge(s[|s| - 1]) && forall i :: 0 < i < |s| - 1 ==> inner(s[i])
  }

  lemma MaybeMatches(r: Regex, s: string)
    ensures Matches(Maybe(r), s) <==> s == "" || Matches(r, s)
  {}

  lemma LabelIff(edge: char -> bool, inner: char -> bool, s: string)
    ensures Matches(LabelRegex(edge, inner), s) <==> IsLabel(edge, inner, s)
  {
    hide Matches;
    var body := Cat(Run(0, Some(61), inner), One(edge));
    if Matches(LabelRegex(edge, inner), s) {
      var x, y := CatCut(One(edge), Maybe(body), s);
      OneMatches(edge, x);
      MaybeMatches(body, y);
      if y != "" {
        var u, v := CatCut(Run(0, Some(61), inner), One(edge), y);
        RunMatches(0, Some(61), inner, u);
        OneMatches(edge, v);
        assert s == x + (u + v);
        assert forall i :: 0 < i < |s| - 1 ==> s[i] == u[i - 1];
      }
    }
    if IsLabel(edge, inner, s) {
      var x, y := s[..1], s[1..];
      OneMatches(edge, x);
      if y != "" {
        var u, v := y[..|y| - 1], y[|y| - 1..];
        assert forall i :: 0 <= i < |u| ==> u[i] == s[i + 1];
        RunMatches(0, Some(61), inner, u);
        OneMatches(edge, v);
        CatAt(Run(0, Some(61), inner), One(edge), u, v);
        assert u + v == y;
      }
      MaybeMatches(body, y);
      CatAt(One(edge), Maybe(body), x, y);
      assert x + y == s;
    }
  }

  // ---------- dotted lists ----------

  /** No match of r holds a dot. */
  ghost predicate Dotless(r: Regex) { forall s :: Matches(r, s) ==> Free(s, Is('.')) }

  /** The labels of s: all but the last match l, the last matches t. */
  ghost predicate Dotted(l: Regex, t: Regex, s: string) {
    var labels := Split(s, '.');
    && Matches(t, labels[|labels| - 1]) && forall i :: 0 <= i < |labels| - 1 ==> Matches(l, labels[i])
  }

  lemma DottedOne(l: Regex, t: Regex, s: string)
    requires Matches(t, s) && Dotless(t)
    ensures Dotted(l, t, s)
  {
    SplitOfFree(s, Is('.'));
  }

  lemma DottedMore(l: Regex, t: Regex, x: string, rest: string)
    requires Matches(l, x) && Dotless(l)
    ensures Dotted(l, t, x + "." + rest) <==> Dotted(l, t, rest)
    ensures |Split(x + "." + rest, '.')| >= 2
  {
    hide Matches, SplitBy;
    SplitPeel(x, '.', rest, Is('.'));
    var labels, all := Split(rest, '.'), [x] + Split(rest, '.');
    assert Split(x + "." + rest, '.') == all && all[|all| - 1] == labels[|labels| - 1];
    if Dotted(l, t, x + "." + rest) {
      forall i | 0 <= i < |labels| - 1 ensures Matches(l, labels[i]) { assert all[i + 1] == labels[i]; }
    }
    if Dotted(l, t, rest) {
      forall i | 0 <= i < |all| - 1 ensures Matches(l, all[i]) { assert i > 0 ==> all[i] == labels[i - 1]; }
    }
  }

  lemma StarMatches(r: Regex, s: string)
    ensures Matches(Star(r), s)
            <==> s == "" || exists i :: 0 < i <= |s| && Matches(r, s[..i]) && Matches(Star(r), s[i..])
  {}

  /** One turn of the repetition. */
  lemma DotMatches(l: Regex, x: string)
    ensures Matches(Cat(l, Dot()), x) <==> x != "" && x[|x| - 1] == '.' && Matches(l, x[..|x| - 1])
  {
    if Matches(Cat(l, Dot()), x) {
      var u, v := CatCut(l, Dot(), x);
      OneMatches(Is('.'), v);
      assert x[..|x| - 1] == u;
    }
    if x != "" && x[|x| - 1] == '.' && Matches(l, x[..|x| - 1]) {
      OneMatches(Is('.'), x[|x| - 1..]);
      CatAt(l, Dot(), x[..|x| - 1], x[|x| - 1..]);
      assert x[..|x| - 1] + x[|x| - 1..] == x;
    }
  }

  lemma {:induction false} StarIsDotted(l: Regex, t: Regex, u: string, v: string)
    requires Dotless(l) && Dotless(t) && Matches(Star(Cat(l, Dot())), u) && Matches(t, v)
    ensures Dotted(l, t, u + v) && (u != "" ==> |Split(u + v, '.')| >= 2)
    decreases |u|
  {
    hide Matches, Dotted, Dotless;
    StarMatches(Cat(l, Dot()), u);
    if u == "" {
      assert u + v == v;
      DottedOne(l, t, v);
    } else {
      var i :| 0 < i <= |u| && Matches(Cat(l, Dot()), u[..i]) && Matches(Star(Cat(l, Dot())), u[i..]);
      DotMatches(l, u[..i]);
      var x := u[..i][..i - 1];
      StarIsDotted(l, t, u[i..], v);
      DottedMore(l, t, x, u[i..] + v);
      assert u + v == x + "." + (u[i..] + v);
    }
  }

  lemma {:induction false} DottedIsStar(l: Regex, t: Regex, s: string) returns (u: string, v: string)
    requires Dotted(l, t, s)
    ensures s == u + v && Matches(Star(Cat(l, Dot())), u) && Matches(t, v)
    ensures |Split(s, '.')| >= 2 ==> u != ""
    decreases |Split(s, '.')|
  {
    hide Matches;
    var labels := Split(s, '.');
    JoinSplit(s, '.');
    if |labels| == 1 {
      u, v := "", s;
      StarMatches(Cat(l, Dot()), u);
    } else {
      var x, rest := FirstLabel(s);
      DottedTail(l, t, s, x, rest);
      var y, z := DottedIsStar(l, t, rest);
      u, v := x + "." + y, z;
      assert s == u + v;
      OneTurn(l, x, y);
    }
  }

  /** The first label, and what follows its dot. */
  lemma FirstLabel(s: string) returns (x: string, rest: string)
    requires |Split(s, '.')| >= 2
    ensures s == x + "." + rest && Split(s, '.') == [x] + Split(rest, '.')
  {
    var labels := Split(s, '.');
    JoinSplit(s, '.');
    SplitFree(s, Is('.'));
    x, rest := labels[0], Join(labels[1..], ".");
    SplitJoin(labels[1..], '.', Is('.'));
    assert labels == [x] + labels[1..];
  }

  lemma DottedTail(l: Regex, t: Regex, s: string, x: string, rest: string)
    requires Dotted(l, t, s) && Split(s, '.') == [x] + Split(rest, '.')
    ensures Matches(l, x) && Dotted(l, t, rest)
  {
    hide Matches, SplitBy;
    var labels, all := Split(rest, '.'), [x] + Split(rest, '.');
    assert all[0] == x && all[|all| - 1] == labels[|labels| - 1];
    forall i | 0 <= i < |labels| - 1 ensures Matches(l, labels[i]) { assert all[i + 1] == labels[i]; }
  }

  lemma OneTurn(l: Regex, x: string, y: string)
    requires Matches(l, x) && Matches(Star(Cat(l, Dot())), y)
    ensures Matches(Star(Cat(l, Dot())), x + "." + y)
  {
    hide Matches;
    var s, i := x + "." + y, |x| + 1;
    assert s[..i] == x + "." && s[..i][..|s[..i]| - 1] == x && s[i..] == y;
    DotMatches(l, s[..i]);
    StarMatches(Cat(l, Dot()), s);
  }

  /** A repetition of labels and dots before a last label. */
  lemma DottedIff(l: Regex, t: Regex, s: string)
    requires Dotless(l) && Dotless(t)
    ensures Matches(Cat(Star(Cat(l, Dot())), t), s) <==> Dotted(l, t, s)
    ensures Matches(Cat(Plus(Cat(l, Dot())), t), s) <==> Dotted(l, t, s) && |Split(s, '.')| >= 2
  {
    hide Matches, Dotted, Dotless;
    var turn := Cat(l, Dot());
    if Matches(Cat(Star(turn), t), s) {
      var u, v := CatCut(Star(turn), t, s);
      StarIsDotted(l, t, u, v);
    }
    if Matches(Cat(Plus(turn), t), s) {
      var u, v := CatCut(Plus(turn), t, s);
      PlusIsStar(turn, u);
      DottedTurns(l, u);
      StarIsDotted(l, t, u, v);
    }
    if Dotted(l, t, s) {
      var u, v := DottedIsStar(l, t, s);
      CatAt(Star(turn), t, u, v);
      if u != "" {
        PlusIsStar(turn, u);
        CatAt(Plus(turn), t, u, v);
      }
    }
  }

  lemma PlusIsStar(r: Regex, s: string)
    ensures Matches(Plus(r), s) ==> Matches(Star(r), s)
    ensures Matches(Star(r), s) && s != "" ==> Matches(Plus(r), s)
  {
    if Matches(Plus(r), s) {
      var x, y := CatCut(r, Star(r), s);
      if x != "" {
        var i := |x|;
        assert s[..i] == x && s[i..] == y;
      } else {
        assert s == y;
      }
    }
    if Matches(Star(r), s) && s != "" {
      var i :| 0 < i <= |s| && Matches(r, s[..i]) && Matches(Star(r), s[i..]);
      CatAt(r, Star(r), s[..i], s[i..]);
      assert s[..i] + s[i..] == s;
    }
  }

  /** A run of turns is not empty. */
  lemma DottedTurns(l: Regex, u: string)
    requires Matches(Plus(Cat(l, Dot())), u)
    ensures u != ""
  {
    hide Matches;
    var x, y := CatCut(Cat(l, Dot()), Star(Cat(l, Dot())), u);
    DotMatches(l, x);
  }

  // ---------- the patterns ----------

  lemma LabelsAreDotless(edge: char -> bool, inner: char -> bool)
    requires !edge('.') && !inner('.')
    ensures Dotless(LabelRegex(edge, inner))
  {
    hide Matches;
    forall s | Matches(LabelRegex(edge, inner), s) ensures Free(s, Is('.')) { LabelIff(edge, inner, s); }
  }

  lemma AlnumOrMeans(more: string, c: char)
    ensures AlnumOr(more)(c) <==> IsAlnum(c) || c in more
  {}

  /** The label of a validator, whose ends may not be hyphens, is the label of the pattern. */
  lemma WildLabelsAgree(s: string)
    ensures Label(s, "*?") <==> Matches(LabelRegex(AlnumOr("*?"), AlnumOr("*?-")), s)
  {
    hide Matches;
    LabelIff(AlnumOr("*?"), AlnumOr("*?-"), s);
    assert "*?-" == "*?" + ['-'];
    var edge, inner := AlnumOr("*?"), AlnumOr("*?-");
    forall c: char ensures edge(c) <==> IsAlnum(c) || c in "*?" { AlnumOrMeans("*?", c); }
    forall c: char ensures inner(c) <==> IsAlnum(c) || c in "*?" || c == '-' { AlnumOrMeans("*?-", c); }
    if IsLabel(edge, inner, s) {
      forall i | 0 <= i < |s| ensures IsAlnum(s[i]) || s[i] in "*?" || s[i] == '-' {
        if 0 < i < |s| - 1 { assert inner(s[i]); }
      }
    }
  }

  lemma HostLabelsAgree(s: string)
    ensures Label(s, "") <==> Matches(HostLabel(), s)
  {
    hide Matches;
    LabelIff(Alnum(), AlnumOr("-"), s);
  }

  /** `^(?:[a-zA-Z0-9](?:[a-zA-Z0-9-]{0,61}[a-zA-Z0-9])?\.)*[a-zA-Z0-9](?:[a-zA-Z0-9-]{0,61}[a-zA-Z0-9])?$` */
  lemma HostnameIsThePattern(s: string)
    ensures Hostname(s) <==> Matches(HostnameRegex(), s)
  {
    hide Matches, Label;
    LabelsAreDotless(Alnum(), AlnumOr("-"));
    DottedIff(HostLabel(), HostLabel(), s);
    forall x ensures Label(x, "") <==> Matches(HostLabel(), x) { HostLabelsAgree(x); }
  }

  lemma AliasLabels(s: string)
    ensures var labels := Split(s, '.');
      AliasName(s) <==> |labels| >= 2 && Label(labels[|labels| - 1], "")
                        && forall i :: 0 <= i < |labels| - 1 ==> Label(labels[i], "*?")
  {
    hide Label, SplitBy;
    var labels := Split(s, '.');
    if AliasName(s) {
      forall i | 0 <= i < |labels| - 1 ensures Label(labels[i], "*?") {}
    }
  }

  /** The same with wildcards, and at least one dot. */
  lemma AliasIsThePattern(s: string)
    ensures AliasName(s) <==> Matches(AliasRegex(), s)
  {
    hide Matches, Label;
    var wild := LabelRegex(AlnumOr("*?"), AlnumOr("*?-"));
    LabelsAreDotless(Alnum(), AlnumOr("-"));
    LabelsAreDotless(AlnumOr("*?"), AlnumOr("*?-"));
    DottedIff(wild, HostLabel(), s);
    forall x ensures Label(x, "") <==> Matches(HostLabel(), x) { HostLabelsAgree(x); }
    forall x ensures Label(x, "*?") <==> Matches(wild, x) { WildLabelsAgree(x); }
    AliasLabels(s);
  }

  // ---------- addresses ----------

  function Letters(): Regex { Run(2, None, Alpha()) }

  lemma LettersAgree(s: string)
    ensures Letters2(s) <==> Matches(Letters(), s)
  {
    RunMatches(2, None, Alpha(), s);
  }

  lemma DomainLabelsAgree(s: string)
    ensures EmailDomainLabel(s) <==> Matches(DomainLabel(), s)
  {
    hide Matches;
    forall c: char ensures AlnumOr("-")(c) <==> IsAlnum(c) || c == '-' { AlnumOrMeans("-", c); }
    if Matches(DomainLabel(), s) {
      var x, y := CatCut(One(Alnum()), Run(0, None, AlnumOr("-")), s);
      OneMatches(Alnum(), x);
      RunMatches(0, None, AlnumOr("-"), y);
      forall i | 0 <= i < |s| ensures IsAlnum(s[i]) || s[i] == '-' { if i > 0 { assert s[i] == y[i - 1]; } }
    }
    if EmailDomainLabel(s) {
      var x, y := s[..1], s[1..];
      assert forall i :: 0 <= i < |y| ==> y[i] == s[i + 1];
      OneMatches(Alnum(), x);
      RunMatches(0, None, AlnumOr("-"), y);
      CatAt(One(Alnum()), Run(0, None, AlnumOr("-")), x, y);
      assert x + y == s;
    }
  }

  function DomainRegex(): Regex { Cat(Plus(Cat(DomainLabel(), Dot())), Letters()) }

  /** At least two labels, the last of letters. */
  ghost predicate IsDomain(s: string) {
    var labels := Split(s, '.');
    |labels| >= 2 && Letters2(labels[|labels| - 1]) && forall i :: 0 <= i < |labels| - 1 ==> EmailDomainLabel(labels[i])
  }

  lemma DomainIff(s: string)
    ensures Matches(DomainRegex(), s) <==> IsDomain(s)
  {
    hide Matches, Letters2, EmailDomainLabel, Split;
    forall x ensures Letters2(x) <==> Matches(Letters(), x) { LettersAgree(x); }
    forall x ensures EmailDomainLabel(x) <==> Matches(DomainLabel(), x) { DomainLabelsAgree(x); }
    DomainDotless();
    DottedIff(DomainLabel(), Letters(), s);
  }

  lemma DomainDotless()
    ensures Dotless(DomainLabel()) && Dotless(Letters())
  {
    hide Matches;
    forall s | Matches(DomainLabel(), s) ensures Free(s, Is('.')) { DomainLabelsAgree(s); }
    forall s | Matches(Letters(), s) ensures Free(s, Is('.')) { LettersAgree(s); }
  }

  lemma {:induction false} JoinFree(parts: seq<string>, sep: char -> bool)
    requires !sep('.') && forall i :: 0 <= i < |parts| ==> Free(parts[i], sep)
    ensures Free(Join(parts, "."), sep)
  {
    if |parts| > 1 { JoinFree(parts[1..], sep); }
  }

  lemma DomainHasNoAt(s: string)
    requires IsDomain(s)
    ensures Free(s, Is('@'))
  {
    hide SplitBy;
    JoinSplit(s, '.');
    var labels := Split(s, '.');
    forall i | 0 <= i < |labels| ensures Free(labels[i], Is('@')) {
      if i == |labels| - 1 { assert Letters2(labels[i]); } else { assert EmailDomainLabel(labels[i]); }
    }
    JoinFree(labels, Is('@'));
  }

  function Local(): Regex { Run(0, None, AlnumOr("_'+-.")) }

  function LocalEnd(): Regex { One(AlnumOr("_+-")) }

  /** What may stand before the at sign. */
  ghost predicate IsLocal(s: string) {
    && s != "" && (forall i :: 0 <= i < |s| ==> IsAlnum(s[i]) || s[i] in "_'+-.")
    && s[|s| - 1] != '\'' && s[|s| - 1] != '.'
  }

  lemma EndsAgree(c: char)
    ensures AlnumOr("_+-")(c) <==> (IsAlnum(c) || c in "_'+-.") && c != '\'' && c != '.'
  {
    AlnumOrMeans("_+-", c);
    assert forall x :: x in "_+-" <==> x == '_' || x == '+' || x == '-';
    assert forall x :: x in "_'+-." <==> x == '_' || x == '\'' || x == '+' || x == '-' || x == '.';
  }

  lemma LocalIff(s: string)
    ensures IsLocal(s) <==> exists x, y :: s == x + y && Matches(Local(), x) && Matches(LocalEnd(), y)
  {
    hide Matches;
    forall c: char ensures AlnumOr("_'+-.")(c) <==> IsAlnum(c) || c in "_'+-." { AlnumOrMeans("_'+-.", c); }
    forall c: char ensures AlnumOr("_+-")(c) <==> (IsAlnum(c) || c in "_'+-.") && c != '\'' && c != '.' {
      EndsAgree(c);
    }
    if x, y :| s == x + y && Matches(Local(), x) && Matches(LocalEnd(), y) {
      RunMatches(0, None, AlnumOr("_'+-."), x);
      OneMatches(AlnumOr("_+-"), y);
    }
    if IsLocal(s) {
      var x, y := s[..|s| - 1], s[|s| - 1..];
      RunMatches(0, None, AlnumOr("_'+-."), x);
      OneMatches(AlnumOr("_+-"), y);
      assert s == x + y;
    }
  }

  lemma LocalHasNoAt(s: string)
    requires IsLocal(s)
    ensures Free(s, Is('@'))
  {
    assert forall x :: x in "_'+-." <==> x == '_' || x == '\'' || x == '+' || x == '-' || x == '.';
  }

  /** A local part, an at sign and a domain. */
  lemma AddressIff(s: string)
    ensures Matches(EmailRegex(), s)
            <==> exists local, domain :: s == local + "@" + domain && IsLocal(local) && IsDomain(domain)
  {
    hide Matches, IsLocal, IsDomain, EmailRegex, Split;
    if Matches(EmailRegex(), s) { var local, domain := AddressParts(s); }
    if local, domain :| s == local + "@" + domain && IsLocal(local) && IsDomain(domain) {
      AddressMatches(local, domain);
    }
  }

  lemma AddressParts(s: string) returns (local: string, domain: string)
    requires Matches(EmailRegex(), s)
    ensures s == local + "@" + domain && IsLocal(local) && IsDomain(domain)
  {
    hide Matches, IsLocal, IsDomain, DomainLabel, Split;
    var tail := Cat(One(Is('@')), DomainRegex());
    var x, rest := CatCut(Local(), Cat(LocalEnd(), tail), s);
    var y, more := CatCut(LocalEnd(), tail, rest);
    var at;
    at, domain := CatCut(One(Is('@')), DomainRegex(), more);
    OneMatches(Is('@'), at);
    LocalIff(x + y);
    DomainIff(domain);
    local := x + y;
    assert at == "@" && s == local + "@" + domain;
  }

  lemma AddressMatches(local: string, domain: string)
    requires IsLocal(local) && IsDomain(domain)
    ensures Matches(EmailRegex(), local + "@" + domain)
  {
    hide Matches, IsLocal, IsDomain, DomainLabel, Split;
    var tail := Cat(One(Is('@')), DomainRegex());
    LocalIff(local);
    var x, y :| local == x + y && Matches(Local(), x) && Matches(LocalEnd(), y);
    DomainIff(domain);
    OneMatches(Is('@'), "@");
    CatAt(One(Is('@')), DomainRegex(), "@", domain);
    CatAt(LocalEnd(), tail, y, "@" + domain);
    CatAt(Local(), Cat(LocalEnd(), tail), x, y + ("@" + domain));
    assert local + "@" + domain == x + (y + ("@" + domain));
  }

  /** `^[A-Za-z0-9_'+\-.]*[A-Za-z0-9_+-]@(?:[A-Za-z0-9][A-Za-z0-9-]*\.)+[A-Za-z]{2,}$`, with no leading
      dot and no two in a row. */
  lemma EmailIsThePattern(s: string)
    ensures ValidEmail(s) <==> Matches(EmailRegex(), s) && !HasPrefix(s, ".") && NoTwoDots(s)
  {
    hide Matches, EmailRegex, IsLocal, IsDomain, SplitBy;
    AddressIff(s);
    HalvesIff(s);
    ValidEmailIs(s);
  }

  ghost predicate NoTwoDots(s: string) { forall i :: 0 <= i < |s| - 1 ==> !(s[i] == '.' && s[i + 1] == '.') }

  lemma ValidEmailIs(s: string)
    ensures var halves := Split(s, '@');
      ValidEmail(s)
      <==> !HasPrefix(s, ".") && NoTwoDots(s) && |halves| == 2 && IsLocal(halves[0]) && IsDomain(halves[1])
  {
    hide SplitBy, Letters2, EmailDomainLabel, IsAlnum;
  }

  /** Cutting at the at sign is splitting there. */
  lemma HalvesIff(s: string)
    ensures var halves := Split(s, '@');
      (exists local, domain :: s == local + "@" + domain && IsLocal(local) && IsDomain(domain))
      <==> |halves| == 2 && IsLocal(halves[0]) && IsDomain(halves[1])
  {
    hide IsLocal, IsDomain, SplitBy;
    var halves := Split(s, '@');
    JoinSplit(s, '@');
    if |halves| == 2 { assert halves[1..] == [halves[1]] && s == halves[0] + "@" + halves[1]; }
    if local, domain :| s == local + "@" + domain && IsLocal(local) && IsDomain(domain) {
      LocalHasNoAt(local);
      DomainHasNoAt(domain);
      SplitPeel(local, '@', domain, Is('@'));
      SplitOfFree(domain, Is('@'));
      assert halves == [local, domain];
    }
  }

  // ---------- wildcards ----------

  function Word(): Regex { Run(1, None, AlnumOr("_.-")) }

  /** Characters of the class, a dot, and at least two letters. */
  ghost predicate IsWildDomain(s: string) {
    exists x, y :: s == x + "." + y && Matches(Word(), x) && Matches(Letters(), y)
  }

  lemma WildcardParts(s: string)
    ensures Matches(WildcardRegex(), s) <==> HasPrefix(s, "*@") && IsWildDomain(s[2..])
  {
    hide Matches, IsWildDomain, WildcardRegex;
    if Matches(WildcardRegex(), s) { WildcardCut(s); }
    if HasPrefix(s, "*@") && IsWildDomain(s[2..]) { WildcardJoin(s); }
  }

  lemma WildcardCut(s: string)
    requires Matches(WildcardRegex(), s)
    ensures HasPrefix(s, "*@") && IsWildDomain(s[2..])
  {
    hide Matches, AlnumOr, Alpha;
    var tail := Cat(Word(), Cat(Dot(), Letters()));
    var star, rest := CatCut(One(Is('*')), Cat(One(Is('@')), tail), s);
    var at, domain := CatCut(One(Is('@')), tail, rest);
    OneMatches(Is('*'), star);
    OneMatches(Is('@'), at);
    WildDomainCut(domain);
    assert star == "*" && at == "@" && s == "*@" + domain && s[2..] == domain;
  }

  lemma WildDomainCut(s: string)
    requires Matches(Cat(Word(), Cat(Dot(), Letters())), s)
    ensures IsWildDomain(s)
  {
    hide Matches, Word, Letters;
    var x, more := CatCut(Word(), Cat(Dot(), Letters()), s);
    var dot, y := CatCut(Dot(), Letters(), more);
    OneMatches(Is('.'), dot);
    assert dot == "." && s == x + "." + y;
  }

  lemma WildcardJoin(s: string)
    requires HasPrefix(s, "*@") && IsWildDomain(s[2..])
    ensures Matches(WildcardRegex(), s)
  {
    hide Matches, AlnumOr, Alpha;
    var inner := Cat(Dot(), Letters());
    var tail := Cat(Word(), inner);
    OneMatches(Is('*'), "*");
    OneMatches(Is('@'), "@");
    OneMatches(Is('.'), ".");
    var x, y :| s[2..] == x + "." + y && Matches(Word(), x) && Matches(Letters(), y);
    CatAt(Dot(), Letters(), ".", y);
    CatAt(Word(), inner, x, "." + y);
    CatAt(One(Is('@')), tail, "@", x + ("." + y));
    CatAt(One(Is('*')), Cat(One(Is('@')), tail), "*", "@" + (x + ("." + y)));
    assert s == "*" + ("@" + (x + ("." + y)));
  }

  /** What follows the last dot is the last label. */
  lemma {:induction false} LastLabel(x: string, y: string)
    requires Free(y, Is('.'))
    ensures Split(x + "." + y, '.') == Split(x, '.') + [y]
  {
    var s := x + "." + y;
    if x == "" {
      assert s[1..] == y;
      SplitOfFree(y, Is('.'));
    } else {
      LastLabel(x[1..], y);
      assert s[1..] == x[1..] + "." + y;
      var rest := Split(x[1..], '.');
      assert (rest + [y])[0] == rest[0] && (rest + [y])[1..] == rest[1..] + [y];
    }
  }

  /** The same by labels. */
  ghost predicate EndsInLetters(s: string) {
    var labels := Split(s, '.');
    && |labels| >= 2 && Letters2(labels[|labels| - 1]) && |s| > |labels[|labels| - 1]| + 1
    && forall i :: 0 <= i < |s| ==> IsAlnum(s[i]) || s[i] in "_.-"
  }

  lemma WildcardEmailIs(s: string)
    ensures WildcardEmail(s) <==> HasPrefix(s, "*@") && EndsInLetters(s[2..])
  {
    hide SplitBy, Letters2, IsAlnum;
  }

  lemma WildDomainIff(s: string)
    ensures IsWildDomain(s) <==> EndsInLetters(s)
  {
    hide Matches, SplitBy;
    var labels := Split(s, '.');
    forall c: char ensures AlnumOr("_.-")(c) <==> IsAlnum(c) || c in "_.-" { AlnumOrMeans("_.-", c); }
    assert '.' in "_.-";
    if x, y :| s == x + "." + y && Matches(Word(), x) && Matches(Letters(), y) {
      RunMatches(1, None, AlnumOr("_.-"), x);
      LettersAgree(y);
      LastLabel(x, y);
      forall i | 0 <= i < |s| ensures IsAlnum(s[i]) || s[i] in "_.-" {
        if i < |x| { assert s[i] == x[i]; } else if i > |x| { assert s[i] == y[i - |x| - 1]; }
      }
    }
    if EndsInLetters(s) {
      var x, y := UpToLast(s);
      assert forall i :: 0 <= i < |x| ==> x[i] == s[i];
      RunMatches(1, None, AlnumOr("_.-"), x);
      LettersAgree(y);
      assert Matches(Word(), x) && Matches(Letters(), y);
    }
  }

  lemma {:induction false} UpToLast(s: string) returns (x: string, y: string)
    requires |Split(s, '.')| >= 2
    ensures s == x + "." + y && y == Split(s, '.')[|Split(s, '.')| - 1]
    decreases |s|
  {
    var first, rest := FirstLabel(s);
    var labels := Split(rest, '.');
    if |labels| == 1 {
      JoinSplit(rest, '.');
      x, y := first, rest;
    } else {
      var u;
      u, y := UpToLast(rest);
      x := first + "." + u;
      assert s == x + "." + y;
    }
  }

  /** `^\*@[A-Za-z0-9_.-]+\.[A-Za-z]{2,}$` */
  lemma WildcardIsThePattern(s: string)
    ensures WildcardEmail(s) <==> Matches(WildcardRegex(), s)
  {
    hide Matches, WildcardRegex, IsWildDomain, EndsInLetters, WildcardEmail;
    WildcardParts(s);
    WildcardEmailIs(s);
    if HasPrefix(s, "*@") { WildDomainIff(s[2..]); }
  }
}
