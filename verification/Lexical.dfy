/** Go's string order, told without recursion. */
module Lexical {
  import opened Text

  /** They part at some place: there a ends, or has the smaller character. */
  ghost predicate PartAt(a: string, b: string, i: nat) {
    && i <= |a| && i <= |b| && a[..i] == b[..i]
    && ((i == |a| && i < |b|) || (i < |a| && i < |b| && a[i] < b[i]))
  }

  ghost predicate Less(a: string, b: string) { exists i: nat :: PartAt(a, b, i) }

  lemma PartLater(a: string, b: string, i: nat)
    requires a != "" && b != "" && a[0] == b[0]
    ensures PartAt(a, b, i + 1) <==> PartAt(a[1..], b[1..], i)
  {
    if i + 1 <= |a| && i + 1 <= |b| {
      assert a[..i + 1] == [a[0]] + a[1..][..i] && b[..i + 1] == [b[0]] + b[1..][..i];
      if a[..i + 1] == b[..i + 1] { assert a[1..][..i] == a[..i + 1][1..] == b[..i + 1][1..] == b[1..][..i]; }
    }
  }

  lemma SameStart(a: string, b: string, i: nat)
    requires PartAt(a, b, i) && i > 0
    ensures a != "" && b != "" && a[0] == b[0]
  {
    assert a[..i][0] == b[..i][0];
  }

  lemma {:induction false} CompareMeans(a: string, b: string)
    ensures Compare(a, b) < 0 <==> Less(a, b)
  {
    if a == "" || b == "" || a[0] != b[0] {
      assert a[..0] == b[..0];
      if Compare(a, b) < 0 { assert PartAt(a, b, 0); }
      if Less(a, b) {
        var i: nat :| PartAt(a, b, i);
        if i > 0 { SameStart(a, b, i); }
      }
    } else {
      CompareMeans(a[1..], b[1..]);
      if Less(a[1..], b[1..]) {
        var i: nat :| PartAt(a[1..], b[1..], i);
        PartLater(a, b, i);
        assert PartAt(a, b, i + 1);
      }
      if Less(a, b) {
        var i: nat :| PartAt(a, b, i);
        PartLater(a, b, i - 1);
        assert PartAt(a[1..], b[1..], i - 1);
      }
    }
  }

  // ---------- characters ----------

  /** White space is what Unicode calls so. */
  lemma SpacesAre(c: char)
    ensures IsSpace(c)
            <==> c in "\t\n\U{000B}\U{000C}\r \U{0085}\U{00A0}\U{1680}\U{2028}\U{2029}\U{202F}\U{205F}\U{3000}"
                 || '\U{2000}' <= c <= '\U{200A}'
  {}

  /** Lowering yields an ASCII letter from itself, from its capital, and from the two signs
      beyond ASCII that lower to i and k; it leaves all else alone. */
  lemma LowersTo(c: char, small: char)
    requires 'a' <= small <= 'z'
    ensures LowerChar(c) == small
            <==> c == small || (c as int) + 32 == small as int
                 || (small == 'i' && c == '\U{0130}') || (small == 'k' && c == '\U{212A}')
    ensures !('a' <= LowerChar(c) <= 'z') ==> LowerChar(c) == c
  {}
}
