/** The string operations the controller relies on: Go's ordering, trimming,
    splitting, lower-casing and integer parsing, with the laws the validators
    need. Strings are sequences of Unicode code points. */
module Text {

  datatype Option<+T> = None | Some(value: T)

  // ---------- ordering ----------

  /** Go compares strings bytewise; on UTF-8 that is code point order. */
  function Compare(a: string, b: string): (c: int)
    ensures -1 <= c <= 1
  {
    if a == "" then (if b == "" then 0 else -1)
    else if b == "" then 1
    else if a[0] < b[0] then -1
    else if b[0] < a[0] then 1
    else Compare(a[1..], b[1..])
  }

  lemma {:induction false} CompareReflexive(a: string)
    ensures Compare(a, a) == 0
  {
    if a != "" { CompareReflexive(a[1..]); }
  }

  lemma {:induction false} CompareAntisymmetric(a: string, b: string)
    ensures Compare(a, b) == -Compare(b, a)
    ensures Compare(a, b) == 0 <==> a == b
  {
    if a != "" && b != "" && a[0] == b[0] {
      CompareAntisymmetric(a[1..], b[1..]);
      assert a == [a[0]] + a[1..] && b == [b[0]] + b[1..];
    }
  }

  lemma {:induction false} CompareTransitive(a: string, b: string, c: string)
    requires Compare(a, b) <= 0 && Compare(b, c) <= 0
    ensures Compare(a, c) <= 0
  {
    if a != "" && b != "" && c != "" && a[0] == b[0] == c[0] {
      CompareTransitive(a[1..], b[1..], c[1..]);
    }
  }

  // ---------- prefixes and case ----------

  predicate HasPrefix(s: string, prefix: string) { prefix <= s }

  predicate Contains(s: string, part: string) {
    exists i | 0 <= i <= |s| :: part <= s[i..]
  }

  /** unicode.ToLower on the letters whose lower case is ASCII: besides A to Z, the
      dotted capital I and the Kelvin sign. */
  function LowerChar(c: char): char {
    if 'A' <= c <= 'Z' then (c as int + 32) as char
    else if c == '\U{0130}' then 'i'
    else if c == '\U{212A}' then 'k'
    else c
  }

  function ToLower(s: string): (r: string)
    ensures |r| == |s|
    ensures forall i :: 0 <= i < |s| ==> r[i] == LowerChar(s[i])
  {
    seq(|s|, i requires 0 <= i < |s| => LowerChar(s[i]))
  }

  // ---------- white space ----------

  /** unicode.IsSpace. */
  predicate IsSpace(c: char) {
    var n := c as int;
    9 <= n <= 13 || n == 32 || n == 0x85 || n == 0xA0 || n == 0x1680 || 0x2000 <= n <= 0x200a
    || n == 0x2028 || n == 0x2029 || n == 0x202f || n == 0x205f || n == 0x3000
  }

  predicate AllSpace(s: string) { forall i :: 0 <= i < |s| ==> IsSpace(s[i]) }

  function TrimLeft(s: string): string {
    if s != "" && IsSpace(s[0]) then TrimLeft(s[1..]) else s
  }

  function TrimRight(s: string): string {
    if s != "" && IsSpace(s[|s| - 1]) then TrimRight(s[..|s| - 1]) else s
  }

  function TrimSpace(s: string): string { TrimRight(TrimLeft(s)) }

  /** A string whose ends are not spaces: what TrimSpace leaves alone. */
  predicate Trimmed(s: string) { s == "" || (!IsSpace(s[0]) && !IsSpace(s[|s| - 1])) }

  /** TrimSpace cuts a run of spaces off each end and nothing else. */
  lemma {:induction false} TrimParts(s: string) returns (left: string, right: string)
    ensures s == left + TrimSpace(s) + right && AllSpace(left) && AllSpace(right)
    ensures Trimmed(TrimSpace(s))
  {
    left := TrimLeftPart(s);
    var t := TrimLeft(s);
    right := TrimRightPart(t);
    if TrimRight(t) != "" { assert TrimRight(t)[0] == t[0]; }
    assert left + TrimSpace(s) + right == left + (TrimSpace(s) + right);
  }

  lemma {:induction false} TrimLeftPart(s: string) returns (left: string)
    ensures s == left + TrimLeft(s) && AllSpace(left)
    ensures TrimLeft(s) == "" || !IsSpace(TrimLeft(s)[0])
  {
    if s != "" && IsSpace(s[0]) {
      var rest := TrimLeftPart(s[1..]);
      left := [s[0]] + rest;
      assert s == [s[0]] + s[1..];
    } else {
      left := "";
    }
  }

  lemma {:induction false} TrimRightPart(s: string) returns (right: string)
    ensures s == TrimRight(s) + right && AllSpace(right)
    ensures TrimRight(s) == "" || !IsSpace(TrimRight(s)[|TrimRight(s)| - 1])
  {
    if s != "" && IsSpace(s[|s| - 1]) {
      var front, last := s[..|s| - 1], s[|s| - 1];
      var rest := TrimRightPart(front);
      right := rest + [last];
      assert s == front + [last] == (TrimRight(front) + rest) + [last] == TrimRight(front) + right;
    } else {
      right := "";
    }
  }

  lemma {:induction false} TrimLeftPadding(left: string, s: string)
    requires AllSpace(left)
    ensures TrimLeft(left + s) == TrimLeft(s)
  {
    if left == "" {
      assert left + s == s;
    } else {
      assert (left + s)[1..] == left[1..] + s;
      TrimLeftPadding(left[1..], s);
    }
  }

  lemma {:induction false} TrimRightPadding(s: string, right: string)
    requires AllSpace(right)
    ensures TrimRight(s + right) == TrimRight(s)
  {
    if right == "" {
      assert s + right == s;
    } else {
      assert (s + right)[..|s + right| - 1] == s + right[..|right| - 1];
      TrimRightPadding(s, right[..|right| - 1]);
    }
  }

  lemma {:induction false} TrimAllSpace(s: string)
    requires AllSpace(s)
    ensures TrimLeft(s) == ""
  {
    if s != "" { TrimAllSpace(s[1..]); }
  }

  /** Padding either end with spaces does not change what TrimSpace returns. */
  lemma {:induction false} TrimPadding(left: string, s: string, right: string)
    requires AllSpace(left) && AllSpace(right)
    ensures TrimSpace(left + s + right) == TrimSpace(s)
  {
    assert left + s + right == left + (s + right);
    TrimLeftPadding(left, s + right);
    var pad := TrimLeftPart(s);
    assert s + right == pad + (TrimLeft(s) + right);
    TrimLeftPadding(pad, TrimLeft(s) + right);
    if TrimLeft(s) == "" {
      assert TrimLeft(s) + right == right;
      TrimAllSpace(right);
    } else {
      assert (TrimLeft(s) + right)[0] == TrimLeft(s)[0];
      TrimRightPadding(TrimLeft(s), right);
    }
  }

  /** A string that is already trimmed comes back unchanged. */
  lemma TrimTrimmed(s: string)
    requires Trimmed(s)
    ensures TrimSpace(s) == s
  {}

  // ---------- splitting and joining ----------

  /** strings.Split on one character, or the pieces between the characters a
      predicate selects. Never empty. */
  function SplitBy(s: string, sep: char -> bool): (parts: seq<string>)
    ensures |parts| >= 1
  {
    if s == "" then [""]
    else
      var rest := SplitBy(s[1..], sep);
      if sep(s[0]) then [""] + rest else [[s[0]] + rest[0]] + rest[1..]
  }

  function Is(c: char): char -> bool { x => x == c }

  function Split(s: string, c: char): (parts: seq<string>)
    ensures |parts| >= 1
  {
    SplitBy(s, Is(c))
  }

  function Join(parts: seq<string>, sep: string): string {
    if parts == [] then ""
    else if |parts| == 1 then parts[0]
    else parts[0] + sep + Join(parts[1..], sep)
  }

  predicate Free(s: string, sep: char -> bool) { forall i :: 0 <= i < |s| ==> !sep(s[i]) }

  lemma {:induction false} SplitFree(s: string, sep: char -> bool)
    ensures forall i :: 0 <= i < |SplitBy(s, sep)| ==> Free(SplitBy(s, sep)[i], sep)
  {
    if s != "" { SplitFree(s[1..], sep); }
  }

  lemma {:induction false} SplitOfFree(s: string, sep: char -> bool)
    requires Free(s, sep)
    ensures SplitBy(s, sep) == [s]
  {
    if s != "" {
      SplitOfFree(s[1..], sep);
      assert [s[0]] + s[1..] == s;
    }
  }

  /** Splitting a separator-free piece, a separator and a rest peels the piece off. */
  lemma {:induction false} SplitPeel(piece: string, c: char, rest: string, sep: char -> bool)
    requires Free(piece, sep) && sep(c)
    ensures SplitBy(piece + [c] + rest, sep) == [piece] + SplitBy(rest, sep)
  {
    var s := piece + [c] + rest;
    if piece == "" {
      assert s[1..] == rest;
    } else {
      assert s[1..] == piece[1..] + [c] + rest;
      SplitPeel(piece[1..], c, rest, sep);
      assert [piece[0]] + piece[1..] == piece;
    }
  }

  /** Split undoes Join for any list of pieces that hold no separator. */
  lemma {:induction false} SplitJoin(parts: seq<string>, c: char, sep: char -> bool)
    requires |parts| >= 1 && sep(c)
    requires forall i :: 0 <= i < |parts| ==> Free(parts[i], sep)
    ensures SplitBy(Join(parts, [c]), sep) == parts
  {
    if |parts| == 1 {
      SplitOfFree(parts[0], sep);
    } else {
      SplitJoin(parts[1..], c, sep);
      SplitPeel(parts[0], c, Join(parts[1..], [c]), sep);
      assert parts == [parts[0]] + parts[1..];
    }
  }

  /** Join undoes Split. */
  lemma {:induction false} JoinSplit(s: string, c: char)
    ensures Join(Split(s, c), [c]) == s
  {
    if s != "" {
      var rest := Split(s[1..], c);
      JoinSplit(s[1..], c);
      assert s == [s[0]] + s[1..];
      if s[0] == c {
        assert ([""] + rest)[1..] == rest;
        assert "" + [c] + Join(rest, [c]) == s;
      } else {
        var parts := [[s[0]] + rest[0]] + rest[1..];
        assert parts[1..] == rest[1..];
        if |rest| > 1 {
          assert [s[0]] + rest[0] + [c] + Join(rest[1..], [c])
              == [s[0]] + (rest[0] + [c] + Join(rest[1..], [c]));
        }
      }
    }
  }

  /** Characters put before a string end up in the first piece only. */
  lemma {:induction false} SplitPadLeft(left: string, s: string, sep: char -> bool)
    requires Free(left, sep)
    ensures SplitBy(left + s, sep) == [left + SplitBy(s, sep)[0]] + SplitBy(s, sep)[1..]
  {
    if left == "" {
      var parts := SplitBy(s, sep);
      assert left + s == s && left + parts[0] == parts[0];
      assert parts == [parts[0]] + parts[1..];
    } else {
      assert (left + s)[1..] == left[1..] + s;
      SplitPadLeft(left[1..], s, sep);
      assert [left[0]] + (left[1..] + SplitBy(s, sep)[0]) == left + SplitBy(s, sep)[0];
    }
  }

  /** The pieces with something put after the last one. */
  function LastPadded(parts: seq<string>, right: string): seq<string>
    requires parts != []
  {
    parts[..|parts| - 1] + [parts[|parts| - 1] + right]
  }

  lemma LastPaddedCons(first: string, rest: seq<string>, right: string)
    requires rest != []
    ensures LastPadded([first] + rest, right) == [first] + LastPadded(rest, right)
  {
    var parts := [first] + rest;
    assert parts[..|parts| - 1] == [first] + rest[..|rest| - 1];
  }

  /** Characters put after a string end up in the last piece only. */
  lemma {:induction false} SplitPadRight(s: string, right: string, sep: char -> bool)
    requires Free(right, sep)
    ensures SplitBy(s + right, sep) == LastPadded(SplitBy(s, sep), right)
  {
    hide LastPadded, Free;
    if s == "" {
      assert s + right == right;
      SplitOfFree(right, sep);
      PadOnly("", right);
    } else {
      assert (s + right)[1..] == s[1..] + right;
      SplitPadRight(s[1..], right, sep);
      var rest := SplitBy(s[1..], sep);
      if sep(s[0]) {
        LastPaddedCons("", rest, right);
      } else if |rest| == 1 {
        assert rest == [rest[0]];
        PadOnly(rest[0], right);
        PadOnly([s[0]] + rest[0], right);
        assert rest[1..] == [] && [rest[0] + right][1..] == [];
        assert [[s[0]] + rest[0]] + [] == [[s[0]] + rest[0]];
        assert [s[0]] + (rest[0] + right) == ([s[0]] + rest[0]) + right;
      } else {
        assert rest == [rest[0]] + rest[1..];
        LastPaddedCons(rest[0], rest[1..], right);
        LastPaddedCons([s[0]] + rest[0], rest[1..], right);
      }
    }
  }

  lemma PadOnly(part: string, right: string)
    ensures LastPadded([part], right) == [part + right]
  {
    assert "" + right == right;
  }

  // ---------- numbers ----------

  predicate IsDigit(c: char) { '0' <= c <= '9' }

  predicate AllDigits(s: string) { forall i :: 0 <= i < |s| ==> IsDigit(s[i]) }

  function DigitsValue(s: string): nat
    requires AllDigits(s)
  {
    if s == "" then 0 else 10 * DigitsValue(s[..|s| - 1]) + (s[|s| - 1] as int - '0' as int)
  }

  /** strconv.Atoi on a 64-bit platform: an optional sign, digits, and an error
      for anything else or for a value outside int64. */
  function Atoi(s: string): (n: Option<int>)
    ensures n.Some? ==> -0x8000_0000_0000_0000 <= n.value < 0x8000_0000_0000_0000
  {
    var negative := s != "" && s[0] == '-';
    var digits := if s != "" && (s[0] == '-' || s[0] == '+') then s[1..] else s;
    if digits == "" || !AllDigits(digits) then None
    else
      var v: int := if negative then 0 - DigitsValue(digits) else DigitsValue(digits);
      if -0x8000_0000_0000_0000 <= v < 0x8000_0000_0000_0000 then Some(v) else None
  }

  /** len of a Go string: the bytes of its UTF-8 encoding. */
  function ByteLen(s: string): nat {
    if s == "" then 0
    else
      var n := s[0] as int;
      (if n < 0x80 then 1 else if n < 0x800 then 2 else if n < 0x1_0000 then 3 else 4) + ByteLen(s[1..])
  }
}
