/** The path glob validator the controller and Pangolin share. */
module PathGlob {
  import opened Text

  predicate IsHex(c: char) { '0' <= c <= '9' || 'a' <= c <= 'f' || 'A' <= c <= 'F' }

  predicate IsPathChar(c: char) {
    'a' <= c <= 'z' || 'A' <= c <= 'Z' || '0' <= c <= '9' || c in "-._~!$&'()*+,;#=@:"
  }

  /** A run of path characters and %HH escapes. */
  predicate Segment(s: string) {
    if s == "" then true
    else if |s| >= 3 && s[0] == '%' then IsHex(s[1]) && IsHex(s[2]) && Segment(s[3..])
    else IsPathChar(s[0]) && Segment(s[1..])
  }

  function StripSlash(p: string): string {
    if p != "" && p[0] == '/' then p[1..] else p
  }

  /** What the validator decides: only the last segment may be empty. */
  predicate IsPathGlob(p: string) {
    p == "/" ||
    (StripSlash(p) != "" &&
     var segments := Split(StripSlash(p), '/');
     forall i :: 0 <= i < |segments| ==> (segments[i] != "" || i == |segments| - 1) && Segment(segments[i]))
  }

  /** The inner loop: an index moved by one past a character, by three past an escape. */
  method ValidSegment(s: string) returns (ok: bool)
    ensures ok <==> Segment(s)
  {
    var j := 0;
    while j < |s|
      invariant 0 <= j <= |s|
      invariant Segment(s) == Segment(s[j..])
    {
      var rest := s[j..];
      if s[j] == '%' && j + 2 < |s| {
        assert rest[3..] == s[j + 3..];
        if !IsHex(s[j + 1]) || !IsHex(s[j + 2]) { return false; }
        j := j + 3;
      } else {
        assert rest[1..] == s[j + 1..];
        if !IsPathChar(s[j]) { return false; }
        j := j + 1;
      }
    }
    return true;
  }

  method ValidPathGlob(pattern: string) returns (ok: bool)
    ensures ok <==> IsPathGlob(pattern)
  {
    hide Segment, Split, StripSlash;
    if pattern == "/" { return true; }
    var p := StripSlash(pattern);
    if p == "" { return false; }
    var segments := Split(p, '/');
    var i := 0;
    while i < |segments|
      invariant 0 <= i <= |segments|
      invariant forall k :: 0 <= k < i ==> (segments[k] != "" || k == |segments| - 1) && Segment(segments[k])
    {
      if segments[i] == "" && i != |segments| - 1 { return false; }
      var ok := ValidSegment(segments[i]);
      if !ok { return false; }
      i := i + 1;
    }
    return true;
  }

  /** The grammar: segments, an optional slash before and an optional slash after. */
  ghost predicate Derives(p: string, leading: bool, segments: seq<string>, trailing: bool) {
    && |segments| >= 1
    && (forall i :: 0 <= i < |segments| ==> segments[i] != "" && Segment(segments[i]))
    && p == (if leading then "/" else "") + Join(segments, "/") + (if trailing then "/" else "")
  }

  ghost predicate InGrammar(p: string) {
    p == "/" || exists leading, segments, trailing :: Derives(p, leading, segments, trailing)
  }

  lemma {:induction false} SegmentHasNoSlash(s: string)
    requires Segment(s)
    ensures Free(s, Is('/'))
  {
    if s != "" {
      if |s| >= 3 && s[0] == '%' { SegmentHasNoSlash(s[3..]); } else { SegmentHasNoSlash(s[1..]); }
    }
  }

  lemma {:induction false} JoinSnoc(parts: seq<string>, last: string, sep: string)
    requires |parts| >= 1
    ensures Join(parts + [last], sep) == Join(parts, sep) + sep + last
  {
    if |parts| == 1 {
      assert (parts + [last])[1..] == [last];
    } else {
      assert (parts + [last])[1..] == parts[1..] + [last];
      JoinSnoc(parts[1..], last, sep);
      assert parts[0] + sep + (Join(parts[1..], sep) + sep + last)
          == parts[0] + sep + Join(parts[1..], sep) + sep + last;
    }
  }

  /** A joined list of non-empty segments starts with no slash. */
  lemma JoinStart(segments: seq<string>)
    requires |segments| >= 1 && segments[0] != "" && Free(segments[0], Is('/'))
    ensures Join(segments, "/") != "" && Join(segments, "/")[0] != '/'
  {
    assert !Is('/')(segments[0][0]);
    assert Join(segments, "/")[0] == segments[0][0];
  }

  lemma GrammarAccepted(p: string, leading: bool, segments: seq<string>, trailing: bool)
    requires Derives(p, leading, segments, trailing)
    ensures IsPathGlob(p)
  {
    forall i | 0 <= i < |segments| ensures Free(segments[i], Is('/')) { SegmentHasNoSlash(segments[i]); }
    var core := Join(segments, "/");
    JoinStart(segments);
    var rest := core + (if trailing then "/" else "");
    assert p == (if leading then "/" else "") + rest;
    assert rest[0] == core[0];
    assert StripSlash(p) == rest;
    if trailing {
      var parts := segments + [""];
      JoinSnoc(segments, "", "/");
      assert Join(parts, "/") == core + "/" + "" == rest;
      SplitJoin(parts, '/', Is('/'));
    } else {
      assert rest == core;
      SplitJoin(segments, '/', Is('/'));
    }
  }

  /** Segments of which only the last may be empty are a derivation's. */
  lemma PartsDerive(prefix: string, parts: seq<string>) returns (segments: seq<string>, trailing: bool)
    requires |parts| >= 1 && Join(parts, "/") != ""
    requires forall i :: 0 <= i < |parts| ==> (parts[i] != "" || i == |parts| - 1) && Segment(parts[i])
    ensures |segments| >= 1
    ensures forall i :: 0 <= i < |segments| ==> segments[i] != "" && Segment(segments[i])
    ensures prefix + Join(parts, "/") == prefix + Join(segments, "/") + (if trailing then "/" else "")
  {
    hide Segment;
    var last := parts[|parts| - 1];
    if last != "" {
      segments, trailing := parts, false;
      assert prefix + Join(parts, "/") + "" == prefix + Join(parts, "/");
    } else {
      segments, trailing := parts[..|parts| - 1], true;
      assert parts == segments + [""];
      JoinSnoc(segments, "", "/");
      assert prefix + (Join(segments, "/") + "/" + "") == prefix + Join(segments, "/") + "/";
    }
  }

  lemma AcceptedDerives(p: string)
    requires IsPathGlob(p) && p != "/"
    ensures InGrammar(p)
  {
    var leading := p != "" && p[0] == '/';
    JoinSplit(StripSlash(p), '/');
    var prefix := if leading then "/" else "";
    assert p == prefix + StripSlash(p);
    var segments, trailing := PartsDerive(prefix, Split(StripSlash(p), '/'));
    assert Derives(p, leading, segments, trailing);
  }

  /** The loop accepts exactly the grammar. */
  lemma GlobMatchesGrammar(p: string)
    ensures IsPathGlob(p) <==> InGrammar(p)
  {
    if IsPathGlob(p) && p != "/" { AcceptedDerives(p); }
    if InGrammar(p) && p != "/" {
      var leading, segments, trailing :| Derives(p, leading, segments, trailing);
      GrammarAccepted(p, leading, segments, trailing);
    }
  }

  /** The characters of a segment: letters, digits, the marks RFC 3986 allows in a path
      segment (section 3.3), and the number sign. */
  lemma PathCharsAre(c: char)
    ensures IsPathChar(c)
            <==> 'a' <= c <= 'z' || 'A' <= c <= 'Z' || '0' <= c <= '9'
                 || c in {'-', '.', '_', '~', '!', '$', '&', '\'', '(', ')', '*', '+', ',', ';', '=', ':', '@', '#'}
  {}
}
