/** Character classes and JavaScript's `String.prototype.trim`, over strings
    taken as sequences of Unicode scalar values. */
module Text {

  /** The characters `trim` strips: ECMAScript WhiteSpace (tab, vertical tab,
      form feed, space, no-break space, the byte-order mark and the Unicode
      space separators) and LineTerminator (LF, CR, LS, PS). */
  predicate IsSpace(c: char) {
    c == '\t' || c == '\n' || c == '\U{0B}' || c == '\U{0C}' || c == '\r' || c == ' '
    || c == '\U{A0}' || c == '\U{1680}' || ('\U{2000}' <= c <= '\U{200A}')
    || c == '\U{2028}' || c == '\U{2029}' || c == '\U{202F}' || c == '\U{205F}'
    || c == '\U{3000}' || c == '\U{FEFF}'
  }

  /** The regular-expression class `\w`: ASCII letters, digits and underscore. */
  predicate IsWordChar(c: char) {
    ('a' <= c <= 'z') || ('A' <= c <= 'Z') || ('0' <= c <= '9') || c == '_'
  }

  predicate AllSpace(s: string) {
    forall i :: 0 <= i < |s| ==> IsSpace(s[i])
  }

  /** `s` without its leading whitespace. */
  function TrimStart(s: string): string {
    if s != [] && IsSpace(s[0]) then TrimStart(s[1..]) else s
  }

  /** `s` without its trailing whitespace. */
  function TrimEnd(s: string): string {
    if s != [] && IsSpace(s[|s| - 1]) then TrimEnd(s[..|s| - 1]) else s
  }

  /** What `TrimStart` keeps is a suffix, what it drops is whitespace, and
      what it keeps does not start with whitespace. */
  lemma {:induction false} TrimStartShape(s: string)
    ensures var r := TrimStart(s);
            |r| <= |s| && r == s[|s| - |r|..] && AllSpace(s[..|s| - |r|])
            && (r == [] || !IsSpace(r[0]))
  {
    if s != [] && IsSpace(s[0]) {
      TrimStartShape(s[1..]);
      var r := TrimStart(s[1..]);
      assert s[..|s| - |r|] == [s[0]] + s[1..][..|s| - 1 - |r|];
    }
  }

  /** What `TrimEnd` keeps is a prefix, what it drops is whitespace, and
      what it keeps does not end with whitespace. */
  lemma {:induction false} TrimEndShape(s: string)
    ensures var r := TrimEnd(s);
            |r| <= |s| && r == s[..|r|] && AllSpace(s[|r|..])
            && (r == [] || !IsSpace(r[|r| - 1]))
  {
    if s != [] && IsSpace(s[|s| - 1]) {
      var init := s[..|s| - 1];
      TrimEndShape(init);
      var r := TrimEnd(init);
      assert s[|r|..] == init[|r|..] + [s[|s| - 1]];
    }
  }

  /** `r` is the piece of `s` starting at `lo`, with only whitespace around it. */
  predicate CutFrom(s: string, lo: int, r: string) {
    0 <= lo <= |s| - |r| && r == s[lo..lo + |r|] && AllSpace(s[..lo]) && AllSpace(s[lo + |r|..])
  }

  /** `s.trim()`: neither starts nor ends with whitespace. */
  function Trim(s: string): (r: string)
    ensures r == [] || (!IsSpace(r[0]) && !IsSpace(r[|r| - 1]))
  {
    var t := TrimStart(s);
    TrimStartShape(s);
    TrimEndShape(t);
    var r := TrimEnd(t);
    assert r != [] ==> r[0] == t[0];
    r
  }

  /** What `trim` keeps is one contiguous piece of the string, and what it
      cuts off on either side is whitespace. */
  lemma TrimCut(s: string)
    ensures exists lo :: CutFrom(s, lo, Trim(s))
  {
    var t := TrimStart(s);
    TrimStartShape(s);
    TrimEndShape(t);
    var r := TrimEnd(t);
    var lo := |s| - |t|;
    assert s[lo..] == t;
    assert r == s[lo..lo + |r|];
    assert s[lo + |r|..] == t[|r|..];
    assert Trim(s) == r;
    assert CutFrom(s, lo, r);
  }

  /** A string with no whitespace at either end trims to itself (and, by
      `Trim`'s own contract, only such a string can). */
  lemma TrimNoop(s: string)
    requires s == [] || (!IsSpace(s[0]) && !IsSpace(s[|s| - 1]))
    ensures Trim(s) == s
  {
    assert TrimStart(s) == s;
  }

  /** Surrounding whitespace never changes the trimmed result. */
  lemma {:induction false} TrimPadding(a: string, s: string, b: string)
    requires AllSpace(a) && AllSpace(b)
    ensures Trim(a + s + b) == Trim(s)
  {
    var t := TrimStart(s);
    var u := a + s + b;
    assert u == a + (s + b);
    TrimStartPadding(a, s + b);
    TrimStartAppend(s, b);
    if t == [] {
      assert TrimStart(u) == [];
    } else {
      assert TrimStart(u) == t + b;
      TrimEndAppend(t, b);
    }
  }

  lemma {:induction false} TrimStartPadding(a: string, s: string)
    requires AllSpace(a)
    ensures TrimStart(a + s) == TrimStart(s)
  {
    if a != [] {
      assert (a + s)[0] == a[0] && IsSpace(a[0]);
      assert (a + s)[1..] == a[1..] + s;
      assert AllSpace(a[1..]) by {
        forall i | 0 <= i < |a| - 1 ensures IsSpace(a[1..][i]) { assert a[1..][i] == a[i + 1]; }
      }
      TrimStartPadding(a[1..], s);
    } else {
      assert a + s == s;
    }
  }

  /** Trimming the front of `s + b`, with `b` all whitespace, is trimming the
      front of `s` and keeping `b` — unless `s` is all whitespace, in which
      case everything goes. */
  lemma {:induction false} TrimStartAppend(s: string, b: string)
    requires AllSpace(b)
    ensures TrimStart(s + b) == if TrimStart(s) == [] then [] else TrimStart(s) + b
  {
    if s == [] {
      assert s + b == b;
      TrimStartPadding(b, []);
      assert b + [] == b;
    } else if IsSpace(s[0]) {
      assert (s + b)[1..] == s[1..] + b;
      TrimStartAppend(s[1..], b);
    }
  }

  lemma {:induction false} TrimEndAppend(t: string, b: string)
    requires AllSpace(b)
    ensures TrimEnd(t + b) == TrimEnd(t)
  {
    if b != [] {
      var c := b[..|b| - 1];
      assert (t + b)[..|t + b| - 1] == t + c;
      TrimEndAppend(t, c);
    } else {
      assert t + b == t;
    }
  }

  /** A string trims to nothing exactly when it is all whitespace. */
  lemma TrimEmptyIff(s: string)
    ensures Trim(s) == [] <==> AllSpace(s)
  {
    if AllSpace(s) {
      TrimPadding(s, [], []);
      assert s + [] + [] == s;
    } else {
      TrimCut(s);
      var lo :| CutFrom(s, lo, Trim(s));
      if Trim(s) == [] {
        assert s == s[..lo] + s[lo..];
        assert AllSpace(s[..lo]) && AllSpace(s[lo..]);
        forall i | 0 <= i < |s| ensures IsSpace(s[i]) {
          if i < lo { assert s[i] == s[..lo][i]; } else { assert s[i] == s[lo..][i - lo]; }
        }
      }
    }
  }

  /** Trimming twice is trimming once. */
  lemma TrimIdempotent(s: string)
    ensures Trim(Trim(s)) == Trim(s)
  {
    TrimNoop(Trim(s));
  }
}
