/** The few JavaScript string primitives the dictation engine relies on:
    `String.prototype.trim`, `toLowerCase`, `includes` and `startsWith`.
    Strings are `seq<char>`, one element per Unicode scalar value; every
    character the engine looks for lies in the Basic Multilingual Plane, where
    this agrees with JavaScript's UTF-16 code units. */
module JsText {

  /** The characters `trim` removes: ECMAScript WhiteSpace and LineTerminator
      (tab, vertical tab, form feed, space, no-break space, byte order mark,
      the Unicode space separators, line feed, carriage return, line and
      paragraph separators). */
  predicate IsWhitespace(c: char)
  {
    c == '\t' || c == '\n' || c == '\U{000B}' || c == '\U{000C}' || c == '\r' ||
    c == ' ' || c == '\U{00A0}' || c == '\U{1680}' ||
    ('\U{2000}' <= c <= '\U{200A}') ||
    c == '\U{2028}' || c == '\U{2029}' || c == '\U{202F}' || c == '\U{205F}' ||
    c == '\U{3000}' || c == '\U{FEFF}'
  }

  predicate AllWhitespace(s: string)
  {
    forall k :: 0 <= k < |s| ==> IsWhitespace(s[k])
  }

  /** `trimStart`: drops the leading whitespace. */
  function TrimStart(s: string): string
  {
    if s != [] && IsWhitespace(s[0]) then TrimStart(s[1..]) else s
  }

  /** `trimEnd`: drops the trailing whitespace. */
  function TrimEnd(s: string): string
  {
    if s != [] && IsWhitespace(s[|s| - 1]) then TrimEnd(s[..|s| - 1]) else s
  }

  /** `TrimStart` keeps a suffix of `s`: everything it drops is whitespace and
      what it keeps does not start with whitespace. */
  lemma {:induction false} TrimStartDropsLeadingWhitespace(s: string)
    ensures var r := TrimStart(s);
      |r| <= |s| && r == s[|s| - |r|..] &&
      (forall k :: 0 <= k < |s| - |r| ==> IsWhitespace(s[k])) &&
      (r == [] || !IsWhitespace(r[0]))
  {
    if s != [] && IsWhitespace(s[0]) {
      var t := s[1..];
      TrimStartDropsLeadingWhitespace(t);
      var r := TrimStart(t);
      assert TrimStart(s) == r;
      assert s[|s| - |r|..] == t[|t| - |r|..];
      forall k | 0 <= k < |s| - |r| ensures IsWhitespace(s[k]) {
        if k > 0 {
          assert s[k] == t[k - 1];
        }
      }
    } else {
      assert s[0..] == s;
    }
  }

  /** `TrimEnd` keeps a prefix of `s`: everything it drops is whitespace and
      what it keeps does not end with whitespace. */
  lemma {:induction false} TrimEndDropsTrailingWhitespace(s: string)
    ensures var r := TrimEnd(s);
      |r| <= |s| && r == s[..|r|] &&
      (forall k :: |r| <= k < |s| ==> IsWhitespace(s[k])) &&
      (r == [] || !IsWhitespace(r[|r| - 1]))
  {
    if s != [] && IsWhitespace(s[|s| - 1]) {
      var t := s[..|s| - 1];
      TrimEndDropsTrailingWhitespace(t);
      var r := TrimEnd(t);
      assert TrimEnd(s) == r;
      assert s[..|r|] == t[..|r|];
      forall k | |r| <= k < |s| ensures IsWhitespace(s[k]) {
        if k < |s| - 1 {
          assert s[k] == t[k];
        }
      }
    } else {
      assert s[..|s|] == s;
    }
  }

  /** `s.trim()`. */
  function Trim(s: string): string
  {
    TrimEnd(TrimStart(s))
  }

  /** `trim` keeps the contiguous slice of `s` left once the whitespace at both
      ends is removed: what it drops is whitespace, and what it keeps neither
      starts nor ends with whitespace. */
  lemma TrimIsInnerSlice(s: string)
    ensures var r := Trim(s); var lead := |s| - |TrimStart(s)|;
      0 <= lead && lead + |r| <= |s| && r == s[lead..lead + |r|] &&
      (forall k :: 0 <= k < lead ==> IsWhitespace(s[k])) &&
      (forall k :: lead + |r| <= k < |s| ==> IsWhitespace(s[k])) &&
      (r == [] || (!IsWhitespace(r[0]) && !IsWhitespace(r[|r| - 1])))
  {
    var t := TrimStart(s);
    var r := TrimEnd(t);
    var lead := |s| - |t|;
    TrimStartDropsLeadingWhitespace(s);
    TrimEndDropsTrailingWhitespace(t);
    assert r == t[..|r|];
    assert s[lead..lead + |r|] == t[..|r|];
  }

  /** JavaScript's `if (!text)` on a trimmed string: the trimmed text is empty. */
  predicate IsBlank(s: string)
  {
    Trim(s) == []
  }

  /** A string trims to nothing exactly when every character is whitespace. */
  lemma {:induction false} BlankIffAllWhitespace(s: string)
    ensures IsBlank(s) <==> AllWhitespace(s)
  {
    TrimIsInnerSlice(s);
    var r := Trim(s);
    if r != [] {
      assert !IsWhitespace(s[|s| - |TrimStart(s)|]);
    }
  }

  /** A string that neither starts nor ends with whitespace is its own trim. */
  lemma {:induction false} TrimOfTrimmed(s: string)
    requires s == [] || (!IsWhitespace(s[0]) && !IsWhitespace(s[|s| - 1]))
    ensures Trim(s) == s
  {
    assert TrimStart(s) == s;
  }

  /** Trimming twice is trimming once. */
  lemma TrimIdempotent(s: string)
    ensures Trim(Trim(s)) == Trim(s)
  {
    TrimIsInnerSlice(s);
    TrimOfTrimmed(Trim(s));
  }

  /** Trailing whitespace does not survive a trim: appending one space to an
      already trimmed, non-empty string and trimming gives the string back. */
  lemma {:induction false} TrimDropsAddedSpace(t: string)
    requires t != [] && Trim(t) == t
    ensures Trim(t + " ") == t
  {
    TrimIsInnerSlice(t);
    var u := t + " ";
    assert u[0] == t[0];
    assert TrimStart(u) == u;
    assert u[..|u| - 1] == t;
    assert TrimEnd(u) == TrimEnd(t);
    assert TrimStart(t) == t;
  }

  /** `toLowerCase`, for the ASCII letters (the only ones the voice names
      searched for contain). */
  function ToLower(s: string): (r: string)
    ensures |r| == |s|
  {
    seq(|s|, k requires 0 <= k < |s| => LowerChar(s[k]))
  }

  function LowerChar(c: char): char
  {
    if 'A' <= c <= 'Z' then c - 'A' + 'a' else c
  }

  /** Lower-casing changes exactly the upper-case ASCII letters, each into its
      lower-case letter 32 code points above, and leaves no upper-case ASCII
      letter behind. */
  lemma ToLowerChangesOnlyAsciiUpper(s: string)
    ensures var r := ToLower(s);
      (forall k :: 0 <= k < |r| ==> !('A' <= r[k] <= 'Z')) &&
      (forall k :: 0 <= k < |s| && !('A' <= s[k] <= 'Z') ==> ToLower(s)[k] == s[k]) &&
      (forall k :: 0 <= k < |s| && 'A' <= s[k] <= 'Z' ==>
        'a' <= ToLower(s)[k] <= 'z' && ToLower(s)[k] as int == s[k] as int + 32)
  {
  }

  /** `s.startsWith(p)`. */
  predicate StartsWith(s: string, p: string)
  {
    |p| <= |s| && s[..|p|] == p
  }

  /** `s.includes(p)`: `p` occurs somewhere in `s`. */
  predicate Contains(s: string, p: string)
    decreases |s|
  {
    StartsWith(s, p) || (s != [] && Contains(s[1..], p))
  }

  /** `includes` holds when `p` sits at some position of `s`; the converse is
      `ContainsHasPosition`. */
  lemma {:induction false} ContainsAt(s: string, p: string, i: nat)
    requires i + |p| <= |s| && s[i..i + |p|] == p
    ensures Contains(s, p)
  {
    if i > 0 {
      assert s[1..][i - 1..i - 1 + |p|] == p;
      ContainsAt(s[1..], p, i - 1);
    }
  }

  /** `includes` holds only when `p` sits at some position of `s`: the
      position returned is one. */
  lemma {:induction false} ContainsHasPosition(s: string, p: string) returns (i: nat)
    requires Contains(s, p)
    ensures i + |p| <= |s| && s[i..i + |p|] == p
    decreases |s|
  {
    if StartsWith(s, p) {
      i := 0;
    } else {
      var j := ContainsHasPosition(s[1..], p);
      i := j + 1;
      assert s[i..i + |p|] == s[1..][j..j + |p|];
    }
  }

  /** A sufficient condition for absence: `p` is absent when its first two characters never occur
      side by side in `s`. */
  lemma {:induction false} AbsentPair(s: string, p: string)
    requires |p| >= 2
    requires forall k :: 0 <= k < |s| - 1 ==> !(s[k] == p[0] && s[k + 1] == p[1])
    ensures !Contains(s, p)
  {
    if s != [] {
      if |p| <= |s| {
        assert s[..|p|][0] == s[0] && s[..|p|][1] == s[1];
      }
      AbsentPair(s[1..], p);
    }
  }
}
