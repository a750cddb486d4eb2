/**
  Python's `str.strip()` with no argument: remove every leading and trailing
  code point for which `str.isspace()` holds.
 */
module Text {

  /**
    The code points that Python 3's `str.isspace()` accepts: the C0 controls
    tab to carriage return, the four information separators, space, next line,
    no-break space, ogham space mark, the typographic spaces U+2000 to U+200A,
    line and paragraph separators, narrow no-break space, medium mathematical
    space and ideographic space.
   */
  predicate IsSpace(c: char) {
    ('\t' <= c <= '\r')
    || ('\U{1C}' <= c <= '\U{1F}')
    || c == ' '
    || c == '\U{85}'
    || c == '\U{A0}'
    || c == '\U{1680}'
    || ('\U{2000}' <= c <= '\U{200A}')
    || c == '\U{2028}'
    || c == '\U{2029}'
    || c == '\U{202F}'
    || c == '\U{205F}'
    || c == '\U{3000}'
  }

  /** On ASCII, `IsSpace` is C's six whitespace characters plus the four separators; nothing past U+3000 is whitespace. */
  lemma IsSpaceAscii(c: char)
    ensures c < '\U{80}' ==> (IsSpace(c) <==> c in " \t\n\r\U{0B}\U{0C}\U{1C}\U{1D}\U{1E}\U{1F}")
    ensures IsSpace(c) ==> c <= '\U{3000}'
  {
  }

  predicate AllSpace(s: string) {
    forall k :: 0 <= k < |s| ==> IsSpace(s[k])
  }

  /** Neither end of `t` is whitespace (vacuously so for the empty string). */
  predicate Unpadded(t: string) {
    t == [] || (!IsSpace(t[0]) && !IsSpace(t[|t| - 1]))
  }

  /** `t` is the slice `s[i..j]`, everything outside it is whitespace, and its ends are not. */
  predicate StripsTo(s: string, t: string, i: int, j: int) {
    0 <= i <= j <= |s| && t == s[i..j] && AllSpace(s[..i]) && AllSpace(s[j..]) && Unpadded(t)
  }

  /** The declarative meaning of stripping, independent of how it is computed. */
  ghost predicate IsStripOf(s: string, t: string) {
    exists i, j :: StripsTo(s, t, i, j)
  }

  /** The number of whitespace code points at the front of `s`. */
  function LeadingSpace(s: string): (n: nat)
    ensures n <= |s|
    ensures AllSpace(s[..n])
    ensures n < |s| ==> !IsSpace(s[n])
  {
    if s == [] || !IsSpace(s[0]) then 0 else 1 + LeadingSpace(s[1..])
  }

  /** The number of whitespace code points at the back of `s`. */
  function TrailingSpace(s: string): (n: nat)
    ensures n <= |s|
    ensures AllSpace(s[|s| - n..])
    ensures n < |s| ==> !IsSpace(s[|s| - n - 1])
  {
    if s == [] || !IsSpace(s[|s| - 1]) then 0
    else
      var m := TrailingSpace(s[..|s| - 1]);
      assert s[|s| - 1 - m..] == s[..|s| - 1][|s| - 1 - m..] + [s[|s| - 1]];
      1 + m
  }

  /** `str.strip()`. */
  function Strip(s: string): (t: string)
    ensures |t| <= |s|
    ensures IsStripOf(s, t)
  {
    var i := LeadingSpace(s);
    var j := |s| - TrailingSpace(s[i..]);
    assert s[j..] == s[i..][j - i..];
    assert StripsTo(s, s[i..j], i, j);
    s[i..j]
  }

  /** What one slice that strips `s` says about `s` itself, index by index. */
  lemma StripsToFacts(s: string, t: string, i: int, j: int)
    requires StripsTo(s, t, i, j)
    ensures forall k :: 0 <= k < i ==> IsSpace(s[k])
    ensures forall k :: j <= k < |s| ==> IsSpace(s[k])
    ensures t == [] <==> AllSpace(s)
    ensures t != [] ==> !IsSpace(s[i]) && !IsSpace(s[j - 1])
  {
    forall k | 0 <= k < i ensures IsSpace(s[k]) { assert s[k] == s[..i][k]; }
    forall k | j <= k < |s| ensures IsSpace(s[k]) { assert s[k] == s[j..][k - j]; }
    if t != [] {
      assert t[0] == s[i] && t[|t| - 1] == s[j - 1];
    }
  }

  /** Two slices that both strip `s` are the same slice. */
  lemma StripsToUnique(s: string, t1: string, i1: int, j1: int, t2: string, i2: int, j2: int)
    requires StripsTo(s, t1, i1, j1) && StripsTo(s, t2, i2, j2)
    ensures t1 == t2
  {
    StripsToFacts(s, t1, i1, j1);
    StripsToFacts(s, t2, i2, j2);
  }

  /** `Strip` computes exactly the declarative strip, and nothing else satisfies it. */
  lemma StripCharacterised(s: string, t: string)
    ensures IsStripOf(s, t) <==> t == Strip(s)
  {
    var u := Strip(s);
    var i2, j2 :| StripsTo(s, u, i2, j2);
    if IsStripOf(s, t) {
      var i1, j1 :| StripsTo(s, t, i1, j1);
      StripsToUnique(s, t, i1, j1, u, i2, j2);
    }
  }

  /** Stripping yields the empty string exactly when every code point is whitespace. */
  lemma StripEmptyIff(s: string)
    ensures Strip(s) == [] <==> AllSpace(s)
  {
    var i, j :| StripsTo(s, Strip(s), i, j);
    if Strip(s) == [] {
      forall k | 0 <= k < |s| ensures IsSpace(s[k]) {
        if k < i { assert s[k] == s[..i][k]; } else { assert s[k] == s[j..][k - j]; }
      }
    } else {
      assert Strip(s)[0] == s[i];
    }
  }

  /** A string with no whitespace at either end is its own strip. */
  lemma StripUnpadded(s: string)
    requires Unpadded(s)
    ensures Strip(s) == s
  {
    assert s[..0] == [] && s[|s|..] == [];
    assert StripsTo(s, s, 0, |s|);
    StripCharacterised(s, s);
  }

  /** Stripping twice is the same as stripping once. */
  lemma StripIdempotent(s: string)
    ensures Strip(Strip(s)) == Strip(s)
  {
    var i, j :| StripsTo(s, Strip(s), i, j);
    StripUnpadded(Strip(s));
  }

  lemma AllSpaceConcat(a: string, b: string)
    requires AllSpace(a) && AllSpace(b)
    ensures AllSpace(a + b)
  {
    forall k | 0 <= k < |a + b| ensures IsSpace((a + b)[k]) {
      if k < |a| { assert (a + b)[k] == a[k]; } else { assert (a + b)[k] == b[k - |a|]; }
    }
  }

  /** A slice that strips `s` also strips `s` with whitespace added at its ends. */
  lemma StripsToPadded(p: string, s: string, q: string, t: string, i: int, j: int)
    requires AllSpace(p) && AllSpace(q) && StripsTo(s, t, i, j)
    ensures StripsTo(p + s + q, t, |p| + i, |p| + j)
  {
    var w := p + s + q;
    var i', j' := |p| + i, |p| + j;
    assert w[i'..j'] == s[i..j];
    assert w[..i'] == p + s[..i];
    AllSpaceConcat(p, s[..i]);
    assert w[j'..] == s[j..] + q;
    AllSpaceConcat(s[j..], q);
  }

  /** Whitespace added at either end does not change the strip. */
  lemma StripIgnoresPadding(p: string, s: string, q: string)
    requires AllSpace(p) && AllSpace(q)
    ensures Strip(p + s + q) == Strip(s)
  {
    var t := Strip(s);
    var i, j :| StripsTo(s, t, i, j);
    StripsToPadded(p, s, q, t, i, j);
    StripCharacterised(p + s + q, t);
  }
}
