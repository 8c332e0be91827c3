/** `String.prototype.trim`: strips leading and trailing white space and
    line terminators, as ECMAScript defines them (section 22.1.3.32 of
    ECMA-262, with the WhiteSpace and LineTerminator productions of
    sections 12.2 and 12.3). */
module JsString {

  /** The code points `trim` removes: TAB, VT, FF, ZWNBSP, the space
      separators (category Zs), LF, CR, LINE SEPARATOR and PARAGRAPH
      SEPARATOR. */
  predicate IsWhiteSpace(c: char) {
    || c == '\U{0009}' || c == '\U{000B}' || c == '\U{000C}' || c == '\U{FEFF}'
    || c == '\U{0020}' || c == '\U{00A0}' || c == '\U{1680}'
    || ('\U{2000}' <= c <= '\U{200A}')
    || c == '\U{202F}' || c == '\U{205F}' || c == '\U{3000}'
    || c == '\U{000A}' || c == '\U{000D}' || c == '\U{2028}' || c == '\U{2029}'
  }

  predicate AllWhiteSpace(s: string) {
    forall i :: 0 <= i < |s| ==> IsWhiteSpace(s[i])
  }

  /** Neither starts nor ends with white space. */
  predicate IsTrimmed(s: string) {
    |s| == 0 || (!IsWhiteSpace(s[0]) && !IsWhiteSpace(s[|s| - 1]))
  }

  /** The suffix left after dropping leading white space. */
  function TrimStart(s: string): (r: string)
    ensures |r| <= |s| && r == s[|s| - |r|..]
    ensures AllWhiteSpace(s[..|s| - |r|])
    ensures |r| > 0 ==> !IsWhiteSpace(r[0])
  {
    if |s| > 0 && IsWhiteSpace(s[0]) then TrimStart(s[1..]) else s
  }

  /** The prefix left after dropping trailing white space. */
  function TrimEnd(s: string): (r: string)
    ensures |r| <= |s| && r == s[..|r|]
    ensures AllWhiteSpace(s[|r|..])
    ensures |r| > 0 ==> !IsWhiteSpace(r[|r| - 1])
  {
    if |s| > 0 && IsWhiteSpace(s[|s| - 1]) then TrimEnd(s[..|s| - 1]) else s
  }

  /** `s` is `r` with only white space before (the first `a` characters)
      and after it. */
  predicate PaddedAt(s: string, r: string, a: nat) {
    && a + |r| <= |s|
    && s[a..a + |r|] == r
    && AllWhiteSpace(s[..a])
    && AllWhiteSpace(s[a + |r|..])
  }

  /** `s.trim()`: a trimmed slice of `s` with only white space around it;
      empty exactly when `s` is all white space. */
  function Trim(s: string): (r: string)
    ensures IsTrimmed(r)
    ensures exists a: nat :: PaddedAt(s, r, a)
    ensures r == "" <==> AllWhiteSpace(s)
  {
    TrimIsPadded(s);
    TrimEnd(TrimStart(s))
  }

  lemma {:induction false} TrimIsPadded(s: string)
    ensures PaddedAt(s, TrimEnd(TrimStart(s)), |s| - |TrimStart(s)|)
    ensures TrimEnd(TrimStart(s)) == "" <==> AllWhiteSpace(s)
  {
    TrimPadding(s);
    TrimEmptiness(s);
  }

  lemma {:induction false} TrimPadding(s: string)
    ensures PaddedAt(s, TrimEnd(TrimStart(s)), |s| - |TrimStart(s)|)
  {
    PaddedAfterStart(s, TrimStart(s));
  }

  /** Trailing white space dropped from a suffix `t` of `s` that follows
      only white space: what is left is `s` padded. */
  lemma PaddedAfterStart(s: string, t: string)
    requires |t| <= |s| && t == s[|s| - |t|..] && AllWhiteSpace(s[..|s| - |t|])
    ensures PaddedAt(s, TrimEnd(t), |s| - |t|)
  {
    PaddedOfParts(s, t, TrimEnd(t));
  }

  /** A suffix `t` of `s` after white space, and a prefix `r` of `t` before
      white space: `r` is `s` padded. */
  lemma PaddedOfParts(s: string, t: string, r: string)
    requires |t| <= |s| && t == s[|s| - |t|..] && AllWhiteSpace(s[..|s| - |t|])
    requires |r| <= |t| && r == t[..|r|] && AllWhiteSpace(t[|r|..])
    ensures PaddedAt(s, r, |s| - |t|)
  {
    var a := |s| - |t|;
    assert s[a..a + |r|] == t[..|r|];
    assert s[a + |r|..] == t[|r|..];
  }

  lemma {:induction false} TrimEmptiness(s: string)
    ensures TrimEnd(TrimStart(s)) == "" <==> AllWhiteSpace(s)
  {
    if TrimEnd(TrimStart(s)) == "" {
      BlankWhenTrimEmpty(s);
    }
    if AllWhiteSpace(s) {
      TrimEmptyWhenBlank(s);
    }
  }

  lemma {:induction false} BlankWhenTrimEmpty(s: string)
    requires TrimEnd(TrimStart(s)) == ""
    ensures AllWhiteSpace(s)
  {
    var t := TrimStart(s);
    var a := |s| - |t|;
    assert t[0..] == t;
    assert AllWhiteSpace(t);
    assert s == s[..a] + t;
    AllWhiteSpaceConcat(s[..a], t);
  }

  lemma {:induction false} TrimEmptyWhenBlank(s: string)
    requires AllWhiteSpace(s)
    ensures TrimEnd(TrimStart(s)) == ""
  {
  }

  lemma AllWhiteSpaceConcat(u: string, v: string)
    requires AllWhiteSpace(u) && AllWhiteSpace(v)
    ensures AllWhiteSpace(u + v)
  {
  }

  /** Dropping leading white space from `w + x`, where `x` does not start
      with white space, gives `x`. */
  lemma {:induction false} TrimStartSkips(w: string, x: string)
    requires AllWhiteSpace(w)
    requires |x| == 0 || !IsWhiteSpace(x[0])
    ensures TrimStart(w + x) == x
  {
    if |w| > 0 {
      assert (w + x)[1..] == w[1..] + x;
      TrimStartSkips(w[1..], x);
    } else {
      assert w + x == x;
    }
  }

  /** Dropping trailing white space from `x + w`, where `x` does not end
      with white space, gives `x`. */
  lemma {:induction false} TrimEndSkips(x: string, w: string)
    requires AllWhiteSpace(w)
    requires |x| == 0 || !IsWhiteSpace(x[|x| - 1])
    ensures TrimEnd(x + w) == x
  {
    if |w| > 0 {
      assert (x + w)[..|x + w| - 1] == x + w[..|w| - 1];
      TrimEndSkips(x, w[..|w| - 1]);
    } else {
      assert x + w == x;
    }
  }

  /** `trim` is determined by its contract: a trimmed core surrounded by
      white space is what `trim` returns. */
  lemma {:induction false} TrimOfPadded(w1: string, core: string, w2: string)
    requires AllWhiteSpace(w1) && AllWhiteSpace(w2)
    requires IsTrimmed(core)
    ensures Trim(w1 + core + w2) == core
  {
    if |core| == 0 {
      assert AllWhiteSpace(w1 + core + w2);
    } else {
      assert w1 + core + w2 == w1 + (core + w2);
      TrimStartSkips(w1, core + w2);
      TrimEndSkips(core, w2);
    }
  }

  /** Trimming twice is trimming once. */
  lemma TrimIdempotent(s: string)
    ensures Trim(Trim(s)) == Trim(s)
  {
    var t := Trim(s);
    assert "" + t + "" == t;
    TrimOfPadded("", t, "");
  }

  /** The padded input of the category tests trims to its words. */
  lemma TrimExample()
    ensures Trim("  New Category  ") == "New Category"
  {
    assert "  New Category  " == "  " + "New Category" + "  ";
    TrimOfPadded("  ", "New Category", "  ");
  }
}
