/**
 * ECMAScript `String.prototype.trim`: removes leading and trailing white space and
 * line terminators. The input guard of the chat component is written in terms of it.
 */
module TextTrim {

  /**
   * The ECMAScript WhiteSpace and LineTerminator code points: TAB, VT, FF, SP,
   * NBSP, ZWNBSP, the Unicode space separators (category Zs), LF, CR, LS and PS.
   */
  predicate IsWhitespace(c: char) {
    || c == '\t' || c == '\n' || c == '\U{000B}' || c == '\U{000C}' || c == '\r'
    || c == ' ' || c == '\U{00A0}' || c == '\U{1680}'
    || ('\U{2000}' <= c <= '\U{200A}')
    || c == '\U{2028}' || c == '\U{2029}' || c == '\U{202F}' || c == '\U{205F}'
    || c == '\U{3000}' || c == '\U{FEFF}'
  }

  /** True when every character of `s` is white space (the empty string included). */
  predicate IsBlank(s: string) {
    forall i :: 0 <= i < |s| ==> IsWhitespace(s[i])
  }

  /** `s` without its leading white space: the longest suffix that does not start with it. */
  function TrimStart(s: string): (r: string)
    ensures |r| <= |s|
  {
    if s != [] && IsWhitespace(s[0]) then TrimStart(s[1..]) else s
  }

  /** What `TrimStart` cuts off is blank, and what it keeps is a suffix that does not start with white space. */
  lemma {:induction false} TrimStartSpec(s: string)
    ensures var r := TrimStart(s);
            && r == s[|s| - |r|..] && IsBlank(s[..|s| - |r|])
            && (r != [] ==> !IsWhitespace(r[0]))
  {
    if s != [] && IsWhitespace(s[0]) {
      TrimStartSpec(s[1..]);
      var r := TrimStart(s);
      assert s[1..][..|s| - 1 - |r|] == s[1..|s| - |r|];
      assert s[1..][|s| - 1 - |r|..] == s[|s| - |r|..];
    }
  }

  /** `s` without its trailing white space: the longest prefix that does not end with it. */
  function TrimEnd(s: string): (r: string)
    ensures |r| <= |s|
  {
    if s != [] && IsWhitespace(s[|s| - 1]) then TrimEnd(s[..|s| - 1]) else s
  }

  /** What `TrimEnd` cuts off is blank, and what it keeps is a prefix that does not end with white space. */
  lemma {:induction false} TrimEndSpec(s: string)
    ensures var r := TrimEnd(s);
            && r == s[..|r|] && IsBlank(s[|r|..])
            && (r != [] ==> !IsWhitespace(r[|r| - 1]))
  {
    if s != [] && IsWhitespace(s[|s| - 1]) {
      TrimEndSpec(s[..|s| - 1]);
      var r := TrimEnd(s);
      assert s[..|s| - 1][..|r|] == s[..|r|];
      assert s[..|s| - 1][|r|..] == s[|r|..|s| - 1];
    }
  }

  /** `s.trim()`: neither starts nor ends with white space. */
  function Trim(s: string): (r: string)
    ensures |r| <= |s|
    ensures r != [] ==> !IsWhitespace(r[0]) && !IsWhitespace(r[|r| - 1])
  {
    TrimStartSpec(s);
    TrimEndSpec(TrimStart(s));
    TrimEnd(TrimStart(s))
  }

  /**
   * The trimmed text is the piece of `s` that starts where the leading white
   * space ends, with only white space cut away on either side.
   */
  lemma TrimIsInfix(s: string)
    ensures var r := Trim(s);
            var i := |s| - |TrimStart(s)|;
            && i + |r| <= |s| && r == s[i..i + |r|]
            && IsBlank(s[..i]) && IsBlank(s[i + |r|..])
  {
    var t := TrimStart(s);
    var r := TrimEnd(t);
    var i := |s| - |t|;
    TrimStartSpec(s);
    TrimEndSpec(t);
    assert t == s[i..];
    assert r == t[..|r|] == s[i..i + |r|];
    assert s[i + |r|..] == t[|r|..];
  }

  /** Two blank strings make a blank string. */
  lemma BlankConcat(a: string, b: string)
    requires IsBlank(a) && IsBlank(b)
    ensures IsBlank(a + b)
  {
    forall k | 0 <= k < |a + b| ensures IsWhitespace((a + b)[k]) {
      if k < |a| { assert (a + b)[k] == a[k]; } else { assert (a + b)[k] == b[k - |a|]; }
    }
  }

  /** The trimmed text is empty exactly when the input is blank. */
  lemma TrimEmptyIffBlank(s: string)
    ensures Trim(s) == [] <==> IsBlank(s)
  {
    var r := Trim(s);
    var i := |s| - |TrimStart(s)|;
    TrimIsInfix(s);
    if r == [] {
      BlankConcat(s[..i], s[i..]);
      assert s[..i] + s[i..] == s;
    } else {
      assert s[i] == r[0];
    }
  }

  /**
   * Trim is pinned down by its effect: surrounding a text that neither starts nor
   * ends with white space by blank strings and trimming gives the text back.
   */
  lemma {:induction false} TrimStripsPadding(lead: string, core: string, tail: string)
    requires IsBlank(lead) && IsBlank(tail)
    requires core != [] && !IsWhitespace(core[0]) && !IsWhitespace(core[|core| - 1])
    ensures Trim(lead + core + tail) == core
  {
    assert lead + core + tail == lead + (core + tail);
    TrimStartPadding(lead, core + tail);
    TrimEndPadding(core, tail);
  }

  lemma {:induction false} TrimStartPadding(lead: string, rest: string)
    requires IsBlank(lead)
    requires rest != [] ==> !IsWhitespace(rest[0])
    ensures TrimStart(lead + rest) == if rest == [] then [] else rest
  {
    if lead == [] {
      assert lead + rest == rest;
    } else {
      assert (lead + rest)[1..] == lead[1..] + rest;
      TrimStartPadding(lead[1..], rest);
    }
  }

  lemma {:induction false} TrimEndPadding(core: string, tail: string)
    requires core != [] && !IsWhitespace(core[|core| - 1])
    requires IsBlank(tail)
    ensures TrimEnd(core + tail) == core
  {
    if tail == [] {
      assert core + tail == core;
    } else {
      var s := core + tail;
      assert s[..|s| - 1] == core + tail[..|tail| - 1];
      TrimEndPadding(core, tail[..|tail| - 1]);
    }
  }

  /** Trimming twice is trimming once. */
  lemma TrimIdempotent(s: string)
    ensures Trim(Trim(s)) == Trim(s)
  {
    var r := Trim(s);
    if r != [] {
      assert r == [] + r + [];
      TrimStripsPadding([], r, []);
    }
  }
}
