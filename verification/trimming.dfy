/**
 Trimming of texts, as ECMAScript does it: white space goes from either end, and nothing else changes.
 */
module Trimming {

  /** White space and line terminators of ECMAScript. */
  predicate IsSpace(c: char) {
    var n := c as int;
    || 0x09 <= n <= 0x0D || n == 0x20 || n == 0xA0 || n == 0x1680 || 0x2000 <= n <= 0x200A
    || n == 0x2028 || n == 0x2029 || n == 0x202F || n == 0x205F || n == 0x3000 || n == 0xFEFF
  }

  function TrimStart(s: string): string {
    if s != "" && IsSpace(s[0]) then TrimStart(s[1..]) else s
  }

  function TrimEnd(s: string): string {
    if s != "" && IsSpace(s[|s| - 1]) then TrimEnd(s[..|s| - 1]) else s
  }

  function Trim(s: string): string {
    TrimEnd(TrimStart(s))
  }

  lemma {:induction false} TrimEndKeepsHead(s: string)
    requires s == "" || !IsSpace(s[0])
    ensures var t := TrimEnd(s); t == "" || (!IsSpace(t[0]) && !IsSpace(t[|t| - 1]))
  {
    if s != "" && IsSpace(s[|s| - 1]) {
      assert |s| > 1;
      TrimEndKeepsHead(s[..|s| - 1]);
    }
  }

  lemma {:induction false} TrimStartHead(s: string)
    ensures var t := TrimStart(s); t == "" || !IsSpace(t[0])
  {
    if s != "" && IsSpace(s[0]) {
      TrimStartHead(s[1..]);
    }
  }

  lemma TrimIdempotent(s: string)
    ensures Trim(Trim(s)) == Trim(s)
  {
    TrimStartHead(s);
    TrimEndKeepsHead(TrimStart(s));
  }

  // -------------------------------------------------------------------------
  // What is cut off
  // -------------------------------------------------------------------------

  predicate AllSpace(s: string) {
    forall i :: 0 <= i < |s| ==> IsSpace(s[i])
  }

  /** Empty, or without white space at either end. */
  predicate IsTrimmed(s: string) {
    s == "" || (!IsSpace(s[0]) && !IsSpace(s[|s| - 1]))
  }

  lemma {:induction false} TrimStartCuts(s: string) returns (a: string)
    ensures AllSpace(a) && s == a + TrimStart(s)
  {
    a := "";
    if s != "" && IsSpace(s[0]) {
      var rest := TrimStartCuts(s[1..]);
      a := [s[0]] + rest;
    }
  }

  lemma {:induction false} TrimEndCuts(s: string) returns (b: string)
    ensures AllSpace(b) && s == TrimEnd(s) + b
  {
    b := "";
    if s != "" && IsSpace(s[|s| - 1]) {
      var rest := TrimEndCuts(s[..|s| - 1]);
      b := rest + [s[|s| - 1]];
    }
  }

  /** Trimming cuts white space from either end, and leaves none there. */
  lemma TrimCuts(s: string) returns (a: string, b: string)
    ensures s == a + Trim(s) + b && AllSpace(a) && AllSpace(b) && IsTrimmed(Trim(s))
  {
    a := TrimStartCuts(s);
    b := TrimEndCuts(TrimStart(s));
    TrimStartHead(s);
    TrimEndKeepsHead(TrimStart(s));
  }

  lemma Ends(a: string, t: string, b: string)
    requires AllSpace(a) && AllSpace(b) && t != "" && IsTrimmed(t)
    ensures
      var s, n := a + t + b, |a| + |t|;
      && (forall i :: 0 <= i < |a| ==> IsSpace(s[i])) && !IsSpace(s[|a|])
      && (forall i :: n <= i < |s| ==> IsSpace(s[i])) && !IsSpace(s[n - 1])
      && t == s[|a|..n]
  {}

  /** There is only one way to do so. */
  lemma CutsUnique(a: string, t: string, b: string, a': string, t': string, b': string)
    requires a + t + b == a' + t' + b' && AllSpace(a) && AllSpace(b) && AllSpace(a') && AllSpace(b')
    requires IsTrimmed(t) && IsTrimmed(t')
    ensures t == t'
  {
    var s := a + t + b;
    if t != "" {
      Ends(a, t, b);
    } else {
      assert AllSpace(s);
    }
    if t' != "" {
      Ends(a', t', b');
    } else {
      assert AllSpace(a' + t' + b');
    }
  }

  /** A text without white space at either end is not changed. */
  lemma TrimKeeps(s: string)
    requires IsTrimmed(s)
    ensures Trim(s) == s
  {
    var a, b := TrimCuts(s);
    assert "" + s + "" == s;
    CutsUnique(a, Trim(s), b, "", s, "");
  }

  /** White space is no printable ASCII character other than the space itself, so no letter, digit or sign. */
  lemma Spaces(c: char)
    ensures '!' <= c <= '~' ==> !IsSpace(c)
    ensures c == ' ' || c == '\t' || c == '\n' || c == '\r' || c == '\U{00A0}' || c == '\U{FEFF}' ==> IsSpace(c)
  {}
}
