/**
 * String.prototype.trim as ECMAScript defines it: strip leading and trailing
 * code points that are WhiteSpace or LineTerminator (ECMAScript sections 12.2
 * and 12.3). The to-do list trims the text box value with it before adding.
 */
module JsString {

  /** WhiteSpace (TAB, VT, FF, ZWNBSP and every space separator Zs) or LineTerminator (LF, CR, LS, PS). */
  predicate IsWhiteSpace(c: char) {
    c == '\t' || c == '\U{000B}' || c == '\U{000C}' || c == '\U{FEFF}'
    || c == ' ' || c == '\U{00A0}' || c == '\U{1680}' || ('\U{2000}' <= c <= '\U{200A}')
    || c == '\U{202F}' || c == '\U{205F}' || c == '\U{3000}'
    || c == '\n' || c == '\r' || c == '\U{2028}' || c == '\U{2029}'
  }

  predicate AllWhiteSpace(s: string) {
    forall i :: 0 <= i < |s| ==> IsWhiteSpace(s[i])
  }

  /** The number of white-space characters `s` starts with. */
  function LeadingWhiteSpace(s: string): (n: nat)
    ensures n <= |s|
    ensures forall i :: 0 <= i < n ==> IsWhiteSpace(s[i])
    ensures n < |s| ==> !IsWhiteSpace(s[n])
  {
    if s != [] && IsWhiteSpace(s[0]) then
      var n := LeadingWhiteSpace(s[1..]);
      assert forall i :: 1 <= i < n + 1 ==> s[i] == s[1..][i - 1];
      n + 1
    else
      0
  }

  /** The position where the white space that `s` ends with begins. */
  function TrailingWhiteSpace(s: string): (e: nat)
    ensures e <= |s|
    ensures forall i :: e <= i < |s| ==> IsWhiteSpace(s[i])
    ensures 0 < e ==> !IsWhiteSpace(s[e - 1])
  {
    if s != [] && IsWhiteSpace(s[|s| - 1]) then
      var e := TrailingWhiteSpace(s[..|s| - 1]);
      assert forall i :: e <= i < |s| - 1 ==> s[i] == s[..|s| - 1][i];
      e
    else
      |s|
  }

  /**
   * The trimmed string: the leading white space removed, then the trailing
   * white space of what is left. It is empty or starts and ends with a
   * character that is not white space.
   */
  function Trim(s: string): (r: string)
    ensures |r| <= |s|
    ensures r == [] || (!IsWhiteSpace(r[0]) && !IsWhiteSpace(r[|r| - 1]))
  {
    var t := s[LeadingWhiteSpace(s)..];
    t[..TrailingWhiteSpace(t)]
  }

  /** Only white space is cut away: `s` is its trimmed string padded by white space on both sides. */
  lemma TrimSplit(s: string) returns (p: string, q: string)
    ensures s == p + Trim(s) + q
    ensures AllWhiteSpace(p) && AllWhiteSpace(q)
  {
    var n := LeadingWhiteSpace(s);
    var t := s[n..];
    var e := TrailingWhiteSpace(t);
    p, q := s[..n], t[e..];
    assert t == Trim(s) + q;
    assert s == p + t;
  }

  /**
   * Trim is determined by that characterisation: a non-empty core with
   * non-space ends, padded by white space on both sides, trims to that core.
   */
  lemma TrimOfPadded(p: string, m: string, q: string)
    requires AllWhiteSpace(p) && AllWhiteSpace(q)
    requires m != [] && !IsWhiteSpace(m[0]) && !IsWhiteSpace(m[|m| - 1])
    ensures Trim(p + m + q) == m
  {
    var s := p + m + q;
    var n := LeadingWhiteSpace(s);
    assert s[|p|] == m[0];
    assert forall i :: 0 <= i < |p| ==> s[i] == p[i];
    assert n == |p|;
    var t := s[n..];
    assert t == m + q;
    var e := TrailingWhiteSpace(t);
    assert t[|m| - 1] == m[|m| - 1];
    assert forall i :: |m| <= i < |t| ==> t[i] == q[i - |m|];
    assert e == |m|;
  }

  /** Trim gives the empty string exactly when the whole input is white space. */
  lemma TrimEmptyIff(s: string)
    ensures Trim(s) == [] <==> AllWhiteSpace(s)
  {
    var p, q := TrimSplit(s);
    if Trim(s) == [] {
      assert s == p + q;
      forall i | 0 <= i < |s| ensures IsWhiteSpace(s[i]) {
        if i < |p| { assert s[i] == p[i]; } else { assert s[i] == q[i - |p|]; }
      }
    } else {
      assert s[|p|] == Trim(s)[0];
    }
  }

  /** Trimming an already trimmed string changes nothing. */
  lemma TrimIdempotent(s: string)
    ensures Trim(Trim(s)) == Trim(s)
  {
    var r := Trim(s);
    if r != [] {
      assert r == [] + r + [];
      TrimOfPadded([], r, []);
    } else {
      TrimEmptyIff(r);
    }
  }
}
