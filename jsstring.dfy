/**
 * A model of JavaScript's `String.prototype.trim`: remove every leading and
 * every trailing whitespace or line-terminator character, keep the rest.
 */
module JsString {

  /** The characters ECMAScript counts as WhiteSpace or LineTerminator. */
  predicate IsWhitespace(c: char) {
    // WhiteSpace: TAB, VT, FF, SPACE, NO-BREAK SPACE, ZERO WIDTH NO-BREAK SPACE
    c == '\t' || c == '\U{000B}' || c == '\U{000C}' || c == ' ' || c == '\U{00A0}' || c == '\U{FEFF}' ||
    // WhiteSpace: the other members of the Unicode category Zs
    c == '\U{1680}' || ('\U{2000}' <= c <= '\U{200A}') || c == '\U{202F}' || c == '\U{205F}' || c == '\U{3000}' ||
    // LineTerminator: LF, CR, LINE SEPARATOR, PARAGRAPH SEPARATOR
    c == '\n' || c == '\r' || c == '\U{2028}' || c == '\U{2029}'
  }

  /** Every character of `s` outside the positions `lo` to `hi - 1` is whitespace. */
  predicate WhitespaceOutside(s: string, lo: int, hi: int) {
    forall j :: 0 <= j < |s| && !(lo <= j < hi) ==> IsWhitespace(s[j])
  }

  /** Neither the first nor the last character of `s` is whitespace. */
  predicate Trimmed(s: string) {
    s == [] || (!IsWhitespace(s[0]) && !IsWhitespace(s[|s| - 1]))
  }

  /**
   * `r` is what remains of `s` once its first `i` characters and everything
   * after `r` are cut off, and both cut-off parts are whitespace.
   */
  predicate IsCut(s: string, i: nat, r: string) {
    i + |r| <= |s| && s[i..i + |r|] == r && WhitespaceOutside(s, i, i + |r|)
  }

  /**
   * Reference definition of trimming: `r` is left of `s` by cutting away a
   * whitespace-only prefix and a whitespace-only suffix, and `r` itself
   * neither starts nor ends with whitespace.
   */
  ghost predicate IsTrimOf(s: string, r: string) {
    Trimmed(r) && exists i: nat :: IsCut(s, i, r)
  }

  /** Drops the leading whitespace of `s`. */
  function TrimStart(s: string): (r: string)
    ensures |r| <= |s| && r == s[|s| - |r|..]
    ensures WhitespaceOutside(s, |s| - |r|, |s|)
    ensures r == [] || !IsWhitespace(r[0])
  {
    if |s| > 0 && IsWhitespace(s[0]) then
      var r := TrimStart(s[1..]);
      assert s[1..][|s| - 1 - |r|..] == s[|s| - |r|..];
      assert forall j :: 1 <= j < |s| - |r| ==> s[j] == s[1..][j - 1];
      r
    else
      s
  }

  /** Drops the trailing whitespace of `s`. */
  function TrimEnd(s: string): (r: string)
    ensures |r| <= |s| && r == s[..|r|]
    ensures WhitespaceOutside(s, 0, |r|)
    ensures r == [] || !IsWhitespace(r[|r| - 1])
  {
    if |s| > 0 && IsWhitespace(s[|s| - 1]) then
      var r := TrimEnd(s[..|s| - 1]);
      assert s[..|s| - 1][..|r|] == s[..|r|];
      assert forall j :: |r| <= j < |s| - 1 ==> s[j] == s[..|s| - 1][j];
      r
    else
      s
  }

  /** `String.prototype.trim`. */
  function Trim(s: string): (r: string)
    ensures IsTrimOf(s, r)
  {
    var t := TrimStart(s);
    var r := TrimEnd(t);
    TrimKeepsMiddle(s, t, r);
    r
  }

  /** Cutting the leading and then the trailing whitespace is a cut of `s`. */
  lemma TrimKeepsMiddle(s: string, t: string, r: string)
    requires |t| <= |s| && t == s[|s| - |t|..] && WhitespaceOutside(s, |s| - |t|, |s|)
    requires t == [] || !IsWhitespace(t[0])
    requires |r| <= |t| && r == t[..|r|] && WhitespaceOutside(t, 0, |r|)
    requires r == [] || !IsWhitespace(r[|r| - 1])
    ensures Trimmed(r) && IsCut(s, |s| - |t|, r)
  {
    var i := |s| - |t|;
    assert forall j :: i <= j < |s| ==> s[j] == t[j - i];
    assert r != [] ==> r[0] == t[0];
  }

  /** Every character a cut removes from `s` is whitespace. */
  lemma CutAway(s: string, i: nat, r: string, k: nat)
    requires IsCut(s, i, r) && k < |s|
    ensures (k < i || i + |r| <= k) ==> IsWhitespace(s[k])
  {
  }

  /** Two cuts of `s` that both leave a trimmed middle leave the same middle. */
  lemma CutsAgree(s: string, i1: nat, r1: string, i2: nat, r2: string)
    requires Trimmed(r1) && IsCut(s, i1, r1)
    requires Trimmed(r2) && IsCut(s, i2, r2)
    ensures r1 == r2
  {
    if r1 != [] {
      assert s[i1] == r1[0] && s[i1 + |r1| - 1] == r1[|r1| - 1];
      CutAway(s, i2, r2, i1);
      CutAway(s, i2, r2, i1 + |r1| - 1);
    }
    if r2 != [] {
      assert s[i2] == r2[0] && s[i2 + |r2| - 1] == r2[|r2| - 1];
      CutAway(s, i1, r1, i2);
      CutAway(s, i1, r1, i2 + |r2| - 1);
    }
  }

  /** `Trim` is the only function meeting the reference definition. */
  lemma TrimUnique(s: string, r: string)
    requires IsTrimOf(s, r)
    ensures r == Trim(s)
  {
    var i: nat :| IsCut(s, i, r);
    var t := Trim(s);
    var k: nat :| IsCut(s, k, t);
    CutsAgree(s, i, r, k, t);
  }

  /** A string that neither starts nor ends with whitespace is its own trim. */
  lemma TrimOfTrimmed(s: string)
    requires Trimmed(s)
    ensures Trim(s) == s
  {
    assert IsCut(s, 0, s);
    TrimUnique(s, s);
  }

  /** Trimming twice changes nothing more than trimming once. */
  lemma TrimIdempotent(s: string)
    ensures Trim(Trim(s)) == Trim(s)
  {
    TrimOfTrimmed(Trim(s));
  }

  /** Every character of `s` is whitespace. */
  predicate AllWhitespace(s: string) {
    forall j :: 0 <= j < |s| ==> IsWhitespace(s[j])
  }

  /** Whitespace added around a string is removed again by `Trim`. */
  lemma TrimPadded(a: string, m: string, b: string)
    requires AllWhitespace(a) && AllWhitespace(b)
    ensures Trim(a + m + b) == Trim(m)
  {
    var t := Trim(m);
    var k: nat :| IsCut(m, k, t);
    PaddedCut(a, m, b, k, t);
    TrimUnique(a + m + b, t);
  }

  /** A cut of `m` stays a cut once whitespace is added around `m`. */
  lemma PaddedCut(a: string, m: string, b: string, k: nat, t: string)
    requires AllWhitespace(a) && AllWhitespace(b) && IsCut(m, k, t)
    ensures IsCut(a + m + b, |a| + k, t)
  {
    var s := a + m + b;
    var i := |a| + k;
    assert forall j :: 0 <= j < |a| ==> s[j] == a[j];
    assert forall j :: |a| <= j < |a| + |m| ==> s[j] == m[j - |a|];
    assert forall j :: |a| + |m| <= j < |s| ==> s[j] == b[j - |a| - |m|];
    assert s[i..i + |t|] == m[k..k + |t|];
  }
}
