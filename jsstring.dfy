/** `String.prototype.trim` of ECMAScript, over strings of characters. */
module JsString {

  /**
   * ECMAScript's WhiteSpace and LineTerminator code points: tab, vertical tab,
   * form feed, space, no-break space, the byte order mark, the other
   * space separators of Unicode category Zs, line feed, carriage return, and
   * the line and paragraph separators.
   */
  const WhitespaceChars: set<char> := {
    '\t', '\n', '\U{000B}', '\U{000C}', '\r', ' ', '\U{00A0}', '\U{1680}',
    '\U{2000}', '\U{2001}', '\U{2002}', '\U{2003}', '\U{2004}', '\U{2005}',
    '\U{2006}', '\U{2007}', '\U{2008}', '\U{2009}', '\U{200A}',
    '\U{2028}', '\U{2029}', '\U{202F}', '\U{205F}', '\U{3000}', '\U{FEFF}'
  }

  /**
   * A character `trim` removes. Space, tab, line feed and carriage return are
   * among them, and every one of them is a space or a control character or
   * lies at U+00A0 or above: ASCII letters, digits, backticks, braces and
   * quotes are never trimmed.
   */
  predicate IsWhitespace(c: char)
    ensures c == ' ' || c == '\t' || c == '\n' || c == '\r' ==> IsWhitespace(c)
    ensures IsWhitespace(c) ==> c as int <= 0x20 || 0xA0 <= c as int
  {
    c in WhitespaceChars
  }

  predicate AllWhitespace(s: string) {
    forall i :: 0 <= i < |s| ==> IsWhitespace(s[i])
  }

  /** `p` is a prefix of `s`. */
  predicate StartsWith(s: string, p: string) {
    |p| <= |s| && s[..|p|] == p
  }

  /** `p` is a suffix of `s`. */
  predicate EndsWith(s: string, p: string) {
    |p| <= |s| && s[|s| - |p|..] == p
  }

  /** Neither end of `s` is whitespace: what `trim` leaves behind. */
  predicate Trimmed(s: string) {
    s == [] || (!IsWhitespace(s[0]) && !IsWhitespace(s[|s| - 1]))
  }

  /** `r` is one contiguous piece of `s`. */
  ghost predicate IsSlice(r: string, s: string) {
    exists i, j :: 0 <= i <= j <= |s| && r == s[i..j]
  }

  /**
   * The index of the first character at or after `i` that is not whitespace,
   * or `|s|` when there is none.
   */
  function SkipLeading(s: string, i: nat): (k: nat)
    requires i <= |s|
    ensures i <= k <= |s|
    ensures forall j :: i <= j < k ==> IsWhitespace(s[j])
    ensures k < |s| ==> !IsWhitespace(s[k])
    decreases |s| - i
  {
    if i < |s| && IsWhitespace(s[i]) then SkipLeading(s, i + 1) else i
  }

  /**
   * The index just past the last character before `j`, and not before `lo`,
   * that is not whitespace, or `lo` when there is none.
   */
  function SkipTrailing(s: string, lo: nat, j: nat): (k: nat)
    requires lo <= j <= |s|
    ensures lo <= k <= j
    ensures forall m :: k <= m < j ==> IsWhitespace(s[m])
    ensures lo < k ==> !IsWhitespace(s[k - 1])
    decreases j
  {
    if lo < j && IsWhitespace(s[j - 1]) then SkipTrailing(s, lo, j - 1) else j
  }

  /**
   * `s.trim()`: the slice of `s` between its leading and its trailing
   * whitespace. Only whitespace is removed, and none is left at either end.
   */
  function Trim(s: string): (r: string)
    ensures Trimmed(r)
    ensures exists a, b :: 0 <= a <= b <= |s| && r == s[a..b] &&
              (forall j :: 0 <= j < a ==> IsWhitespace(s[j])) &&
              (forall j :: b <= j < |s| ==> IsWhitespace(s[j]))
  {
    var a := SkipLeading(s, 0);
    var b := SkipTrailing(s, a, |s|);
    assert b > a ==> s[a..b][0] == s[a] && s[a..b][b - a - 1] == s[b - 1];
    s[a..b]
  }

  lemma TrimIsSlice(s: string)
    ensures IsSlice(Trim(s), s)
  {
    var a, b :| 0 <= a <= b <= |s| && Trim(s) == s[a..b];
    SliceIsSlice(s, a, b);
  }

  lemma SliceIsSlice(s: string, i: nat, j: nat)
    requires i <= j <= |s|
    ensures IsSlice(s[i..j], s)
  {
  }

  /** A suffix of `s` is a slice of `s`. */
  lemma SuffixIsSlice(r: string, s: string)
    requires EndsWith(s, r)
    ensures IsSlice(r, s)
  {
    SliceIsSlice(s, |s| - |r|, |s|);
  }

  /** A prefix of `s` is a slice of `s`. */
  lemma PrefixIsSlice(r: string, s: string)
    requires StartsWith(s, r)
    ensures IsSlice(r, s)
  {
    SliceIsSlice(s, 0, |r|);
  }

  /** A slice of a slice of `s` is a slice of `s`. */
  lemma SliceOfSliceIsSlice(r: string, c: string, s: string)
    requires IsSlice(r, c) && IsSlice(c, s)
    ensures IsSlice(r, s)
  {
    var k, l :| 0 <= k <= l <= |c| && r == c[k..l];
    var i, j :| 0 <= i <= j <= |s| && c == s[i..j];
    assert forall m :: 0 <= m < |r| ==> r[m] == c[k + m] == s[i + k + m];
    assert r == s[i + k..i + l];
  }

  /** `SkipLeading` stops at the first character that is not whitespace, and only there. */
  lemma {:induction false} SkipLeadingAt(s: string, i: nat, k: nat)
    requires i <= k <= |s|
    requires forall j :: i <= j < k ==> IsWhitespace(s[j])
    requires k < |s| ==> !IsWhitespace(s[k])
    ensures SkipLeading(s, i) == k
    decreases k - i
  {
    if i < k {
      SkipLeadingAt(s, i + 1, k);
    }
  }

  /** `SkipTrailing` stops after the last character that is not whitespace, and only there. */
  lemma {:induction false} SkipTrailingAt(s: string, lo: nat, j: nat, k: nat)
    requires lo <= k <= j <= |s|
    requires forall m :: k <= m < j ==> IsWhitespace(s[m])
    requires lo < k ==> !IsWhitespace(s[k - 1])
    ensures SkipTrailing(s, lo, j) == k
    decreases j
  {
    if k < j {
      SkipTrailingAt(s, lo, j - 1, k);
    }
  }

  /**
   * `trim` is determined by what it keeps: when `s[a..b]` has no whitespace at
   * its ends and everything around it is whitespace, `trim` returns exactly it.
   */
  lemma TrimAt(s: string, a: nat, b: nat)
    requires a <= b <= |s|
    requires forall j :: 0 <= j < a ==> IsWhitespace(s[j])
    requires forall j :: b <= j < |s| ==> IsWhitespace(s[j])
    requires a < b ==> !IsWhitespace(s[a]) && !IsWhitespace(s[b - 1])
    ensures Trim(s) == s[a..b]
  {
    if a < b {
      SkipLeadingAt(s, 0, a);
      SkipTrailingAt(s, a, |s|, b);
    } else {
      SkipLeadingAt(s, 0, |s|);
      SkipTrailingAt(s, |s|, |s|, |s|);
    }
  }

  /** Whitespace around a string with no whitespace at its ends is exactly what `trim` removes. */
  lemma TrimPadded(p: string, m: string, q: string)
    requires AllWhitespace(p) && AllWhitespace(q) && Trimmed(m)
    ensures Trim(p + m + q) == m
  {
    var s := p + m + q;
    assert forall j :: 0 <= j < |p| ==> s[j] == p[j];
    assert forall j :: |p| + |m| <= j < |s| ==> s[j] == q[j - |p| - |m|];
    assert m != [] ==> s[|p|] == m[0] && s[|p| + |m| - 1] == m[|m| - 1];
    TrimAt(s, |p|, |p| + |m|);
    assert s[|p|..|p| + |m|] == m;
  }

  /** Trimming twice is trimming once. */
  lemma TrimIdempotent(s: string)
    ensures Trim(Trim(s)) == Trim(s)
  {
    var r := Trim(s);
    TrimAt(r, 0, |r|);
  }

  /** `trim` keeps a prefix whose first and last characters are not whitespace. */
  lemma TrimKeepsPrefix(c: string, p: string)
    requires |p| > 0 && !IsWhitespace(p[0]) && !IsWhitespace(p[|p| - 1])
    requires StartsWith(c, p)
    ensures StartsWith(Trim(c), p)
  {
    assert c[0] == p[0] && c[|p| - 1] == p[|p| - 1];
    var b := SkipTrailing(c, 0, |c|);
    assert SkipLeading(c, 0) == 0;
    assert |p| <= b;
    assert c[0..b][..|p|] == c[..|p|];
  }

  /**
   * `trim` of `x` followed by whitespace ends where `x` does, when `x` ends in
   * a character that is not whitespace; a character of `x` at `k` that is not
   * whitespace is kept too.
   */
  lemma TrimBeforeWhitespace(x: string, w: string, k: nat)
    requires k < |x| && !IsWhitespace(x[k]) && !IsWhitespace(x[|x| - 1])
    requires AllWhitespace(w)
    ensures exists a :: 0 <= a <= k && Trim(x + w) == x[a..]
  {
    var s := x + w;
    assert s[k] == x[k] && s[|x| - 1] == x[|x| - 1];
    var a := SkipLeading(s, 0);
    assert a <= k;
    assert forall j :: |x| <= j < |s| ==> s[j] == w[j - |x|];
    SkipTrailingAt(s, a, |s|, |x|);
    assert s[a..|x|] == x[a..];
  }
}
