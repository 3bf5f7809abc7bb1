/** Strings as the landing page's JavaScript sees them: the whitespace class
    shared by `String.prototype.trim` and the regular-expression escape `\s`,
    trimming, and the "delete every character of a class" rewrite that
    `s.replace(/[...]/g, '')` performs. */
module Text {

  datatype Option<+T> = None | Some(value: T)

  /** The characters JavaScript treats as white space or line terminators:
      both `trim()` and `\s` use exactly this set. */
  predicate IsWhitespace(c: char) {
    || c == '\t' || c == '\n' || c == '\U{B}' || c == '\U{C}' || c == '\r'
    || c == ' ' || c == '\U{A0}' || c == '\U{1680}'
    || ('\U{2000}' <= c <= '\U{200A}')
    || c == '\U{2028}' || c == '\U{2029}' || c == '\U{202F}' || c == '\U{205F}'
    || c == '\U{3000}' || c == '\U{FEFF}'
  }

  predicate NonWhitespace(c: char) {
    !IsWhitespace(c)
  }

  /** The regular-expression class `\d`: ASCII digits only. */
  predicate IsAsciiDigit(c: char) {
    '0' <= c <= '9'
  }

  /** No digit is white space. */
  lemma DigitsAreNotWhitespace(s: string)
    requires AllDigits(s)
    ensures forall i :: 0 <= i < |s| ==> NonWhitespace(s[i])
  {
  }

  predicate AllWhitespace(s: string) {
    forall i :: 0 <= i < |s| ==> IsWhitespace(s[i])
  }

  predicate AllDigits(s: string) {
    forall i :: 0 <= i < |s| ==> IsAsciiDigit(s[i])
  }

  /** The first position at or after `i` that does not hold white space
      (`|s|` when there is none). */
  function SkipWhitespace(s: string, i: nat): (j: nat)
    requires i <= |s|
    ensures i <= j <= |s|
    ensures forall k :: i <= k < j ==> IsWhitespace(s[k])
    ensures j == |s| || !IsWhitespace(s[j])
    decreases |s| - i
  {
    if i < |s| && IsWhitespace(s[i]) then SkipWhitespace(s, i + 1) else i
  }

  /** Scanning back from `j`, no further than `lo`: the position just past the
      last character that is not white space (`lo` when there is none). */
  function SkipWhitespaceBack(s: string, lo: nat, j: nat): (e: nat)
    requires lo <= j <= |s|
    ensures lo <= e <= j
    ensures forall k :: e <= k < j ==> IsWhitespace(s[k])
    ensures e == lo || !IsWhitespace(s[e - 1])
  {
    if lo < j && IsWhitespace(s[j - 1]) then SkipWhitespaceBack(s, lo, j - 1) else j
  }

  /** `String.prototype.trim`: the slice of `s` between its leading and its
      trailing white space. The result is empty exactly when `s` is all white
      space, and otherwise starts and ends with a character that is not white
      space. */
  function Trim(s: string): (r: string)
    ensures r == [] <==> AllWhitespace(s)
    ensures r == [] || (!IsWhitespace(r[0]) && !IsWhitespace(r[|r| - 1]))
  {
    var b := SkipWhitespace(s, 0);
    var e := SkipWhitespaceBack(s, b, |s|);
    s[b..e]
  }

  /** What `trim` removes is white space, and only at the two ends. */
  lemma TrimIsSlice(s: string)
    ensures exists b, e :: 0 <= b <= e <= |s| && Trim(s) == s[b..e]
                           && (forall k :: 0 <= k < b ==> IsWhitespace(s[k]))
                           && (forall k :: e <= k < |s| ==> IsWhitespace(s[k]))
  {
    var b := SkipWhitespace(s, 0);
    var e := SkipWhitespaceBack(s, b, |s|);
    assert Trim(s) == s[b..e];
  }

  /** A string with no white space at either end is its own trim. */
  lemma TrimUnpadded(s: string)
    requires s == [] || (!IsWhitespace(s[0]) && !IsWhitespace(s[|s| - 1]))
    ensures Trim(s) == s
  {
    if s != [] {
      assert SkipWhitespace(s, 0) == 0;
      assert SkipWhitespaceBack(s, 0, |s|) == |s|;
      assert s[0..|s|] == s;
    }
  }

  lemma TrimIdempotent(s: string)
    ensures Trim(Trim(s)) == Trim(s)
  {
    TrimUnpadded(Trim(s));
  }

  /** `s.replace(/[^k]/g, '')`: the characters of `s` that satisfy `keep`, in
      their original order, each as many times as it occurs in `s`. */
  function Retain(s: string, keep: char -> bool): (r: string)
    ensures |r| <= |s|
    ensures forall i :: 0 <= i < |r| ==> keep(r[i])
    ensures forall c :: keep(c) ==> multiset(r)[c] == multiset(s)[c]
  {
    if s == [] then []
    else
      var rest := Retain(s[1..], keep);
      assert s == [s[0]] + s[1..];
      if keep(s[0]) then [s[0]] + rest else rest
  }

  /** Deleting characters commutes with concatenation, so `Retain` keeps the
      order of what it keeps. */
  lemma {:induction false} RetainConcat(a: string, b: string, keep: char -> bool)
    ensures Retain(a + b, keep) == Retain(a, keep) + Retain(b, keep)
  {
    if a == [] {
      assert a + b == b;
    } else {
      assert (a + b)[0] == a[0];
      assert (a + b)[1..] == a[1..] + b;
      RetainConcat(a[1..], b, keep);
    }
  }

  /** Filtering with a predicate that every character already meets changes
      nothing. */
  lemma {:induction false} RetainEverything(s: string, keep: char -> bool)
    requires forall i :: 0 <= i < |s| ==> keep(s[i])
    ensures Retain(s, keep) == s
  {
    if s != [] {
      RetainEverything(s[1..], keep);
    }
  }

  lemma RetainIdempotent(s: string, keep: char -> bool)
    ensures Retain(Retain(s, keep), keep) == Retain(s, keep)
  {
    RetainEverything(Retain(s, keep), keep);
  }

  /** Two predicates that agree on every character of `s` keep the same
      characters. */
  lemma {:induction false} RetainAgree(s: string, k1: char -> bool, k2: char -> bool)
    requires forall i :: 0 <= i < |s| ==> k1(s[i]) == k2(s[i])
    ensures Retain(s, k1) == Retain(s, k2)
  {
    if s != [] {
      RetainAgree(s[1..], k1, k2);
    }
  }

  /** A character of `s` that `keep` accepts survives the filter. */
  lemma RetainKeeps(s: string, keep: char -> bool, i: int)
    requires 0 <= i < |s| && keep(s[i])
    ensures s[i] in Retain(s, keep)
  {
    assert s[i] in multiset(s);
  }
}
