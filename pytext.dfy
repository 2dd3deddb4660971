/** The two Python string methods that run_inference applies to prompts and
    category names: str.strip() with no argument and str.lower().
    Strings are sequences of Unicode scalar values. */
module PyText {

  /** Python 3's whitespace test as used by str.strip() without arguments:
      the code points for which str.isspace() holds. */
  predicate IsSpace(c: char) {
    var n := c as int;
    (9 <= n <= 13) || (28 <= n <= 32) || n == 0x85 || n == 0xA0 || n == 0x1680
    || (0x2000 <= n <= 0x200A) || n == 0x2028 || n == 0x2029 || n == 0x202F
    || n == 0x205F || n == 0x3000
  }

  predicate AllSpace(s: string) {
    forall k :: 0 <= k < |s| ==> IsSpace(s[k])
  }

  /** The first position at or after i that does not hold whitespace
      (|s| when there is none). */
  function SkipSpace(s: string, i: int): (k: int)
    requires 0 <= i <= |s|
    ensures i <= k <= |s|
    ensures forall m :: i <= m < k ==> IsSpace(s[m])
    ensures k == |s| || !IsSpace(s[k])
    decreases |s| - i
  {
    if i < |s| && IsSpace(s[i]) then SkipSpace(s, i + 1) else i
  }

  /** The position just after the last character of s[lo..j] that is not
      whitespace (lo when there is none). */
  function SkipSpaceBack(s: string, lo: int, j: int): (k: int)
    requires 0 <= lo <= j <= |s|
    ensures lo <= k <= j
    ensures forall m :: k <= m < j ==> IsSpace(s[m])
    ensures k == lo || !IsSpace(s[k - 1])
    decreases j - lo
  {
    if lo < j && IsSpace(s[j - 1]) then SkipSpaceBack(s, lo, j - 1) else j
  }

  /** s[i..j] is what stripping s leaves: only whitespace lies outside it,
      and it neither starts nor ends with whitespace. */
  ghost predicate StrippedAt(s: string, i: int, j: int) {
    && 0 <= i <= j <= |s|
    && (forall k :: 0 <= k < i ==> IsSpace(s[k]))
    && (forall k :: j <= k < |s| ==> IsSpace(s[k]))
    && (i < j ==> !IsSpace(s[i]) && !IsSpace(s[j - 1]))
  }

  /** Python's s.strip(): skip whitespace from the left, then from the right
      down to where the left scan stopped. */
  function Strip(s: string): string {
    var i := SkipSpace(s, 0);
    s[i..SkipSpaceBack(s, i, |s|)]
  }

  /** The stripped text neither starts nor ends with whitespace, and it is
      empty exactly when s is all whitespace, which is when Python treats it
      as false. */
  lemma StripShape(s: string)
    ensures var r := Strip(s);
      && |r| <= |s|
      && (r == [] || (!IsSpace(r[0]) && !IsSpace(r[|r| - 1])))
      && (r == [] <==> AllSpace(s))
  {
    var i := SkipSpace(s, 0);
    var j := SkipSpaceBack(s, i, |s|);
    assert i < j ==> !IsSpace(s[i]);
    assert Strip(s) == s[i..j];
  }

  /** Strip(s) is the slice of s between the first and the last character
      that is not whitespace. */
  lemma StripBounds(s: string) returns (i: int, j: int)
    ensures StrippedAt(s, i, j) && Strip(s) == s[i..j]
  {
    i := SkipSpace(s, 0);
    j := SkipSpaceBack(s, i, |s|);
  }

  /** Any slice that meets StrippedAt is the result of Strip: the
      characterisation determines the stripped text uniquely. */
  lemma StripUnique(s: string, i: int, j: int)
    requires StrippedAt(s, i, j)
    ensures Strip(s) == s[i..j]
  {
    var i', j' := StripBounds(s);
    if i < j {
      assert !AllSpace(s) by { assert !IsSpace(s[i]); }
      assert i == i' && j == j';
    } else {
      assert AllSpace(s);
    }
  }

  /** Stripping twice is the same as stripping once. */
  lemma StripIdempotent(s: string)
    ensures Strip(Strip(s)) == Strip(s)
  {
    var r := Strip(s);
    StripShape(s);
    assert StrippedAt(r, 0, |r|);
    StripUnique(r, 0, |r|);
    assert r[0..|r|] == r;
  }

  /** ASCII case mapping of one character. The result is never an
      upper-case ASCII letter; it is a lower-case one exactly when the input
      was a letter of either case, and then the same letter of the alphabet;
      whitespace stays whitespace and nothing else becomes whitespace. */
  function LowerChar(c: char): (d: char)
    ensures !('A' <= d <= 'Z')
    ensures ('A' <= c <= 'Z' || 'a' <= c <= 'z') <==> 'a' <= d <= 'z'
    ensures 'A' <= c <= 'Z' ==> d as int - 'a' as int == c as int - 'A' as int
    ensures 'a' <= c <= 'z' ==> d == c
    ensures IsSpace(d) == IsSpace(c)
  {
    if 'A' <= c <= 'Z' then (c as int + 32) as char else c
  }

  /** Python's s.lower(), restricted to the ASCII letters. */
  function Lower(s: string): (r: string)
  {
    seq(|s|, k requires 0 <= k < |s| => LowerChar(s[k]))
  }

  /** Lower-casing keeps the length, turns each upper-case ASCII letter into
      its lower-case partner, leaves no upper-case ASCII letter and changes
      nothing else. */
  lemma LowerProperties(s: string)
    ensures |Lower(s)| == |s|
    ensures forall k :: 0 <= k < |s| ==> !('A' <= Lower(s)[k] <= 'Z')
    ensures forall k :: 0 <= k < |s| && 'A' <= s[k] <= 'Z' ==> Lower(s)[k] as int == s[k] as int + 32
    ensures forall k :: 0 <= k < |s| && !('A' <= s[k] <= 'Z') ==> Lower(s)[k] == s[k]
  {
  }

  /** Lower-casing twice is the same as lower-casing once. */
  lemma LowerIdempotent(s: string)
    ensures Lower(Lower(s)) == Lower(s)
  {
  }

  /** Lower-casing keeps whitespace where it was. */
  lemma LowerSpaces(s: string)
    ensures forall k :: 0 <= k < |s| ==> IsSpace(Lower(s)[k]) == IsSpace(s[k])
  {
  }

  /** Lower-casing a slice is the same slice of the lower-cased text. */
  lemma LowerSlice(s: string, i: int, j: int)
    requires 0 <= i <= j <= |s|
    ensures Lower(s)[i..j] == Lower(s[i..j])
  {
  }

  /** Stripping and lower-casing commute, so `lower().strip()` and
      `strip().lower()` give the same text. */
  lemma StripLowerCommute(s: string)
    ensures Strip(Lower(s)) == Lower(Strip(s))
  {
    var i, j := StripBounds(s);
    LowerSpaces(s);
    assert StrippedAt(Lower(s), i, j);
    StripUnique(Lower(s), i, j);
    LowerSlice(s, i, j);
  }

  /** The normalisation applied to every returned category: `lower().strip()`. */
  function Normalize(s: string): string {
    Strip(Lower(s))
  }

  /** A normalised name carries no surrounding whitespace and no upper-case
      ASCII letter, and is empty exactly when the category was all whitespace. */
  lemma NormalizedShape(s: string)
    ensures var n := Normalize(s);
      && (n == [] || (!IsSpace(n[0]) && !IsSpace(n[|n| - 1])))
      && (forall k :: 0 <= k < |n| ==> !('A' <= n[k] <= 'Z'))
      && (n == [] <==> AllSpace(s))
  {
    StripLowerCommute(s);
    StripShape(Lower(s));
    LowerProperties(Strip(s));
    LowerSpaces(s);
    assert AllSpace(Lower(s)) <==> AllSpace(s);
  }

  /** Normalising a normalised name changes nothing. */
  lemma NormalizeIdempotent(s: string)
    ensures Normalize(Normalize(s)) == Normalize(s)
  {
    var t := Lower(s);
    StripLowerCommute(t);
    LowerIdempotent(s);
    StripIdempotent(t);
  }

  lemma SliceOfSlice(u: string, a: int, b: int, i: int, j: int)
    requires 0 <= a <= b <= |u| && 0 <= i <= j <= b - a
    ensures u[a..b][i..j] == u[a + i..a + j]
  {
    forall k | 0 <= k < j - i ensures u[a..b][i..j][k] == u[a + i..a + j][k] {
      assert u[a..b][i..j][k] == u[a..b][i + k] == u[a + i + k];
    }
  }

  /** Only whitespace lies outside u[a..b]. */
  ghost predicate PaddedAt(u: string, a: int, b: int) {
    && 0 <= a <= b <= |u|
    && (forall k :: 0 <= k < a ==> IsSpace(u[k]))
    && (forall k :: b <= k < |u| ==> IsSpace(u[k]))
  }

  /** The bounds that strip u[a..b], shifted by a, strip u. */
  lemma StrippedAtShift(u: string, a: int, b: int, i: int, j: int)
    requires PaddedAt(u, a, b)
    requires StrippedAt(u[a..b], i, j)
    ensures StrippedAt(u, a + i, a + j)
  {
    var m := u[a..b];
    forall k | a <= k < a + i ensures IsSpace(u[k]) {
      assert u[k] == m[k - a];
    }
    forall k | a + j <= k < b ensures IsSpace(u[k]) {
      assert u[k] == m[k - a];
    }
    if i < j {
      assert u[a + i] == m[i];
      assert u[a + j - 1] == m[j - 1];
    }
  }

  /** Stripping u gives what stripping u[a..b] gives when only whitespace
      lies outside u[a..b]. */
  lemma StripAround(u: string, a: int, b: int)
    requires PaddedAt(u, a, b)
    ensures Strip(u) == Strip(u[a..b])
  {
    var i, j := StripBounds(u[a..b]);
    StrippedAtShift(u, a, b, i, j);
    StripUnique(u, a + i, a + j);
    SliceOfSlice(u, a, b, i, j);
  }

  /** Whitespace added around a text is removed again by stripping. */
  lemma StripIgnoresPadding(s: string, pre: string, post: string)
    requires AllSpace(pre) && AllSpace(post)
    ensures Strip(pre + s + post) == Strip(s)
  {
    var u := pre + s + post;
    var n := |pre|;
    assert u[n..n + |s|] == s;
    forall k | 0 <= k < n ensures IsSpace(u[k]) {
      assert u[k] == pre[k];
    }
    forall k | n + |s| <= k < |u| ensures IsSpace(u[k]) {
      assert u[k] == post[k - n - |s|];
    }
    StripAround(u, n, n + |s|);
  }

  /** Normalisation ignores surrounding whitespace: a category padded with
      blanks gets the same normalised name as the bare one. */
  lemma NormalizeIgnoresPadding(s: string, pre: string, post: string)
    requires AllSpace(pre) && AllSpace(post)
    ensures Normalize(pre + s + post) == Normalize(s)
  {
    StripLowerCommute(pre + s + post);
    StripLowerCommute(s);
    StripIgnoresPadding(s, pre, post);
  }
}
