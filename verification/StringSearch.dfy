/**
 The searches and the comparison of `basic_string_view` (include/aws/crt/StringView.h). A view is the
 sequence of its characters; pointers into it are indices. `Traits` is the standard character traits:
 `find` scans for one character and `compare` compares by character value. Sizes are those of a 64-bit
 platform, and no view is longer than PTRDIFF_MAX, as for every C++ object.
 */
module StringSearch {

  const NPOS: nat := 0xFFFF_FFFF_FFFF_FFFF
  const PTRDIFF_MAX: int := 0x7FFF_FFFF_FFFF_FFFF
  const INT_MAX: int := 0x7FFF_FFFF
  const INT_MIN: int := -0x8000_0000

  type SizeT = n: nat | n <= NPOS

  /** A C++ object fits in the address space. */
  predicate Fits(s: string) {
    |s| <= PTRDIFF_MAX
  }

  /** `needle` occurs in `s` at index `i`. */
  predicate OccursAt(s: string, needle: string, i: int) {
    0 <= i && i + |needle| <= |s| && s[i..i + |needle|] == needle
  }

  // ---------- Searching forwards ----------

  /** `Traits::find`: the first index of `c` in `s[from .. to]`, or `to`. */
  method FindChar(s: string, from: nat, to: nat, c: char) returns (r: nat)
    requires from <= to <= |s|
    ensures from <= r <= to
    ensures forall k :: from <= k < r ==> s[k] != c
    ensures r < to ==> s[r] == c
  {
    r := from;
    while r < to && s[r] != c
      invariant from <= r <= to
      invariant forall k :: from <= k < r ==> s[k] != c
    {
      r := r + 1;
    }
  }

  /** The loop of `_s_search_substr`: jump to the next match of the first character, then compare. */
  method SearchSubstr(s: string, start: nat, needle: string) returns (r: nat)
    requires start <= |s|
    ensures needle == "" ==> r == start
    ensures needle != "" && r < |s| ==> start <= r && OccursAt(s, needle, r)
    ensures needle != "" ==> r <= |s| && forall k :: start <= k < r ==> !OccursAt(s, needle, k)
  {
    if needle == "" {
      return start;
    }
    if |s| - start < |needle| {
      return |s|;
    }
    r := start;
    while true
      invariant start <= r <= |s|
      invariant forall k :: start <= k < r ==> !OccursAt(s, needle, k)
      decreases |s| - r
    {
      if |s| - r < |needle| {
        return |s|;
      }
      var to := |s| - |needle| + 1;
      var hit := FindChar(s, r, to, needle[0]);
      forall k | r <= k < hit ensures !OccursAt(s, needle, k) {
        assert s[k] != needle[0];
      }
      if hit == to {
        return |s|;
      }
      if s[hit..hit + |needle|] == needle {
        return hit;
      }
      r := hit + 1;
    }
  }

  /** `r` is the least index at or after `pos` where the needle occurs, or NPOS if there is none. */
  ghost predicate IsFirst(s: string, needle: string, pos: nat, r: nat) {
    if r == NPOS then forall k :: pos <= k ==> !OccursAt(s, needle, k)
    else pos <= r && OccursAt(s, needle, r) && forall k :: pos <= k < r ==> !OccursAt(s, needle, k)
  }

  /** A needle given as a pointer, which may be null, and a length. */
  datatype Chars = Null | Chars(text: string)

  method Find(s: string, needle: Chars, pos: SizeT, n: nat) returns (r: SizeT)
    requires Fits(s) && (needle.Chars? ==> n == |needle.text|)
    ensures needle.Null? && n > 0 ==> r == NPOS
    ensures needle.Null? && n == 0 ==> IsFirst(s, "", pos, r)
    ensures needle.Chars? ==> IsFirst(s, needle.text, pos, r)
  {
    if n != 0 && needle.Null? {
      return NPOS;
    }
    if pos > |s| {
      return NPOS;
    }
    if n == 0 {
      return pos;
    }
    var hit := SearchSubstr(s, pos, needle.text);
    if hit == |s| {
      return NPOS;
    }
    return hit;
  }

  // ---------- Searching backwards ----------

  /** Among the starts before `first`, `r` is the latest occurrence; `|w|` stands for none. */
  ghost predicate LatestBefore(w: string, needle: string, r: nat, first: int) {
    && (r < |w| ==> r < first && OccursAt(w, needle, r))
    && r <= |w|
    && (forall k :: (if r < |w| then r < k else 0 <= k) && k < first ==> !OccursAt(w, needle, k))
  }

  lemma CharAt(w: string, needle: string, i: nat, m: nat)
    requires OccursAt(w, needle, i) && m < |needle|
    ensures w[i + m] == needle[m]
  {
    assert w[i..i + |needle|][m] == needle[m];
  }

  lemma NotAt(w: string, needle: string, i: nat, m: nat)
    requires m < |needle| && i + m < |w| && w[i + m] != needle[m]
    ensures !OccursAt(w, needle, i)
  {
    if OccursAt(w, needle, i) {
      CharAt(w, needle, i, m);
    }
  }

  /** How much of the needle matches at `first`, whose first character does. */
  method MatchLength(s: string, last: nat, needle: string, first: nat) returns (m: nat)
    requires first < last <= |s| && needle != "" && s[first] == needle[0]
    ensures 1 <= m <= |needle| && first + m <= last && s[first..first + m] == needle[..m]
    ensures m == |needle| || first + m == last || s[first + m] != needle[m]
  {
    m := 1;
    while m < |needle| && first + m < last && s[first + m] == needle[m]
      invariant 1 <= m <= |needle| && first + m <= last
      invariant s[first..first + m] == needle[..m]
    {
      m := m + 1;
    }
  }

  /**
   `_s_find_end` on the window `s[.. last]`: a forward scan that remembers the latest occurrence. When a
   partial match runs into the end of the window it stops at once, since no later start has room.
   */
  method FindEnd(s: string, last: nat, needle: string) returns (r: nat)
    requires last <= |s|
    ensures needle == "" ==> r == last
    ensures needle != "" ==> r <= last
    ensures needle != "" && r < last ==> OccursAt(s[..last], needle, r)
    ensures needle != "" ==> forall k :: (if r < last then r < k else 0 <= k) ==> !OccursAt(s[..last], needle, k)
  {
    ghost var w := s[..last];
    r := last;
    if needle == "" {
      return;
    }
    var first := 0;
    while true
      invariant 0 <= first <= last && LatestBefore(w, needle, r, first)
      decreases last - first
    {
      while first < last && s[first] != needle[0]
        invariant 0 <= first <= last && LatestBefore(w, needle, r, first)
      {
        NotAt(w, needle, first, 0);
        first := first + 1;
      }
      if first == last {
        return;
      }
      var m := MatchLength(s, last, needle, first);
      if m == |needle| {
        assert w[first..first + m] == s[first..first + m] && needle[..m] == needle;
        r := first;
        first := first + 1;
      } else if first + m == last {
        return;
      } else {
        NotAt(w, needle, first, m);
        first := first + 1;
      }
    }
  }

  /** `r` is the greatest index at or before `pos` where the needle occurs, or NPOS if there is none. */
  ghost predicate IsLast(s: string, needle: string, pos: nat, r: nat) {
    if r == NPOS then forall k :: k <= pos ==> !OccursAt(s, needle, k)
    else r <= pos && OccursAt(s, needle, r) && forall k :: r < k <= pos ==> !OccursAt(s, needle, k)
  }

  method RFind(s: string, needle: Chars, pos: SizeT, n: nat) returns (r: SizeT)
    requires Fits(s) && (needle.Chars? ==> n == |needle.text|)
    ensures needle.Null? && n > 0 ==> r == NPOS
    ensures needle.Null? && n == 0 ==> IsLast(s, "", pos, r)
    ensures needle.Chars? ==> IsLast(s, needle.text, pos, r)
  {
    if n != 0 && needle.Null? {
      return NPOS;
    }
    var text := if needle.Null? then "" else needle.text;
    var start := if pos < |s| then pos else |s|;
    var last := if n < |s| - start then start + n else |s|;
    var hit := FindEnd(s, last, text);
    forall k: int | k + n <= last ensures OccursAt(s, text, k) <==> OccursAt(s[..last], text, k) {
      if 0 <= k {
        assert s[k..k + n] == s[..last][k..k + n];
      }
    }
    if n > 0 && hit == last {
      return NPOS;
    }
    return hit;
  }

  // ---------- Comparing ----------

  /** `Traits::compare` on the first `n` characters; only the sign of its result is fixed by the standard. */
  function TraitsCompare(a: string, b: string, n: nat): int
    requires n <= |a| && n <= |b|
  {
    if n == 0 then 0
    else if a[0] < b[0] then -1
    else if b[0] < a[0] then 1
    else TraitsCompare(a[1..], b[1..], n - 1)
  }

  /** Conversion of a 64-bit unsigned value to `ptrdiff_t`. */
  function ToPtrdiff(n: int): int {
    if n <= PTRDIFF_MAX then n else n - NPOS - 1
  }

  /** `_s_compare`: unsigned subtraction, conversion to a signed difference, clamping to `int`. */
  function CompareSizes(n1: SizeT, n2: SizeT): (r: int)
    ensures INT_MIN <= r <= INT_MAX
  {
    var diff := ToPtrdiff((n1 - n2) % (NPOS + 1));
    if diff > INT_MAX then INT_MAX
    else if diff < INT_MIN then INT_MIN
    else diff
  }

  function Sign(n: int): int {
    if n < 0 then -1 else if n > 0 then 1 else 0
  }

  lemma WrapDifference(n1: SizeT, n2: SizeT)
    ensures (n1 - n2) % (NPOS + 1) == if n1 >= n2 then n1 - n2 else n1 - n2 + NPOS + 1
  {
  }

  /**
   The clamped difference has the sign of the true one exactly if the true one fits in `ptrdiff_t`. In
   particular it does for all sizes up to PTRDIFF_MAX.
   */
  lemma CompareSizesSign(n1: SizeT, n2: SizeT)
    ensures Sign(CompareSizes(n1, n2)) == Sign(n1 - n2) <==> -PTRDIFF_MAX - 1 <= n1 - n2 <= PTRDIFF_MAX
  {
    WrapDifference(n1, n2);
  }

  /** Sizes beyond PTRDIFF_MAX can compare the wrong way round. */
  lemma HugeSizesCompareWrongly()
    ensures CompareSizes(NPOS, 0) < 0
  {
    WrapDifference(NPOS, 0);
  }

  function Compare(a: string, b: string): int
    requires Fits(a) && Fits(b)
  {
    var n := if |a| < |b| then |a| else |b|;
    var r := TraitsCompare(a, b, n);
    if r == 0 then CompareSizes(|a|, |b|) else r
  }

  /** Dictionary order, defined on its own. */
  predicate LexLess(a: string, b: string) {
    b != "" && (a == "" || a[0] < b[0] || (a[0] == b[0] && LexLess(a[1..], b[1..])))
  }

  lemma {:induction false} CompareUnfolds(a: string, b: string)
    requires Fits(a) && Fits(b) && a != "" && b != "" && a[0] == b[0]
    ensures Sign(Compare(a, b)) == Sign(Compare(a[1..], b[1..]))
  {
    CompareSizesSign(|a|, |b|);
    CompareSizesSign(|a[1..]|, |b[1..]|);
  }

  /** The sign of the comparison is dictionary order, and it is zero exactly on equal views. */
  lemma {:induction false} CompareIsLexicographic(a: string, b: string)
    requires Fits(a) && Fits(b)
    ensures Compare(a, b) < 0 <==> LexLess(a, b)
    ensures Compare(a, b) == 0 <==> a == b
    ensures Compare(a, b) > 0 <==> LexLess(b, a)
    decreases |a|
  {
    CompareSizesSign(|a|, |b|);
    if a != "" && b != "" && a[0] == b[0] {
      CompareUnfolds(a, b);
      CompareIsLexicographic(a[1..], b[1..]);
      assert a == [a[0]] + a[1..] && b == [b[0]] + b[1..];
    }
  }

  /** Swapping the operands flips the sign. */
  lemma CompareAntisymmetric(a: string, b: string)
    requires Fits(a) && Fits(b)
    ensures Sign(Compare(b, a)) == -Sign(Compare(a, b))
  {
    CompareIsLexicographic(a, b);
    CompareIsLexicographic(b, a);
  }

  lemma {:induction false} LexTransitive(a: string, b: string, c: string)
    requires LexLess(a, b) && LexLess(b, c)
    ensures LexLess(a, c)
    decreases |a|
  {
    if a != "" && a[0] == b[0] && b[0] == c[0] {
      LexTransitive(a[1..], b[1..], c[1..]);
    }
  }

  lemma CompareTransitive(a: string, b: string, c: string)
    requires Fits(a) && Fits(b) && Fits(c)
    ensures Compare(a, b) <= 0 && Compare(b, c) <= 0 ==> Compare(a, c) <= 0
    ensures Compare(a, b) < 0 && Compare(b, c) <= 0 ==> Compare(a, c) < 0
    ensures Compare(a, b) <= 0 && Compare(b, c) < 0 ==> Compare(a, c) < 0
  {
    CompareIsLexicographic(a, b);
    CompareIsLexicographic(b, c);
    CompareIsLexicographic(a, c);
    if LexLess(a, b) && LexLess(b, c) {
      LexTransitive(a, b, c);
    }
  }

  // ---------- Operators built on the comparison ----------

  function Substr(s: string, pos: nat, n: nat): string
    requires pos <= |s|
  {
    if n < |s| - pos then s[pos..pos + n] else s[pos..]
  }

  predicate Equals(a: string, b: string)
    requires Fits(a) && Fits(b)
  {
    if |a| != |b| then false else Compare(a, b) == 0
  }

  predicate Less(a: string, b: string)
    requires Fits(a) && Fits(b)
  {
    Compare(a, b) < 0
  }

  predicate StartsWith(s: string, other: string)
    requires Fits(s) && Fits(other)
  {
    Equals(Substr(s, 0, |other|), other)
  }

  predicate EndsWith(s: string, other: string)
    requires Fits(s) && Fits(other)
  {
    |s| >= |other| && Compare(Substr(s, |s| - |other|, NPOS), other) == 0
  }

  /** `==` is equality, and exactly one of `<`, `==` and `>` holds. */
  lemma OperatorsAgree(a: string, b: string)
    requires Fits(a) && Fits(b)
    ensures Equals(a, b) <==> a == b
    ensures Less(a, b) <==> !Less(b, a) && !Equals(a, b)
  {
    CompareIsLexicographic(a, b);
    CompareAntisymmetric(a, b);
  }

  /** A prefix is an occurrence at the start. */
  lemma StartsWithIsPrefix(s: string, other: string)
    requires Fits(s) && Fits(other)
    ensures StartsWith(s, other) <==> OccursAt(s, other, 0)
  {
    CompareIsLexicographic(Substr(s, 0, |other|), other);
  }

  /** A suffix is an occurrence at the end. */
  lemma EndsWithIsSuffix(s: string, other: string)
    requires Fits(s) && Fits(other)
    ensures EndsWith(s, other) <==> OccursAt(s, other, |s| - |other|)
  {
    if |s| >= |other| {
      assert Substr(s, |s| - |other|, NPOS) == s[|s| - |other|..] == s[|s| - |other|..|s| - |other| + |other|];
      CompareIsLexicographic(Substr(s, |s| - |other|, NPOS), other);
    }
  }
}
