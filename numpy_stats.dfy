/** The order statistics the pricing engine takes from numpy: `np.percentile` with its
    default linear interpolation between closest ranks, and `np.median`, over a sample
    of prices held as mathematical reals. */
module NumpyStats {
  import opened RealArith

  predicate Sorted(s: seq<real>) {
    forall i, j :: 0 <= i <= j < |s| ==> s[i] <= s[j]
  }

  /** Smallest element of a non-empty sample. */
  function Min(xs: seq<real>): (m: real)
    requires |xs| > 0
    ensures m in xs
    ensures forall x :: x in xs ==> m <= x
  {
    if |xs| == 1 then xs[0]
    else
      var rest := Min(xs[1..]);
      assert forall x :: x in xs ==> x == xs[0] || x in xs[1..];
      if xs[0] <= rest then xs[0] else rest
  }

  /** Largest element of a non-empty sample. */
  function Max(xs: seq<real>): (m: real)
    requires |xs| > 0
    ensures m in xs
    ensures forall x :: x in xs ==> x <= m
  {
    if |xs| == 1 then xs[0]
    else
      var rest := Max(xs[1..]);
      assert forall x :: x in xs ==> x == xs[0] || x in xs[1..];
      if rest <= xs[0] then xs[0] else rest
  }

  /** Inserts `x` into an ascending sequence. */
  function Insert(x: real, s: seq<real>): (r: seq<real>)
    requires Sorted(s)
    ensures |r| == |s| + 1
    ensures r[0] == x || (s != [] && r[0] == s[0])
    ensures Sorted(r)
  {
    if s == [] || x <= s[0] then [x] + s
    else [s[0]] + Insert(x, s[1..])
  }

  /** The ascending rearrangement numpy works on before it reads off ranks. */
  function Sort(xs: seq<real>): (r: seq<real>)
    ensures |r| == |xs|
    ensures Sorted(r)
  {
    if xs == [] then [] else Insert(xs[0], Sort(xs[1..]))
  }

  lemma {:induction false} InsertPermutes(x: real, s: seq<real>)
    requires Sorted(s)
    ensures multiset(Insert(x, s)) == multiset(s) + multiset{x}
  {
    if s != [] && !(x <= s[0]) {
      assert s == [s[0]] + s[1..];
      InsertPermutes(x, s[1..]);
    }
  }

  /** Sorting only rearranges: the sorted sample holds the same prices, each as often. */
  lemma {:induction false} SortPermutes(xs: seq<real>)
    ensures multiset(Sort(xs)) == multiset(xs)
  {
    if xs != [] {
      assert xs == [xs[0]] + xs[1..];
      SortPermutes(xs[1..]);
      InsertPermutes(xs[0], Sort(xs[1..]));
    }
  }

  /** The fractional rank `(n - 1) * q / 100` at which the q-th percentile of n values is read. */
  function Rank(n: nat, q: real): (h: real)
    requires n > 0 && 0.0 <= q <= 100.0
    ensures 0.0 <= h <= (n - 1) as real
  {
    assert (n - 1) as real * q <= (n - 1) as real * 100.0;
    (n - 1) as real * q / 100.0
  }

  /** Linear interpolation at fractional rank `h` of an ascending sequence: the value at
      `floor(h)` plus the fractional part of `h` times the step to the next value (numpy's
      'linear' method; at the last index there is no next value). */
  function Interpolate(s: seq<real>, h: real): real
    requires |s| > 0 && 0.0 <= h <= (|s| - 1) as real && Sorted(s)
  {
    var lo := h.Floor;
    var hi := if lo + 1 < |s| then lo + 1 else |s| - 1;
    Lerp(s[lo], s[hi], h - lo as real)
  }

  /** The point a fraction `t` of the way from `a` to `b`. */
  function Lerp(a: real, b: real, t: real): (r: real)
    requires a <= b && 0.0 <= t <= 1.0
    ensures a <= r <= b
  {
    MulNonNegative(t, b - a);
    MulNonNegative(1.0 - t, b - a);
    a + t * (b - a)
  }

  /** `np.percentile(xs, q)` with the default interpolation. */
  function Percentile(xs: seq<real>, q: real): (p: real)
    requires |xs| > 0 && 0.0 <= q <= 100.0
    ensures Min(xs) <= p <= Max(xs)
  {
    var s := Sort(xs);
    var h := Rank(|xs|, q);
    InterpolateWithin(s, h);
    SortedEnds(xs);
    Interpolate(s, h)
  }

  /** `np.median(xs)`, which numpy computes as the 50th percentile. */
  function Median(xs: seq<real>): (m: real)
    requires |xs| > 0
    ensures Min(xs) <= m <= Max(xs)
  {
    Percentile(xs, 50.0)
  }

  /** An interpolated value lies between its two neighbouring ranks, hence between the ends. */
  lemma InterpolateWithin(s: seq<real>, h: real)
    requires |s| > 0 && 0.0 <= h <= (|s| - 1) as real && Sorted(s)
    ensures var lo := h.Floor;
      var hi := if lo + 1 < |s| then lo + 1 else |s| - 1;
      s[lo] <= Interpolate(s, h) <= s[hi]
    ensures s[0] <= Interpolate(s, h) <= s[|s| - 1]
  {
    var lo := h.Floor;
    var hi := if lo + 1 < |s| then lo + 1 else |s| - 1;
    assert s[lo] <= s[hi];
    assert s[0] <= s[lo] && s[hi] <= s[|s| - 1];
  }

  /** The first and last elements of the sorted sample are its minimum and maximum. */
  lemma SortedEnds(xs: seq<real>)
    requires |xs| > 0
    ensures Sort(xs)[0] == Min(xs) && Sort(xs)[|xs| - 1] == Max(xs)
  {
    var s := Sort(xs);
    SortPermutes(xs);
    var lo, hi := Min(xs), Max(xs);
    assert s[0] in multiset(s) && s[|s| - 1] in multiset(s);
    assert s[0] in xs && s[|s| - 1] in xs;
    assert lo in multiset(xs) && hi in multiset(xs);
    assert lo in s && hi in s;
    var i :| 0 <= i < |s| && s[i] == lo;
    var j :| 0 <= j < |s| && s[j] == hi;
  }

  lemma MultisetTail(a: seq<real>)
    requires a != []
    ensures multiset(a[1..]) == multiset(a) - multiset{a[0]}
  {
    assert a == [a[0]] + a[1..];
  }

  /** Two ascending sequences holding the same values start with the same, least value. */
  lemma SortedHeads(a: seq<real>, b: seq<real>)
    requires Sorted(a) && Sorted(b) && multiset(a) == multiset(b) && a != []
    ensures b != [] && a[0] == b[0]
  {
    assert a[0] in multiset(b);
    var i :| 0 <= i < |b| && b[i] == a[0];
    assert b[0] in multiset(a);
    var j :| 0 <= j < |a| && a[j] == b[0];
    assert b[0] <= b[i] && a[0] <= a[j];
  }

  lemma ConsEqual(a: seq<real>, b: seq<real>)
    requires a != [] && b != [] && a[0] == b[0] && a[1..] == b[1..]
    ensures a == b
  {
    assert a == [a[0]] + a[1..];
    assert b == [b[0]] + b[1..];
  }

  /** Two ascending sequences holding the same values are equal, so sorting has only one
      possible result: any ascending rearrangement of `xs` is `Sort(xs)`. */
  lemma {:induction false} SortedUnique(a: seq<real>, b: seq<real>)
    requires Sorted(a) && Sorted(b) && multiset(a) == multiset(b)
    ensures a == b
  {
    if a == [] {
      assert |b| == |multiset(b)| == 0;
    } else {
      SortedHeads(a, b);
      MultisetTail(a);
      MultisetTail(b);
      SortedUnique(a[1..], b[1..]);
      ConsEqual(a, b);
    }
  }

  lemma SortIsUnique(xs: seq<real>, s: seq<real>)
    requires Sorted(s) && multiset(s) == multiset(xs)
    ensures Sort(xs) == s
  {
    SortPermutes(xs);
    SortedUnique(Sort(xs), s);
  }

  /** Interpolation is monotone in the rank over an ascending sequence. */
  lemma InterpolateMonotone(s: seq<real>, h1: real, h2: real)
    requires |s| > 0 && Sorted(s)
    requires 0.0 <= h1 <= h2 <= (|s| - 1) as real
    ensures Interpolate(s, h1) <= Interpolate(s, h2)
  {
    var lo1, lo2 := h1.Floor, h2.Floor;
    InterpolateWithin(s, h1);
    InterpolateWithin(s, h2);
    if lo1 == lo2 {
        var hi := if lo1 + 1 < |s| then lo1 + 1 else |s| - 1;
      MulNonNegative(h2 - h1, s[hi] - s[lo1]);
    } else {
      assert lo1 + 1 <= lo2;
      assert s[lo1 + 1] <= s[lo2];
    }
  }

  /** A larger q gives a larger fractional rank. */
  lemma RankMonotone(n: nat, q1: real, q2: real)
    requires n > 0 && 0.0 <= q1 <= q2 <= 100.0
    ensures Rank(n, q1) <= Rank(n, q2)
  {
    MulNonNegative((n - 1) as real, q2 - q1);
  }

  /** A higher percentile is never below a lower one. */
  lemma PercentileMonotone(xs: seq<real>, q1: real, q2: real)
    requires |xs| > 0 && 0.0 <= q1 <= q2 <= 100.0
    ensures Percentile(xs, q1) <= Percentile(xs, q2)
  {
    RankMonotone(|xs|, q1, q2);
    InterpolateMonotone(Sort(xs), Rank(|xs|, q1), Rank(|xs|, q2));
  }

  /** At a whole rank, interpolation reads that element. */
  lemma InterpolateAtIndex(s: seq<real>, i: nat)
    requires i < |s| && Sorted(s)
    ensures Interpolate(s, i as real) == s[i]
  {
    assert (i as real).Floor == i;
  }

  /** Halfway between two ranks, interpolation gives the mean of the two elements. */
  lemma InterpolateAtHalf(s: seq<real>, i: nat)
    requires i + 1 < |s| && Sorted(s)
    ensures Interpolate(s, i as real + 0.5) == (s[i] + s[i + 1]) / 2.0
  {
    assert (i as real + 0.5).Floor == i;
  }

  /** For an odd count `2m + 1`, the median's rank is the whole index `m`. */
  lemma MedianOfOdd(s: seq<real>, m: nat)
    requires Sorted(s) && |s| == 2 * m + 1
    ensures Interpolate(s, Rank(|s|, 50.0)) == s[m]
  {
    assert Rank(|s|, 50.0) == m as real;
    InterpolateAtIndex(s, m);
  }

  /** For an even count `2m + 2`, the median's rank falls halfway between `m` and `m + 1`. */
  lemma MedianOfEven(s: seq<real>, m: nat)
    requires Sorted(s) && |s| == 2 * m + 2
    ensures Interpolate(s, Rank(|s|, 50.0)) == (s[m] + s[m + 1]) / 2.0
  {
    assert Rank(|s|, 50.0) == m as real + 0.5;
    InterpolateAtHalf(s, m);
  }

  /** The median is the middle element for an odd count and the mean of the two middle
      elements for an even count, which is what `np.median` documents. */
  lemma MedianIsMiddle(xs: seq<real>)
    requires |xs| > 0
    ensures var s, n := Sort(xs), |xs|;
      if n % 2 == 1 then Median(xs) == s[n / 2]
      else Median(xs) == (s[n / 2 - 1] + s[n / 2]) / 2.0
  {
    var s, n := Sort(xs), |xs|;
    assert Median(xs) == Interpolate(s, Rank(n, 50.0));
    if n % 2 == 1 {
      MedianOfOdd(s, n / 2);
    } else {
      MedianOfEven(s, n / 2 - 1);
    }
  }

  /** Adds `k` to every element. */
  function Shift(xs: seq<real>, k: real): (r: seq<real>)
    ensures |r| == |xs|
  {
    if xs == [] then [] else [xs[0] + k] + Shift(xs[1..], k)
  }

  lemma {:induction false} ShiftAt(xs: seq<real>, k: real)
    ensures forall i :: 0 <= i < |xs| ==> Shift(xs, k)[i] == xs[i] + k
  {
    if xs != [] {
      ShiftAt(xs[1..], k);
    }
  }

  lemma ShiftSorted(s: seq<real>, k: real)
    requires Sorted(s)
    ensures Sorted(Shift(s, k))
  {
    ShiftAt(s, k);
  }

  lemma ShiftCons(a: real, t: seq<real>, k: real)
    ensures Shift([a] + t, k) == [a + k] + Shift(t, k)
  {
    assert ([a] + t)[1..] == t;
  }

  lemma {:induction false} InsertShift(x: real, s: seq<real>, k: real)
    requires Sorted(s)
    ensures Sorted(Shift(s, k))
    ensures Insert(x + k, Shift(s, k)) == Shift(Insert(x, s), k)
  {
    ShiftSorted(s, k);
    if s == [] {
      ShiftCons(x, [], k);
    } else if x <= s[0] {
      ShiftCons(x, s, k);
    } else {
      var rest := s[1..];
      assert s == [s[0]] + rest;
      ShiftCons(s[0], rest, k);
      var u := Shift(s, k);
      assert u[1..] == Shift(rest, k);
      assert Insert(x + k, u) == [s[0] + k] + Insert(x + k, Shift(rest, k));
      InsertShift(x, rest, k);
      assert Insert(x, s) == [s[0]] + Insert(x, rest);
      ShiftCons(s[0], Insert(x, rest), k);
    }
  }

  lemma SortCons(x: real, t: seq<real>)
    ensures Sort([x] + t) == Insert(x, Sort(t))
  {
    assert ([x] + t)[1..] == t;
  }

  /** Sorting commutes with adding the same amount to every price. */
  lemma {:induction false} SortShift(xs: seq<real>, k: real)
    ensures Sort(Shift(xs, k)) == Shift(Sort(xs), k)
  {
    if xs != [] {
      var x, rest := xs[0], xs[1..];
      assert xs == [x] + rest;
      ShiftCons(x, rest, k);
      SortCons(x + k, Shift(rest, k));
      assert Sort(Shift(xs, k)) == Insert(x + k, Sort(Shift(rest, k)));
      SortShift(rest, k);
      InsertShift(x, Sort(rest), k);
      assert Sort(xs) == Insert(x, Sort(rest));
    }
  }

  lemma LerpShift(a: real, b: real, t: real, k: real)
    requires a <= b && 0.0 <= t <= 1.0
    ensures Lerp(a + k, b + k, t) == Lerp(a, b, t) + k
  {
    assert (b + k) - (a + k) == b - a;
  }

  lemma InterpolateShift(s: seq<real>, h: real, k: real)
    requires |s| > 0 && 0.0 <= h <= (|s| - 1) as real && Sorted(s)
    ensures Sorted(Shift(s, k))
    ensures Interpolate(Shift(s, k), h) == Interpolate(s, h) + k
  {
    ShiftSorted(s, k);
    var lo := h.Floor;
    var hi := if lo + 1 < |s| then lo + 1 else |s| - 1;
    var t := Shift(s, k);
    ShiftAt(s, k);
    assert t[lo] == s[lo] + k && t[hi] == s[hi] + k;
    LerpShift(s[lo], s[hi], h - lo as real, k);
  }

  /** Every percentile moves by exactly `k` when every price moves by `k`. */
  lemma PercentileShift(xs: seq<real>, q: real, k: real)
    requires |xs| > 0 && 0.0 <= q <= 100.0
    ensures Percentile(Shift(xs, k), q) == Percentile(xs, q) + k
  {
    SortShift(xs, k);
    InterpolateShift(Sort(xs), Rank(|xs|, q), k);
  }
}
