/** Descriptive statistics over real numbers: sorting, the arithmetic mean, and
    percentiles by numpy's default linear interpolation between closest ranks. */
module Numeric {
  import opened Wrappers

  lemma NonNegProduct(a: real, b: real)
    requires 0.0 <= a && 0.0 <= b
    ensures 0.0 <= a * b
  {
  }

  lemma PosProduct(a: real, b: real)
    requires 0.0 < a && 0.0 < b
    ensures 0.0 < a * b
  {
  }

  /** A fraction of a non-negative difference stays between 0 and that difference. */
  lemma ScaleWithin(t: real, d: real)
    ensures 0.0 <= t <= 1.0 && 0.0 <= d ==> 0.0 <= t * d <= d
  {
    if 0.0 <= t <= 1.0 && 0.0 <= d {
      NonNegProduct(t, d);
      NonNegProduct(1.0 - t, d);
      assert (1.0 - t) * d == d - t * d;
    }
  }

  lemma MulMonotone(a: real, x: real, y: real)
    requires 0.0 <= a && x <= y
    ensures a * x <= a * y
  {
    NonNegProduct(a, y - x);
    assert a * (y - x) == a * y - a * x;
  }

  lemma MulStrict(a: real, x: real, y: real)
    requires 0.0 < a && x < y
    ensures a * x < a * y
  {
    PosProduct(a, y - x);
    assert a * (y - x) == a * y - a * x;
  }

  lemma DivLower(x: real, n: real, lo: real)
    requires n > 0.0 && n * lo <= x
    ensures lo <= x / n
  {
    var q := x / n;
    assert q * n == x;
    if q < lo {
      MulStrict(n, q, lo);
      assert false;
    }
  }

  lemma DivUpper(x: real, n: real, hi: real)
    requires n > 0.0 && x <= n * hi
    ensures x / n <= hi
  {
    var q := x / n;
    assert q * n == x;
    if hi < q {
      MulStrict(n, hi, q);
      assert false;
    }
  }

  predicate Sorted(s: seq<real>) {
    forall i, j :: 0 <= i < j < |s| ==> s[i] <= s[j]
  }

  /** Insert `x` into a sorted sequence at its place. */
  function Insert(x: real, s: seq<real>): (r: seq<real>)
    requires Sorted(s)
    ensures |r| == |s| + 1
    ensures multiset(r) == multiset(s) + multiset{x}
  {
    if s == [] || x <= s[0] then [x] + s
    else
      assert s == [s[0]] + s[1..];
      [s[0]] + Insert(x, s[1..])
  }

  /** Inserting keeps the sequence sorted, and puts either `x` or the old head first. */
  lemma {:induction false} InsertSorted(x: real, s: seq<real>)
    requires Sorted(s)
    ensures Sorted(Insert(x, s))
    ensures Insert(x, s)[0] == x || (s != [] && Insert(x, s)[0] == s[0])
  {
    var r := Insert(x, s);
    if s == [] || x <= s[0] {
      assert r == [x] + s;
      forall i, j | 0 <= i < j < |r| ensures r[i] <= r[j] {
        if i > 0 {
          assert r[i] == s[i - 1] && r[j] == s[j - 1];
        } else if s != [] {
          assert r[j] == s[j - 1];
          assert s[0] <= s[j - 1];
        }
      }
    } else {
      var t := Insert(x, s[1..]);
      InsertSorted(x, s[1..]);
      assert r == [s[0]] + t;
      assert s[0] <= t[0];
      forall i, j | 0 <= i < j < |r| ensures r[i] <= r[j] {
        if i > 0 {
          assert r[i] == t[i - 1] && r[j] == t[j - 1];
        } else {
          assert r[j] == t[j - 1];
          assert t[0] <= t[j - 1];
        }
      }
    }
  }

  /** The values in ascending order (insertion sort). */
  function Sort(s: seq<real>): (r: seq<real>)
    ensures |r| == |s|
    ensures multiset(r) == multiset(s)
    ensures Sorted(r)
  {
    if s == [] then []
    else
      assert s == [s[0]] + s[1..];
      InsertSorted(s[0], Sort(s[1..]));
      Insert(s[0], Sort(s[1..]))
  }

  /** Sorting an already sorted sequence returns it unchanged. */
  lemma {:induction false} SortSorted(s: seq<real>)
    requires Sorted(s)
    ensures Sort(s) == s
  {
    if s != [] {
      SortSorted(s[1..]);
    }
  }

  /** The first and last sorted values are the minimum and the maximum of the input. */
  lemma SortEnds(s: seq<real>)
    requires |s| > 0
    ensures Sort(s)[0] in s && Sort(s)[|s| - 1] in s
    ensures forall i :: 0 <= i < |s| ==> Sort(s)[0] <= s[i] <= Sort(s)[|s| - 1]
  {
    var r := Sort(s);
    assert r[0] in multiset(r) && r[|s| - 1] in multiset(r);
    forall i | 0 <= i < |s| ensures r[0] <= s[i] <= r[|s| - 1] {
      var x := s[i];
      assert x in multiset(s);
      assert x in multiset(r);
      var j :| 0 <= j < |r| && r[j] == x;
      if 0 < j {
        assert r[0] <= r[j];
      }
      if j < |r| - 1 {
        assert r[j] <= r[|r| - 1];
      }
    }
  }

  function Sum(s: seq<real>): real {
    if s == [] then 0.0 else s[0] + Sum(s[1..])
  }

  /** A sum of values between `lo` and `hi` lies between |s|·lo and |s|·hi. */
  lemma {:induction false} SumBounds(s: seq<real>, lo: real, hi: real)
    requires forall i :: 0 <= i < |s| ==> lo <= s[i] <= hi
    ensures |s| as real * lo <= Sum(s) <= |s| as real * hi
  {
    if s != [] {
      SumBounds(s[1..], lo, hi);
      assert |s| as real * lo == lo + (|s| - 1) as real * lo;
      assert |s| as real * hi == hi + (|s| - 1) as real * hi;
    }
  }

  /** The arithmetic mean, absent for no values. */
  function Mean(s: seq<real>): (r: Option<real>)
    ensures r.None? <==> s == []
    ensures r.Some? ==> r.value * |s| as real == Sum(s)
  {
    if s == [] then None else Some(Sum(s) / |s| as real)
  }

  /** A mean of values between `lo` and `hi` is between `lo` and `hi`. */
  lemma MeanWithin(s: seq<real>, lo: real, hi: real)
    requires |s| > 0
    requires forall i :: 0 <= i < |s| ==> lo <= s[i] <= hi
    ensures lo <= Mean(s).value <= hi
  {
    var n := |s| as real;
    SumBounds(s, lo, hi);
    DivLower(Sum(s), n, lo);
    DivUpper(Sum(s), n, hi);
  }

  /** The mean lies between the smallest and the largest value. */
  lemma MeanBetweenExtremes(s: seq<real>)
    requires |s| > 0
    ensures Sort(s)[0] <= Mean(s).value <= Sort(s)[|s| - 1]
  {
    SortEnds(s);
    MeanWithin(s, Sort(s)[0], Sort(s)[|s| - 1]);
  }

  /** The fractional rank of the p-th percentile among n values: p/100·(n−1). */
  function Rank(n: nat, p: real): (h: real)
    requires n > 0 && 0.0 <= p <= 100.0
    ensures 0.0 <= h <= (n - 1) as real
  {
    (n - 1) as real * p / 100.0
  }

  lemma RankMonotone(n: nat, p: real, q: real)
    requires n > 0 && 0.0 <= p <= q <= 100.0
    ensures Rank(n, p) <= Rank(n, q)
  {
    var m := (n - 1) as real;
    MulMonotone(m, p, q);
    var a, b := m * p, m * q;
    assert a / 100.0 <= b / 100.0;
    assert Rank(n, p) == a / 100.0 && Rank(n, q) == b / 100.0;
  }

  /** The rank just below (or at) the fractional rank. */
  function Below(n: nat, p: real): (lo: nat)
    requires n > 0 && 0.0 <= p <= 100.0
    ensures lo < n
    ensures lo as real <= Rank(n, p) < lo as real + 1.0
  {
    Rank(n, p).Floor
  }

  /** The rank just above the fractional rank, clipped to the last index. */
  function Above(n: nat, p: real): (hi: nat)
    requires n > 0 && 0.0 <= p <= 100.0
    ensures Below(n, p) <= hi < n
  {
    if Below(n, p) + 1 < n then Below(n, p) + 1 else n - 1
  }

  /** Linear interpolation from `a` towards `b` by the fraction `t`. */
  function Lerp(a: real, b: real, t: real): (r: real)
    ensures 0.0 <= t <= 1.0 && a <= b ==> a <= r <= b
    ensures a == b ==> r == a
  {
    ScaleWithin(t, b - a);
    a + t * (b - a)
  }

  /** Moving further towards the larger end never decreases the interpolated value. */
  lemma LerpMonotone(a: real, b: real, t1: real, t2: real)
    requires a <= b && t1 <= t2
    ensures Lerp(a, b, t1) <= Lerp(a, b, t2)
  {
    MulMonotone(b - a, t1, t2);
    assert (b - a) * t1 == t1 * (b - a) && (b - a) * t2 == t2 * (b - a);
  }

  /** numpy's default ("linear") percentile of already sorted values: interpolate between
      the values at the ranks just below and just above the fractional rank. */
  function Interpolate(v: seq<real>, p: real): (r: real)
    requires |v| > 0 && 0.0 <= p <= 100.0
    ensures Sorted(v) ==> v[Below(|v|, p)] <= r <= v[Above(|v|, p)]
    ensures Sorted(v) ==> v[0] <= r <= v[|v| - 1]
    ensures |v| == 1 ==> r == v[0]
  {
    var lo, hi := Below(|v|, p), Above(|v|, p);
    Lerp(v[lo], v[hi], Rank(|v|, p) - lo as real)
  }

  /** The p-th percentile of the values, as `np.percentile(values, p)` computes it. */
  function Percentile(values: seq<real>, p: real): (r: real)
    requires |values| > 0 && 0.0 <= p <= 100.0
    ensures Sort(values)[0] <= r <= Sort(values)[|values| - 1]
  {
    Interpolate(Sort(values), p)
  }

  /** At an exact integer rank the percentile is the value at that rank: no interpolation. */
  lemma InterpolateAtExactRank(v: seq<real>, p: real, k: nat)
    requires |v| > 0 && 0.0 <= p <= 100.0
    requires Rank(|v|, p) == k as real
    ensures k < |v| && Interpolate(v, p) == v[k]
  {
  }

  /** A higher percentile is never smaller. */
  lemma InterpolateMonotone(v: seq<real>, p: real, q: real)
    requires |v| > 0 && 0.0 <= p <= q <= 100.0
    requires Sorted(v)
    ensures Interpolate(v, p) <= Interpolate(v, q)
  {
    var n := |v|;
    RankMonotone(n, p, q);
    var lo1, lo2 := Below(n, p), Below(n, q);
    var hi1 := Above(n, p);
    if lo1 == lo2 {
      var t1, t2 := Rank(n, p) - lo1 as real, Rank(n, q) - lo1 as real;
      assert Interpolate(v, p) == Lerp(v[lo1], v[hi1], t1);
      assert Interpolate(v, q) == Lerp(v[lo1], v[hi1], t2);
      LerpMonotone(v[lo1], v[hi1], t1, t2);
    } else {
      assert hi1 <= lo2;
    }
  }

  /** The ten evenly spaced values 100, 200, …, 1000. */
  const TenValues: seq<real> := [100.0, 200.0, 300.0, 400.0, 500.0, 600.0, 700.0, 800.0, 900.0, 1000.0]

  /** Their mean is 550. */
  lemma TenValuesMean()
    ensures Mean(TenValues) == Some(550.0)
  {
    var v := TenValues;
    assert Sum(v[9..]) == 1000.0;
    assert Sum(v[8..]) == 1900.0;
    assert Sum(v[7..]) == 2700.0;
    assert Sum(v[6..]) == 3400.0;
    assert Sum(v[5..]) == 4000.0;
    assert Sum(v[4..]) == 4500.0;
    assert Sum(v[3..]) == 4900.0;
    assert Sum(v[2..]) == 5200.0;
    assert Sum(v[1..]) == 5400.0;
    assert Sum(v) == 5500.0;
  }

  lemma TenValuesSorted()
    ensures Sorted(TenValues)
  {
    var v := TenValues;
    assert forall i :: 0 <= i < 10 ==> v[i] == 100.0 * (i + 1) as real;
  }

  /** Their 10th percentile is 190 and their 90th percentile is 910. */
  lemma TenValuesPercentiles()
    ensures Percentile(TenValues, 10.0) == 190.0
    ensures Percentile(TenValues, 90.0) == 910.0
  {
    TenValuesSorted();
    PercentileOfSorted(TenValues, 10.0);
    PercentileOfSorted(TenValues, 90.0);
    TenthPercentile();
    NinetiethPercentile();
  }

  /** Sorting an already sorted input changes nothing, so its percentile interpolates it directly. */
  lemma PercentileOfSorted(v: seq<real>, p: real)
    requires |v| > 0 && 0.0 <= p <= 100.0
    requires Sorted(v)
    ensures Percentile(v, p) == Interpolate(v, p)
  {
    SortSorted(v);
  }

  lemma TenthPercentile()
    ensures Interpolate(TenValues, 10.0) == 190.0
  {
    TenthRank();
    var v := TenValues;
    assert v[0] == 100.0 && v[1] == 200.0;
  }

  lemma NinetiethPercentile()
    ensures Interpolate(TenValues, 90.0) == 910.0
  {
    NinetiethRank();
    var v := TenValues;
    assert v[8] == 900.0 && v[9] == 1000.0;
  }

  lemma TenthRank()
    ensures Rank(10, 10.0) == 0.9 && Below(10, 10.0) == 0 && Above(10, 10.0) == 1
  {
  }

  lemma NinetiethRank()
    ensures Rank(10, 90.0) == 8.1 && Below(10, 90.0) == 8 && Above(10, 90.0) == 9
  {
  }
}
