/** Numeric vocabulary over OD readings: sums, the sort behind `sorted` and
    `median`, order statistics, the 3-point window mean and the harmonic growth level. */
module Stats {
  import opened Seqs

  /** Python's `sum` over a list of floats, folded from the last element. */
  function Sum(s: seq<real>): real
  {
    if |s| == 0 then 0.0 else Sum(s[..|s| - 1]) + s[|s| - 1]
  }

  lemma {:induction false} SumAppend(a: seq<real>, b: seq<real>)
    ensures Sum(a + b) == Sum(a) + Sum(b)
    decreases |b|
  {
    if |b| > 0 {
      assert (a + b)[..|a + b| - 1] == a + b[..|b| - 1];
      SumAppend(a, b[..|b| - 1]);
    } else {
      assert a + b == a;
    }
  }

  /** A sum of terms that all lie in [lo, hi] lies in [n * lo, n * hi]. */
  lemma {:induction false} SumBounds(s: seq<real>, lo: real, hi: real)
    requires forall i :: 0 <= i < |s| ==> lo <= s[i] <= hi
    ensures (|s| as real) * lo <= Sum(s) <= (|s| as real) * hi
  {
    if |s| > 0 {
      SumBounds(s[..|s| - 1], lo, hi);
    }
  }

  /** A sum of non-negative terms is zero exactly when every term is zero. */
  lemma {:induction false} SumNonNegativeZero(s: seq<real>)
    requires forall i :: 0 <= i < |s| ==> s[i] >= 0.0
    ensures Sum(s) >= 0.0
    ensures Sum(s) == 0.0 <==> forall i :: 0 <= i < |s| ==> s[i] == 0.0
  {
    if |s| > 0 {
      var m := |s| - 1;
      SumNonNegativeZero(s[..m]);
      if Sum(s) == 0.0 {
        forall i | 0 <= i < |s| ensures s[i] == 0.0 {
          if i < m { assert s[..m][i] == s[i]; }
        }
      }
    }
  }

  // ---------------------------------------------------------------------
  // Sorting (Python's `sorted`, numpy's `median`)

  predicate SortedAsc(s: seq<real>)
  {
    forall i, j :: 0 <= i < j < |s| ==> s[i] <= s[j]
  }

  function Insert(x: real, s: seq<real>): (r: seq<real>)
    ensures |r| == |s| + 1
  {
    if |s| == 0 then [x]
    else if x <= s[0] then [x] + s
    else [s[0]] + Insert(x, s[1..])
  }

  /** Ascending sort; `sorted(s, reverse = True)[k]` is `Sort(s)[|s| - 1 - k]`. */
  function Sort(s: seq<real>): (t: seq<real>)
    ensures |t| == |s|
  {
    if |s| == 0 then [] else Insert(s[0], Sort(s[1..]))
  }

  lemma {:induction false} InsertCorrect(x: real, s: seq<real>)
    requires SortedAsc(s)
    ensures SortedAsc(Insert(x, s))
    ensures multiset(Insert(x, s)) == multiset(s) + multiset{x}
  {
    if |s| > 0 && x > s[0] {
      var rest := s[1..];
      assert SortedAsc(rest) by {
        forall i, j | 0 <= i < j < |rest| ensures rest[i] <= rest[j] {
          assert rest[i] == s[i + 1] && rest[j] == s[j + 1];
        }
      }
      InsertCorrect(x, rest);
      assert s == [s[0]] + rest;
      var r := Insert(x, rest);
      assert Insert(x, s) == [s[0]] + r;
      forall k | 0 <= k < |rest| ensures s[0] <= rest[k] {
        assert rest[k] == s[k + 1];
      }
      InsertAbove(x, s[0], rest);
      PrependSorted(s[0], r);
    } else if |s| > 0 {
      assert Insert(x, s) == [x] + s;
      PrependSorted(x, s);
    }
  }

  /** Inserting a value into values that all lie at or above lo keeps them there. */
  lemma {:induction false} InsertAbove(x: real, lo: real, s: seq<real>)
    requires lo <= x
    requires forall k :: 0 <= k < |s| ==> lo <= s[k]
    ensures forall k :: 0 <= k < |Insert(x, s)| ==> lo <= Insert(x, s)[k]
  {
    if |s| > 0 && x > s[0] {
      InsertAbove(x, lo, s[1..]);
      assert Insert(x, s) == [s[0]] + Insert(x, s[1..]);
    }
  }

  lemma PrependSorted(x: real, r: seq<real>)
    requires SortedAsc(r)
    requires forall k :: 0 <= k < |r| ==> x <= r[k]
    ensures SortedAsc([x] + r)
  {
    var t := [x] + r;
    forall i, j | 0 <= i < j < |t| ensures t[i] <= t[j] {
      assert t[j] == r[j - 1];
      if i > 0 { assert t[i] == r[i - 1]; }
    }
  }

  lemma {:induction false} SortCorrect(s: seq<real>)
    ensures SortedAsc(Sort(s))
    ensures multiset(Sort(s)) == multiset(s)
  {
    if |s| > 0 {
      SortCorrect(s[1..]);
      InsertCorrect(s[0], Sort(s[1..]));
      assert s == [s[0]] + s[1..];
    }
  }

  /** numpy's `median`: the middle of the sorted values, or the mean of the two middle ones. */
  function Median(s: seq<real>): real
    requires |s| > 0
  {
    var t := Sort(s);
    var n := |t|;
    if n % 2 == 1 then t[n / 2] else (t[n / 2 - 1] + t[n / 2]) / 2.0
  }

  /** The median lies between any lower and any upper bound of the values;
      in particular the median of identical values is that value. */
  lemma MedianBounds(s: seq<real>, lo: real, hi: real)
    requires |s| > 0
    requires forall i :: 0 <= i < |s| ==> lo <= s[i] <= hi
    ensures lo <= Median(s) <= hi
  {
    var t := Sort(s);
    SortCorrect(s);
    forall k | 0 <= k < |t| ensures lo <= t[k] <= hi {
      assert t[k] in multiset(t);
      assert t[k] in s;
    }
  }

  // ---------------------------------------------------------------------
  // Order statistics

  /** How many values are strictly above `v`. */
  function CountAbove(s: seq<real>, v: real): nat
  {
    if |s| == 0 then 0 else (if s[0] > v then 1 else 0) + CountAbove(s[1..], v)
  }

  /** How many values are at least `v`. */
  function CountAtLeast(s: seq<real>, v: real): nat
  {
    if |s| == 0 then 0 else (if s[0] >= v then 1 else 0) + CountAtLeast(s[1..], v)
  }

  /** `v` is the second value of `s` sorted in descending order:
      it occurs in `s`, at least two values reach it, at most one exceeds it. */
  predicate IsSecondLargest(s: seq<real>, v: real)
  {
    v in s && CountAtLeast(s, v) >= 2 && CountAbove(s, v) <= 1
  }

  lemma {:induction false} InsertCounts(x: real, s: seq<real>, v: real)
    ensures CountAbove(Insert(x, s), v) == CountAbove(s, v) + (if x > v then 1 else 0)
    ensures CountAtLeast(Insert(x, s), v) == CountAtLeast(s, v) + (if x >= v then 1 else 0)
  {
    if |s| > 0 && x > s[0] {
      InsertCounts(x, s[1..], v);
      assert Insert(x, s)[1..] == Insert(x, s[1..]);
    } else if |s| > 0 {
      assert Insert(x, s)[1..] == s;
    }
  }

  lemma {:induction false} SortCounts(s: seq<real>, v: real)
    ensures CountAbove(Sort(s), v) == CountAbove(s, v)
    ensures CountAtLeast(Sort(s), v) == CountAtLeast(s, v)
  {
    if |s| > 0 {
      SortCounts(s[1..], v);
      InsertCounts(s[0], Sort(s[1..]), v);
    }
  }

  lemma {:induction false} AboveAtMostLast(t: seq<real>, v: real)
    requires forall i :: 0 <= i < |t| - 1 ==> t[i] <= v
    ensures CountAbove(t, v) <= 1
  {
    if |t| > 1 {
      AboveAtMostLast(t[1..], v);
    }
  }

  lemma {:induction false} AtLeastOne(t: seq<real>, v: real, j: nat)
    requires j < |t| && t[j] >= v
    ensures CountAtLeast(t, v) >= 1
  {
    if j > 0 {
      AtLeastOne(t[1..], v, j - 1);
    }
  }

  lemma {:induction false} AtLeastTwo(t: seq<real>, v: real, i: nat, j: nat)
    requires i < j < |t| && t[i] >= v && t[j] >= v
    ensures CountAtLeast(t, v) >= 2
  {
    if i > 0 {
      AtLeastTwo(t[1..], v, i - 1, j - 1);
    } else {
      AtLeastOne(t[1..], v, j - 1);
    }
  }

  /** `sorted(s, reverse = True)[0]`: the maximum. */
  function Largest(s: seq<real>): (v: real)
    requires |s| >= 1
    ensures v in s
    ensures forall i :: 0 <= i < |s| ==> s[i] <= v
  {
    SortCorrect(s);
    var t := Sort(s);
    assert t[|t| - 1] in multiset(t);
    assert forall i :: 0 <= i < |s| ==> s[i] in multiset(t);
    t[|t| - 1]
  }

  /** `sorted(s, reverse = True)[1]`: the second order statistic. */
  function SecondLargest(s: seq<real>): (v: real)
    requires |s| >= 2
    ensures IsSecondLargest(s, v)
  {
    SortCorrect(s);
    var t := Sort(s);
    var n := |t|;
    assert t[n - 2] in multiset(t);
    SortCounts(s, t[n - 2]);
    AboveAtMostLast(t, t[n - 2]);
    AtLeastTwo(t, t[n - 2], n - 2, n - 1);
    t[n - 2]
  }

  lemma {:induction false} AboveDominatesAtLeast(s: seq<real>, v: real, w: real)
    requires v < w
    ensures CountAbove(s, v) >= CountAtLeast(s, w)
  {
    if |s| > 0 {
      AboveDominatesAtLeast(s[1..], v, w);
    }
  }

  /** The three conditions of IsSecondLargest pin the value down. */
  lemma SecondLargestUnique(s: seq<real>, v: real, w: real)
    requires IsSecondLargest(s, v) && IsSecondLargest(s, w)
    ensures v == w
  {
    if v < w {
      AboveDominatesAtLeast(s, v, w);
    } else if w < v {
      AboveDominatesAtLeast(s, w, v);
    }
  }

  /** The first index holding `v`. */
  function IndexOf(s: seq<real>, v: real): (i: nat)
    requires v in s
    ensures i < |s| && s[i] == v
    ensures forall j :: 0 <= j < i ==> s[j] != v
  {
    if s[0] == v then 0 else 1 + IndexOf(s[1..], v)
  }

  /** Python's `min` over a non-empty list. */
  function Min(s: seq<real>): (v: real)
    requires |s| > 0
    ensures v in s
    ensures forall i :: 0 <= i < |s| ==> v <= s[i]
  {
    if |s| == 1 then s[0]
    else
      var m := Min(s[1..]);
      assert forall i :: 1 <= i < |s| ==> s[i] == s[1..][i - 1];
      if s[0] <= m then s[0] else m
  }

  // ---------------------------------------------------------------------
  // Windows and harmonic growth level

  /** numpy's `mean(r[idx:idx + 3])` for a full window. */
  function WindowMean(r: seq<real>, idx: nat): real
    requires idx + 3 <= |r|
  {
    (r[idx] + r[idx + 1] + r[idx + 2]) / 3.0
  }

  predicate NoZeroShift(ys: seq<real>, a: real)
  {
    forall i :: 0 <= i < |ys| ==> ys[i] + a != 0.0
  }

  /** The terms `1 / (y + a)` of the harmonic growth level. */
  function Reciprocals(ys: seq<real>, a: real): (r: seq<real>)
    requires NoZeroShift(ys, a)
    ensures |r| == |ys|
  {
    seq(|ys|, i requires 0 <= i < |ys| && ys[i] + a != 0.0 => 1.0 / (ys[i] + a))
  }

  /** The harmonic growth level is computable: no term and no sum divides by zero. */
  predicate HarmonicDefined(ys: seq<real>, a: real)
  {
    NoZeroShift(ys, a) && Sum(Reciprocals(ys, a)) != 0.0
  }

  /** `len(ys) / sum(1 / (y + a) for y in ys)`. */
  function HarmonicLevel(ys: seq<real>, a: real): real
    requires HarmonicDefined(ys, a)
  {
    (|ys| as real) / Sum(Reciprocals(ys, a))
  }

  /** When every shifted value lies in [lo, hi] with lo > 0, so does the harmonic level. */
  lemma HarmonicBounds(ys: seq<real>, a: real, lo: real, hi: real)
    requires |ys| > 0 && 0.0 < lo
    requires forall i :: 0 <= i < |ys| ==> lo <= ys[i] + a <= hi
    ensures HarmonicDefined(ys, a)
    ensures lo <= HarmonicLevel(ys, a) <= hi
  {
    assert lo <= hi by { assert lo <= ys[0] + a <= hi; }
    ReciprocalsInRange(ys, a, lo, hi);
    var r := Reciprocals(ys, a);
    SumBounds(r, 1.0 / hi, 1.0 / lo);
    DivideBounds(|ys| as real, Sum(r), lo, hi);
  }

  lemma ReciprocalsInRange(ys: seq<real>, a: real, lo: real, hi: real)
    requires 0.0 < lo <= hi
    requires forall i :: 0 <= i < |ys| ==> lo <= ys[i] + a <= hi
    ensures NoZeroShift(ys, a)
    ensures forall i :: 0 <= i < |ys| ==> 1.0 / hi <= Reciprocals(ys, a)[i] <= 1.0 / lo
  {
    forall i | 0 <= i < |ys| ensures 1.0 / hi <= 1.0 / (ys[i] + a) <= 1.0 / lo {
      ReciprocalAntitone(lo, ys[i] + a);
      ReciprocalAntitone(ys[i] + a, hi);
    }
  }

  lemma ReciprocalAntitone(x: real, y: real)
    requires 0.0 < x <= y
    ensures 1.0 / y <= 1.0 / x
  {
    assert 1.0 / y * y == 1.0;
    assert 1.0 / x * x == 1.0;
  }

  lemma DivideBounds(n: real, s: real, lo: real, hi: real)
    requires 0.0 < lo <= hi && 0.0 < n
    requires n * (1.0 / hi) <= s <= n * (1.0 / lo)
    ensures s != 0.0
    ensures lo <= n / s <= hi
  {
    assert 0.0 < 1.0 / hi;
    assert 0.0 < n * (1.0 / hi);
    assert s * lo <= n by {
      assert n * (1.0 / lo) * lo == n;
    }
    assert n <= s * hi by {
      assert n * (1.0 / hi) * hi == n;
    }
  }

  /** If every shifted value is the same c > 0, the harmonic level is c. */
  lemma HarmonicOfConstant(ys: seq<real>, a: real, c: real)
    requires |ys| > 0 && c > 0.0
    requires forall i :: 0 <= i < |ys| ==> ys[i] + a == c
    ensures HarmonicDefined(ys, a)
    ensures HarmonicLevel(ys, a) == c
  {
    HarmonicBounds(ys, a, c, c);
  }

  /** A piece of at most `width` elements, each in [lo, hi], starting at a non-negative offset. */
  lemma SliceWithin(xs: seq<real>, start: int, width: int, lo: real, hi: real) returns (r: seq<real>)
    requires 0 <= start && 0 <= width
    requires forall i :: 0 <= i < |xs| ==> lo <= xs[i] <= hi
    ensures r == PySlice(xs, start, start + width)
    ensures |r| <= width
    ensures forall i :: 0 <= i < |r| ==> lo <= r[i] <= hi
  {
    var a := SliceBound(start, |xs|);
    r := PySlice(xs, start, start + width);
    if a < SliceBound(start + width, |xs|) {
      assert r == xs[a..SliceBound(start + width, |xs|)];
      assert forall i :: 0 <= i < |r| ==> r[i] == xs[a + i];
    }
  }
}
