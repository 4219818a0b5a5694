/** Sequence vocabulary shared by the whole model: Python's list slicing,
    concatenation of a list of lists, list.count and integer sums. */
module Seqs {

  datatype Option<T> = None | Some(value: T)

  /** Python's clamping of one slice bound `i` against a list of length `n`. */
  function SliceBound(i: int, n: nat): (b: nat)
    ensures b <= n
    ensures 0 <= i <= n ==> b == i
  {
    if i < 0 then (if n + i < 0 then 0 else n + i)
    else if i > n then n
    else i
  }

  /** Python's `xs[a:b]`: negative bounds count from the end, bounds are clamped,
      and an empty range gives the empty list. */
  function PySlice<T>(xs: seq<T>, a: int, b: int): (r: seq<T>)
    ensures |r| <= |xs|
    ensures 0 <= a <= b <= |xs| ==> r == xs[a..b]
  {
    var lo := SliceBound(a, |xs|);
    var hi := SliceBound(b, |xs|);
    if lo < hi then xs[lo..hi] else []
  }

  /** Python's `ll[1:]`. */
  function Tail<T>(xs: seq<T>): (r: seq<T>)
    ensures |xs| > 0 ==> r == xs[1..]
    ensures |xs| == 0 ==> r == []
  {
    PySlice(xs, 1, |xs|)
  }

  /** `[v] * n` */
  function Repeat<T>(v: T, n: nat): (r: seq<T>)
    ensures |r| == n
    ensures forall i :: 0 <= i < n ==> r[i] == v
  {
    seq(n, _ => v)
  }

  /** Concatenation of a list of lists, folded from the last element. */
  function Concat<T>(ss: seq<seq<T>>): seq<T>
  {
    if |ss| == 0 then [] else Concat(ss[..|ss| - 1]) + ss[|ss| - 1]
  }

  /** Python's `sum` over a list of integers, folded from the last element. */
  function SumInt(s: seq<int>): int
  {
    if |s| == 0 then 0 else SumInt(s[..|s| - 1]) + s[|s| - 1]
  }

  /** The lengths of a list of lists. */
  function Lengths<T>(ss: seq<seq<T>>): (r: seq<int>)
    ensures |r| == |ss|
    ensures forall i :: 0 <= i < |ss| ==> r[i] == |ss[i]|
  {
    seq(|ss|, i requires 0 <= i < |ss| => |ss[i]|)
  }

  /** Python's `list.count(x)`. */
  function Count<T(==)>(s: seq<T>, x: T): nat
  {
    if |s| == 0 then 0 else Count(s[..|s| - 1], x) + (if s[|s| - 1] == x then 1 else 0)
  }

  predicate Distinct<T(==)>(s: seq<T>)
  {
    forall i, j :: 0 <= i < j < |s| ==> s[i] != s[j]
  }

  /** The last index below `n` holding `x`, or -1. */
  function LastIndexBefore<T(==)>(s: seq<T>, x: T, n: nat): (k: int)
    requires n <= |s|
    ensures -1 <= k < n
    ensures k >= 0 ==> s[k] == x
    ensures forall j :: k < j < n ==> s[j] != x
    ensures k < 0 <==> x !in s[..n]
  {
    if n == 0 then -1
    else if s[n - 1] == x then n - 1
    else
      assert s[..n] == s[..n - 1] + [s[n - 1]];
      LastIndexBefore(s, x, n - 1)
  }

  lemma {:induction false} SumIntAppend(a: seq<int>, b: seq<int>)
    ensures SumInt(a + b) == SumInt(a) + SumInt(b)
    decreases |b|
  {
    if |b| > 0 {
      assert (a + b)[..|a + b| - 1] == a + b[..|b| - 1];
      SumIntAppend(a, b[..|b| - 1]);
    } else {
      assert a + b == a;
    }
  }

  lemma SumIntTake(s: seq<int>, k: nat)
    requires k < |s|
    ensures SumInt(s[..k + 1]) == SumInt(s[..k]) + s[k]
  {
    assert s[..k + 1][..k] == s[..k];
  }

  lemma {:induction false} SumIntRepeat(v: int, n: nat)
    ensures SumInt(Repeat(v, n)) == v * n
  {
    if n > 0 {
      assert Repeat(v, n)[..n - 1] == Repeat(v, n - 1);
      SumIntRepeat(v, n - 1);
    }
  }

  lemma {:induction false} SumIntNonNegative(s: seq<int>)
    requires forall i :: 0 <= i < |s| ==> s[i] >= 0
    ensures SumInt(s) >= 0
  {
    if |s| > 0 {
      SumIntNonNegative(s[..|s| - 1]);
    }
  }

  /** The count of an element of the list is its multiplicity. */
  lemma {:induction false} CountIsMultiplicity<T>(s: seq<T>, x: T)
    ensures Count(s, x) == multiset(s)[x]
  {
    if |s| > 0 {
      assert s == s[..|s| - 1] + [s[|s| - 1]];
      CountIsMultiplicity(s[..|s| - 1], x);
    }
  }

  lemma {:induction false} ConcatAppend<T>(ss: seq<seq<T>>, tt: seq<seq<T>>)
    ensures Concat(ss + tt) == Concat(ss) + Concat(tt)
    decreases |tt|
  {
    if |tt| > 0 {
      assert (ss + tt)[..|ss + tt| - 1] == ss + tt[..|tt| - 1];
      ConcatAppend(ss, tt[..|tt| - 1]);
    } else {
      assert ss + tt == ss;
    }
  }

  lemma ConcatTake<T>(ss: seq<seq<T>>, a: nat)
    requires a < |ss|
    ensures Concat(ss[..a + 1]) == Concat(ss[..a]) + ss[a]
  {
    assert ss[..a + 1][..a] == ss[..a];
  }

  /** The length of a concatenation is the sum of the lengths. */
  lemma {:induction false} ConcatLength<T>(ss: seq<seq<T>>)
    ensures |Concat(ss)| == SumInt(Lengths(ss))
  {
    if |ss| > 0 {
      assert Lengths(ss)[..|ss| - 1] == Lengths(ss[..|ss| - 1]);
      ConcatLength(ss[..|ss| - 1]);
    }
  }

  /** Concatenating lists of length `k` each gives `k` elements per list. */
  lemma {:induction false} ConcatUniformLength<T>(ss: seq<seq<T>>, k: nat)
    requires forall a :: 0 <= a < |ss| ==> |ss[a]| == k
    ensures |Concat(ss)| == |ss| * k
  {
    if |ss| > 0 {
      ConcatUniformLength(ss[..|ss| - 1], k);
    }
  }

  /** Concatenating lists of length `k` each: element `j` of list `a`
      lands at position `a * k + j`. */
  lemma {:induction false} ConcatUniformAt<T>(ss: seq<seq<T>>, k: nat, a: nat, j: nat)
    requires forall b :: 0 <= b < |ss| ==> |ss[b]| == k
    requires a < |ss| && j < k
    ensures a * k + j < |Concat(ss)|
    ensures Concat(ss)[a * k + j] == ss[a][j]
  {
    var m := |ss| - 1;
    ConcatUniformLength(ss[..m], k);
    if a < m {
      ConcatUniformAt(ss[..m], k, a, j);
    }
  }
}
