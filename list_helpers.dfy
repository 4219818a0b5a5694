/** The list and index helpers every later stage of the analysis script is built
    from (scripts/PManalysis.py, lines 123-165). Each of them appends to a list
    that the caller passes in; here the caller's list goes in and the extended
    list comes out, and each method states the whole extended list. */
module ListHelpers {
  import opened Seqs

  // ---------------------------------------------------------------------
  // indexes_from_iteration_block

  /** Running offsets of consecutive blocks of the given sizes, starting at `start`. */
  function PrefixSums(start: int, block: seq<int>): (r: seq<int>)
    ensures |r| == |block| + 1
  {
    seq(|block| + 1, k requires 0 <= k <= |block| => start + SumInt(block[..k]))
  }

  /** Appends `block[x] + indexes[x]` for each x; the list being read is the one
      being extended, so from `[start]` this yields the running sums. */
  method IndexesFromIterationBlock(block: seq<int>, indexes: seq<int>) returns (extended: seq<int>)
    requires |block| == 0 || |indexes| > 0
    ensures |extended| == |indexes| + |block|
    ensures extended[..|indexes|] == indexes
    ensures forall x {:trigger block[x]} :: 0 <= x < |block| ==> extended[|indexes| + x] == block[x] + extended[x]
    ensures |indexes| == 1 ==> extended == PrefixSums(indexes[0], block)
  {
    extended := indexes;
    var x := 0;
    while x < |block|
      invariant 0 <= x <= |block|
      invariant Recurrence(extended, indexes, block, x)
      invariant |indexes| == 1 ==> extended == PrefixSums(indexes[0], block[..x])
    {
      if |indexes| == 1 {
        PrefixSumsSnoc(indexes[0], block, x);
      }
      RecurrenceStep(extended, indexes, block, x);
      extended := extended + [block[x] + extended[x]];
      x := x + 1;
    }
    assert block[..|block|] == block;
  }

  /** `extended` is `indexes` followed by x entries, each the next block size
      plus the entry x places before it. */
  ghost predicate Recurrence(extended: seq<int>, indexes: seq<int>, block: seq<int>, x: nat)
    requires x <= |block|
  {
    |extended| == |indexes| + x
    && extended[..|indexes|] == indexes
    && forall y {:trigger block[y]} :: 0 <= y < x ==> extended[|indexes| + y] == block[y] + extended[y]
  }

  lemma RecurrenceStep(extended: seq<int>, indexes: seq<int>, block: seq<int>, x: nat)
    requires x < |block| && Recurrence(extended, indexes, block, x)
    requires |indexes| > 0
    ensures x < |extended| && Recurrence(extended + [block[x] + extended[x]], indexes, block, x + 1)
  {
    var next := extended + [block[x] + extended[x]];
    assert next[..|indexes|] == extended[..|indexes|];
    forall y | 0 <= y < x + 1 ensures next[|indexes| + y] == block[y] + next[y] {
      if y < x {
        assert next[|indexes| + y] == extended[|indexes| + y];
      }
    }
  }

  /** One more block adds one more offset, the last offset plus its size. */
  lemma PrefixSumsSnoc(start: int, block: seq<int>, x: nat)
    requires x < |block|
    ensures PrefixSums(start, block[..x + 1]) == PrefixSums(start, block[..x]) + [block[x] + PrefixSums(start, block[..x])[x]]
  {
    var longer := PrefixSums(start, block[..x + 1]);
    var shorter := PrefixSums(start, block[..x]);
    forall k | 0 <= k <= x ensures longer[k] == shorter[k] {
      assert block[..x + 1][..k] == block[..x][..k];
    }
    assert block[..x + 1][..x + 1] == block[..x] + [block[x]];
    assert block[..x][..x] == block[..x];
    SumIntAppend(block[..x], [block[x]]);
  }

  /** Offsets from 0 of blocks with non-negative sizes never decrease and end at the total. */
  lemma PrefixSumsMonotone(block: seq<int>)
    requires forall i :: 0 <= i < |block| ==> block[i] >= 0
    ensures PrefixSums(0, block)[0] == 0
    ensures PrefixSums(0, block)[|block|] == SumInt(block)
    ensures forall i, j :: 0 <= i <= j <= |block| ==> PrefixSums(0, block)[i] <= PrefixSums(0, block)[j]
  {
    assert block[..|block|] == block;
    forall i, j | 0 <= i <= j <= |block|
      ensures PrefixSums(0, block)[i] <= PrefixSums(0, block)[j]
    {
      PrefixSumsOrdered(block, i, j);
    }
  }

  lemma PrefixSumsOrdered(block: seq<int>, i: nat, j: nat)
    requires forall i :: 0 <= i < |block| ==> block[i] >= 0
    requires i <= j <= |block|
    ensures PrefixSums(0, block)[i] <= PrefixSums(0, block)[j]
  {
    var p := PrefixSums(0, block);
    assert p[i] == SumInt(block[..i]) && p[j] == SumInt(block[..j]);
    assert block[..j] == block[..i] + block[i..j];
    SumIntAppend(block[..i], block[i..j]);
    forall k | 0 <= k < j - i ensures block[i..j][k] >= 0 {
      assert block[i..j][k] == block[i + k];
    }
    SumIntNonNegative(block[i..j]);
  }

  // ---------------------------------------------------------------------
  // sublist_by_iteration_set

  /** The slices `xs[steps[i - 1]:steps[i]]` for consecutive offsets. */
  function Slices<T>(xs: seq<T>, steps: seq<int>): (r: seq<seq<T>>)
    ensures |r| == if |steps| == 0 then 0 else |steps| - 1
  {
    if |steps| == 0 then []
    else seq(|steps| - 1, i requires 0 <= i < |steps| - 1 => PySlice(xs, steps[i], steps[i + 1]))
  }

  method SublistByIterationSet<T>(someList: seq<T>, steps: seq<int>, groupment: seq<seq<T>>)
    returns (extended: seq<seq<T>>)
    ensures extended == groupment + Slices(someList, steps)
  {
    extended := groupment;
    var i := 1;
    while i < |steps|
      invariant 1 <= i && (i <= |steps| || i == 1)
      invariant i <= |steps| ==> extended == groupment + Slices(someList, steps[..i])
      invariant i > |steps| ==> extended == groupment
    {
      extended := extended + [PySlice(someList, steps[i - 1], steps[i])];
      assert Slices(someList, steps[..i + 1]) == Slices(someList, steps[..i]) + [PySlice(someList, steps[i - 1], steps[i])];
      i := i + 1;
    }
    if |steps| > 0 {
      assert steps[..|steps|] == steps;
    } else {
      assert groupment + Slices(someList, steps) == groupment;
    }
  }

  /** Dropping the last offset drops the last slice. */
  lemma SlicesDropLast<T>(xs: seq<T>, steps: seq<int>)
    requires |steps| >= 2 && steps[|steps| - 1] == |xs|
    requires forall i, j :: 0 <= i <= j < |steps| ==> 0 <= steps[i] <= steps[j]
    ensures Slices(xs, steps)
      == Slices(xs[..steps[|steps| - 2]], steps[..|steps| - 1]) + [xs[steps[|steps| - 2]..]]
  {
    var n := |steps|;
    var cut := steps[n - 2];
    var whole := Slices(xs, steps);
    var front := Slices(xs[..cut], steps[..n - 1]);
    forall i | 0 <= i < n - 2
      ensures whole[i] == front[i]
    {
      assert 0 <= steps[i] <= steps[i + 1] <= cut;
      assert steps[..n - 1][i] == steps[i] && steps[..n - 1][i + 1] == steps[i + 1];
      SliceInPrefix(xs, cut, steps[i], steps[i + 1]);
    }
    assert whole[n - 2] == xs[cut..];
  }

  lemma SliceInPrefix<T>(xs: seq<T>, cut: int, a: int, b: int)
    requires 0 <= a <= b <= cut <= |xs|
    ensures PySlice(xs[..cut], a, b) == PySlice(xs, a, b)
  {
    assert xs[..cut][a..b] == xs[a..b];
  }

  /** Slicing at non-decreasing offsets that run from 0 to the end of the list,
      then concatenating the slices, gives the list back. */
  lemma {:induction false} SlicesConcat<T>(xs: seq<T>, steps: seq<int>)
    requires |steps| >= 1 && steps[0] == 0 && steps[|steps| - 1] == |xs|
    requires forall i, j :: 0 <= i <= j < |steps| ==> steps[i] <= steps[j]
    ensures Concat(Slices(xs, steps)) == xs
    decreases |steps|
  {
    var n := |steps|;
    if n > 1 {
      var cut := steps[n - 2];
      assert 0 <= cut <= |xs|;
      assert xs == xs[..cut] + xs[cut..];
      assert Concat([xs[cut..]]) == xs[cut..] by {
        assert [xs[cut..]][..0] == [];
      }
      SlicesConcat(xs[..cut], steps[..n - 1]);
      SlicesDropLast(xs, steps);
      ConcatAppend(Slices(xs[..cut], steps[..n - 1]), [xs[cut..]]);
    }
  }

  /** List k of a concatenation starts where lists 0 .. k - 1 end. */
  lemma ConcatAt<T>(rows: seq<seq<T>>, k: nat)
    requires k < |rows|
    ensures Concat(rows) == Concat(rows[..k]) + rows[k] + Concat(rows[k + 1..])
    ensures |Concat(rows[..k])| == SumInt(Lengths(rows)[..k])
  {
    assert rows == rows[..k] + [rows[k]] + rows[k + 1..];
    ConcatAppend(rows[..k] + [rows[k]], rows[k + 1..]);
    ConcatAppend(rows[..k], [rows[k]]);
    assert Concat([rows[k]]) == rows[k] by {
      assert [rows[k]][..0] == [];
    }
    assert Lengths(rows)[..k] == Lengths(rows[..k]);
    ConcatLength(rows[..k]);
  }

  lemma SliceOfConcatAt<T>(rows: seq<seq<T>>, k: nat)
    requires k < |rows|
    ensures PySlice(Concat(rows), PrefixSums(0, Lengths(rows))[k], PrefixSums(0, Lengths(rows))[k + 1]) == rows[k]
  {
    var lengths := Lengths(rows);
    ConcatAt(rows, k);
    var lo := SumInt(lengths[..k]);
    SumIntTake(lengths, k);
    assert PrefixSums(0, lengths)[k] == lo;
    assert PrefixSums(0, lengths)[k + 1] == lo + |rows[k]|;
    var flat := Concat(rows);
    assert |flat| >= lo + |rows[k]|;
    assert flat[lo..lo + |rows[k]|] == rows[k];
  }

  /** Concatenating lists and then slicing at the running sums of their lengths
      gives the lists back. */
  lemma SlicesOfConcat<T>(rows: seq<seq<T>>)
    ensures Slices(Concat(rows), PrefixSums(0, Lengths(rows))) == rows
  {
    forall k | 0 <= k < |rows|
      ensures Slices(Concat(rows), PrefixSums(0, Lengths(rows)))[k] == rows[k]
    {
      SliceOfConcatAt(rows, k);
    }
  }

  /** Slicing a list at the running sums of sizes that add up to its length
      cuts it into pieces of exactly those sizes that concatenate back to it. */
  lemma SublistRoundTrip<T>(xs: seq<T>, sizes: seq<int>)
    requires forall i :: 0 <= i < |sizes| ==> sizes[i] >= 0
    requires SumInt(sizes) == |xs|
    ensures |Slices(xs, PrefixSums(0, sizes))| == |sizes|
    ensures Concat(Slices(xs, PrefixSums(0, sizes))) == xs
    ensures forall i :: 0 <= i < |sizes| ==> |Slices(xs, PrefixSums(0, sizes))[i]| == sizes[i]
  {
    var steps := PrefixSums(0, sizes);
    PrefixSumsMonotone(sizes);
    SlicesConcat(xs, steps);
    forall i | 0 <= i < |sizes| ensures |Slices(xs, steps)[i]| == sizes[i] {
      PieceSize(xs, sizes, i);
    }
  }

  lemma PieceSize<T>(xs: seq<T>, sizes: seq<int>, i: nat)
    requires i < |sizes|
    requires forall i :: 0 <= i < |sizes| ==> sizes[i] >= 0
    requires SumInt(sizes) == |xs|
    ensures |Slices(xs, PrefixSums(0, sizes))[i]| == sizes[i]
  {
    var steps := PrefixSums(0, sizes);
    PrefixSumsOrdered(sizes, 0, i);
    PrefixSumsOrdered(sizes, i + 1, |sizes|);
    assert sizes[..|sizes|] == sizes;
    SumIntTake(sizes, i);
    assert steps[i + 1] == steps[i] + sizes[i];
    assert 0 <= steps[i] <= steps[i + 1] <= |xs|;
    assert Slices(xs, steps)[i] == xs[steps[i]..steps[i + 1]];
  }

  /** Cutting points spaced v apart: the k-th is v * k. */
  lemma PrefixSumsOfRepeat(v: int, n: nat, k: nat)
    requires k <= n
    ensures PrefixSums(0, Repeat(v, n))[k] == v * k
  {
    SumIntRepeat(v, k);
    assert Repeat(v, n)[..k] == Repeat(v, k);
  }

  /** The idiom `sublist_by_iteration_set(xs, indexes_from_iteration_block(sizes, [0]), groupment)`:
      consecutive pieces of the given sizes appended to `groupment`. */
  method SliceBySizes<T>(xs: seq<T>, sizes: seq<int>, groupment: seq<seq<T>>) returns (extended: seq<seq<T>>)
    ensures extended == groupment + Slices(xs, PrefixSums(0, sizes))
  {
    var steps := IndexesFromIterationBlock(sizes, [0]);
    extended := SublistByIterationSet(xs, steps, groupment);
  }

  // ---------------------------------------------------------------------
  // frequency_of_elements

  /** Appends, for each element of `list1`, how many times it occurs in `list2`. */
  method FrequencyOfElements<T(==)>(list1: seq<T>, list2: seq<T>, list3: seq<int>)
    returns (extended: seq<int>)
    ensures |extended| == |list3| + |list1|
    ensures extended[..|list3|] == list3
    ensures forall i :: 0 <= i < |list1| ==> extended[|list3| + i] == multiset(list2)[list1[i]]
  {
    extended := list3;
    for i := 0 to |list1|
      invariant |extended| == |list3| + i
      invariant extended[..|list3|] == list3
      invariant forall k :: 0 <= k < i ==> extended[|list3| + k] == multiset(list2)[list1[k]]
    {
      var e := Count(list2, list1[i]);
      CountIsMultiplicity(list2, list1[i]);
      extended := extended + [e];
    }
  }

  // ---------------------------------------------------------------------
  // unique_list

  /** `uniq` extended, element by element of `xs`, with what it does not yet hold. */
  function Unique<T(==)>(uniq: seq<T>, xs: seq<T>): seq<T>
  {
    if |xs| == 0 then uniq
    else
      var u := Unique(uniq, xs[..|xs| - 1]);
      if xs[|xs| - 1] in u then u else u + [xs[|xs| - 1]]
  }

  method UniqueList<T(==)>(someList: seq<T>, uniqList: seq<T>) returns (extended: seq<T>)
    ensures extended == Unique(uniqList, someList)
    ensures Distinct(uniqList) ==> Distinct(extended)
    ensures forall e :: e in extended <==> e in uniqList || e in someList
  {
    extended := uniqList;
    for i := 0 to |someList|
      invariant extended == Unique(uniqList, someList[..i])
    {
      assert someList[..i + 1][..i] == someList[..i];
      if someList[i] !in extended {
        extended := extended + [someList[i]];
      }
    }
    assert someList[..|someList|] == someList;
    UniqueElements(uniqList, someList);
    if Distinct(uniqList) {
      UniqueDistinct(uniqList, someList);
    }
  }

  /** The elements `xs[i]` that are in neither `uniq` nor `xs[..i]`, in order:
      the first appearances of the elements that are new. */
  function NewFirsts<T(==)>(uniq: seq<T>, xs: seq<T>): seq<T>
  {
    if |xs| == 0 then []
    else
      var last := xs[|xs| - 1];
      var init := xs[..|xs| - 1];
      NewFirsts(uniq, init) + (if last in uniq || last in init then [] else [last])
  }

  lemma {:induction false} UniqueElements<T>(uniq: seq<T>, xs: seq<T>)
    ensures |Unique(uniq, xs)| >= |uniq|
    ensures Unique(uniq, xs)[..|uniq|] == uniq
    ensures forall e :: e in Unique(uniq, xs) <==> e in uniq || e in xs
  {
    if |xs| > 0 {
      UniqueElements(uniq, xs[..|xs| - 1]);
      assert xs == xs[..|xs| - 1] + [xs[|xs| - 1]];
    }
  }

  lemma {:induction false} UniqueDistinct<T>(uniq: seq<T>, xs: seq<T>)
    requires Distinct(uniq)
    ensures Distinct(Unique(uniq, xs))
  {
    if |xs| > 0 {
      UniqueDistinct(uniq, xs[..|xs| - 1]);
    }
  }

  /** unique_list keeps exactly the first appearances of new elements, in order. */
  lemma {:induction false} UniqueFirstAppearance<T>(uniq: seq<T>, xs: seq<T>)
    ensures Unique(uniq, xs) == uniq + NewFirsts(uniq, xs)
  {
    if |xs| > 0 {
      var init := xs[..|xs| - 1];
      UniqueFirstAppearance(uniq, init);
      UniqueElements(uniq, init);
    }
  }

  lemma {:induction false} UniqueOfDistinct<T>(uniq: seq<T>, ys: seq<T>)
    requires Distinct(uniq + ys)
    ensures Unique(uniq, ys) == uniq + ys
  {
    if |ys| > 0 {
      var init := ys[..|ys| - 1];
      assert uniq + ys == (uniq + init) + [ys[|ys| - 1]];
      assert Distinct(uniq + init) by {
        forall i, j | 0 <= i < j < |uniq + init| ensures (uniq + init)[i] != (uniq + init)[j] {
          assert (uniq + init)[i] == (uniq + ys)[i];
          assert (uniq + init)[j] == (uniq + ys)[j];
        }
      }
      UniqueOfDistinct(uniq, init);
      var last := ys[|ys| - 1];
      assert last !in uniq + init by {
        forall k | 0 <= k < |uniq + init| ensures (uniq + init)[k] != last {
          assert (uniq + init)[k] == (uniq + ys)[k];
          assert last == (uniq + ys)[|uniq + ys| - 1];
        }
      }
    } else {
      assert uniq + ys == uniq;
    }
  }

  /** Running unique_list on its own output from an empty list changes nothing. */
  lemma UniqueIdempotent<T>(xs: seq<T>)
    ensures Unique([], Unique([], xs)) == Unique([], xs)
  {
    var u := Unique([], xs);
    UniqueDistinct([], xs);
    assert [] + u == u;
    UniqueOfDistinct([], u);
  }

  // ---------------------------------------------------------------------
  // reorder_multiples

  /** `xs[a], xs[a + m], xs[a + 2m], ...`, that is `xs[a::m]`. */
  function Stride<T>(xs: seq<T>, a: nat, m: nat): seq<T>
    requires m > 0
    decreases |xs| - a
  {
    if a >= |xs| then [] else [xs[a]] + Stride(xs, a + m, m)
  }

  function Strides<T>(xs: seq<T>, m: nat): (r: seq<seq<T>>)
    requires m > 0
    ensures |r| == m
  {
    seq(m, a requires 0 <= a < m => Stride(xs, a, m))
  }

  /** The strides for a = 0 .. m - 1, one after the other. */
  function Reordered<T>(xs: seq<T>, m: int): seq<T>
  {
    if m <= 0 then [] else Concat(Strides(xs, m))
  }

  method ReorderMultiples<T>(listToReorder: seq<T>, multiple: int, reorderedList: seq<T>)
    returns (extended: seq<T>)
    ensures extended == reorderedList + Reordered(listToReorder, multiple)
  {
    extended := reorderedList;
    var a := -1;
    while a < multiple - 1
      invariant -1 <= a && (multiple > 0 ==> a <= multiple - 1)
      invariant multiple <= 0 ==> a == -1 && extended == reorderedList
      invariant multiple > 0 ==> extended == reorderedList + Concat(Strides(listToReorder, multiple)[..a + 1])
    {
      a := a + 1;
      ghost var base := extended;
      var i: nat := a;
      while i < |listToReorder|
        invariant extended + Stride(listToReorder, i, multiple) == base + Stride(listToReorder, a, multiple)
        decreases |listToReorder| - i
      {
        extended := extended + [listToReorder[i]];
        i := i + multiple;
      }
      assert extended == base + Stride(listToReorder, a, multiple) by {
        assert Stride(listToReorder, i, multiple) == [];
        assert extended + [] == extended;
      }
      ConcatTake(Strides(listToReorder, multiple), a);
    }
    if multiple > 0 {
      assert Strides(listToReorder, multiple)[..multiple] == Strides(listToReorder, multiple);
    }
  }

  lemma {:induction false} StrideLength<T>(xs: seq<T>, a: nat, m: nat, k: nat)
    requires m > 0
    requires a + k * m >= |xs|
    requires k > 0 ==> a + (k - 1) * m < |xs|
    ensures |Stride(xs, a, m)| == k
    decreases k
  {
    if k > 0 {
      assert a + (k - 1) * m >= a;
      assert (a + m) + (k - 1) * m == a + k * m;
      if k > 1 {
        assert (a + m) + (k - 2) * m == a + (k - 1) * m;
      }
      StrideLength(xs, a + m, m, k - 1);
    }
  }

  lemma {:induction false} StrideAt<T>(xs: seq<T>, a: nat, m: nat, j: nat)
    requires m > 0
    requires a + j * m < |xs|
    ensures j < |Stride(xs, a, m)|
    ensures Stride(xs, a, m)[j] == xs[a + j * m]
    decreases j
  {
    if j > 0 {
      assert (a + m) + (j - 1) * m == a + j * m;
      StrideAt(xs, a + m, m, j - 1);
    }
  }

  /** On a list of m * k items, reorder_multiples is a transposition: item
      `j * m + a` moves to position `a * k + j`. */
  lemma ReorderedTransposes<T>(xs: seq<T>, m: nat, k: nat, a: nat, j: nat)
    requires m > 0 && |xs| == m * k
    requires a < m && j < k
    ensures |Reordered(xs, m)| == |xs|
    ensures a * k + j < |xs| && j * m + a < |xs|
    ensures Reordered(xs, m)[a * k + j] == xs[j * m + a]
  {
    var strides := Strides(xs, m);
    StridesUniform(xs, m, k);
    ConcatUniformAt(strides, k, a, j);
    CellBounds(m, k, a, j);
    StrideAt(xs, a, m, j);
    assert Reordered(xs, m) == Concat(strides);
  }

  /** On m * k items every one of the m strides holds k items. */
  lemma StridesUniform<T>(xs: seq<T>, m: nat, k: nat)
    requires m > 0 && |xs| == m * k
    ensures forall b :: 0 <= b < m ==> |Strides(xs, m)[b]| == k
    ensures |Reordered(xs, m)| == |xs|
  {
    var strides := Strides(xs, m);
    forall b | 0 <= b < m ensures |strides[b]| == k {
      GridBounds(m, k, b);
      StrideLength(xs, b, m, k);
    }
    ConcatUniformLength(strides, k);
    assert |strides| * k == |xs|;
  }

  /** Column b of an m-wide grid of k rows has cells in every row. */
  lemma GridBounds(m: nat, k: nat, b: nat)
    requires b < m
    ensures b + k * m >= m * k
    ensures k > 0 ==> b + (k - 1) * m < m * k
  {
    if k > 0 {
      assert (k - 1) * m + m == m * k;
    }
  }

  lemma CellBounds(m: nat, k: nat, a: nat, j: nat)
    requires a < m && j < k
    ensures a + j * m == j * m + a < m * k
    ensures a * k + j < m * k
  {
    MulMonotone(j + 1, k, m);
    assert (j + 1) * m == j * m + m;
    MulMonotone(a + 1, m, k);
    assert (a + 1) * k == a * k + k;
  }

  lemma {:induction false} MulMonotone(x: nat, y: nat, m: nat)
    requires x <= y
    ensures x * m <= y * m
    decreases y - x
  {
    if x < y {
      MulMonotone(x, y - 1, m);
      assert (y - 1) * m + m == y * m;
    }
  }

  // ---------------------------------------------------------------------
  // pairwise_groupment

  /** The pairs `(xs[a], xs[i])` for a < i, in order of i. */
  function PairRow<T>(xs: seq<T>, a: nat): (r: seq<(T, T)>)
    requires a < |xs|
    ensures |r| == |xs| - 1 - a
    ensures forall j :: 0 <= j < |r| ==> r[j] == (xs[a], xs[a + 1 + j])
  {
    seq(|xs| - 1 - a, j requires 0 <= j < |xs| - 1 - a => (xs[a], xs[a + 1 + j]))
  }

  function PairRows<T>(xs: seq<T>): (r: seq<seq<(T, T)>>)
    ensures |r| == |xs|
  {
    seq(|xs|, a requires 0 <= a < |xs| => PairRow(xs, a))
  }

  /** Every pair `(xs[a], xs[i])` with a < i, in lexicographic order of (a, i). */
  function Pairs<T>(xs: seq<T>): seq<(T, T)>
  {
    Concat(PairRows(xs))
  }

  method PairwiseGroupment<T>(listOfLists: seq<T>, pairwise: seq<(T, T)>) returns (extended: seq<(T, T)>)
    ensures extended == pairwise + Pairs(listOfLists)
  {
    var n := |listOfLists|;
    ghost var rows := PairRows(listOfLists);
    extended := pairwise;
    var a := -1;
    while a < n
      invariant -1 <= a <= n
      invariant a < n ==> extended == pairwise + Concat(rows[..a + 1])
      invariant a == n ==> extended == pairwise + Concat(rows)
    {
      a := a + 1;
      ghost var base := extended;
      var i := a + 1;
      while i < n
        invariant a + 1 <= i
        invariant a < n ==> i <= n && extended == base + rows[a][..i - a - 1]
        invariant a == n ==> extended == base
      {
        extended := extended + [(listOfLists[a], listOfLists[i])];
        assert rows[a][..i - a] == rows[a][..i - a - 1] + [rows[a][i - a - 1]];
        i := i + 1;
      }
      if a < n {
        assert rows[a][..n - a - 1] == rows[a];
        ConcatTake(rows, a);
        if a == n - 1 {
          assert rows[..a + 1] == rows;
        }
      } else if n > 0 {
        assert rows[..n] == rows;
      }
    }
  }

  /** `[k, k - 1, ..., 1]`: the row lengths of a lower-triangular matrix over k + 1 items. */
  function Descending(k: int): (r: seq<int>)
    ensures |r| == if k < 0 then 0 else k
  {
    if k <= 0 then [] else seq(k, i requires 0 <= i < k => k - i)
  }

  lemma {:induction false} SumDescendingPrefix(n: nat, m: nat)
    requires m <= n
    ensures 2 * SumInt(seq(m, a requires 0 <= a < m => n - 1 - a)) == m * (2 * n - 1 - m)
  {
    if m > 0 {
      var s := seq(m, a requires 0 <= a < m => n - 1 - a);
      assert s[..m - 1] == seq(m - 1, a requires 0 <= a < m - 1 => n - 1 - a);
      SumDescendingPrefix(n, m - 1);
      assert (m - 1) * (2 * n - m) + 2 * (n - m) == m * (2 * n - 1 - m);
    }
  }

  /** Row a of the pairs holds n - 1 - a pairs, n (n - 1) / 2 pairs in all. */
  lemma PairsCount<T>(xs: seq<T>)
    ensures 2 * |Pairs(xs)| == |xs| * (|xs| - 1)
    ensures Lengths(PairRows(xs)) == seq(|xs|, a requires 0 <= a < |xs| => |xs| - 1 - a)
  {
    var n := |xs|;
    var lengths := Lengths(PairRows(xs));
    var descending := seq(n, a requires 0 <= a < n => n - 1 - a);
    assert lengths == descending by {
      forall a | 0 <= a < n ensures lengths[a] == descending[a] {
        assert |PairRows(xs)[a]| == n - 1 - a;
      }
    }
    ConcatLength(PairRows(xs));
    SumDescendingPrefix(n, n);
    assert n * (2 * n - 1 - n) == n * (n - 1);
  }

  /** The pair (xs[a], xs[i]) with a < i sits in row a at column i - a - 1 when
      the pairs are cut at the running sums of [n - 1, n - 2, ..., 1]. */
  lemma PairsByRow<T>(xs: seq<T>)
    requires |xs| >= 1
    ensures Slices(Pairs(xs), PrefixSums(0, Descending(|xs| - 1))) == PairRows(xs)[..|xs| - 1]
  {
    var n := |xs|;
    var rows := PairRows(xs);
    assert rows == rows[..n - 1] + [rows[n - 1]];
    ConcatAppend(rows[..n - 1], [rows[n - 1]]);
    assert Concat([rows[n - 1]]) == [] by {
      assert [rows[n - 1]][..0] == [];
    }
    assert Pairs(xs) == Concat(rows[..n - 1]);
    assert Lengths(rows[..n - 1]) == Descending(n - 1);
    SlicesOfConcat(rows[..n - 1]);
  }
}
