/** Clustering.similarity_matrix of scripts/PManalysis.py (lines 586-665): a
    modified Dice index between the class vectors of every two clones, laid
    out as a lower-triangular matrix. */
module Clustering {
  import opened Seqs
  import opened Stats
  import opened ListHelpers
  import opened Scoring

  /** The score of one growth condition for two class labels. Pairs involving
      'Class E' score nothing, except 'Class D' against 'Class E', which scores 1. */
  function Dice(x: string, y: string): Option<real>
  {
    if x == "Class A" then
      if y == "Class A" then Some(2.0)
      else if y == "Class B" then Some(1.0)
      else if y == "Class C" then Some(0.5)
      else if y == "Class D" then Some(0.0)
      else None
    else if x == "Class B" then
      if y == "Class B" then Some(2.0)
      else if y == "Class A" then Some(1.0)
      else if y == "Class C" then Some(1.0)
      else if y == "Class D" then Some(0.5)
      else None
    else if x == "Class C" then
      if y == "Class C" then Some(2.0)
      else if y == "Class A" then Some(0.5)
      else if y == "Class B" then Some(1.0)
      else if y == "Class D" then Some(1.0)
      else None
    else if x == "Class D" then
      if y == "Class D" then Some(2.0)
      else if y == "Class A" then Some(0.0)
      else if y == "Class B" then Some(0.5)
      else if y == "Class C" then Some(1.0)
      else if y == "Class E" then Some(1.0)
      else None
    else None
  }

  /** The score the Dice index gives two classes `distance` letters apart. */
  function Closeness(distance: nat): real
  {
    if distance == 0 then 2.0 else if distance == 1 then 1.0 else if distance == 2 then 0.5 else 0.0
  }

  function Distance(g: Grade, h: Grade): nat
  {
    if g.Rank() >= h.Rank() then g.Rank() - h.Rank() else h.Rank() - g.Rank()
  }

  /** Between classes A to D the score depends only on how many letters apart they
      are, so it is symmetric. */
  lemma DiceByDistance(g: Grade, h: Grade)
    requires g != E && h != E
    ensures Dice(g.Name(), h.Name()) == Some(Closeness(Distance(g, h)))
    ensures Dice(g.Name(), h.Name()) == Dice(h.Name(), g.Name())
  {
    assert "Class A"[6] == 'A' && "Class B"[6] == 'B' && "Class C"[6] == 'C' && "Class D"[6] == 'D';
  }

  /** Every score the table gives lies in [0, 2]. */
  lemma DiceRange(x: string, y: string)
    ensures Dice(x, y).Some? ==> 0.0 <= Dice(x, y).value <= 2.0
  {
  }

  /** The scores of two class vectors over their first L positions, skipping the
      positions the table gives no score; positions past either vector are never
      read by the source and add nothing. */
  function DiceEntries(u: seq<string>, v: seq<string>, L: nat): seq<real>
  {
    if L == 0 then []
    else
      var last := if L - 1 < |u| && L - 1 < |v| then Dice(u[L - 1], v[L - 1]) else None;
      DiceEntries(u, v, L - 1) + (if last.Some? then [last.value] else [])
  }

  lemma {:induction false} DiceEntriesRange(u: seq<string>, v: seq<string>, L: nat)
    ensures |DiceEntries(u, v, L)| <= L
    ensures forall i :: 0 <= i < |DiceEntries(u, v, L)| ==> 0.0 <= DiceEntries(u, v, L)[i] <= 2.0
  {
    if L > 0 {
      DiceEntriesRange(u, v, L - 1);
      if L - 1 < |u| && L - 1 < |v| {
        DiceRange(u[L - 1], v[L - 1]);
      }
    }
  }

  /** Every pair of the list can be read at the positions below the length of the first pair's first vector. */
  predicate PairReadable(pairwise: seq<(seq<string>, seq<string>)>)
  {
    forall x :: 0 <= x < |pairwise| ==> |pairwise[x].0| >= |pairwise[0].0| && |pairwise[x].1| >= |pairwise[0].0|
  }

  /** `len(pairwise[0][0])`, the number of positions compared. */
  function Width(pairwise: seq<(seq<string>, seq<string>)>): nat
  {
    if |pairwise| == 0 then 0 else |pairwise[0].0|
  }

  /** The scores of each pair, one list per pair. */
  function DiceRows(pairwise: seq<(seq<string>, seq<string>)>): (r: seq<seq<real>>)
    ensures |r| == |pairwise|
  {
    seq(|pairwise|, x requires 0 <= x < |pairwise| => DiceEntries(pairwise[x].0, pairwise[x].1, Width(pairwise)))
  }

  /** Lines 601-647: the flat list of scores, pair after pair. */
  method DiceScores(pairwise: seq<(seq<string>, seq<string>)>) returns (dice: seq<real>)
    requires PairReadable(pairwise)
    ensures dice == Concat(DiceRows(pairwise))
  {
    ghost var rows := DiceRows(pairwise);
    dice := [];
    for x := 0 to |pairwise|
      invariant dice == Concat(rows[..x])
    {
      ghost var before := dice;
      for i := 0 to |pairwise[0].0|
        invariant dice == before + DiceEntries(pairwise[x].0, pairwise[x].1, i)
      {
        match Dice(pairwise[x].0[i], pairwise[x].1[i]) {
          case Some(d) => dice := dice + [d];
          case None =>
        }
      }
      ConcatTake(rows, x);
    }
    assert rows[..|pairwise|] == rows;
  }

  /** The scores cut into `len(dice) / conditions` pieces of `conditions` scores, each
      summed and divided by twice the number of conditions. */
  function Similarities(dice: seq<real>, conditions: int): (s: seq<real>)
    requires conditions > 0
    ensures |s| == |dice| / conditions
  {
    var blocks := Slices(dice, PrefixSums(0, Repeat(conditions, |dice| / conditions)));
    seq(|blocks|, k requires 0 <= k < |blocks| => Sum(blocks[k]) / ((conditions as real) * 2.0))
  }

  /** Lines 649-658. */
  method SimilarityIndexes(dice: seq<real>, conditions: int) returns (similarityIndex: seq<real>)
    requires conditions > 0
    ensures similarityIndex == Similarities(dice, conditions)
  {
    var b := |dice| / conditions;
    var diceByPairwise := SliceBySizes(dice, Repeat(conditions, b), []);
    similarityIndex := SumEach(diceByPairwise, (conditions as real) * 2.0);
    SimilaritiesOfPieces(dice, conditions, diceByPairwise, similarityIndex);
  }

  /** The loop of lines 657-659: each piece summed and divided by c. */
  method SumEach(pieces: seq<seq<real>>, c: real) returns (r: seq<real>)
    requires c != 0.0
    ensures |r| == |pieces|
    ensures forall i :: 0 <= i < |r| ==> r[i] == Sum(pieces[i]) / c
  {
    r := [];
    for k := 0 to |pieces|
      invariant |r| == k
      invariant forall i :: 0 <= i < k ==> r[i] == Sum(pieces[i]) / c
    {
      r := r + [Sum(pieces[k]) / c];
    }
  }

  lemma SimilaritiesOfPieces(dice: seq<real>, conditions: int, pieces: seq<seq<real>>, r: seq<real>)
    requires conditions > 0
    requires pieces == [] + Slices(dice, PrefixSums(0, Repeat(conditions, |dice| / conditions)))
    requires |r| == |pieces|
    requires forall i :: 0 <= i < |r| ==> r[i] == Sum(pieces[i]) / ((conditions as real) * 2.0)
    ensures r == Similarities(dice, conditions)
  {
    assert pieces == Slices(dice, PrefixSums(0, Repeat(conditions, |dice| / conditions)));
  }

  /** Lines 659-661: `range(k, 0, -1)`. */
  method CountDown(k: int) returns (block: seq<int>)
    ensures block == Descending(k)
  {
    block := [];
    var i := k;
    while i > 0
      invariant k <= 0 ==> block == []
      invariant k > 0 ==> 0 <= i <= k && |block| == k - i
      invariant forall j :: 0 <= j < |block| ==> block[j] == k - j
    {
      block := block + [i];
      i := i - 1;
    }
  }

  /** Every pair is (xs[a], xs[i]) for some a < i. */
  lemma PairsMembers<T>(xs: seq<T>, x: nat)
    requires x < |Pairs(xs)|
    ensures exists a, i :: 0 <= a < i < |xs| && Pairs(xs)[x] == (xs[a], xs[i])
  {
    var a, j := ConcatElement(PairRows(xs), x);
    assert Pairs(xs)[x] == (xs[a], xs[a + 1 + j]);
  }

  /** The position of element x of a concatenation in its list of lists. */
  lemma {:induction false} ConcatElement<T>(rows: seq<seq<T>>, x: nat) returns (a: nat, j: nat)
    requires x < |Concat(rows)|
    ensures a < |rows| && j < |rows[a]| && Concat(rows)[x] == rows[a][j]
  {
    var n := |rows| - 1;
    var front := Concat(rows[..n]);
    assert Concat(rows) == front + rows[n];
    if x < |front| {
      a, j := ConcatElement(rows[..n], x);
    } else {
      a, j := n, x - |front|;
    }
  }

  /** The first pair is (xs[0], xs[1]). */
  lemma FirstPair<T>(xs: seq<T>)
    requires |xs| >= 2
    ensures |Pairs(xs)| > 0 && Pairs(xs)[0] == (xs[0], xs[1])
  {
    ConcatAt(PairRows(xs), 0);
    assert PairRows(xs)[..0] == [];
  }

  /** Class vectors at least as long as the first one can all be read at the positions compared. */
  lemma PairsReadable(classificationByClones: seq<seq<string>>)
    requires forall k :: 0 <= k < |classificationByClones| ==> |classificationByClones[k]| >= |classificationByClones[0]|
    ensures PairReadable(Pairs(classificationByClones))
    ensures Width(Pairs(classificationByClones)) == if |classificationByClones| < 2 then 0 else |classificationByClones[0]|
  {
    var pairs := Pairs(classificationByClones);
    if |classificationByClones| >= 2 {
      FirstPair(classificationByClones);
      forall x | 0 <= x < |pairs|
        ensures |pairs[x].0| >= |pairs[0].0| && |pairs[x].1| >= |pairs[0].0|
      {
        PairsMembers(classificationByClones, x);
      }
    } else {
      PairsCount(classificationByClones);
    }
  }

  /** Lines 593-665: appends `[clones[:-1], clones[1:]]` to `rowCol`, and the
      similarity indexes cut into rows of n - 1, n - 2, ..., 1 to `matrix`. */
  method SimilarityMatrix(differentClones: seq<string>, differentGrowthConditions: seq<string>,
                          classificationByClones: seq<seq<string>>,
                          rowCol: seq<seq<seq<string>>>, matrix: seq<seq<real>>)
    returns (rowColOut: seq<seq<seq<string>>>, matrixOut: seq<seq<real>>)
    requires |differentGrowthConditions| > 0
    requires forall k :: 0 <= k < |classificationByClones| ==> |classificationByClones[k]| >= |classificationByClones[0]|
    ensures rowColOut == rowCol + [[PySlice(differentClones, 0, -1), Tail(differentClones)]]
    ensures matrixOut == matrix + Slices(Similarities(Concat(DiceRows(Pairs(classificationByClones))),
                                                      |differentGrowthConditions|),
                                         PrefixSums(0, Descending(|differentClones| - 1)))
  {
    rowColOut := rowCol + [[PySlice(differentClones, 0, -1), Tail(differentClones)]];
    // The while loop at lines 596-600 enumerates the same pairs as pairwise_groupment.
    var pairwise := PairwiseGroupment(classificationByClones, []);
    assert pairwise == Pairs(classificationByClones);
    PairsReadable(classificationByClones);
    var dice := DiceScores(pairwise);
    var similarityIndex := SimilarityIndexes(dice, |differentGrowthConditions|);
    var block3 := CountDown(|differentClones| - 1);
    matrixOut := SliceBySizes(similarityIndex, block3, matrix);
  }

  // ---------------------------------------------------------------------
  // Properties of the index.

  /** Whatever the labels, every similarity index lies in [0, 1]. */
  lemma SimilarityInUnitInterval(dice: seq<real>, conditions: int)
    requires conditions > 0
    requires forall i :: 0 <= i < |dice| ==> 0.0 <= dice[i] <= 2.0
    ensures forall k :: 0 <= k < |Similarities(dice, conditions)| ==> 0.0 <= Similarities(dice, conditions)[k] <= 1.0
  {
    var b := |dice| / conditions;
    var blocks := Slices(dice, PrefixSums(0, Repeat(conditions, b)));
    forall k | 0 <= k < |blocks| ensures 0.0 <= Sum(blocks[k]) / ((conditions as real) * 2.0) <= 1.0 {
      var block := EqualBlock(dice, conditions, k);
      BlockScore(block, conditions);
    }
  }

  /** Piece k of the equal-width cut is `dice[c*k : c*k + c]`, scores in [0, 2]. */
  lemma EqualBlock(dice: seq<real>, conditions: int, k: nat) returns (block: seq<real>)
    requires conditions > 0 && k < |dice| / conditions
    requires forall i :: 0 <= i < |dice| ==> 0.0 <= dice[i] <= 2.0
    ensures block == Slices(dice, PrefixSums(0, Repeat(conditions, |dice| / conditions)))[k]
    ensures |block| <= conditions
    ensures forall i :: 0 <= i < |block| ==> 0.0 <= block[i] <= 2.0
  {
    var b := |dice| / conditions;
    var steps := PrefixSums(0, Repeat(conditions, b));
    PrefixSumsOfRepeat(conditions, b, k);
    PrefixSumsOfRepeat(conditions, b, k + 1);
    assert conditions * (k + 1) == conditions * k + conditions;
    assert steps[k] == conditions * k && steps[k + 1] == conditions * k + conditions;
    block := SliceWithin(dice, conditions * k, conditions, 0.0, 2.0);
    assert Slices(dice, steps)[k] == PySlice(dice, steps[k], steps[k + 1]);
  }

  /** At most `conditions` scores in [0, 2] give an index in [0, 1]. */
  lemma BlockScore(block: seq<real>, conditions: int)
    requires 0 < conditions && |block| <= conditions
    requires forall i :: 0 <= i < |block| ==> 0.0 <= block[i] <= 2.0
    ensures 0.0 <= Sum(block) / ((conditions as real) * 2.0) <= 1.0
  {
    SumBounds(block, 0.0, 2.0);
    var c := (conditions as real) * 2.0;
    var s := Sum(block);
    assert (|block| as real) * 2.0 <= c;
    assert 0.0 <= s <= c;
    FractionInUnitInterval(s, c);
  }

  /** A part no larger than the positive whole is a fraction in [0, 1]. */
  lemma FractionInUnitInterval(s: real, c: real)
    requires 0.0 <= s <= c && c > 0.0
    ensures 0.0 <= s / c <= 1.0
  {
    var q := s / c;
    assert q * c == s;
    if q > 1.0 {
      ProductPositive(q - 1.0, c);
      assert false;
    }
    if q < 0.0 {
      ProductPositive(0.0 - q, c);
      assert false;
    }
  }

  lemma ProductPositive(x: real, y: real)
    requires x > 0.0 && y > 0.0
    ensures x * y > 0.0
  {
  }

  /** The scores of any list of pairs lie in [0, 2]. */
  lemma DiceRowsRange(pairwise: seq<(seq<string>, seq<string>)>)
    ensures forall i :: 0 <= i < |Concat(DiceRows(pairwise))| ==> 0.0 <= Concat(DiceRows(pairwise))[i] <= 2.0
  {
    var rows := DiceRows(pairwise);
    forall i | 0 <= i < |Concat(rows)| ensures 0.0 <= Concat(rows)[i] <= 2.0 {
      var a, j := ConcatElement(rows, i);
      DiceEntriesRange(pairwise[a].0, pairwise[a].1, Width(pairwise));
    }
  }

  /** A label the table scores in full against every other A to D label. */
  predicate Graded(s: string)
  {
    s == "Class A" || s == "Class B" || s == "Class C" || s == "Class D"
  }

  /** Every clone has exactly one A to D label per condition. */
  predicate Aligned(classificationByClones: seq<seq<string>>, conditions: nat)
  {
    forall k :: 0 <= k < |classificationByClones| ==>
      |classificationByClones[k]| == conditions &&
      forall i :: 0 <= i < conditions ==> Graded(classificationByClones[k][i])
  }

  /** The index of two clones: their scores summed over the conditions, over twice the number of conditions. */
  function PairSimilarity(u: seq<string>, v: seq<string>, conditions: nat): real
    requires conditions > 0
  {
    Sum(DiceEntries(u, v, conditions)) / ((conditions as real) * 2.0)
  }

  lemma GradeOfLabel(s: string) returns (g: Grade)
    requires Graded(s)
    ensures g != E && g.Name() == s
  {
    if s == "Class A" { g := A; }
    else if s == "Class B" { g := B; }
    else if s == "Class C" { g := C; }
    else { g := D; }
  }

  /** Fully labelled vectors score at every position. */
  lemma {:induction false} DiceEntriesFull(u: seq<string>, v: seq<string>, L: nat)
    requires L <= |u| && L <= |v|
    requires forall i :: 0 <= i < L ==> Graded(u[i]) && Graded(v[i])
    ensures |DiceEntries(u, v, L)| == L
  {
    if L > 0 {
      DiceEntriesFull(u, v, L - 1);
      var g := GradeOfLabel(u[L - 1]);
      var h := GradeOfLabel(v[L - 1]);
      DiceByDistance(g, h);
    }
  }

  /** The index of two fully labelled clones is symmetric. */
  lemma PairSimilaritySymmetric(u: seq<string>, v: seq<string>, conditions: nat)
    requires conditions > 0 && |u| == conditions && |v| == conditions
    requires forall i :: 0 <= i < conditions ==> Graded(u[i]) && Graded(v[i])
    ensures PairSimilarity(u, v, conditions) == PairSimilarity(v, u, conditions)
  {
    DiceEntriesSymmetric(u, v, conditions);
  }

  /** The index of any two clones lies in [0, 1]. */
  lemma PairSimilarityRange(u: seq<string>, v: seq<string>, conditions: nat)
    requires conditions > 0
    ensures 0.0 <= PairSimilarity(u, v, conditions) <= 1.0
  {
    DiceEntriesRange(u, v, conditions);
    BlockScore(DiceEntries(u, v, conditions), conditions);
  }

  /** A fully labelled clone is identical to itself: its index with itself is 1. */
  lemma PairSimilaritySelf(u: seq<string>, conditions: nat)
    requires conditions > 0 && |u| == conditions
    requires forall i :: 0 <= i < conditions ==> Graded(u[i])
    ensures PairSimilarity(u, u, conditions) == 1.0
  {
    var s := DiceEntries(u, u, conditions);
    DiceEntriesIdentical(u, conditions);
    SumBounds(s, 2.0, 2.0);
    var c := (conditions as real) * 2.0;
    assert (|s| as real) * 2.0 == c;
    assert Sum(s) == c && c > 0.0;
    assert PairSimilarity(u, u, conditions) == Sum(s) / c;
    WholeOverWhole(Sum(s), c);
  }

  lemma WholeOverWhole(s: real, c: real)
    requires s == c && c > 0.0
    ensures s / c == 1.0
  {
  }

  lemma {:induction false} DiceEntriesSymmetric(u: seq<string>, v: seq<string>, L: nat)
    requires L <= |u| && L <= |v|
    requires forall i :: 0 <= i < L ==> Graded(u[i]) && Graded(v[i])
    ensures DiceEntries(u, v, L) == DiceEntries(v, u, L)
  {
    if L > 0 {
      DiceEntriesSymmetric(u, v, L - 1);
      var g := GradeOfLabel(u[L - 1]);
      var h := GradeOfLabel(v[L - 1]);
      DiceByDistance(g, h);
    }
  }

  lemma {:induction false} DiceEntriesIdentical(u: seq<string>, L: nat)
    requires L <= |u|
    requires forall i :: 0 <= i < L ==> Graded(u[i])
    ensures |DiceEntries(u, u, L)| == L
    ensures forall i :: 0 <= i < L ==> DiceEntries(u, u, L)[i] == 2.0
  {
    if L > 0 {
      DiceEntriesIdentical(u, L - 1);
      var g := GradeOfLabel(u[L - 1]);
      DiceByDistance(g, g);
    }
  }

  // ---------------------------------------------------------------------
  // The matrix of fully labelled clones.

  /** The index of each pair, in the order of the pairs. */
  function Scored(pairs: seq<(seq<string>, seq<string>)>, conditions: int): (r: seq<real>)
    requires conditions > 0
    ensures |r| == |pairs|
  {
    seq(|pairs|, x requires 0 <= x < |pairs| => PairSimilarity(pairs[x].0, pairs[x].1, conditions))
  }

  /** Every pair of aligned vectors scores at every one of the compared positions. */
  lemma AlignedRows(classificationByClones: seq<seq<string>>, conditions: int)
    requires conditions > 0 && Aligned(classificationByClones, conditions) && |classificationByClones| >= 2
    ensures Width(Pairs(classificationByClones)) == conditions
    ensures Lengths(DiceRows(Pairs(classificationByClones))) == Repeat(conditions, |Pairs(classificationByClones)|)
  {
    var pairs := Pairs(classificationByClones);
    PairsReadable(classificationByClones);
    var lengths := Lengths(DiceRows(pairs));
    forall x | 0 <= x < |pairs| ensures lengths[x] == conditions {
      PairsMembers(classificationByClones, x);
      var a, i :| 0 <= a < i < |classificationByClones| && pairs[x] == (classificationByClones[a], classificationByClones[i]);
      DiceEntriesFull(classificationByClones[a], classificationByClones[i], conditions);
    }
  }

  /** Scores that come `conditions` to a pair are cut back into the pairs' own lists. */
  lemma SimilaritiesOfUniformRows(rows: seq<seq<real>>, conditions: int)
    requires conditions > 0
    requires Lengths(rows) == Repeat(conditions, |rows|)
    ensures Similarities(Concat(rows), conditions)
         == seq(|rows|, x requires 0 <= x < |rows| => Sum(rows[x]) / ((conditions as real) * 2.0))
  {
    assert forall x :: 0 <= x < |rows| ==> |rows[x]| == Lengths(rows)[x] == conditions;
    ConcatUniformLength(rows, conditions);
    MulDiv(|rows|, conditions);
    SlicesOfConcat(rows);
  }

  lemma MulDiv(n: nat, c: int)
    requires c > 0
    ensures (n * c) / c == n
  {
    var q := (n * c) / c;
    var r := (n * c) % c;
    assert n * c == q * c + r && 0 <= r < c;
    assert (n - q) * c == r;
    SmallMultiple(n - q, c);
  }

  lemma SmallMultiple(k: int, c: int)
    requires c > 0 && 0 <= k * c < c
    ensures k == 0
  {
    if k > 0 {
      MulMonotoneInt(1, k, c);
    } else if k < 0 {
      MulMonotoneInt(k, -1, c);
    }
  }

  lemma MulMonotoneInt(x: int, y: int, c: int)
    requires x <= y && c > 0
    ensures x * c <= y * c
  {
    assert y * c - x * c == (y - x) * c;
  }

  /** For aligned vectors the similarity indexes are the indexes of the pairs, pair by pair. */
  lemma AlignedSimilarities(classificationByClones: seq<seq<string>>, conditions: int)
    requires conditions > 0 && Aligned(classificationByClones, conditions)
    ensures Similarities(Concat(DiceRows(Pairs(classificationByClones))), conditions) == Scored(Pairs(classificationByClones), conditions)
  {
    var pairs := Pairs(classificationByClones);
    var rows := DiceRows(pairs);
    if |classificationByClones| < 2 {
      PairsCount(classificationByClones);
      assert rows == [];
    } else {
      AlignedRows(classificationByClones, conditions);
      UniformScores(pairs, conditions);
    }
  }

  /** When every pair scores at all `conditions` positions, the indexes are those of the pairs. */
  lemma UniformScores(pairs: seq<(seq<string>, seq<string>)>, conditions: int)
    requires conditions > 0 && Width(pairs) == conditions
    requires Lengths(DiceRows(pairs)) == Repeat(conditions, |pairs|)
    ensures Similarities(Concat(DiceRows(pairs)), conditions) == Scored(pairs, conditions)
  {
    var rows := DiceRows(pairs);
    SimilaritiesOfUniformRows(rows, conditions);
    forall x | 0 <= x < |pairs|
      ensures Sum(rows[x]) / ((conditions as real) * 2.0) == Scored(pairs, conditions)[x]
    {
      assert rows[x] == DiceEntries(pairs[x].0, pairs[x].1, conditions);
    }
  }

  /** Cutting the indexes of a list of pairs is scoring the cut pieces. */
  lemma ScoredSlices(pairs: seq<(seq<string>, seq<string>)>, steps: seq<int>, conditions: int)
    requires conditions > 0
    ensures Slices(Scored(pairs, conditions), steps)
         == seq(|Slices(pairs, steps)|, a requires 0 <= a < |Slices(pairs, steps)| => Scored(Slices(pairs, steps)[a], conditions))
  {
    var scored := Scored(pairs, conditions);
    var pieces := Slices(pairs, steps);
    forall a | 0 <= a < |pieces| ensures Slices(scored, steps)[a] == Scored(pieces[a], conditions) {
      ScoredSlice(pairs, steps[a], steps[a + 1], conditions);
    }
  }

  /** Slicing the indexes of a list of pairs is scoring the slice. */
  lemma ScoredSlice(pairs: seq<(seq<string>, seq<string>)>, i: int, j: int, conditions: int)
    requires conditions > 0
    ensures PySlice(Scored(pairs, conditions), i, j) == Scored(PySlice(pairs, i, j), conditions)
  {
    var scored := Scored(pairs, conditions);
    var lo := SliceBound(i, |pairs|);
    var hi := SliceBound(j, |pairs|);
    if lo < hi {
      var piece := pairs[lo..hi];
      assert PySlice(pairs, i, j) == piece;
      assert PySlice(scored, i, j) == scored[lo..hi];
      assert forall x :: 0 <= x < hi - lo ==> scored[lo..hi][x] == Scored(piece, conditions)[x];
    }
  }

  /** Row a of the matrix of fully labelled clones: the index of clone a against
      clones a + 1, a + 2, ... in turn. */
  function TriangleRow(classificationByClones: seq<seq<string>>, a: nat, conditions: int): (r: seq<real>)
    requires conditions > 0 && a < |classificationByClones|
    ensures |r| == |classificationByClones| - 1 - a
  {
    seq(|classificationByClones| - 1 - a, j requires 0 <= j < |classificationByClones| - 1 - a =>
      PairSimilarity(classificationByClones[a], classificationByClones[a + 1 + j], conditions))
  }

  /** When every clone carries one A to D label per condition, row a of the matrix
      holds the indexes of clone a against the clones after it. */
  lemma AlignedMatrix(classificationByClones: seq<seq<string>>, conditions: int)
    requires conditions > 0 && Aligned(classificationByClones, conditions) && |classificationByClones| >= 1
    ensures Slices(Similarities(Concat(DiceRows(Pairs(classificationByClones))), conditions),
                   PrefixSums(0, Descending(|classificationByClones| - 1)))
         == seq(|classificationByClones| - 1, a requires 0 <= a < |classificationByClones| - 1 =>
              TriangleRow(classificationByClones, a, conditions))
  {
    var n := |classificationByClones|;
    var steps := PrefixSums(0, Descending(n - 1));
    AlignedSimilarities(classificationByClones, conditions);
    ScoredSlices(Pairs(classificationByClones), steps, conditions);
    PairsByRow(classificationByClones);
    var rows := PairRows(classificationByClones);
    forall a | 0 <= a < n - 1
      ensures Scored(rows[a], conditions) == TriangleRow(classificationByClones, a, conditions)
    {
    }
  }
}
