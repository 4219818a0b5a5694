/** The per-unit parameter extraction of scripts/PManalysis.py (class
    ExperimentUnit, lines 237-404): the replicate filter, the median curve of a
    replicate group, the block asymptote, P2 and the maximum growth rate. */
module ExperimentUnit {
  import opened Seqs
  import opened Stats
  import opened ListHelpers

  /** The input table: the four header rows (each with its row label in column 0)
      and the data rows META[4..] (the time in column 0, one OD per replicate
      column after it). */
  datatype Meta = Meta(clones: seq<string>, sources: seq<string>, conditions: seq<string>,
                       wells: seq<string>, rows: seq<seq<real>>)

  /** `len(META[1]) - 1`: the number of replicate columns. */
  function NumReps(meta: Meta): int
  {
    |meta.sources| - 1
  }

  /** Every replicate column the filter reads exists in the clone and condition
      rows and in every data row after the first. */
  predicate Readable(meta: Meta)
  {
    |meta.clones| >= |meta.sources| && |meta.conditions| >= |meta.sources| &&
    forall v :: 1 <= v < |meta.rows| ==> |meta.rows[v]| >= |meta.sources|
  }

  /** The readings of replicate `repIdx` from META row 5 on, so without the first time point. */
  function Replicate(meta: Meta, repIdx: nat): (r: seq<real>)
    requires Readable(meta) && repIdx < NumReps(meta)
    ensures |r| == if |meta.rows| == 0 then 0 else |meta.rows| - 1
  {
    var n := if |meta.rows| == 0 then 0 else |meta.rows| - 1;
    seq(n, v requires 0 <= v < n => meta.rows[v + 1][repIdx + 1])
  }

  /** The nested loops at lines 249-253 that collect `data[rep][val]`. */
  method ReplicateData(meta: Meta) returns (data: seq<seq<real>>)
    requires Readable(meta)
    ensures |data| == RepCount(meta)
    ensures forall repIdx :: 0 <= repIdx < RepCount(meta) ==> data[repIdx] == Replicate(meta, repIdx)
  {
    var numDataVals := |meta.rows| - 1;
    var numReps := |meta.sources| - 1;
    data := [];
    var rep := 1;
    while rep < numReps + 1
      invariant 1 <= rep && (rep <= numReps + 1 || rep == 1)
      invariant |data| == rep - 1
      invariant forall repIdx :: 0 <= repIdx < |data| ==> data[repIdx] == Replicate(meta, repIdx)
    {
      var repIdx := rep - 1;
      var column := [];
      var v := 5;
      while v < numDataVals + 5
        invariant 5 <= v && (v <= numDataVals + 5 || v == 5)
        invariant column == Replicate(meta, repIdx)[..v - 5]
      {
        column := column + [meta.rows[v - 4][rep]];
        v := v + 1;
      }
      assert column == Replicate(meta, repIdx);
      data := data + [column];
      rep := rep + 1;
    }
  }

  // ---------------------------------------------------------------------
  // The sliding asymptote of the filter (lines 266-275).

  /** The running maximum of the filter's asymptote loop and its position. */
  datatype Peak = Peak(asym: real, pos: int)

  /** The state after the windows idx = 1 .. n - 1: the asymptote starts at 0 and
      moves to a window mean only when that mean is strictly larger, recording
      the window's middle position idx + 1. */
  function AsymScan(r: seq<real>, n: int): Peak
    requires n <= 1 || n + 2 <= |r|
  {
    if n <= 1 then Peak(0.0, 0)
    else
      var before := AsymScan(r, n - 1);
      var m := WindowMean(r, n - 1);
      if before.asym < m then Peak(m, n) else before
  }

  /** The asymptote is the largest window mean (or 0 when none is positive) at the
      earliest window that reaches it, and its position lies in [2, n]. */
  lemma {:induction false} AsymScanPeak(r: seq<real>, n: int)
    requires n <= 1 || n + 2 <= |r|
    ensures var p := AsymScan(r, n);
      (p.pos == 0 || 2 <= p.pos <= n) &&
      (p.pos == 0 ==> p.asym == 0.0) &&
      (p.pos != 0 ==> p.asym == WindowMean(r, p.pos - 1) > 0.0) &&
      (forall idx :: 1 <= idx < n ==> WindowMean(r, idx) <= p.asym) &&
      (p.pos != 0 ==> forall idx :: 1 <= idx < p.pos - 1 ==> WindowMean(r, idx) < p.asym)
  {
    if n > 1 {
      AsymScanPeak(r, n - 1);
    }
  }

  /** The window means never exceed 0 exactly when the position stays 0. */
  lemma AsymScanNoPeak(r: seq<real>, n: int)
    requires n <= 1 || n + 2 <= |r|
    ensures AsymScan(r, n).pos == 0 <==> forall idx :: 1 <= idx < n ==> WindowMean(r, idx) <= 0.0
  {
    AsymScanPeak(r, n);
  }

  /** The position found by the filter's asymptote loop. */
  function AsymPos(r: seq<real>): int
  {
    if |r| < 3 then 0 else AsymScan(r, |r| - 2).pos
  }

  /** The accesses `repList[asymPos - 1]` and `repList[asymPos + 1]` are always in
      bounds, so the IndexError handler of lines 279-284 is unreachable. */
  lemma AsymPosInBounds(r: seq<real>)
    ensures AsymPos(r) == 0 || (2 <= AsymPos(r) && AsymPos(r) + 1 < |r|)
  {
    if |r| >= 3 {
      AsymScanPeak(r, |r| - 2);
    }
  }

  method AsymptoteScan(repList: seq<real>) returns (asym: real, asymPos: int)
    ensures asymPos == AsymPos(repList)
    ensures |repList| >= 3 ==> Peak(asym, asymPos) == AsymScan(repList, |repList| - 2)
  {
    var numDataVals := |repList|;
    asym := 0.0;
    asymPos := 0;
    var idx := 1;
    while idx < numDataVals - 2
      invariant 1 <= idx && (idx <= numDataVals - 2 || idx == 1)
      invariant Peak(asym, asymPos) == AsymScan(repList, idx)
    {
      var currAsym := WindowMean(repList, idx);
      if asym < currAsym {
        asym := currAsym;
        asymPos := idx + 1;
      }
      idx := idx + 1;
    }
  }

  // ---------------------------------------------------------------------
  // The linearity test (lines 276-293).

  /** The slope around the asymptote position, per minute. */
  function TargetRate(r: seq<real>, p: int): real
    requires 1 <= p && p + 1 < |r|
  {
    (r[p + 1] - r[p - 1]) / 60.0
  }

  /** `repList[idx + 2] - repList[idx] / 60`, within 30% of the target rate. The
      division binds to the second reading only, as Python's precedence has it. */
  predicate RateInBand(r: seq<real>, idx: nat, target: real)
    requires idx + 2 < |r|
  {
    var rate := r[idx + 2] - r[idx] / 60.0;
    var perc := target * 0.30;
    !(rate < target - perc || rate > target + perc)
  }

  /** linearFlag: the asymptote lies past position 3 and every rate from index 3
      up to the asymptote stays in the band. */
  predicate Linear(r: seq<real>, p: int)
  {
    p > 3 && p + 1 < |r| && forall idx :: 3 <= idx < p - 1 ==> RateInBand(r, idx, TargetRate(r, p))
  }

  method LinearityTest(repList: seq<real>, asymPos: int) returns (linearFlag: bool)
    requires asymPos > 3 ==> asymPos + 1 < |repList|
    ensures linearFlag == Linear(repList, asymPos)
    ensures asymPos <= 3 ==> !linearFlag
  {
    linearFlag := true;
    if asymPos > 3 {
      var targetRate := (repList[asymPos + 1] - repList[asymPos - 1]) / 60.0;
      var targetPerc := targetRate * 0.30;
      var idx := 3;
      while idx < asymPos - 1
        invariant 3 <= idx <= asymPos - 1
        invariant linearFlag
        invariant targetRate == TargetRate(repList, asymPos)
        invariant forall k :: 3 <= k < idx ==> RateInBand(repList, k, targetRate)
      {
        var rate := repList[idx + 2] - repList[idx] / 60.0;
        if rate < targetRate - targetPerc || rate > targetRate + targetPerc {
          assert !RateInBand(repList, idx, TargetRate(repList, asymPos));
          linearFlag := false;
          break;
        }
        idx := idx + 1;
      }
    } else {
      linearFlag := false;
    }
  }

  // ---------------------------------------------------------------------
  // The four categories (lines 296-313).

  datatype Category = Misfits | NoGrowth | LinearGrowth | Growth

  /** Some reading among the first four is at least 0.18. */
  predicate Misfit(r: seq<real>)
  {
    exists i :: 0 <= i < |r| && i < 4 && r[i] >= 0.18
  }

  /** The 1-hour reading is at least the 24-hour reading plus 0.03. */
  predicate NoGrowthCurve(r: seq<real>)
    requires |r| >= 48
  {
    r[1] >= r[47] + 0.03
  }

  /** The categories that append the replicate to filterList. */
  predicate Removed(c: Category)
  {
    c == Misfits || c == NoGrowth
  }

  /** The first test that matches decides the category. */
  function Classify(r: seq<real>, linearFlag: bool): Category
    requires Misfit(r) || |r| >= 48
  {
    if Misfit(r) then Misfits
    else if NoGrowthCurve(r) then NoGrowth
    else if linearFlag then LinearGrowth
    else Growth
  }

  /** Every replicate either is a misfit or has the 48 readings the no-growth test reads. */
  predicate Filterable(meta: Meta)
  {
    Readable(meta) &&
    forall repIdx :: 0 <= repIdx < NumReps(meta) ==> Misfit(Replicate(meta, repIdx)) || |meta.rows| >= 49
  }

  function CategoryOf(meta: Meta, repIdx: nat): Category
    requires Filterable(meta) && repIdx < NumReps(meta)
  {
    var r := Replicate(meta, repIdx);
    AsymPosInBounds(r);
    Classify(r, Linear(r, AsymPos(r)))
  }

  /** A replicate goes to filterList exactly when it is a misfit or shows no
      growth, and one classed linear has its asymptote past position 3, so the
      linearity test really ran on it. */
  lemma CategoryCases(meta: Meta, repIdx: nat)
    requires Filterable(meta) && repIdx < NumReps(meta)
    ensures var r := Replicate(meta, repIdx);
      (Removed(CategoryOf(meta, repIdx)) <==> Misfit(r) || NoGrowthCurve(r)) &&
      (CategoryOf(meta, repIdx) == LinearGrowth ==> AsymPos(r) > 3)
  {
  }

  /** `"%s_%s_%s" % (clone, mainSource, substrate)` */
  function Label(meta: Meta, repIdx: nat): string
    requires Readable(meta) && repIdx < NumReps(meta)
  {
    meta.clones[repIdx + 1] + "_" + meta.sources[repIdx + 1] + "_" + meta.conditions[repIdx + 1]
  }

  /** The four lists of the rawTypes dictionary. */
  datatype RawTypes = RawTypes(misfits: seq<string>, noGrowth: seq<string>, linear: seq<string>, growth: seq<string>)

  function ListOf(rt: RawTypes, c: Category): seq<string>
  {
    match c
    case Misfits => rt.misfits
    case NoGrowth => rt.noGrowth
    case LinearGrowth => rt.linear
    case Growth => rt.growth
  }

  /** Appends `lab` to the list of category `c` and leaves the other three alone. */
  function Record(rt: RawTypes, c: Category, lab: string): (r: RawTypes)
    ensures forall d :: ListOf(r, d) == ListOf(rt, d) + (if c == d then [lab] else [])
  {
    match c
    case Misfits => rt.(misfits := rt.misfits + [lab])
    case NoGrowth => rt.(noGrowth := rt.noGrowth + [lab])
    case LinearGrowth => rt.(linear := rt.linear + [lab])
    case Growth => rt.(growth := rt.growth + [lab])
  }

  /** The number of replicates the filter visits (none when the source row is empty). */
  function RepCount(meta: Meta): nat
  {
    if NumReps(meta) < 0 then 0 else NumReps(meta)
  }

  /** The replicate indexes appended to filterList by the first n replicates. */
  function Flagged(meta: Meta, n: nat): seq<int>
    requires Filterable(meta) && n <= RepCount(meta)
  {
    if n == 0 then []
    else Flagged(meta, n - 1) + (if Removed(CategoryOf(meta, n - 1)) then [n - 1] else [])
  }

  /** rawTypes after the first n replicates. */
  function Recorded(meta: Meta, rt: RawTypes, n: nat): RawTypes
    requires Filterable(meta) && n <= RepCount(meta)
  {
    if n == 0 then rt
    else Record(Recorded(meta, rt, n - 1), CategoryOf(meta, n - 1), Label(meta, n - 1))
  }

  /** The labels of the first n replicates whose category is c, in column order. */
  function LabelsOf(meta: Meta, c: Category, n: nat): seq<string>
    requires Filterable(meta) && n <= RepCount(meta)
  {
    if n == 0 then []
    else LabelsOf(meta, c, n - 1) + (if CategoryOf(meta, n - 1) == c then [Label(meta, n - 1)] else [])
  }

  /** Lines 244-313. */
  method Filter(meta: Meta, filterList: seq<int>, rawTypes: RawTypes)
    returns (filterListOut: seq<int>, rawTypesOut: RawTypes)
    requires Filterable(meta)
    ensures filterListOut == filterList + Flagged(meta, RepCount(meta))
    ensures rawTypesOut == Recorded(meta, rawTypes, RepCount(meta))
  {
    var numReps := |meta.sources| - 1;
    var data := ReplicateData(meta);
    filterListOut := filterList;
    rawTypesOut := rawTypes;
    var repIdx := 0;
    while repIdx < numReps
      invariant 0 <= repIdx <= RepCount(meta)
      invariant filterListOut == filterList + Flagged(meta, repIdx)
      invariant rawTypesOut == Recorded(meta, rawTypes, repIdx)
    {
      filterListOut, rawTypesOut := FilterReplicate(meta, repIdx, data[repIdx], filterListOut, rawTypesOut);
      FilterStep(meta, filterList, rawTypes, repIdx);
      repIdx := repIdx + 1;
    }
  }

  /** The state after one more replicate, as the loop of Filter builds it. */
  lemma FilterStep(meta: Meta, filterList: seq<int>, rawTypes: RawTypes, n: nat)
    requires Filterable(meta) && n < RepCount(meta)
    ensures filterList + Flagged(meta, n + 1)
         == filterList + Flagged(meta, n) + (if Removed(CategoryOf(meta, n)) then [n] else [])
    ensures Recorded(meta, rawTypes, n + 1) == Record(Recorded(meta, rawTypes, n), CategoryOf(meta, n), Label(meta, n))
  {
  }

  /** One pass of the loop of lines 256-313: the tests of one replicate, in order,
      and the lists it is appended to. */
  method FilterReplicate(meta: Meta, repIdx: nat, repList: seq<real>, filterList: seq<int>, rawTypes: RawTypes)
    returns (filterListOut: seq<int>, rawTypesOut: RawTypes)
    requires Filterable(meta) && repIdx < NumReps(meta) && repList == Replicate(meta, repIdx)
    ensures filterListOut == filterList + (if Removed(CategoryOf(meta, repIdx)) then [repIdx] else [])
    ensures rawTypesOut == Record(rawTypes, CategoryOf(meta, repIdx), Label(meta, repIdx))
  {
    var clone := meta.clones[repIdx + 1];
    var mainSource := meta.sources[repIdx + 1];
    var substrate := meta.conditions[repIdx + 1];
    var asym, asymPos := AsymptoteScan(repList);
    AsymPosInBounds(repList);
    var linearFlag := LinearityTest(repList, asymPos);
    var name := clone + "_" + mainSource + "_" + substrate;
    filterListOut := filterList;
    if exists i :: 0 <= i < |repList| && i < 4 && repList[i] >= 0.18 {
      rawTypesOut := rawTypes.(misfits := rawTypes.misfits + [name]);
      filterListOut := filterListOut + [repIdx];
    } else if repList[1] >= repList[47] + 0.03 {
      rawTypesOut := rawTypes.(noGrowth := rawTypes.noGrowth + [name]);
      filterListOut := filterListOut + [repIdx];
    } else if linearFlag {
      rawTypesOut := rawTypes.(linear := rawTypes.linear + [name]);
    } else {
      rawTypesOut := rawTypes.(growth := rawTypes.growth + [name]);
    }
  }

  /** filterList gains exactly the misfit and no-growth replicates, in increasing order. */
  lemma {:induction false} FlaggedMembers(meta: Meta, n: nat)
    requires Filterable(meta) && n <= RepCount(meta)
    ensures forall k :: k in Flagged(meta, n) <==> 0 <= k < n && Removed(CategoryOf(meta, k))
  {
    if n > 0 {
      FlaggedMembers(meta, n - 1);
      var before := Flagged(meta, n - 1);
      var removed := Removed(CategoryOf(meta, n - 1));
      assert Flagged(meta, n) == before + (if removed then [n - 1] else []);
      forall k ensures k in Flagged(meta, n) <==> 0 <= k < n && Removed(CategoryOf(meta, k)) {
        if k == n - 1 {
          assert k !in before;
        }
      }
    }
  }

  lemma {:induction false} FlaggedIncreasing(meta: Meta, n: nat)
    requires Filterable(meta) && n <= RepCount(meta)
    ensures forall i, j :: 0 <= i < j < |Flagged(meta, n)| ==> Flagged(meta, n)[i] < Flagged(meta, n)[j]
  {
    if n > 0 {
      FlaggedIncreasing(meta, n - 1);
      FlaggedMembers(meta, n - 1);
      var before := Flagged(meta, n - 1);
      var c := CategoryOf(meta, n - 1);
      assert Flagged(meta, n) == before + (if Removed(c) then [n - 1] else []);
      assert forall i :: 0 <= i < |before| ==> before[i] in before;
    }
  }

  /** Each rawTypes list gains the labels of exactly the replicates of its category. */
  lemma {:induction false} RecordedLists(meta: Meta, rt: RawTypes, n: nat)
    requires Filterable(meta) && n <= RepCount(meta)
    ensures forall c :: ListOf(Recorded(meta, rt, n), c) == ListOf(rt, c) + LabelsOf(meta, c, n)
  {
    if n > 0 {
      RecordedLists(meta, rt, n - 1);
      var prev := Recorded(meta, rt, n - 1);
      var cat := CategoryOf(meta, n - 1);
      var lab := Label(meta, n - 1);
      assert Recorded(meta, rt, n) == Record(prev, cat, lab);
      forall c ensures ListOf(Recorded(meta, rt, n), c) == ListOf(rt, c) + LabelsOf(meta, c, n) {
        var extra := if cat == c then [lab] else [];
        assert LabelsOf(meta, c, n) == LabelsOf(meta, c, n - 1) + extra;
        assert ListOf(Recorded(meta, rt, n), c) == ListOf(prev, c) + extra;
        assert ListOf(rt, c) + LabelsOf(meta, c, n - 1) + extra == ListOf(rt, c) + (LabelsOf(meta, c, n - 1) + extra);
      }
    }
  }

  /** Every replicate lands in exactly one of the four lists. */
  lemma {:induction false} LabelsPartition(meta: Meta, n: nat)
    requires Filterable(meta) && n <= RepCount(meta)
    ensures |LabelsOf(meta, Misfits, n)| + |LabelsOf(meta, NoGrowth, n)|
      + |LabelsOf(meta, LinearGrowth, n)| + |LabelsOf(meta, Growth, n)| == n
  {
    if n > 0 {
      LabelsPartition(meta, n - 1);
    }
  }

  // ---------------------------------------------------------------------
  // rep_median (lines 327-345).

  /** Python's `s[j]`, where a negative j counts from the end. */
  function PyAt<T>(s: seq<T>, j: int): T
    requires -|s| <= j < |s|
  {
    if j < 0 then s[|s| + j] else s[j]
  }

  /** Every column of [x, y) outside filterList can be read from every row. */
  predicate ColumnsReadable(rows: seq<seq<real>>, filterList: seq<int>, x: int, y: int)
  {
    forall i, j :: 0 <= i < |rows| && x <= j < y && j !in filterList ==> -|rows[i]| <= j < |rows[i]|
  }

  /** The readings of one row in the columns of [x, y) that are not in filterList. */
  function Survivors(row: seq<real>, filterList: seq<int>, x: int, y: int): seq<real>
    requires forall j :: x <= j < y && j !in filterList ==> -|row| <= j < |row|
    decreases y - x
  {
    if y <= x then []
    else Survivors(row, filterList, x, y - 1) + (if y - 1 in filterList then [] else [PyAt(row, y - 1)])
  }

  /** The median of the surviving readings, or None (NaN) when every column is filtered. */
  function MedianOrNaN(row: seq<real>, filterList: seq<int>, x: int, y: int): Option<real>
    requires forall j :: x <= j < y && j !in filterList ==> -|row| <= j < |row|
  {
    var s := Survivors(row, filterList, x, y);
    if |s| == 0 then None else Some(Median(s))
  }

  function MedianCurve(rows: seq<seq<real>>, filterList: seq<int>, x: int, y: int): (c: seq<Option<real>>)
    requires ColumnsReadable(rows, filterList, x, y)
    ensures |c| == |rows|
  {
    seq(|rows|, i requires 0 <= i < |rows| => MedianOrNaN(rows[i], filterList, x, y))
  }

  /** The median curve of the replicate columns [x, y), appended to `averageA` as one
      list cut to `len(META) - 4` values, where `globalMetaLength` is the length of
      the module-level META the source reads at line 342. */
  method RepMedian(rows: seq<seq<real>>, filterList: seq<int>, averageA: seq<seq<Option<real>>>,
                   x: int, y: int, globalMetaLength: int)
    returns (extended: seq<seq<Option<real>>>)
    requires ColumnsReadable(rows, filterList, x, y)
    ensures extended == averageA + [PySlice(MedianCurve(rows, filterList, x, y), 0, globalMetaLength - 4)]
  {
    var averageMeta: seq<Option<real>> := [];
    for i := 0 to |rows|
      invariant averageMeta == MedianCurve(rows, filterList, x, y)[..i]
    {
      var replicates: seq<real> := [];
      var j := x;
      while j < y
        invariant x <= j && (j <= y || j == x)
        invariant replicates == Survivors(rows[i], filterList, x, j)
      {
        if j !in filterList {
          replicates := replicates + [PyAt(rows[i], j)];
        }
        j := j + 1;
      }
      if |replicates| != 0 {
        averageMeta := averageMeta + [Some(Median(replicates))];
      } else {
        averageMeta := averageMeta + [None];
      }
    }
    var steps := IndexesFromIterationBlock([globalMetaLength - 4], [0]);
    extended := SublistByIterationSet(averageMeta, steps, averageA);
    assert MedianCurve(rows, filterList, x, y)[..|rows|] == MedianCurve(rows, filterList, x, y);
    assert Slices(averageMeta, steps) == [PySlice(averageMeta, 0, globalMetaLength - 4)];
  }

  /** A row has no surviving reading exactly when every column of [x, y) is filtered. */
  lemma {:induction false} SurvivorsEmpty(row: seq<real>, filterList: seq<int>, x: int, y: int)
    requires forall j :: x <= j < y && j !in filterList ==> -|row| <= j < |row|
    ensures |Survivors(row, filterList, x, y)| == 0 <==> forall j :: x <= j < y ==> j in filterList
    decreases y - x
  {
    if y > x {
      SurvivorsEmpty(row, filterList, x, y - 1);
    }
  }

  /** Each value of the median curve is NaN exactly when every column of [x, y) is
      in filterList; so a curve is either all NaN or free of NaN, and when META is
      this table, the appended curve has one value per data row. */
  lemma MedianCurveShape(rows: seq<seq<real>>, filterList: seq<int>, x: int, y: int)
    requires ColumnsReadable(rows, filterList, x, y)
    ensures |PySlice(MedianCurve(rows, filterList, x, y), 0, |rows| + 4 - 4)| == |rows|
    ensures forall i :: 0 <= i < |rows| ==>
      (MedianCurve(rows, filterList, x, y)[i] == None <==> forall j :: x <= j < y ==> j in filterList)
    ensures (forall i :: 0 <= i < |rows| ==> MedianCurve(rows, filterList, x, y)[i] == None)
      || (forall i :: 0 <= i < |rows| ==> MedianCurve(rows, filterList, x, y)[i] != None)
  {
    forall i | 0 <= i < |rows|
      ensures MedianCurve(rows, filterList, x, y)[i] == None <==> forall j :: x <= j < y ==> j in filterList
    {
      SurvivorsEmpty(rows[i], filterList, x, y);
    }
  }

  /** Every column of [x, y) outside filterList contributes its reading. */
  lemma {:induction false} SurvivorsHold(row: seq<real>, filterList: seq<int>, x: int, y: int, j: int)
    requires forall j :: x <= j < y && j !in filterList ==> -|row| <= j < |row|
    requires x <= j < y && j !in filterList
    ensures PyAt(row, j) in Survivors(row, filterList, x, y)
    decreases y - x
  {
    if j < y - 1 {
      SurvivorsHold(row, filterList, x, y - 1, j);
    }
  }

  /** filter records the 0-based replicate index `repIdx`, while rep_median
      compares filterList with 1-based META columns, where replicate `repIdx` sits
      in column `repIdx + 1`. So a replicate the filter removes still takes part
      in the median of its group, unless the next index happens to be flagged too. */
  lemma FilteredReplicateStillCounted(meta: Meta, filterList: seq<int>, repIdx: nat, x: int, y: int, v: nat)
    requires Filterable(meta) && repIdx < RepCount(meta)
    requires filterList == Flagged(meta, RepCount(meta)) && Removed(CategoryOf(meta, repIdx))
    requires repIdx + 1 !in filterList && x <= repIdx + 1 < y
    requires v + 1 < |meta.rows| && ColumnsReadable(meta.rows, filterList, x, y)
    ensures repIdx in filterList
    ensures Replicate(meta, repIdx)[v] in Survivors(meta.rows[v + 1], filterList, x, y)
  {
    FlaggedMembers(meta, RepCount(meta));
    ColumnStillCounted(meta, filterList, repIdx, x, y, v);
  }

  lemma ColumnStillCounted(meta: Meta, filterList: seq<int>, repIdx: nat, x: int, y: int, v: nat)
    requires Readable(meta) && repIdx < NumReps(meta)
    requires repIdx + 1 !in filterList && x <= repIdx + 1 < y
    requires v + 1 < |meta.rows| && ColumnsReadable(meta.rows, filterList, x, y)
    ensures Replicate(meta, repIdx)[v] in Survivors(meta.rows[v + 1], filterList, x, y)
  {
    var row := meta.rows[v + 1];
    assert forall j :: x <= j < y && j !in filterList ==> -|row| <= j < |row|;
    SurvivorsHold(row, filterList, x, y, repIdx + 1);
    assert PyAt(row, repIdx + 1) == Replicate(meta, repIdx)[v];
  }

  /** Replicates that agree on a row give that row's common reading as its median. */
  lemma MedianOfAgreeingReplicates(row: seq<real>, filterList: seq<int>, x: int, y: int, v: real)
    requires forall j :: x <= j < y && j !in filterList ==> -|row| <= j < |row|
    requires forall j :: x <= j < y && j !in filterList ==> PyAt(row, j) == v
    requires exists j :: x <= j < y && j !in filterList
    ensures MedianOrNaN(row, filterList, x, y) == Some(v)
  {
    var s := Survivors(row, filterList, x, y);
    SurvivorsEmpty(row, filterList, x, y);
    SurvivorsAll(row, filterList, x, y, v);
    MedianBounds(s, v, v);
  }

  lemma {:induction false} SurvivorsAll(row: seq<real>, filterList: seq<int>, x: int, y: int, v: real)
    requires forall j :: x <= j < y && j !in filterList ==> -|row| <= j < |row|
    requires forall j :: x <= j < y && j !in filterList ==> PyAt(row, j) == v
    ensures forall i :: 0 <= i < |Survivors(row, filterList, x, y)| ==> Survivors(row, filterList, x, y)[i] == v
    decreases y - x
  {
    if y > x {
      SurvivorsAll(row, filterList, x, y - 1, v);
    }
  }

  // ---------------------------------------------------------------------
  // asymptote and p2 (lines 363-380).

  /** The means of the non-overlapping slices `averageA[3k:3k+3]`, k = 0 .. n - 1,
      each summed and divided by 3.0; slices past the end are short or empty. */
  function BlockMeans(averageA: seq<real>): (m: seq<real>)
    ensures |m| == |averageA|
  {
    seq(|averageA|, k requires 0 <= k < |averageA| => MeanOfThree(PySlice(averageA, 3 * k, 3 * k + 3)))
  }

  /** `sum(block) / 3.0`, whatever the length of the block. */
  function MeanOfThree(block: seq<real>): real
  {
    Sum(block) / 3.0
  }

  /** Lines 366-369: the consecutive blocks `averageA[3k:3k+3]`, one per reading,
      cut at the running offsets 0, 3, 6, ... */
  method ThreeBlocks(averageA: seq<real>) returns (consecutive: seq<seq<real>>)
    ensures |consecutive| == |averageA|
    ensures forall k :: 0 <= k < |averageA| ==> consecutive[k] == PySlice(averageA, 3 * k, 3 * k + 3)
  {
    var steps := IndexesFromIterationBlock(Repeat(3, |averageA|), [0]);
    consecutive := SublistByIterationSet(averageA, steps, []);
    BlockSlices(averageA);
  }

  method Asymptote(asymptote: seq<real>, averageA: seq<real>) returns (extended: seq<real>)
    requires |averageA| >= 1
    ensures extended == asymptote + [Largest(BlockMeans(averageA))]
  {
    var consecutive := ThreeBlocks(averageA);
    var averages: seq<real> := [];
    for i := 0 to |consecutive|
      invariant averages == BlockMeans(averageA)[..i]
    {
      averages := averages + [Sum(consecutive[i]) / 3.0];
    }
    assert averages == BlockMeans(averageA);
    extended := asymptote + [Largest(averages)];
  }

  /** Slicing at offsets spaced 3 apart gives the blocks `averageA[3k:3k+3]`. */
  lemma BlockSlices(averageA: seq<real>)
    ensures |Slices(averageA, PrefixSums(0, Repeat(3, |averageA|)))| == |averageA|
    ensures forall k :: 0 <= k < |averageA| ==>
      Slices(averageA, PrefixSums(0, Repeat(3, |averageA|)))[k] == PySlice(averageA, 3 * k, 3 * k + 3)
  {
    var offsets := PrefixSums(0, Repeat(3, |averageA|));
    forall k | 0 <= k < |averageA| ensures Slices(averageA, offsets)[k] == PySlice(averageA, 3 * k, 3 * k + 3) {
      PrefixSumsOfRepeat(3, |averageA|, k);
      PrefixSumsOfRepeat(3, |averageA|, k + 1);
    }
  }

  /** The asymptote is the largest block mean; with two or more readings some block is
      empty, so it is never negative; and readings in [0, hi] keep it in [0, hi]. */
  lemma AsymptoteBounds(averageA: seq<real>, hi: real)
    requires |averageA| >= 1
    ensures forall k :: 0 <= k < |averageA| ==> BlockMeans(averageA)[k] <= Largest(BlockMeans(averageA))
    ensures |averageA| >= 2 ==> Largest(BlockMeans(averageA)) >= 0.0
    ensures (forall i :: 0 <= i < |averageA| ==> 0.0 <= averageA[i] <= hi) ==>
      0.0 <= Largest(BlockMeans(averageA)) <= hi
  {
    var means := BlockMeans(averageA);
    var n := |averageA|;
    if n >= 2 {
      assert PySlice(averageA, 3 * (n - 1), 3 * (n - 1) + 3) == [];
      assert means[n - 1] == 0.0;
    }
    if forall i :: 0 <= i < n ==> 0.0 <= averageA[i] <= hi {
      forall k | 0 <= k < n ensures 0.0 <= means[k] <= hi {
        BlockMeanWithin(averageA, k, hi);
      }
    }
  }

  /** A block mean of readings in [0, hi] lies in [0, hi]. */
  lemma BlockMeanWithin(averageA: seq<real>, k: nat, hi: real)
    requires k < |averageA|
    requires forall i :: 0 <= i < |averageA| ==> 0.0 <= averageA[i] <= hi
    ensures 0.0 <= BlockMeans(averageA)[k] <= hi
  {
    assert 0.0 <= averageA[0] <= hi;
    var block := SliceWithin(averageA, 3 * k, 3, 0.0, hi);
    SumBounds(block, 0.0, hi);
    assert (|block| as real) * hi <= 3.0 * hi;
    assert BlockMeans(averageA)[k] == Sum(block) / 3.0;
  }

  /** p2: the second reading of the curve (lines 376-380). */
  method P2(p2: seq<real>, averageA: seq<real>) returns (extended: seq<real>)
    requires |averageA| >= 2
    ensures |extended| == |p2| + 1 && extended[..|p2|] == p2
    ensures extended[|p2|] == averageA[1]
  {
    extended := p2 + [averageA[1]];
  }

  // ---------------------------------------------------------------------
  // max_growth_rate (lines 381-404).

  /** The growth rate of each window (k, k + w): 2.303 times the rise of log10 OD
      over the time elapsed. `logAverage[i]` is log10 of the i-th averaged reading. */
  function WindowRates(logAverage: seq<real>, time: seq<real>, w: nat): (rates: seq<real>)
    requires w >= 1 && |logAverage| <= |time|
    requires forall k :: 0 <= k < |logAverage| - w ==> time[k + w] != time[k]
    ensures |rates| == if |logAverage| < w then 0 else |logAverage| - w
  {
    var n := if |logAverage| < w then 0 else |logAverage| - w;
    seq(n, k requires 0 <= k < n => 2.303 * (logAverage[k + w] - logAverage[k]) / (time[k + w] - time[k]))
  }

  /** Appends the second largest window rate: at most one rate lies strictly above
      it and at least two rates reach it (with ties it equals the largest). */
  method MaxGrowthRate(windowSize: nat, maxGrowthRate: seq<real>, logAverage: seq<real>, experimentTime: seq<real>)
    returns (extended: seq<real>)
    requires windowSize >= 1 && |logAverage| <= |experimentTime|
    requires |logAverage| >= windowSize + 2
    requires forall k :: 0 <= k < |logAverage| - windowSize ==> experimentTime[k + windowSize] != experimentTime[k]
    ensures |extended| == |maxGrowthRate| + 1 && extended[..|maxGrowthRate|] == maxGrowthRate
    ensures extended[|maxGrowthRate|] == SecondLargest(WindowRates(logAverage, experimentTime, windowSize))
    ensures IsSecondLargest(WindowRates(logAverage, experimentTime, windowSize), extended[|maxGrowthRate|])
  {
    var overlappedTime: seq<(real, real)> := [];
    var a := -1;
    var b := windowSize - 1;
    while b <= |experimentTime| - 2
      invariant b == a + windowSize && -1 <= a
      invariant b <= |experimentTime| - 1
      invariant |overlappedTime| == a + 1
      invariant forall k :: 0 <= k <= a ==>
        overlappedTime[k] == (experimentTime[k], experimentTime[k + windowSize])
    {
      a := a + 1;
      b := b + 1;
      overlappedTime := overlappedTime + [(experimentTime[a], experimentTime[b])];
    }
    var overlappedLog: seq<(real, real)> := [];
    a := -1;
    b := windowSize - 1;
    while b <= |logAverage| - 2
      invariant b == a + windowSize && -1 <= a
      invariant b <= |logAverage| - 1
      invariant |overlappedLog| == a + 1
      invariant forall k :: 0 <= k <= a ==>
        overlappedLog[k] == (logAverage[k], logAverage[k + windowSize])
    {
      a := a + 1;
      b := b + 1;
      overlappedLog := overlappedLog + [(logAverage[a], logAverage[b])];
    }
    var rates := WindowRates(logAverage, experimentTime, windowSize);
    var growthRate: seq<real> := [];
    for i := 0 to |overlappedLog|
      invariant growthRate == rates[..i]
    {
      assert overlappedTime[i] == (experimentTime[i], experimentTime[i + windowSize]);
      assert experimentTime[i + windowSize] != experimentTime[i];
      growthRate := growthRate + [2.303 * (overlappedLog[i].1 - overlappedLog[i].0)
        / (overlappedTime[i].1 - overlappedTime[i].0)];
    }
    assert growthRate == rates;
    extended := maxGrowthRate + [SecondLargest(growthRate)];
  }
}
