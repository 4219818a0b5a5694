/** The plate-reader table of scripts/py/PMData.py: a header of four lines (clone,
    source, condition and well of every column) followed by one line per reading
    time, parsed into per-(clone, replicate, source, condition) OD arrays. Lines
    arrive already split on tabs; the OD lines already converted to numbers. */
module PMDataModel {
  import opened Seqs
  import opened ListHelpers

  /** One entry of the nested table `dataHash[clone][rep][source][condition]`. */
  datatype Key = Key(clone: string, rep: int, source: string, condition: string)

  // ---------------------------------------------------------------------
  // Replicate numbers.

  /** The clone name the loops compare column i with: the previous column's, or
      the empty string the loops start from. */
  function Previous(names: seq<string>, i: nat): string
    requires i < |names|
  {
    if i == 0 then "" else names[i - 1]
  }

  /** The replicate number the loops at lines 79-85 and 103-111 give column i:
      one more than the previous column's when the clone name repeats, else 1. */
  function RepNumber(names: seq<string>, i: nat): (r: nat)
    requires i < |names|
    ensures r >= 1
  {
    if names[i] != Previous(names, i) then 1
    else if i == 0 then 2
    else RepNumber(names, i - 1) + 1
  }

  /** The replicate counter of the loops at lines 79-85 and 103-111 moves from
      column i - 1 to column i. */
  lemma RepCounterStep(names: seq<string>, i: nat, prevClone: string, numRep: int)
    requires i < |names|
    requires i == 0 ==> prevClone == "" && numRep == 1
    requires i > 0 ==> prevClone == names[i - 1] && numRep == RepNumber(names, i - 1)
    ensures (if names[i] == prevClone then numRep + 1 else 1) == RepNumber(names, i)
  {
  }

  /** The replicate number of every column. */
  function Reps(names: seq<string>): (r: seq<int>)
    ensures |r| == |names|
  {
    seq(|names|, i requires 0 <= i < |names| => RepNumber(names, i))
  }

  /** A named column's replicate number is 1 plus the number of immediately
      preceding columns with the same name. */
  lemma {:induction false} RepNumberRun(names: seq<string>, i: nat)
    requires i < |names| && names[i] != ""
    ensures RepNumber(names, i) <= i + 1
    ensures forall j :: i - RepNumber(names, i) < j <= i ==> names[j] == names[i]
    ensures RepNumber(names, i) <= i ==> names[i - RepNumber(names, i)] != names[i]
  {
    if i > 0 && names[i] == names[i - 1] {
      RepNumberRun(names, i - 1);
    }
  }

  /** The empty string the loops start from counts as a previous column: a leading
      run of empty names is numbered from 2. */
  lemma {:induction false} RepNumberEmptyName(names: seq<string>, i: nat)
    requires i < |names|
    requires forall j :: 0 <= j <= i ==> names[j] == ""
    ensures RepNumber(names, i) == i + 2
  {
    if i > 0 {
      RepNumberEmptyName(names, i - 1);
    }
  }

  // ---------------------------------------------------------------------
  // Dictionaries filled column by column.

  /** `d[keys[j]] = values[j]` for j in order, starting from an empty dictionary. */
  function LastWins<K, V>(keys: seq<K>, values: seq<V>): map<K, V>
    requires |keys| == |values|
  {
    if |keys| == 0 then map[]
    else LastWins(keys[..|keys| - 1], values[..|values| - 1])[keys[|keys| - 1] := values[|values| - 1]]
  }

  /** The dictionary holds exactly the keys written, each with the value of its last write. */
  lemma {:induction false} LastWinsLookup<K, V>(keys: seq<K>, values: seq<V>)
    requires |keys| == |values|
    ensures forall k :: k in LastWins(keys, values) <==> k in keys
    ensures forall k :: k in LastWins(keys, values) ==>
      LastIndexBefore(keys, k, |keys|) >= 0 && LastWins(keys, values)[k] == values[LastIndexBefore(keys, k, |keys|)]
  {
    if |keys| > 0 {
      var n := |keys| - 1;
      LastWinsLookup(keys[..n], values[..n]);
      assert keys == keys[..n] + [keys[n]];
      forall k | k in LastWins(keys, values) && k != keys[n]
        ensures LastIndexBefore(keys, k, |keys|) == LastIndexBefore(keys[..n], k, n)
      {
        LastIndexPrefix(keys, k, n);
      }
    }
  }

  lemma {:induction false} LastIndexPrefix<T>(s: seq<T>, x: T, n: nat)
    requires n <= |s|
    ensures LastIndexBefore(s, x, n) == LastIndexBefore(s[..n], x, n)
    decreases n
  {
    if n > 0 && s[n - 1] != x {
      LastIndexPrefix(s, x, n - 1);
      assert s[..n][..n - 1] == s[..n - 1];
      LastIndexPrefix(s[..n], x, n - 1);
    }
  }

  /** `numReplicates` after the loop at lines 81-85 over the given clone names. */
  function Replicates(names: seq<string>): map<string, int>
  {
    LastWins(names, Reps(names))
  }

  /** Every clone name ends with the replicate number of its last column, the
      length of its last consecutive run. */
  lemma ReplicatesLastRun(names: seq<string>)
    ensures forall c :: c in Replicates(names) <==> c in names
    ensures forall c :: c in Replicates(names) ==>
      LastIndexBefore(names, c, |names|) >= 0 && Replicates(names)[c] == RepNumber(names, LastIndexBefore(names, c, |names|))
  {
    LastWinsLookup(names, Reps(names));
  }

  /** The columns `zip(ll[1:], sourcesNU, conditionsNU)` reads: as many as the shortest list. */
  function ZipLength(wells: seq<string>, sources: seq<string>, conditions: seq<string>): nat
  {
    if |wells| <= |sources| && |wells| <= |conditions| then |wells|
    else if |sources| <= |conditions| then |sources|
    else |conditions|
  }

  /** The (source, condition) of each of the first n columns. */
  function Placements(sources: seq<string>, conditions: seq<string>, n: nat): (r: seq<(string, string)>)
    requires n <= |sources| && n <= |conditions|
    ensures |r| == n
  {
    seq(n, j requires 0 <= j < n => (sources[j], conditions[j]))
  }

  /** `wells` after line 97-98: each well label maps to the (source, condition) of
      its last column. */
  function WellMap(wells: seq<string>, sources: seq<string>, conditions: seq<string>): map<string, (string, string)>
  {
    var n := ZipLength(wells, sources, conditions);
    LastWins(wells[..n], Placements(sources, conditions, n))
  }

  /** Each labelled well maps to the source and condition of the last column with its
      label; no other well appears. */
  lemma WellMapLookup(wells: seq<string>, sources: seq<string>, conditions: seq<string>)
    ensures forall w :: w in WellMap(wells, sources, conditions) <==> w in wells[..ZipLength(wells, sources, conditions)]
    ensures forall w :: w in WellMap(wells, sources, conditions) ==>
      var j := LastIndexBefore(wells, w, ZipLength(wells, sources, conditions));
      0 <= j && WellMap(wells, sources, conditions)[w] == (sources[j], conditions[j])
  {
    var n := ZipLength(wells, sources, conditions);
    LastWinsLookup(wells[..n], Placements(sources, conditions, n));
    forall w | w in WellMap(wells, sources, conditions)
      ensures LastIndexBefore(wells, w, n) == LastIndexBefore(wells[..n], w, n)
    {
      LastIndexPrefix(wells, w, n);
    }
  }

  // ---------------------------------------------------------------------
  // Clone names.

  /** `set(ll[1:])` has as many names as the first-appearance list of `unique_list`. */
  lemma DistinctNames(names: seq<string>)
    ensures |set c | c in names| == |Unique([], names)|
  {
    var u := Unique([], names);
    UniqueElements([], names);
    UniqueDistinct([], names);
    assert (set c | c in names) == (set c | c in u);
    DistinctSetSize(u);
  }

  lemma {:induction false} DistinctSetSize<T>(s: seq<T>)
    requires Distinct(s)
    ensures |set x | x in s| == |s|
  {
    if |s| > 0 {
      var n := |s| - 1;
      DistinctSetSize(s[..n]);
      assert (set x | x in s) == (set x | x in s[..n]) + {s[n]};
      assert s[n] !in (set x | x in s[..n]);
    }
  }

  // ---------------------------------------------------------------------
  // Conditions per source.

  /** `{s: [] for s in set(sources)}`: every source, with no conditions yet. */
  function NoConditions(sources: seq<string>): (r: map<string, set<string>>)
    ensures forall s :: s in r <==> s in sources
  {
    map s | s in sources :: {}
  }

  /** `conditions` after the comprehension at lines 69-70: each source gains the
      conditions of the columns it heads. */
  function Gathered(conditions: map<string, set<string>>, sources: seq<string>, conditionsNU: seq<string>): map<string, set<string>>
  {
    map s | s in conditions :: conditions[s] + (set idx | 0 <= idx < |conditionsNU| && idx < |sources| && sources[idx] == s :: conditionsNU[idx])
  }

  lemma GatheredNone(conditions: map<string, set<string>>, sources: seq<string>)
    ensures Gathered(conditions, sources, []) == conditions
  {
    var g := Gathered(conditions, sources, []);
    forall s | s in conditions ensures g[s] == conditions[s] {
    }
  }

  /** One more column adds its condition to its source. */
  lemma GatheredStep(conditions: map<string, set<string>>, sources: seq<string>, conditionsNU: seq<string>, idx: nat)
    requires idx < |conditionsNU| && idx < |sources| && sources[idx] in conditions
    ensures var g := Gathered(conditions, sources, conditionsNU[..idx]);
      Gathered(conditions, sources, conditionsNU[..idx + 1]) == g[sources[idx] := g[sources[idx]] + {conditionsNU[idx]}]
  {
    var g := Gathered(conditions, sources, conditionsNU[..idx]);
    var h := Gathered(conditions, sources, conditionsNU[..idx + 1]);
    forall s | s in conditions
      ensures h[s] == if s == sources[idx] then g[s] + {conditionsNU[idx]} else g[s]
    {
      HeadedStep(sources, conditionsNU, idx, s);
    }
  }

  /** The conditions of the columns a source heads, before and after one more column. */
  lemma HeadedStep(sources: seq<string>, conditionsNU: seq<string>, idx: nat, s: string)
    requires idx < |conditionsNU| && idx < |sources|
    ensures var before := conditionsNU[..idx];
      var after := conditionsNU[..idx + 1];
      (set j | 0 <= j < |after| && j < |sources| && sources[j] == s :: after[j])
        == (set j | 0 <= j < |before| && j < |sources| && sources[j] == s :: before[j])
           + (if s == sources[idx] then {conditionsNU[idx]} else {})
  {
    var before := conditionsNU[..idx];
    var after := conditionsNU[..idx + 1];
    var added := set j | 0 <= j < |after| && j < |sources| && sources[j] == s :: after[j];
    var had := set j | 0 <= j < |before| && j < |sources| && sources[j] == s :: before[j];
    forall c | c in added ensures c in had + (if s == sources[idx] then {conditionsNU[idx]} else {}) {
      var j :| 0 <= j < |after| && j < |sources| && sources[j] == s && after[j] == c;
      if j < idx { assert before[j] == c; }
    }
    forall c | c in had ensures c in added {
      var j :| 0 <= j < |before| && j < |sources| && sources[j] == s && before[j] == c;
      assert after[j] == c;
    }
    if s == sources[idx] {
      assert after[idx] == conditionsNU[idx];
    }
  }

  /** The (source, condition) pairs of a map from sources to condition sets. */
  function Flatten(conditions: map<string, set<string>>, sources: set<string>): set<(string, string)>
    requires sources <= conditions.Keys
  {
    set s, c | s in sources && c in conditions[s] :: (s, c)
  }

  lemma {:induction false} PairedSize(s: string, cs: set<string>)
    ensures |set c | c in cs :: (s, c)| == |cs|
  {
    if cs != {} {
      var x :| x in cs;
      PairedSize(s, cs - {x});
      assert (set c | c in cs :: (s, c)) == (set c | c in cs - {x} :: (s, c)) + {(s, x)};
    }
  }

  /** Taking one source out of the count removes exactly its conditions. */
  lemma FlattenRemove(conditions: map<string, set<string>>, sources: set<string>, s: string)
    requires sources <= conditions.Keys && s in sources
    ensures |Flatten(conditions, sources)| == |Flatten(conditions, sources - {s})| + |conditions[s]|
  {
    var own := set c | c in conditions[s] :: (s, c);
    assert Flatten(conditions, sources) == Flatten(conditions, sources - {s}) + own;
    assert Flatten(conditions, sources - {s}) !! own;
    PairedSize(s, conditions[s]);
  }

  /** From empty condition sets, the gathered pairs are the distinct (source,
      condition) pairs of the columns. */
  lemma GatheredPairs(sources: seq<string>, conditionsNU: seq<string>)
    requires |conditionsNU| <= |sources|
    ensures var start := NoConditions(sources);
      Flatten(Gathered(start, sources, conditionsNU), start.Keys)
        == set idx | 0 <= idx < |conditionsNU| :: (sources[idx], conditionsNU[idx])
  {
    var start := NoConditions(sources);
    var g := Gathered(start, sources, conditionsNU);
    var columns := set idx | 0 <= idx < |conditionsNU| :: (sources[idx], conditionsNU[idx]);
    forall p | p in columns ensures p in Flatten(g, start.Keys) {
      var idx :| 0 <= idx < |conditionsNU| && p == (sources[idx], conditionsNU[idx]);
      assert sources[idx] in start;
      assert conditionsNU[idx] in g[sources[idx]];
    }
  }

  // ---------------------------------------------------------------------
  // The data table.

  /** The (clone, replicate, source) triples whose condition dictionaries the loop
      at lines 81-94 rebuilds: every column's clone and replicate, with every source. */
  function Triples(names: seq<string>, sources: set<string>): set<(string, int, string)>
  {
    set i, s | 0 <= i < |names| && s in sources :: (names[i], RepNumber(names, i), s)
  }

  /** `dataHash[clone][rep][source] = {cond: [] for cond in conds}` on the flat table. */
  function Rebuild(dataHash: map<Key, seq<real>>, clone: string, rep: int, source: string, conds: set<string>): map<Key, seq<real>>
  {
    (map k | k in dataHash && !(k.clone == clone && k.rep == rep && k.source == source) :: dataHash[k])
      + (map c | c in conds :: Key(clone, rep, source, c) := [])
  }

  /** `dataHash` is `dataHash0` with the condition dictionaries of the triples in
      `done` rebuilt empty from `conditions`. */
  ghost predicate RebuiltFrom(dataHash0: map<Key, seq<real>>, dataHash: map<Key, seq<real>>,
                              done: set<(string, int, string)>, conditions: map<string, set<string>>)
  {
    (forall k :: k in dataHash <==>
       if (k.clone, k.rep, k.source) in done then k.source in conditions && k.condition in conditions[k.source]
       else k in dataHash0)
    && (forall k :: k in dataHash ==> dataHash[k] == if (k.clone, k.rep, k.source) in done then [] else dataHash0[k])
  }

  /** The three header lines set up the key of every column an OD line reads: with
      every source starting from no conditions, the gathered conditions and a table
      rebuilt for every (clone, replicate, source) hold each column's key. */
  lemma HeaderKeysPresent(names: seq<string>, sources: seq<string>, conditionsNU: seq<string>,
                          dataHash0: map<Key, seq<real>>, dataHash: map<Key, seq<real>>)
    requires |conditionsNU| <= |sources|
    requires RebuiltFrom(dataHash0, dataHash,
                         Triples(names, Gathered(NoConditions(sources), sources, conditionsNU).Keys),
                         Gathered(NoConditions(sources), sources, conditionsNU))
    ensures forall idx :: 0 <= idx < |names| && idx < |conditionsNU| ==>
      ColumnKey(names, sources, conditionsNU, idx) in dataHash
  {
    var conditions := Gathered(NoConditions(sources), sources, conditionsNU);
    forall idx | 0 <= idx < |names| && idx < |conditionsNU|
      ensures ColumnKey(names, sources, conditionsNU, idx) in dataHash
    {
      var source := sources[idx];
      assert source in conditions;
      assert conditionsNU[idx] in conditions[source];
      assert (names[idx], RepNumber(names, idx), source) in Triples(names, conditions.Keys);
    }
  }

  /** Rebuilding one more triple extends the set of rebuilt triples. */
  lemma RebuildStep(dataHash0: map<Key, seq<real>>, dataHash: map<Key, seq<real>>,
                    done: set<(string, int, string)>, conditions: map<string, set<string>>,
                    clone: string, rep: int, source: string)
    requires source in conditions
    requires RebuiltFrom(dataHash0, dataHash, done, conditions)
    ensures RebuiltFrom(dataHash0, Rebuild(dataHash, clone, rep, source, conditions[source]), done + {(clone, rep, source)}, conditions)
  {
  }

  /** The readings of the OD line `ods` whose column has key k, in column order. */
  function ColumnKey(names: seq<string>, sources: seq<string>, conditions: seq<string>, idx: nat): Key
    requires idx < |names| && idx < |sources| && idx < |conditions|
  {
    Key(names[idx], RepNumber(names, idx), sources[idx], conditions[idx])
  }

  function ReadingsFor(names: seq<string>, sources: seq<string>, conditions: seq<string>, ods: seq<real>, k: Key): seq<real>
    requires |ods| <= |names| && |ods| <= |sources| && |ods| <= |conditions|
  {
    if |ods| == 0 then []
    else
      var n := |ods| - 1;
      ReadingsFor(names, sources, conditions, ods[..n], k)
        + (if ColumnKey(names, sources, conditions, n) == k then [ods[n]] else [])
  }

  lemma ReadingsStep(names: seq<string>, sources: seq<string>, conditions: seq<string>, ods: seq<real>, idx: nat, k: Key)
    requires idx < |ods| && |ods| <= |names| && |ods| <= |sources| && |ods| <= |conditions|
    ensures ReadingsFor(names, sources, conditions, ods[..idx + 1], k)
         == ReadingsFor(names, sources, conditions, ods[..idx], k)
            + (if ColumnKey(names, sources, conditions, idx) == k then [ods[idx]] else [])
  {
    assert ods[..idx + 1][..idx] == ods[..idx];
  }

  /** `dataHash` is `dataHash0` with the readings of the first n columns of `ods` appended. */
  ghost predicate AppendedUpTo(dataHash0: map<Key, seq<real>>, dataHash: map<Key, seq<real>>,
                               names: seq<string>, sources: seq<string>, conditions: seq<string>, ods: seq<real>, n: nat)
    requires n <= |ods| <= |names| && |ods| <= |sources| && |ods| <= |conditions|
  {
    dataHash.Keys == dataHash0.Keys
    && forall k :: k in dataHash ==> dataHash[k] == dataHash0[k] + ReadingsFor(names, sources, conditions, ods[..n], k)
  }

  /** Appending column idx's reading to its own array moves on to the next column. */
  lemma AppendStep(dataHash0: map<Key, seq<real>>, dataHash: map<Key, seq<real>>,
                   names: seq<string>, sources: seq<string>, conditions: seq<string>, ods: seq<real>, idx: nat)
    requires idx < |ods| <= |names| && |ods| <= |sources| && |ods| <= |conditions|
    requires AppendedUpTo(dataHash0, dataHash, names, sources, conditions, ods, idx)
    requires ColumnKey(names, sources, conditions, idx) in dataHash
    ensures var key := ColumnKey(names, sources, conditions, idx);
      AppendedUpTo(dataHash0, dataHash[key := dataHash[key] + [ods[idx]]], names, sources, conditions, ods, idx + 1)
  {
    var key := ColumnKey(names, sources, conditions, idx);
    var next := dataHash[key := dataHash[key] + [ods[idx]]];
    forall k | k in next
      ensures next[k] == dataHash0[k] + ReadingsFor(names, sources, conditions, ods[..idx + 1], k)
    {
      ReadingsStep(names, sources, conditions, ods, idx, k);
    }
  }

  /** When no two columns share a key, each column's array gains exactly its own
      reading and no other array gains anything. */
  lemma {:induction false} ReadingsOfDistinctColumns(names: seq<string>, sources: seq<string>, conditions: seq<string>,
                                                    ods: seq<real>, k: Key)
    requires |ods| <= |names| && |ods| <= |sources| && |ods| <= |conditions|
    requires forall i, j :: 0 <= i < j < |ods| ==> ColumnKey(names, sources, conditions, i) != ColumnKey(names, sources, conditions, j)
    ensures ReadingsFor(names, sources, conditions, ods, k)
         == if exists i :: 0 <= i < |ods| && ColumnKey(names, sources, conditions, i) == k
            then [ods[ColumnOf(names, sources, conditions, |ods|, k)]] else []
  {
    if |ods| > 0 {
      var n := |ods| - 1;
      ReadingsOfDistinctColumns(names, sources, conditions, ods[..n], k);
      if ColumnKey(names, sources, conditions, n) == k {
        assert ColumnOf(names, sources, conditions, |ods|, k) == n;
        assert !exists i :: 0 <= i < n && ColumnKey(names, sources, conditions, i) == k;
      } else if exists i :: 0 <= i < n && ColumnKey(names, sources, conditions, i) == k {
        assert ColumnOf(names, sources, conditions, |ods|, k) == ColumnOf(names, sources, conditions, n, k);
      }
    }
  }

  /** The last of the first n columns whose key is k. */
  function ColumnOf(names: seq<string>, sources: seq<string>, conditions: seq<string>, n: nat, k: Key): (i: nat)
    requires n <= |names| && n <= |sources| && n <= |conditions|
    requires exists i :: 0 <= i < n && ColumnKey(names, sources, conditions, i) == k
    ensures i < n && ColumnKey(names, sources, conditions, i) == k
  {
    if ColumnKey(names, sources, conditions, n - 1) == k then n - 1
    else ColumnOf(names, sources, conditions, n - 1, k)
  }

  /** The loop at lines 103-114: walking the columns with the same replicate
      counter as parseConditions, each reading goes to the array of its column's key. */
  method AppendReadings(names: seq<string>, sources: seq<string>, conditions: seq<string>, ods: seq<real>,
                        dataHash: map<Key, seq<real>>) returns (hash: map<Key, seq<real>>)
    requires |ods| <= |names| && |ods| <= |sources| && |ods| <= |conditions|
    requires forall idx :: 0 <= idx < |ods| ==> ColumnKey(names, sources, conditions, idx) in dataHash
    ensures hash.Keys == dataHash.Keys
    ensures forall k :: k in hash ==> hash[k] == dataHash[k] + ReadingsFor(names, sources, conditions, ods, k)
  {
    var numRep := 1;
    var prevClone := "";
    hash := dataHash;
    assert AppendedUpTo(dataHash, hash, names, sources, conditions, ods, 0) by {
      assert forall k :: ReadingsFor(names, sources, conditions, ods[..0], k) == [];
    }
    for idx := 0 to |ods|
      invariant idx == 0 ==> prevClone == "" && numRep == 1
      invariant idx > 0 ==> prevClone == names[idx - 1] && numRep == RepNumber(names, idx - 1)
      invariant AppendedUpTo(dataHash, hash, names, sources, conditions, ods, idx)
    {
      var clone := names[idx];
      var source := sources[idx];
      var condition := conditions[idx];
      RepCounterStep(names, idx, prevClone, numRep);
      numRep := if clone == prevClone then numRep + 1 else 1;
      prevClone := clone;
      var key := Key(clone, numRep, source, condition);
      assert key == ColumnKey(names, sources, conditions, idx) && key in dataHash;
      AppendStep(dataHash, hash, names, sources, conditions, ods, idx);
      hash := hash[key := hash[key] + [ods[idx]]];
    }
    assert ods[..|ods|] == ods;
  }

  /** The number of replicates getCloneData returns: `numReplicates[clone]`, and
      always the first one. */
  function RowCount(numReplicates: int): nat
  {
    if numReplicates < 1 then 1 else numReplicates
  }

  class PMData {
    var numClones: int
    var numConditions: int
    var numReplicates: map<string, int>
    var clones: set<string>
    var conditions: map<string, set<string>>
    var wells: map<string, (string, string)>
    var time: seq<real>
    var clonesNU: seq<string>
    var sourcesNU: seq<string>
    var conditionsNU: seq<string>
    var dataHash: map<Key, seq<real>>

    /** Lines 10-25, without reading the file. */
    constructor ()
      ensures numClones == 0 && numConditions == 0 && numReplicates == map[] && clones == {}
      ensures conditions == map[] && wells == map[] && time == []
      ensures clonesNU == [] && sourcesNU == [] && conditionsNU == [] && dataHash == map[]
    {
      numClones, numConditions, numReplicates, clones := 0, 0, map[], {};
      conditions, wells, time := map[], map[], [];
      clonesNU, sourcesNU, conditionsNU, dataHash := [], [], [], map[];
    }

    /** Lines 56-59: the clone line. */
    method ParseClones(ll: seq<string>)
      modifies this
      ensures clonesNU == Tail(ll)
      ensures clones == set c | c in Tail(ll)
      ensures numClones == |Unique([], Tail(ll))|
      ensures numConditions == old(numConditions) && numReplicates == old(numReplicates)
      ensures conditions == old(conditions) && wells == old(wells) && time == old(time)
      ensures sourcesNU == old(sourcesNU) && conditionsNU == old(conditionsNU) && dataHash == old(dataHash)
    {
      clonesNU := Tail(ll);
      clones := set c | c in Tail(ll);
      numClones := |clones|;
      DistinctNames(Tail(ll));
    }

    /** Lines 61-64: the source line; every source starts with no conditions. */
    method ParseSources(ll: seq<string>)
      modifies this
      ensures sourcesNU == Tail(ll)
      ensures conditions == NoConditions(Tail(ll))
      ensures numClones == old(numClones) && numConditions == old(numConditions) && numReplicates == old(numReplicates)
      ensures clones == old(clones) && wells == old(wells) && time == old(time)
      ensures clonesNU == old(clonesNU) && conditionsNU == old(conditionsNU) && dataHash == old(dataHash)
    {
      sourcesNU := Tail(ll);
      conditions := NoConditions(sourcesNU);
    }

    /** Lines 66-94: the condition line. Each source collects the conditions of
        its columns, numConditions grows by the number of distinct (source,
        condition) pairs, every clone records the replicate number of its last
        column, and every (clone, replicate, source) gets empty arrays for the
        source's conditions. */
    method ParseConditions(ll: seq<string>)
      requires |Tail(ll)| <= |sourcesNU|
      requires forall idx :: 0 <= idx < |Tail(ll)| ==> sourcesNU[idx] in conditions
      modifies this
      ensures conditionsNU == Tail(ll)
      ensures conditions == Gathered(old(conditions), sourcesNU, Tail(ll))
      ensures numConditions == old(numConditions) + |Flatten(conditions, conditions.Keys)|
      ensures numReplicates == old(numReplicates) + Replicates(clonesNU)
      ensures RebuiltFrom(old(dataHash), dataHash, Triples(clonesNU, conditions.Keys), conditions)
      ensures numClones == old(numClones) && clones == old(clones) && wells == old(wells) && time == old(time)
      ensures clonesNU == old(clonesNU) && sourcesNU == old(sourcesNU)
    {
      conditionsNU := Tail(ll);
      GatherConditions();
      CountConditions();
      InitialiseTable();
    }

    /** Lines 69-70. */
    method GatherConditions()
      requires |conditionsNU| <= |sourcesNU|
      requires forall idx :: 0 <= idx < |conditionsNU| ==> sourcesNU[idx] in conditions
      modifies this`conditions
      ensures conditions == Gathered(old(conditions), sourcesNU, conditionsNU)
    {
      GatheredNone(conditions, sourcesNU);
      for idx := 0 to |conditionsNU|
        invariant conditions.Keys == old(conditions).Keys
        invariant conditions == Gathered(old(conditions), sourcesNU, conditionsNU[..idx])
      {
        var source := sourcesNU[idx];
        GatheredStep(old(conditions), sourcesNU, conditionsNU, idx);
        conditions := conditions[source := conditions[source] + {conditionsNU[idx]}];
      }
      assert conditionsNU[..|conditionsNU|] == conditionsNU;
    }

    /** Lines 74-76. */
    method CountConditions()
      modifies this`numConditions
      ensures numConditions == old(numConditions) + |Flatten(conditions, conditions.Keys)|
    {
      var remaining := conditions.Keys;
      while remaining != {}
        invariant remaining <= conditions.Keys
        invariant numConditions + |Flatten(conditions, remaining)| == old(numConditions) + |Flatten(conditions, conditions.Keys)|
        decreases |remaining|
      {
        var source :| source in remaining;
        FlattenRemove(conditions, remaining, source);
        numConditions := numConditions + |conditions[source]|;
        remaining := remaining - {source};
      }
      assert Flatten(conditions, {}) == {};
    }

    /** Lines 79-94. */
    method InitialiseTable()
      modifies this`numReplicates, this`dataHash
      ensures numReplicates == old(numReplicates) + Replicates(clonesNU)
      ensures RebuiltFrom(old(dataHash), dataHash, Triples(clonesNU, conditions.Keys), conditions)
    {
      var prevClone := "";
      var numRep := 1;
      var clones := clonesNU;
      ghost var keys := conditions.Keys;
      ghost var reps := Reps(clones);
      RebuiltNothing(dataHash, conditions);
      assert Triples(clones[..0], keys) == {};
      for i := 0 to |clones|
        invariant i == 0 ==> prevClone == "" && numRep == 1
        invariant i > 0 ==> prevClone == clones[i - 1] && numRep == RepNumber(clones, i - 1)
        invariant numReplicates == old(numReplicates) + LastWins(clones[..i], reps[..i])
        invariant RebuiltFrom(old(dataHash), dataHash, Triples(clones[..i], keys), conditions)
      {
        numRep := TableColumn(clones, reps, keys, i, prevClone, numRep, old(numReplicates), old(dataHash));
        prevClone := clones[i];
      }
      assert clones[..|clones|] == clones && reps[..|clones|] == reps;
    }

    /** One pass of the loop at lines 81-94: column i's replicate number, recorded
        for its clone, and its empty reading arrays. */
    method TableColumn(clones: seq<string>, ghost reps: seq<int>, ghost keys: set<string>, i: nat,
                       prevClone: string, numRep: int,
                       ghost numReplicates0: map<string, int>, ghost dataHash0: map<Key, seq<real>>)
      returns (numRepOut: int)
      requires i < |clones| && reps == Reps(clones) && keys == conditions.Keys
      requires i == 0 ==> prevClone == "" && numRep == 1
      requires i > 0 ==> prevClone == clones[i - 1] && numRep == RepNumber(clones, i - 1)
      requires numReplicates == numReplicates0 + LastWins(clones[..i], reps[..i])
      requires RebuiltFrom(dataHash0, dataHash, Triples(clones[..i], keys), conditions)
      modifies this`numReplicates, this`dataHash
      ensures numRepOut == RepNumber(clones, i)
      ensures numReplicates == numReplicates0 + LastWins(clones[..i + 1], reps[..i + 1])
      ensures RebuiltFrom(dataHash0, dataHash, Triples(clones[..i + 1], keys), conditions)
    {
      var clone := clones[i];
      RepCounterStep(clones, i, prevClone, numRep);
      numRepOut := if clone == prevClone then numRep + 1 else 1;
      LastWinsStep(numReplicates0, clones, reps, i);
      numReplicates := numReplicates[clone := numRepOut];
      RebuildColumn(clone, numRepOut, dataHash0, Triples(clones[..i], keys));
      TriplesStep(clones, i, keys);
    }

    /** Lines 92-94 for one column: the condition dictionaries of every source. */
    method RebuildColumn(clone: string, numRep: int, ghost dataHash0: map<Key, seq<real>>, ghost done: set<(string, int, string)>)
      requires RebuiltFrom(dataHash0, dataHash, done, conditions)
      modifies this`dataHash
      ensures RebuiltFrom(dataHash0, dataHash, done + set s | s in conditions.Keys :: (clone, numRep, s), conditions)
    {
      var remaining := conditions.Keys;
      while remaining != {}
        invariant remaining <= conditions.Keys
        invariant RebuiltFrom(dataHash0, dataHash, done + set s | s in conditions.Keys - remaining :: (clone, numRep, s), conditions)
        decreases |remaining|
      {
        var source :| source in remaining;
        ghost var sofar := done + set s | s in conditions.Keys - remaining :: (clone, numRep, s);
        RebuildStep(dataHash0, dataHash, sofar, conditions, clone, numRep, source);
        dataHash := Rebuild(dataHash, clone, numRep, source, conditions[source]);
        remaining := remaining - {source};
        assert sofar + {(clone, numRep, source)} == done + set s | s in conditions.Keys - remaining :: (clone, numRep, s);
      }
      assert conditions.Keys - remaining == conditions.Keys;
    }

    /** Lines 96-98: the well line. */
    method ParseWells(ll: seq<string>)
      modifies this`wells
      ensures wells == WellMap(Tail(ll), sourcesNU, conditionsNU)
    {
      var labels := Tail(ll);
      var n := ZipLength(labels, sourcesNU, conditionsNU);
      ghost var placements := Placements(sourcesNU, conditionsNU, n);
      wells := map[];
      for j := 0 to n
        invariant wells == LastWins(labels[..j], placements[..j])
      {
        assert labels[..j + 1][..j] == labels[..j] && placements[..j + 1][..j] == placements[..j];
        wells := wells[labels[j] := (sourcesNU[j], conditionsNU[j])];
      }
      assert labels[..n][..n] == labels[..n] && placements[..n] == placements;
    }

    /** Lines 100-114: one OD line; the time goes first, then each column's
        reading is appended to its own array. */
    method ParseOD(ll: seq<real>)
      requires |ll| >= 1
      requires |ll| - 1 <= |clonesNU| && |ll| - 1 <= |sourcesNU| && |ll| - 1 <= |conditionsNU|
      requires forall idx :: 0 <= idx < |ll| - 1 ==> ColumnKey(clonesNU, sourcesNU, conditionsNU, idx) in dataHash
      modifies this`time, this`dataHash
      ensures time == old(time) + [ll[0]]
      ensures dataHash.Keys == old(dataHash).Keys
      ensures forall k :: k in dataHash ==> dataHash[k] == old(dataHash)[k] + ReadingsFor(clonesNU, sourcesNU, conditionsNU, ll[1..], k)
    {
      time := time + [ll[0]];
      dataHash := AppendReadings(clonesNU, sourcesNU, conditionsNU, ll[1..], dataHash);
    }

    /** Lines 116-122: the arrays of replicates 1 to numReplicates[clone], one row each. */
    method GetCloneData(clone: string, source: string, condition: string) returns (rows: seq<seq<real>>)
      requires clone in numReplicates
      requires forall i :: 1 <= i <= RowCount(numReplicates[clone]) ==> Key(clone, i, source, condition) in dataHash
      requires forall i :: 1 <= i <= RowCount(numReplicates[clone]) ==>
        |dataHash[Key(clone, i, source, condition)]| == |dataHash[Key(clone, 1, source, condition)]|
      ensures |rows| == RowCount(numReplicates[clone])
      ensures forall k :: 0 <= k < |rows| ==> rows[k] == dataHash[Key(clone, k + 1, source, condition)]
    {
      rows := [dataHash[Key(clone, 1, source, condition)]];
      var i := 2;
      while i < numReplicates[clone] + 1
        invariant 2 <= i <= RowCount(numReplicates[clone]) + 1
        invariant |rows| == i - 1
        invariant forall k :: 0 <= k < |rows| ==> rows[k] == dataHash[Key(clone, k + 1, source, condition)]
      {
        rows := rows + [dataHash[Key(clone, i, source, condition)]];
        i := i + 1;
      }
    }
  }

  lemma TriplesStep(names: seq<string>, i: nat, sources: set<string>)
    requires i < |names|
    ensures Triples(names[..i + 1], sources)
         == Triples(names[..i], sources) + set s | s in sources :: (names[i], RepNumber(names, i), s)
  {
    forall j | 0 <= j <= i ensures RepNumber(names[..i + 1], j) == RepNumber(names, j) {
      RepNumberPrefix(names, i + 1, j);
    }
    forall j | 0 <= j < i ensures RepNumber(names[..i], j) == RepNumber(names, j) {
      RepNumberPrefix(names, i, j);
    }
    var longer := Triples(names[..i + 1], sources);
    var shorter := Triples(names[..i], sources);
    var column := set s | s in sources :: (names[i], RepNumber(names, i), s);
    forall t | t in longer ensures t in shorter + column {
      var j, s :| 0 <= j < i + 1 && s in sources && t == (names[..i + 1][j], RepNumber(names[..i + 1], j), s);
      if j < i {
        assert t == (names[..i][j], RepNumber(names[..i], j), s);
      } else {
        assert t == (names[i], RepNumber(names, i), s);
      }
    }
    forall t | t in shorter + column ensures t in longer {
      if t in shorter {
        var j, s :| 0 <= j < i && s in sources && t == (names[..i][j], RepNumber(names[..i], j), s);
        assert t == (names[..i + 1][j], RepNumber(names[..i + 1], j), s);
      } else {
        var s :| s in sources && t == (names[i], RepNumber(names, i), s);
        assert t == (names[..i + 1][i], RepNumber(names[..i + 1], i), s);
      }
    }
  }

  lemma RebuiltNothing(dataHash: map<Key, seq<real>>, conditions: map<string, set<string>>)
    ensures RebuiltFrom(dataHash, dataHash, {}, conditions)
  {
  }

  /** Writing one more key extends the dictionary of the first i writes. */
  lemma LastWinsStep<K, V>(start: map<K, V>, keys: seq<K>, values: seq<V>, i: nat)
    requires i < |keys| == |values|
    ensures (start + LastWins(keys[..i], values[..i]))[keys[i] := values[i]] == start + LastWins(keys[..i + 1], values[..i + 1])
  {
    assert keys[..i + 1][..i] == keys[..i] && values[..i + 1][..i] == values[..i];
  }

  /** A column's replicate number depends only on the columns up to it. */
  lemma {:induction false} RepNumberPrefix(names: seq<string>, n: nat, j: nat)
    requires j < n <= |names|
    ensures RepNumber(names[..n], j) == RepNumber(names, j)
  {
    if j > 0 && names[j] == names[j - 1] {
      RepNumberPrefix(names, n, j - 1);
    }
  }
}
