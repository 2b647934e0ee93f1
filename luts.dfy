/**
 * The lookup tables of liverpool/generation.py: `precompute_luts` fills `_SET_LUT[j][value]`
 * with `sets_from_colors` of every Setdex value and `_RUN_LUT[j][vector]` with
 * `ranks_from_rundex` of every 13-bit rank vector. Only the building of the tables is
 * modelled; saving and loading them is file I/O.
 */
module Luts {
  import opened Wrappers
  import opened Common
  import opened Indexes
  import opened Combinatorics
  import opened Enumeration

  /** `_SET_LUT_MAX_JOKERS` and `_RUN_LUT_MAX_JOKERS`. */
  const SetLutMaxJokers: nat := 3
  const RunLutMaxJokers: nat := 3

  /** `2 ** (Rank.MAX - Rank.MIN + 1)`: the number of rank vectors. */
  const VectorCount: nat := 8192

  type SetTable = map<int, seq<seq<Option<Color>>>>
  type RunTable = map<int, seq<RunSpan>>

  /** `_SET_LUT[j]`: one entry per Setdex value, the sets its colours allow with `j` jokers. */
  ghost predicate SetTableFor(t: SetTable, j: nat)
  {
    (forall v :: v in t <==> 0 <= v < 256) &&
    forall v :: 0 <= v < 256 ==> t[v] == SetsFromColors(ColorsOf(v), j, SetMin)
  }

  /** `_RUN_LUT[j]`: one entry per rank vector, the runs its ranks allow with `j` jokers. */
  ghost predicate RunTableFor(t: RunTable, j: nat)
  {
    (forall v :: v in t <==> 0 <= v < VectorCount) &&
    forall v :: 0 <= v < VectorCount ==> t[v] == RunsFromRanks(VectorRanks(v), j)
  }

  /** The inner loop over `Setdex.iter_all()`. */
  method BuildSetTable(j: nat) returns (t: SetTable)
    ensures SetTableFor(t, j)
  {
    t := map[];
    var values := AllSetdexValues();
    var i := 0;
    while i < |values|
      invariant 0 <= i <= |values|
      invariant forall v :: v in t <==> 0 <= v < i
      invariant forall v :: 0 <= v < i ==> t[v] == SetsFromColors(ColorsOf(v), j, SetMin)
    {
      var setdex := new Setdex(values[i]);
      t := t[setdex.value := SetsFromColors(setdex.Colors(), j, SetMin)];
      i := i + 1;
    }
  }

  /** The inner loop over every rank vector, through `Rundex.from_vector` as intended. */
  method BuildRunTable(j: nat) returns (t: RunTable)
    ensures RunTableFor(t, j)
  {
    t := map[];
    var vector := 0;
    while vector < VectorCount
      invariant 0 <= vector <= VectorCount
      invariant forall v :: v in t <==> 0 <= v < vector
      invariant forall v {:trigger t[v]} :: v in t ==> t[v] == RunsFromRanks(VectorRanks(v), j)
    {
      var runs := RunEntry(vector, j);
      t := t[vector := runs];
      vector := vector + 1;
    }
  }

  /** One entry of the run table: `ranks_from_rundex(Rundex.from_vector(vector), jokers)`. */
  method RunEntry(vector: int, j: nat) returns (runs: seq<RunSpan>)
    ensures runs == RunsFromRanks(VectorRanks(vector), j)
  {
    var rundex := FromVector(vector);
    runs := RanksFromRundex(rundex, j);
  }

  /** The two module-level tables. */
  class Tables {
    var setLut: map<int, SetTable>
    var runLut: map<int, RunTable>

    /** Every table present is the complete table for its joker count. */
    ghost predicate Valid()
      reads this
    {
      (forall j :: j in setLut ==> j >= 0 && SetTableFor(setLut[j], j)) &&
      (forall j :: j in runLut ==> j >= 0 && RunTableFor(runLut[j], j))
    }

    constructor()
      ensures Valid()
      ensures setLut == map[] && runLut == map[]
    {
      setLut := map[];
      runLut := map[];
    }

    /**
     * `maybe_precompute()`: when either table is empty, builds both for 0..3 jokers, with the
     * corrected `from_vector`. Loading
     * the saved tables instead is file I/O; the file holds what an earlier build produced.
     */
    method MaybePrecompute()
      requires Valid()
      modifies this
      ensures Valid()
      ensures old(setLut) == map[] || old(runLut) == map[] ==>
        (forall j :: 0 <= j <= SetLutMaxJokers ==> j in setLut) &&
        (forall j :: 0 <= j <= RunLutMaxJokers ==> j in runLut)
      ensures old(setLut) != map[] && old(runLut) != map[] ==>
        setLut == old(setLut) && runLut == old(runLut)
    {
      if setLut == map[] || runLut == map[] {
        Precompute(SetLutMaxJokers, RunLutMaxJokers);
      }
    }

    /**
     * `precompute_luts(max_set_jokers, max_run_jokers)`: rebuilds the tables for every joker
     * count from 0 up to each maximum (none for a negative maximum) and keeps any other entry.
     * The run entries use the corrected `from_vector`; as written, the first run entry raises.
     */
    method Precompute(maxSetJokers: int, maxRunJokers: int)
      modifies this
      ensures old(Valid()) ==> Valid()
      ensures forall j :: j in setLut <==> j in old(setLut) || 0 <= j <= maxSetJokers
      ensures forall j: nat :: j <= maxSetJokers ==> SetTableFor(setLut[j], j)
      ensures forall j :: j in old(setLut) && !(0 <= j <= maxSetJokers) ==> setLut[j] == old(setLut)[j]
      ensures forall j :: j in runLut <==> j in old(runLut) || 0 <= j <= maxRunJokers
      ensures forall j: nat :: j <= maxRunJokers ==> RunTableFor(runLut[j], j)
      ensures forall j :: j in old(runLut) && !(0 <= j <= maxRunJokers) ==> runLut[j] == old(runLut)[j]
    {
      FillSets(maxSetJokers);
      FillRuns(maxRunJokers);
    }

    /** The first loop of `precompute_luts`. */
    method FillSets(maxJokers: int)
      modifies this
      ensures forall j :: j in setLut <==> j in old(setLut) || 0 <= j <= maxJokers
      ensures forall j: nat :: j <= maxJokers ==> SetTableFor(setLut[j], j)
      ensures forall j :: j in old(setLut) && !(0 <= j <= maxJokers) ==> setLut[j] == old(setLut)[j]
      ensures runLut == old(runLut)
    {
      var total: nat := 0;
      while total <= maxJokers
        invariant total <= maxJokers + 1 || (maxJokers < 0 && total == 0)
        invariant forall j :: j in setLut <==> j in old(setLut) || 0 <= j < total
        invariant forall j: nat :: j < total ==> SetTableFor(setLut[j], j)
        invariant forall j :: j in old(setLut) && !(0 <= j < total) ==> setLut[j] == old(setLut)[j]
        invariant runLut == old(runLut)
      {
        var table := BuildSetTable(total);
        setLut := setLut[total := table];
        total := total + 1;
      }
    }

    /** The second loop of `precompute_luts`. */
    method FillRuns(maxJokers: int)
      modifies this
      ensures forall j :: j in runLut <==> j in old(runLut) || 0 <= j <= maxJokers
      ensures forall j: nat :: j <= maxJokers ==> RunTableFor(runLut[j], j)
      ensures forall j :: j in old(runLut) && !(0 <= j <= maxJokers) ==> runLut[j] == old(runLut)[j]
      ensures setLut == old(setLut)
    {
      var total: nat := 0;
      while total <= maxJokers
        invariant total <= maxJokers + 1 || (maxJokers < 0 && total == 0)
        invariant forall j :: j in runLut <==> j in old(runLut) || 0 <= j < total
        invariant forall j: nat :: j < total ==> RunTableFor(runLut[j], j)
        invariant forall j :: j in old(runLut) && !(0 <= j < total) ==> runLut[j] == old(runLut)[j]
        invariant setLut == old(setLut)
      {
        var table := BuildRunTable(total);
        runLut := runLut[total := table];
        total := total + 1;
      }
    }
  }

  /**
   * Each entry of the run table lists exactly the runs whose real ranks have their bit set in
   * the vector and that use at most `min(3, j)` jokers, sorted and without repeats.
   */
  lemma RunTableMeaning(t: RunTable, j: nat, v: int)
    requires RunTableFor(t, j) && 0 <= v < VectorCount
    ensures forall u :: u in t[v] <==> FitsCounts(u, VectorCounts(v), j)
    ensures StrictlySortedBy(t[v], SpanKey)
  {
    RundexRunsMeaning(VectorCounts(v), j);
  }

  /**
   * Each entry of the set table lists exactly the colour tuples of at least three slots that
   * keep the order of the value's colours after `j` leading jokers, sorted and without repeats.
   */
  lemma SetTableMeaning(t: SetTable, j: nat, v: int)
    requires SetTableFor(t, j) && 0 <= v < 256
    ensures forall c :: c in t[v] <==> SetMin <= |c| && IsSubseq(c, Jokered(ColorsOf(v), j))
    ensures StrictlySortedBy(t[v], SetKey)
  {
    SetsFromColorsMeaning(ColorsOf(v), j, SetMin);
  }

  // ---------------------------------------------------------------------------
  // Rundex.from_vector as written
  // ---------------------------------------------------------------------------

  /**
   * What `from_vector(vector)` hands back as written: the stray `yield` makes it a generator,
   * which yields 0 for each index below Rank.MIN. The Rundex it fills is only the generator's
   * return value, which no caller receives.
   */
  function FromVectorYields(vector: int, k: nat): (ys: seq<int>)
    ensures forall i :: 0 <= i < |ys| ==> ys[i] == 0
    decreases RankMax + 1 - k
  {
    if k > RankMax then []
    else if k < RankMin then [0] + FromVectorYields(vector, k + 1)
    else FromVectorYields(vector, k + 1)
  }

  /** From index `k` on, the generator yields one 0 per index below Rank.MIN. */
  lemma {:induction false} FromVectorYieldsCount(vector: int, k: nat)
    ensures |FromVectorYields(vector, k)| == if k < RankMin then RankMin - k else 0
    decreases RankMax + 1 - k
  {
    if k <= RankMax {
      FromVectorYieldsCount(vector, k + 1);
    }
  }

  /**
   * As written, the generator for every vector yields the same two zeros: the rank of bit 0
   * (which the intended Rundex holds for vector 1) is lost, and `ranks_from_rundex` then
   * raises AttributeError on the generator object, which has no `iter_ranks`.
   */
  lemma FromVectorLosesRanks()
    ensures FromVectorYields(1, 0) == FromVectorYields(0, 0) == [0, 0]
    ensures VectorCounts(1)[RankMin] == 1 && VectorCounts(0)[RankMin] == 0
  {
    FromVectorYieldsCount(1, 0);
    FromVectorYieldsCount(0, 0);
    assert HasRank(1, RankMin) by {
      assert Bit(1, 0);
    }
  }
}
