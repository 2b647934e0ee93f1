/**
 * The enumerators of liverpool/generation.py: `interleave` and `ranks_from_rundex` list the
 * runs one colour's ranks and some jokers can form, `sets_from_colors` the sets one rank's
 * colours and some jokers can form.
 */
module Enumeration {
  import opened Wrappers
  import opened Common
  import opened Lex
  import opened Combinatorics
  import opened Indexes

  // ---------------------------------------------------------------------------
  // Increasing sequences of ranks
  // ---------------------------------------------------------------------------

  predicate Increasing(s: seq<int>)
  {
    forall i, j :: 0 <= i < j < |s| ==> s[i] < s[j]
  }

  /** `min(s)`; Python raises ValueError on an empty sequence. */
  function SeqMin(s: seq<int>): int
    requires s != []
    decreases |s|
  {
    if |s| == 1 then s[0]
    else
      var t := SeqMin(s[1..]);
      if s[0] <= t then s[0] else t
  }

  /** `max(s)`. */
  function SeqMax(s: seq<int>): int
    requires s != []
    decreases |s|
  {
    if |s| == 1 then s[0]
    else
      var t := SeqMax(s[1..]);
      if s[0] >= t then s[0] else t
  }

  /** The minimum and the maximum are elements, below and above every element. */
  lemma {:induction false} MinMaxBound(s: seq<int>)
    requires s != []
    ensures SeqMin(s) in s && forall x :: x in s ==> SeqMin(s) <= x
    ensures SeqMax(s) in s && forall x :: x in s ==> x <= SeqMax(s)
    decreases |s|
  {
    if |s| > 1 {
      MinMaxBound(s[1..]);
      assert s == [s[0]] + s[1..];
    }
  }

  /** The minimum of a concatenation is the smaller of the two minima. */
  lemma MinMaxOfConcat(a: seq<int>, b: seq<int>)
    requires a != []
    ensures SeqMin(a + b) == if b == [] then SeqMin(a) else if SeqMin(b) < SeqMin(a) then SeqMin(b) else SeqMin(a)
    ensures SeqMax(a + b) == if b == [] then SeqMax(a) else if SeqMax(b) > SeqMax(a) then SeqMax(b) else SeqMax(a)
  {
    var lo := if b == [] then SeqMin(a) else if SeqMin(b) < SeqMin(a) then SeqMin(b) else SeqMin(a);
    var hi := if b == [] then SeqMax(a) else if SeqMax(b) > SeqMax(a) then SeqMax(b) else SeqMax(a);
    MinMaxBound(a);
    MinMaxBound(a + b);
    if b != [] {
      MinMaxBound(b);
    }
    assert lo in a + b && hi in a + b;
    assert SeqMin(a + b) <= lo && lo <= SeqMin(a + b);
    assert SeqMax(a + b) >= hi && hi >= SeqMax(a + b);
  }

  // ---------------------------------------------------------------------------
  // interleave
  // ---------------------------------------------------------------------------

  /** A run before its colour is known: the start rank and one joker flag per position. */
  datatype RunSpan = RunSpan(start: int, flags: seq<bool>)

  /**
   * `interleave(card_vector, joker_vector)` as a value: the ranks from the smallest to the
   * largest of either vector, each flagged as a joker when it is not a card rank; ValueError
   * when some rank of that range is in both vectors or in neither, and when the card vector
   * is empty (`min` of an empty sequence).
   */
  function InterleaveOf(cards: seq<int>, jokers: seq<int>): Result<RunSpan, Error>
  {
    if cards == [] then Err(ValueError)
    else
      var lo, hi := SeqMin(cards + jokers), SeqMax(cards + jokers);
      if forall x :: lo <= x <= hi ==> (x in cards <==> x !in jokers) then
        Ok(RunSpan(lo, seq(hi - lo + 1, i requires 0 <= i < hi - lo + 1 => lo + i !in cards)))
      else
        Err(ValueError)
  }

  /**
   * The cards and the jokers fill the run exactly: they are disjoint, together they are the
   * ranks from `start` on, and the flags mark the joker ranks.
   */
  ghost predicate Fills(cards: seq<int>, jokers: seq<int>, u: RunSpan)
  {
    cards != [] && |u.flags| > 0 &&
    (forall x :: x in cards ==> x !in jokers) &&
    (forall x :: (x in cards || x in jokers) <==> u.start <= x < u.start + |u.flags|) &&
    (forall i :: 0 <= i < |u.flags| ==> (u.flags[i] <==> u.start + i in jokers))
  }

  /**
   * `interleave` succeeds exactly when the card and joker ranks are disjoint and together
   * fill an interval; it then returns that interval, with a flag set exactly at the joker
   * ranks. Every failure is a ValueError.
   */
  lemma InterleaveMeaning(cards: seq<int>, jokers: seq<int>, u: RunSpan)
    ensures InterleaveOf(cards, jokers) == Ok(u) <==> Fills(cards, jokers, u)
    ensures InterleaveOf(cards, jokers).Err? ==> InterleaveOf(cards, jokers).error == ValueError
  {
    if InterleaveOf(cards, jokers) == Ok(u) {
      InterleaveFills(cards, jokers);
    }
    if Fills(cards, jokers, u) {
      FillsInterleave(cards, jokers, u);
    }
  }

  lemma InterleaveFills(cards: seq<int>, jokers: seq<int>)
    requires InterleaveOf(cards, jokers).Ok?
    ensures Fills(cards, jokers, InterleaveOf(cards, jokers).value)
  {
    var all := cards + jokers;
    MinMaxBound(all);
    assert forall x :: x in all <==> x in cards || x in jokers;
    forall x | x in cards
      ensures x !in jokers
    {
      assert x in all;
    }
  }

  lemma FillsInterleave(cards: seq<int>, jokers: seq<int>, u: RunSpan)
    requires Fills(cards, jokers, u)
    ensures InterleaveOf(cards, jokers) == Ok(u)
  {
    var all := cards + jokers;
    var lo, hi := SeqMin(all), SeqMax(all);
    MinMaxBound(all);
    assert forall x :: x in all <==> x in cards || x in jokers;
    var end := u.start + |u.flags| - 1;
    assert u.start in all && end in all;
    assert lo == u.start && hi == end;
    forall i | 0 <= i < |u.flags|
      ensures u.flags[i] == (lo + i !in cards)
    {
      assert lo + i in cards || lo + i in jokers;
    }
    InterleaveSucceeds(cards, jokers, lo, hi, u.flags);
  }

  /** A rank of the range that is in both vectors or in neither makes `interleave` fail. */
  lemma InterleaveFails(cards: seq<int>, jokers: seq<int>, lo: int, hi: int, x: int)
    requires cards != [] && lo == SeqMin(cards + jokers) && hi == SeqMax(cards + jokers)
    requires lo <= x <= hi && (x in cards <==> x in jokers)
    ensures InterleaveOf(cards, jokers) == Err(ValueError)
  {
  }

  /** With every rank of the range in exactly one vector, `interleave` returns the flags. */
  lemma InterleaveSucceeds(cards: seq<int>, jokers: seq<int>, lo: int, hi: int, flags: seq<bool>)
    requires cards != [] && lo == SeqMin(cards + jokers) && hi == SeqMax(cards + jokers)
    requires forall x :: lo <= x <= hi ==> (x in cards <==> x !in jokers)
    requires |flags| == hi - lo + 1 && forall i :: 0 <= i < |flags| ==> flags[i] == (lo + i !in cards)
    ensures InterleaveOf(cards, jokers) == Ok(RunSpan(lo, flags))
  {
    assert flags == seq(hi - lo + 1, i requires 0 <= i < hi - lo + 1 => lo + i !in cards);
  }

  /** `interleave`, with its loop over the ranks from the smallest to the largest. */
  method Interleave(cards: seq<int>, jokers: seq<int>) returns (r: Result<RunSpan, Error>)
    ensures r == InterleaveOf(cards, jokers)
  {
    if cards == [] {
      return Err(ValueError);
    }
    var start := SeqMin(cards);
    if jokers != [] && SeqMin(jokers) < start {
      start := SeqMin(jokers);
    }
    var end := SeqMax(cards);
    if jokers != [] && SeqMax(jokers) > end {
      end := SeqMax(jokers);
    }
    MinMaxOfConcat(cards, jokers);
    var flags: seq<bool> := [];
    var rank := start;
    while rank <= end
      invariant start <= rank <= end + 1
      invariant |flags| == rank - start
      invariant forall i :: 0 <= i < |flags| ==> flags[i] == (start + i !in cards)
      invariant forall x :: start <= x < rank ==> (x in cards <==> x !in jokers)
    {
      var isCard, isJoker := rank in cards, rank in jokers;
      if isCard && isJoker {
        InterleaveFails(cards, jokers, start, end, rank);
        return Err(ValueError);
      }
      if !isCard && !isJoker {
        InterleaveFails(cards, jokers, start, end, rank);
        return Err(ValueError);
      }
      flags := flags + [!isCard];
      rank := rank + 1;
    }
    InterleaveSucceeds(cards, jokers, start, end, flags);
    return Ok(RunSpan(start, flags));
  }

  // ---------------------------------------------------------------------------
  // ranks_from_rundex
  // ---------------------------------------------------------------------------

  /** A number of jokers a run may use: runs use at most three. */
  type JokerCount = n: nat | n <= 3

  /** `min(3, jokers)`. */
  function JokerCap(j: nat): JokerCount
  {
    if j < 3 then j else 3
  }

  /** `range(total_jokers + 1)`. */
  function JokerCounts(cap: JokerCount): (r: seq<JokerCount>)
    ensures |r| == cap + 1 && forall i :: 0 <= i < |r| ==> r[i] == i
  {
    seq(cap + 1, i requires 0 <= i < cap + 1 => i)
  }

  /** `range(Run.MIN - num_jokers, len(ranks) + 1)`: how many real ranks a run may select. */
  function Sizes(nj: JokerCount, n: nat): seq<nat>
  {
    Range(RunMin - nj, n + 1)
  }

  /**
   * `unique_combinations(Rank.iter(), num_jokers)`: the ranks the jokers may stand for.
   * `pool` is `Rank.iter()`; it is a parameter so that proofs about the candidates treat it
   * through its properties (`PoolOk`) rather than its thirteen values.
   */
  function JokerVectors(pool: seq<int>, nj: JokerCount): seq<seq<int>>
  {
    UniqueCombinations(pool, nj)
  }

  /** The run of a selection and a joker vector, when `interleave` succeeds and it is long enough. */
  function SpanFrom(sel: seq<int>, jv: seq<int>): seq<RunSpan>
  {
    match InterleaveOf(sel, jv)
    case Err(_) => []
    case Ok(u) => if |u.flags| < RunMin then [] else [u]
  }

  /** The innermost loop: every joker vector for one selection of real ranks. */
  function JokerVectorStep(sel: seq<int>): seq<int> -> seq<RunSpan>
  {
    jv => SpanFrom(sel, jv)
  }

  /** The third loop: every selection of real ranks. */
  function SelectionStep(pool: seq<int>, nj: JokerCount): seq<int> -> seq<RunSpan>
  {
    sel => ConcatMap(JokerVectors(pool, nj), JokerVectorStep(sel))
  }

  /** The second loop: every selection size. */
  function SizeStep(ranks: seq<int>, pool: seq<int>, nj: JokerCount): nat -> seq<RunSpan>
  {
    (size: nat) => ConcatMap(UniqueCombinations(ranks, size), SelectionStep(pool, nj))
  }

  /** The outer loop: every number of jokers. */
  function CountStep(ranks: seq<int>, pool: seq<int>): JokerCount -> seq<RunSpan>
  {
    (nj: JokerCount) => ConcatMap(Sizes(nj, |ranks|), SizeStep(ranks, pool, nj))
  }

  /** The `runs` list `ranks_from_rundex` builds before sorting. */
  function RunCandidates(ranks: seq<int>, pool: seq<int>, j: nat): seq<RunSpan>
  {
    ConcatMap(JokerCounts(JokerCap(j)), CountStep(ranks, pool))
  }

  /** Python's order on `(start, joker_flags)` tuples, with False before True. */
  function SpanKey(u: RunSpan): seq<int>
  {
    [u.start] + seq(|u.flags|, i requires 0 <= i < |u.flags| => if u.flags[i] then 1 else 0)
  }

  /** `ranks_from_rundex` on the ranks a Rundex holds: `sort_uniq(runs)`. */
  function RunsFromRanks(ranks: seq<int>, j: nat): seq<RunSpan>
  {
    SortUniq(RunCandidates(ranks, RankIter(), j), SpanKey)
  }

  /** The innermost loop of `ranks_from_rundex`, over the joker vectors. */
  method SpansOfSelection(sel: seq<int>, jvs: seq<seq<int>>) returns (out: seq<RunSpan>)
    ensures out == ConcatMap(jvs, JokerVectorStep(sel))
  {
    out := [];
    var i := 0;
    while i < |jvs|
      invariant 0 <= i <= |jvs|
      invariant out == ConcatMap(jvs[..i], JokerVectorStep(sel))
    {
      ConcatMapNext(jvs, JokerVectorStep(sel), i);
      var r := Interleave(sel, jvs[i]);
      if r.Ok? && |r.value.flags| >= RunMin {
        out := out + [r.value];
      }
      i := i + 1;
    }
    assert jvs[..i] == jvs;
  }

  /** The loop over the selections of one size. */
  method SpansOfSize(ranks: seq<int>, pool: seq<int>, size: nat, nj: JokerCount)
    returns (out: seq<RunSpan>)
    ensures out == SizeStep(ranks, pool, nj)(size)
  {
    var sels := UniqueCombinations(ranks, size);
    var jvs := JokerVectors(pool, nj);
    out := [];
    var i := 0;
    while i < |sels|
      invariant 0 <= i <= |sels|
      invariant out == ConcatMap(sels[..i], SelectionStep(pool, nj))
    {
      ConcatMapNext(sels, SelectionStep(pool, nj), i);
      var more := SpansOfSelection(sels[i], jvs);
      out := out + more;
      i := i + 1;
    }
    assert sels[..i] == sels;
  }

  /** The loop over the selection sizes for one number of jokers. */
  method SpansOfCount(ranks: seq<int>, pool: seq<int>, nj: JokerCount) returns (out: seq<RunSpan>)
    ensures out == CountStep(ranks, pool)(nj)
  {
    var sizes := Sizes(nj, |ranks|);
    out := [];
    var i := 0;
    while i < |sizes|
      invariant 0 <= i <= |sizes|
      invariant out == ConcatMap(sizes[..i], SizeStep(ranks, pool, nj))
    {
      ConcatMapNext(sizes, SizeStep(ranks, pool, nj), i);
      var more := SpansOfSize(ranks, pool, sizes[i], nj);
      out := out + more;
      i := i + 1;
    }
    assert sizes[..i] == sizes;
  }

  /**
   * `ranks_from_rundex(rundex, jokers)`: every run of real ranks the Rundex holds and up to
   * three jokers, as `(start, joker flags)`, sorted and without repeats.
   */
  method RanksFromRundex(rd: Rundex, jokers: nat) returns (runs: seq<RunSpan>)
    requires rd.Valid()
    ensures runs == RunsFromRanks(rd.IterRanks(), jokers)
    ensures forall u :: u in runs <==> FitsCounts(u, rd.arr[..], jokers)
    ensures StrictlySortedBy(runs, SpanKey)
  {
    var total := JokerCap(jokers);
    var ranks := rd.IterRanks();
    var pool: seq<int> := RankIter();
    var counts := JokerCounts(total);
    var all: seq<RunSpan> := [];
    var i := 0;
    while i < |counts|
      invariant 0 <= i <= |counts|
      invariant all == ConcatMap(counts[..i], CountStep(ranks, pool))
    {
      ConcatMapNext(counts, CountStep(ranks, pool), i);
      var more := SpansOfCount(ranks, pool, counts[i]);
      all := all + more;
      i := i + 1;
    }
    assert counts[..i] == counts;
    runs := SortUniq(all, SpanKey);
    RundexRunsMeaning(rd.arr[..], jokers);
  }

  // ---------------------------------------------------------------------------
  // What ranks_from_rundex lists
  // ---------------------------------------------------------------------------

  /** Every value lies within 2..14. */
  predicate InRankRange(s: seq<int>)
  {
    forall x :: x in s ==> RankMin <= x <= RankMax
  }

  /** A run of at least Run.MIN ranks within 2..14 whose real (unflagged) ranks are all held. */
  ghost predicate RunOfRanks(u: RunSpan, ranks: seq<int>)
  {
    RunMin <= |u.flags| && RankMin <= u.start && u.start + |u.flags| - 1 <= RankMax &&
    forall i :: 0 <= i < |u.flags| && !u.flags[i] ==> u.start + i in ranks
  }

  /** Such a run that uses at most `min(3, jokers)` jokers. */
  ghost predicate FitsRanks(u: RunSpan, ranks: seq<int>, j: nat)
  {
    RunOfRanks(u, ranks) && multiset(u.flags)[true] <= JokerCap(j)
  }

  lemma {:induction false} SubseqIncreasing(a: seq<int>, b: seq<int>)
    requires IsSubseq(a, b) && Increasing(b)
    ensures Increasing(a)
    decreases |b|
  {
    if |a| > 0 {
      var b' := b[1..];
      assert Increasing(b') by {
        forall i, j | 0 <= i < j < |b'|
          ensures b'[i] < b'[j]
        {
          assert b'[i] == b[i + 1] && b'[j] == b[j + 1];
        }
      }
      if a[0] == b[0] && IsSubseq(a[1..], b') {
        var a' := a[1..];
        SubseqIncreasing(a', b');
        SubseqMembers(a', b');
        forall i, j | 0 <= i < j < |a|
          ensures a[i] < a[j]
        {
          assert a[j] == a'[j - 1];
          if i == 0 {
            assert a[j] in b';
            var k :| 0 <= k < |b'| && b'[k] == a[j];
            assert b[k + 1] == a[j];
          } else {
            assert a[i] == a'[i - 1];
          }
        }
      } else {
        SubseqIncreasing(a, b');
      }
    }
  }

  /** An increasing sequence whose values all occur in another increasing one is a subsequence of it. */
  lemma {:induction false} IncreasingSubset(a: seq<int>, b: seq<int>)
    requires Increasing(a) && Increasing(b)
    requires forall x :: x in a ==> x in b
    ensures IsSubseq(a, b)
    decreases |b|
  {
    if |a| > 0 {
      assert a[0] in a;
      var b' := b[1..];
      assert Increasing(b') by {
        forall i, j | 0 <= i < j < |b'|
          ensures b'[i] < b'[j]
        {
          assert b'[i] == b[i + 1] && b'[j] == b[j + 1];
        }
      }
      if a[0] == b[0] {
        var a' := a[1..];
        forall x | x in a'
          ensures x in b'
        {
          var i :| 0 <= i < |a'| && a'[i] == x;
          assert a[i + 1] == x;
          assert x in a;
          var k :| 0 <= k < |b| && b[k] == x;
          assert k != 0;
          assert b'[k - 1] == x;
        }
        assert Increasing(a') by {
          forall i, j | 0 <= i < j < |a'|
            ensures a'[i] < a'[j]
          {
            assert a'[i] == a[i + 1] && a'[j] == a[j + 1];
          }
        }
        IncreasingSubset(a', b');
      } else {
        var k0 :| 0 <= k0 < |b| && b[k0] == a[0];
        assert b[0] < a[0];
        forall x | x in a
          ensures x in b'
        {
          var i :| 0 <= i < |a| && a[i] == x;
          assert a[0] <= x;
          var k :| 0 <= k < |b| && b[k] == x;
          assert k != 0;
          assert b'[k - 1] == x;
        }
        IncreasingSubset(a, b');
      }
    }
  }

  /** The ranks from `start` on whose flag is `b`, ascending. */
  function Positions(flags: seq<bool>, start: int, b: bool): seq<int>
    decreases |flags|
  {
    if flags == [] then []
    else
      var rest := Positions(flags[1..], start + 1, b);
      if flags[0] == b then [start] + rest else rest
  }

  lemma {:induction false} PositionsProps(flags: seq<bool>, start: int, b: bool)
    ensures Increasing(Positions(flags, start, b))
    ensures forall x :: x in Positions(flags, start, b) <==>
      start <= x < start + |flags| && flags[x - start] == b
    decreases |flags|
  {
    if flags != [] {
      var rest := Positions(flags[1..], start + 1, b);
      PositionsProps(flags[1..], start + 1, b);
      forall i | 0 < i < |flags|
        ensures flags[1..][i - 1] == flags[i]
      {
      }
      if flags[0] == b {
        var r := [start] + rest;
        forall i, j | 0 <= i < j < |r|
          ensures r[i] < r[j]
        {
          assert r[j] == rest[j - 1] && r[j] in rest;
          if i > 0 {
            assert r[i] == rest[i - 1];
          }
        }
      }
    }
  }

  /** Every position is flagged one way or the other. */
  lemma {:induction false} PositionsSplit(flags: seq<bool>, start: int)
    ensures |Positions(flags, start, true)| + |Positions(flags, start, false)| == |flags|
    decreases |flags|
  {
    if flags != [] {
      PositionsSplit(flags[1..], start + 1);
    }
  }

  /**
   * An increasing sequence holding exactly the ranks whose flag is `b` is as long as the
   * number of such flags.
   */
  lemma {:induction false} MarkCount(flags: seq<bool>, start: int, r: seq<int>, b: bool)
    requires Increasing(r)
    requires forall x :: x in r <==> start <= x < start + |flags| && flags[x - start] == b
    ensures multiset(flags)[b] == |r|
    decreases |flags|
  {
    if flags == [] {
      forall x
        ensures x !in multiset(r)
      {
      }
      assert multiset(r) == multiset{};
      assert |r| == |multiset(r)| == 0;
    } else {
      var rest := flags[1..];
      assert flags == [flags[0]] + rest;
      if flags[0] == b {
        assert start in r;
        assert r[0] in r;
        assert r[0] == start;
        var r' := r[1..];
        forall x
          ensures x in r' <==> start + 1 <= x < start + 1 + |rest| && rest[x - (start + 1)] == b
        {
          if x in r' {
            var i :| 0 <= i < |r'| && r'[i] == x;
            assert r[i + 1] == x && x in r;
          }
          if start + 1 <= x < start + 1 + |rest| && rest[x - (start + 1)] == b {
            assert flags[x - start] == b;
            assert x in r;
            var i :| 0 <= i < |r| && r[i] == x;
            assert i != 0;
            assert r'[i - 1] == x;
          }
        }
        assert Increasing(r') by {
          forall i, j | 0 <= i < j < |r'|
            ensures r'[i] < r'[j]
          {
            assert r'[i] == r[i + 1] && r'[j] == r[j + 1];
          }
        }
        MarkCount(rest, start + 1, r', b);
        assert r == [r[0]] + r';
      } else {
        forall x
          ensures x in r <==> start + 1 <= x < start + 1 + |rest| && rest[x - (start + 1)] == b
        {
          if start + 1 <= x < start + 1 + |rest| {
            assert rest[x - (start + 1)] == flags[x - start];
          }
        }
        MarkCount(rest, start + 1, r, b);
      }
    }
  }

  /** A run that interleaving held ranks with joker ranks produces lies within 2..14 and its real ranks are held. */
  lemma FillsHeld(sel: seq<int>, jv: seq<int>, ranks: seq<int>, u: RunSpan)
    requires Fills(sel, jv, u)
    requires forall x :: x in sel ==> x in ranks
    requires InRankRange(ranks) && InRankRange(jv)
    ensures RankMin <= u.start && u.start + |u.flags| - 1 <= RankMax
    ensures forall i :: 0 <= i < |u.flags| && !u.flags[i] ==> u.start + i in ranks
  {
    var end := u.start + |u.flags| - 1;
    assert u.start in sel || u.start in jv;
    assert end in sel || end in jv;
    forall i | 0 <= i < |u.flags| && !u.flags[i]
      ensures u.start + i in ranks
    {
      assert u.start + i in sel || u.start + i in jv;
    }
  }

  /** The joker flags of such a run are exactly the joker ranks. */
  lemma FillsJokers(sel: seq<int>, jv: seq<int>, u: RunSpan)
    requires Fills(sel, jv, u) && Increasing(jv)
    ensures multiset(u.flags)[true] == |jv|
  {
    forall x
      ensures x in jv <==> u.start <= x < u.start + |u.flags| && u.flags[x - u.start] == true
    {
      if u.start <= x < u.start + |u.flags| {
        assert u.flags[x - u.start] <==> u.start + (x - u.start) in jv;
      }
    }
    MarkCount(u.flags, u.start, jv, true);
  }

  /** What the thirteen ranks `Rank.iter()` yields are, as far as the candidate proofs need. */
  ghost predicate PoolOk(pool: seq<int>)
  {
    Increasing(pool) && forall x :: x in pool <==> RankMin <= x <= RankMax
  }

  lemma RankIterPool()
    ensures PoolOk(RankIter())
  {
    RankIterProps();
  }

  /** A run `SpanFrom` yields for a selection of held ranks has as many joker flags as jokers. */
  lemma SpanFromFits(sel: seq<int>, jv: seq<int>, ranks: seq<int>, pool: seq<int>, u: RunSpan)
    requires IsSubseq(sel, ranks) && InRankRange(ranks) && IsSubseq(jv, pool) && PoolOk(pool)
    requires u in SpanFrom(sel, jv)
    ensures RunOfRanks(u, ranks) && multiset(u.flags)[true] == |jv|
  {
    assert InterleaveOf(sel, jv) == Ok(u) && |u.flags| >= RunMin;
    InterleaveMeaning(sel, jv, u);
    SubseqMembers(sel, ranks);
    SubseqIncreasing(jv, pool);
    SubseqMembers(jv, pool);
    FillsHeld(sel, jv, ranks, u);
    FillsJokers(sel, jv, u);
  }

  lemma SelectionFits(ranks: seq<int>, pool: seq<int>, nj: JokerCount, sel: seq<int>, u: RunSpan)
    requires IsSubseq(sel, ranks) && InRankRange(ranks) && PoolOk(pool)
    requires u in SelectionStep(pool, nj)(sel)
    ensures RunOfRanks(u, ranks) && multiset(u.flags)[true] == nj
  {
    ConcatMapMember(JokerVectors(pool, nj), JokerVectorStep(sel), u);
    var jv :| jv in JokerVectors(pool, nj) && u in JokerVectorStep(sel)(jv);
    UniqueCombinationsMembers(pool, nj);
    SpanFromFits(sel, jv, ranks, pool, u);
  }

  lemma SizeFits(ranks: seq<int>, pool: seq<int>, nj: JokerCount, size: nat, u: RunSpan)
    requires InRankRange(ranks) && PoolOk(pool) && u in SizeStep(ranks, pool, nj)(size)
    ensures RunOfRanks(u, ranks) && multiset(u.flags)[true] == nj
  {
    ConcatMapMember(UniqueCombinations(ranks, size), SelectionStep(pool, nj), u);
    var sel :| sel in UniqueCombinations(ranks, size) && u in SelectionStep(pool, nj)(sel);
    UniqueCombinationsMembers(ranks, size);
    SelectionFits(ranks, pool, nj, sel, u);
  }

  lemma CountFits(ranks: seq<int>, pool: seq<int>, nj: JokerCount, u: RunSpan)
    requires InRankRange(ranks) && PoolOk(pool) && u in CountStep(ranks, pool)(nj)
    ensures RunOfRanks(u, ranks) && multiset(u.flags)[true] == nj
  {
    ConcatMapMember(Sizes(nj, |ranks|), SizeStep(ranks, pool, nj), u);
    var size :| size in Sizes(nj, |ranks|) && u in SizeStep(ranks, pool, nj)(size);
    SizeFits(ranks, pool, nj, size, u);
  }

  /** Every candidate run is a run of held ranks with at most `min(3, jokers)` jokers. */
  lemma CandidateFits(ranks: seq<int>, pool: seq<int>, j: nat, u: RunSpan)
    requires InRankRange(ranks) && PoolOk(pool) && u in RunCandidates(ranks, pool, j)
    ensures FitsRanks(u, ranks, j)
  {
    ConcatMapMember(JokerCounts(JokerCap(j)), CountStep(ranks, pool), u);
    var nj :| nj in JokerCounts(JokerCap(j)) && u in CountStep(ranks, pool)(nj);
    CountFits(ranks, pool, nj, u);
  }

  /** Splitting a run into its real and its joker ranks gives a selection `SpanFrom` turns back into it. */
  lemma PositionsSpan(ranks: seq<int>, pool: seq<int>, u: RunSpan)
    requires Increasing(ranks) && PoolOk(pool) && RunOfRanks(u, ranks)
    requires multiset(u.flags)[true] <= 3
    ensures var sel, jv := Positions(u.flags, u.start, false), Positions(u.flags, u.start, true);
      IsSubseq(sel, ranks) && IsSubseq(jv, pool) && SpanFrom(sel, jv) == [u] &&
      |sel| + |jv| == |u.flags| && |jv| == multiset(u.flags)[true]
  {
    var sel, jv := Positions(u.flags, u.start, false), Positions(u.flags, u.start, true);
    PositionsProps(u.flags, u.start, false);
    PositionsProps(u.flags, u.start, true);
    PositionsSplit(u.flags, u.start);
    MarkCount(u.flags, u.start, jv, true);
    IncreasingSubset(sel, ranks);
    IncreasingSubset(jv, pool);
    assert u.start in sel || u.start in jv;
    FillsInterleave(sel, jv, u);
  }

  lemma JokerVectorCandidate(pool: seq<int>, sel: seq<int>, jv: seq<int>, u: RunSpan)
    requires |jv| <= 3 && IsSubseq(jv, pool) && u in SpanFrom(sel, jv)
    ensures u in SelectionStep(pool, |jv|)(sel)
  {
    UniqueCombinationsMembers(pool, |jv|);
    ConcatMapWitness(JokerVectors(pool, |jv|), JokerVectorStep(sel), jv, u);
  }

  lemma SelectionCandidate(ranks: seq<int>, pool: seq<int>, nj: JokerCount, sel: seq<int>, u: RunSpan)
    requires IsSubseq(sel, ranks) && u in SelectionStep(pool, nj)(sel)
    ensures u in SizeStep(ranks, pool, nj)(|sel|)
  {
    UniqueCombinationsMembers(ranks, |sel|);
    ConcatMapWitness(UniqueCombinations(ranks, |sel|), SelectionStep(pool, nj), sel, u);
  }

  lemma SizeCandidate(ranks: seq<int>, pool: seq<int>, nj: JokerCount, size: nat, u: RunSpan)
    requires RunMin - nj <= size <= |ranks| && u in SizeStep(ranks, pool, nj)(size)
    ensures u in CountStep(ranks, pool)(nj)
  {
    var sizes := Sizes(nj, |ranks|);
    assert sizes[size - (RunMin - nj)] == size;
    ConcatMapWitness(sizes, SizeStep(ranks, pool, nj), size, u);
  }

  lemma CountCandidate(ranks: seq<int>, pool: seq<int>, j: nat, nj: JokerCount, u: RunSpan)
    requires nj <= JokerCap(j) && u in CountStep(ranks, pool)(nj)
    ensures u in RunCandidates(ranks, pool, j)
  {
    var counts := JokerCounts(JokerCap(j));
    assert counts[nj] == nj;
    ConcatMapWitness(counts, CountStep(ranks, pool), nj, u);
  }

  /** A selection of held ranks and joker ranks whose run is long enough is among the candidates. */
  lemma SpanCandidate(ranks: seq<int>, pool: seq<int>, j: nat, sel: seq<int>, jv: seq<int>, u: RunSpan)
    requires IsSubseq(sel, ranks) && IsSubseq(jv, pool) && u in SpanFrom(sel, jv)
    requires |jv| <= JokerCap(j) && RunMin <= |sel| + |jv|
    ensures u in RunCandidates(ranks, pool, j)
  {
    var nj: JokerCount := |jv|;
    SubseqLength(sel, ranks);
    JokerVectorCandidate(pool, sel, jv, u);
    SelectionCandidate(ranks, pool, nj, sel, u);
    SizeCandidate(ranks, pool, nj, |sel|, u);
    CountCandidate(ranks, pool, j, nj, u);
  }

  /** Every run of held ranks with at most `min(3, jokers)` jokers is a candidate. */
  lemma FitsCandidate(ranks: seq<int>, pool: seq<int>, j: nat, u: RunSpan)
    requires Increasing(ranks) && PoolOk(pool) && FitsRanks(u, ranks, j)
    ensures u in RunCandidates(ranks, pool, j)
  {
    PositionsSpan(ranks, pool, u);
    SpanCandidate(ranks, pool, j, Positions(u.flags, u.start, false), Positions(u.flags, u.start, true), u);
  }

  /** The key tells runs apart. */
  lemma SpanKeyDetermines(x: RunSpan, y: RunSpan)
    requires SpanKey(x) == SpanKey(y)
    ensures x == y
  {
    assert x.start == SpanKey(x)[0] && y.start == SpanKey(y)[0];
    forall i | 0 <= i < |x.flags|
      ensures x.flags[i] == y.flags[i]
    {
      assert SpanKey(x)[i + 1] == SpanKey(y)[i + 1];
    }
  }

  /** The candidates, sorted and de-duplicated, are exactly the fitting runs. */
  lemma CandidatesMeaning(ranks: seq<int>, pool: seq<int>, j: nat)
    requires Increasing(ranks) && InRankRange(ranks) && PoolOk(pool)
    ensures forall u :: u in SortUniq(RunCandidates(ranks, pool, j), SpanKey) <==> FitsRanks(u, ranks, j)
    ensures StrictlySortedBy(SortUniq(RunCandidates(ranks, pool, j), SpanKey), SpanKey)
  {
    var cs := RunCandidates(ranks, pool, j);
    forall x, y | x in cs && y in cs && SpanKey(x) == SpanKey(y)
      ensures x == y
    {
      SpanKeyDetermines(x, y);
    }
    SortUniqProps(cs, SpanKey);
    forall u
      ensures u in SortUniq(cs, SpanKey) <==> FitsRanks(u, ranks, j)
    {
      if u in cs {
        CandidateFits(ranks, pool, j, u);
      }
      if FitsRanks(u, ranks, j) {
        FitsCandidate(ranks, pool, j, u);
      }
    }
  }

  /**
   * `ranks_from_rundex` lists exactly the runs of at least Run.MIN ranks within 2..14 whose
   * real ranks are held and that use at most `min(3, jokers)` jokers, sorted and without
   * repeats.
   */
  lemma RunsFromRanksMeaning(ranks: seq<int>, j: nat)
    requires Increasing(ranks) && InRankRange(ranks)
    ensures forall u :: u in RunsFromRanks(ranks, j) <==> FitsRanks(u, ranks, j)
    ensures StrictlySortedBy(RunsFromRanks(ranks, j), SpanKey)
  {
    RankIterPool();
    CandidatesMeaning(ranks, RankIter(), j);
  }

  /** A run that a Rundex's counts `a` support with at most `min(3, jokers)` jokers. */
  ghost predicate FitsCounts(u: RunSpan, a: seq<int>, j: nat)
    requires |a| == RankMax + 1
  {
    RunMin <= |u.flags| && RankMin <= u.start && u.start + |u.flags| - 1 <= RankMax &&
    (forall i :: 0 <= i < |u.flags| && !u.flags[i] ==> a[u.start + i] > 0) &&
    multiset(u.flags)[true] <= JokerCap(j)
  }

  /**
   * `ranks_from_rundex` on a Rundex with counts `a` lists exactly the runs its held ranks
   * support, sorted and without repeats.
   */
  lemma RundexRunsMeaning(a: seq<int>, j: nat)
    requires |a| == RankMax + 1
    ensures forall u :: u in RunsFromRanks(RanksFrom(a, RankMin), j) <==> FitsCounts(u, a, j)
    ensures StrictlySortedBy(RunsFromRanks(RanksFrom(a, RankMin), j), SpanKey)
  {
    var ranks := RanksFrom(a, RankMin);
    RunsFromRanksMeaning(ranks, j);
    forall u
      ensures FitsRanks(u, ranks, j) <==> FitsCounts(u, a, j)
    {
      FitsHeld(u, a, j);
    }
  }

  lemma FitsHeld(u: RunSpan, a: seq<int>, j: nat)
    requires |a| == RankMax + 1
    ensures FitsRanks(u, RanksFrom(a, RankMin), j) <==> FitsCounts(u, a, j)
  {
    var ranks := RanksFrom(a, RankMin);
    if RankMin <= u.start && u.start + |u.flags| - 1 <= RankMax {
      forall i | 0 <= i < |u.flags| && !u.flags[i]
        ensures u.start + i in ranks <==> a[u.start + i] > 0
      {
        if u.start + i in ranks {
          var k :| 0 <= k < |ranks| && ranks[k] == u.start + i;
        }
      }
    }
  }

  // ---------------------------------------------------------------------------
  // sets_from_colors
  // ---------------------------------------------------------------------------

  /** `[None] * jokers + list(colors)`: a wild slot per joker, then the colours. */
  function Jokered(colors: seq<Color>, j: nat): (r: seq<Option<Color>>)
    ensures |r| == j + |colors|
    ensures forall i :: 0 <= i < |r| ==> r[i] == if i < j then None else Some(colors[i - j])
  {
    Repeat(None, j) + seq(|colors|, i requires 0 <= i < |colors| => Some(colors[i]))
  }

  /** `orderable_colors_with_none`: a wild slot orders as -1, a colour as its index 0..3. */
  function SetKey(c: seq<Option<Color>>): seq<int>
  {
    seq(|c|, i requires 0 <= i < |c| => match c[i] case None => -1 case Some(x) => x.Index())
  }

  /** The inner loop of `iterator()`: the combinations of one size. */
  function SizeCombinations(pool: seq<Option<Color>>): nat -> seq<seq<Option<Color>>>
  {
    (size: nat) => UniqueCombinations(pool, size)
  }

  /** What `iterator()` yields: the combinations of every size from `min_size` up. */
  function SetCandidates(colors: seq<Color>, j: nat, minSize: nat): seq<seq<Option<Color>>>
  {
    var pool := Jokered(colors, j);
    ConcatMap(Range(minSize, |pool| + 1), SizeCombinations(pool))
  }

  /** `sets_from_colors(colors, jokers, min_size)`. */
  function SetsFromColors(colors: seq<Color>, j: nat, minSize: nat): seq<seq<Option<Color>>>
  {
    SortUniq(SetCandidates(colors, j, minSize), SetKey)
  }

  /** The key tells colour tuples apart. */
  lemma SetKeyDetermines(x: seq<Option<Color>>, y: seq<Option<Color>>)
    requires SetKey(x) == SetKey(y)
    ensures x == y
  {
    forall i | 0 <= i < |x|
      ensures x[i] == y[i]
    {
      assert SetKey(x)[i] == SetKey(y)[i];
      if x[i].Some? && y[i].Some? {
        ColorCodeInjective(x[i].value, y[i].value);
      }
    }
  }

  lemma SetCandidateMember(colors: seq<Color>, j: nat, minSize: nat, c: seq<Option<Color>>)
    ensures c in SetCandidates(colors, j, minSize) <==> minSize <= |c| && IsSubseq(c, Jokered(colors, j))
  {
    var pool := Jokered(colors, j);
    var sizes := Range(minSize, |pool| + 1);
    ConcatMapMember(sizes, SizeCombinations(pool), c);
    UniqueCombinationsMembers(pool, |c|);
    if minSize <= |c| && IsSubseq(c, pool) {
      SubseqLength(c, pool);
      assert sizes[|c| - minSize] == |c|;
      assert c in SizeCombinations(pool)(|c|);
    }
    if c in SetCandidates(colors, j, minSize) {
      var size :| size in sizes && c in SizeCombinations(pool)(size);
      UniqueCombinationsMembers(pool, size);
    }
  }

  /**
   * `sets_from_colors` lists exactly the order-preserving selections of at least `min_size`
   * slots from the jokers' wild slots followed by the colours, sorted by colour index with
   * wild slots first, and without repeats.
   */
  lemma SetsFromColorsMeaning(colors: seq<Color>, j: nat, minSize: nat)
    ensures forall c :: c in SetsFromColors(colors, j, minSize) <==>
      minSize <= |c| && IsSubseq(c, Jokered(colors, j))
    ensures StrictlySortedBy(SetsFromColors(colors, j, minSize), SetKey)
  {
    var cs := SetCandidates(colors, j, minSize);
    forall x, y | x in cs && y in cs && SetKey(x) == SetKey(y)
      ensures x == y
    {
      SetKeyDetermines(x, y);
    }
    SortUniqProps(cs, SetKey);
    assert SetsFromColors(colors, j, minSize) == SortUniq(cs, SetKey);
    forall c: seq<Option<Color>>
      ensures c in SetsFromColors(colors, j, minSize) <==> minSize <= |c| && IsSubseq(c, Jokered(colors, j))
    {
      SetCandidateMember(colors, j, minSize, c);
      SortUniqMember(cs, SetKey, c);
    }
  }

  /** How many wild slots and copies of each colour `Jokered` holds. */
  lemma JokeredCounts(colors: seq<Color>, j: nat)
    ensures multiset(Jokered(colors, j))[None] == j
    ensures forall x: Color :: multiset(Jokered(colors, j))[Some(x)] == multiset(colors)[x]
  {
    var somes := seq(|colors|, i requires 0 <= i < |colors| => Some(colors[i]));
    assert Jokered(colors, j) == Repeat(None, j) + somes;
    RepeatCount<Option<Color>>(None, j, None);
    SomesCount(colors, None);
    forall x: Color
      ensures multiset(Jokered(colors, j))[Some(x)] == multiset(colors)[x]
    {
      RepeatCount<Option<Color>>(None, j, Some(x));
      SomesCount(colors, Some(x));
    }
  }

  lemma {:induction false} SomesCount(colors: seq<Color>, o: Option<Color>)
    ensures multiset(seq(|colors|, i requires 0 <= i < |colors| => Some(colors[i])))[o] ==
      if o.None? then 0 else multiset(colors)[o.value]
    decreases |colors|
  {
    var somes := seq(|colors|, i requires 0 <= i < |colors| => Some(colors[i]));
    if colors != [] {
      var init := colors[..|colors| - 1];
      SomesCount(init, o);
      var initSomes := seq(|init|, i requires 0 <= i < |init| => Some(init[i]));
      assert somes == initSomes + [Some(colors[|colors| - 1])];
      assert colors == init + [colors[|colors| - 1]];
    }
  }

  /**
   * Every set `sets_from_colors` lists has between `min_size` and `jokers + len(colors)`
   * slots, at most `jokers` of them wild, and no colour more often than `colors` holds it.
   */
  lemma SetsFromColorsBounds(colors: seq<Color>, j: nat, minSize: nat, c: seq<Option<Color>>)
    requires c in SetsFromColors(colors, j, minSize)
    ensures minSize <= |c| <= j + |colors|
    ensures multiset(c)[None] <= j
    ensures forall x: Color :: multiset(c)[Some(x)] <= multiset(colors)[x]
  {
    SetsFromColorsMeaning(colors, j, minSize);
    SubseqLength(c, Jokered(colors, j));
    SubseqMultiset(c, Jokered(colors, j));
    JokeredCounts(colors, j);
  }

  /** Adjacent keys in order are enough for a strictly sorted sequence. */
  lemma {:induction false} StrictlySortedFromAdjacent<T>(s: seq<T>, key: T -> seq<int>)
    requires forall i :: 0 <= i < |s| - 1 ==> LexLt(key(s[i]), key(s[i + 1]))
    ensures StrictlySortedBy(s, key)
    decreases |s|
  {
    if |s| > 1 {
      var t := s[1..];
      StrictlySortedFromAdjacent(t, key);
      forall i, j | 0 <= i < j < |s|
        ensures LexLt(key(s[i]), key(s[j]))
      {
        if i > 0 {
          assert s[i] == t[i - 1] && s[j] == t[j - 1];
        } else if j > 1 {
          assert s[1] == t[0] && s[j] == t[j - 1];
          LexLtTransitive(key(s[0]), key(s[1]), key(s[j]));
        }
      }
    }
  }

  /** The one selection of three real colours: three distinct colours alone make one set. */
  lemma ThreeColorsNoJoker(x: Color, y: Color, z: Color)
    requires x.Index() < y.Index() < z.Index()
    ensures SetsFromColors([x, y, z], 0, SetMin) == [[Some(x), Some(y), Some(z)]]
  {
    var pool := Jokered([x, y, z], 0);
    var expected := [[Some(x), Some(y), Some(z)]];
    assert pool == expected[0];
    SetsFromColorsMeaning([x, y, z], 0, SetMin);
    forall c
      ensures c in SetsFromColors([x, y, z], 0, SetMin) <==> c in expected
    {
      if c in SetsFromColors([x, y, z], 0, SetMin) {
        SubseqLength(c, pool);
        SubseqFull(c, pool);
      }
      if c in expected {
        SubseqReflexive(pool);
      }
    }
    StrictlySortedUnique(SetsFromColors([x, y, z], 0, SetMin), expected, SetKey);
  }

  /** The selections of at least three of four slots. */
  lemma ThreeOfFour<T>(p: seq<T>, c: seq<T>)
    requires |p| == 4
    ensures 3 <= |c| && IsSubseq(c, p) <==>
      c == [p[0], p[1], p[2]] || c == p || c == [p[0], p[1], p[3]] || c == [p[0], p[2], p[3]] ||
      c == [p[1], p[2], p[3]]
  {
    assert p[..3] + p[4..] == [p[0], p[1], p[2]];
    assert p[..2] + p[3..] == [p[0], p[1], p[3]];
    assert p[..1] + p[2..] == [p[0], p[2], p[3]];
    assert p[..0] + p[1..] == [p[1], p[2], p[3]];
    if 3 <= |c| && IsSubseq(c, p) {
      SubseqLength(c, p);
      if |c| == 4 {
        SubseqFull(c, p);
      } else {
        SubseqOneShorter(c, p);
      }
    }
    SubseqReflexive(p);
    SubseqDropOne(p, 0);
    SubseqDropOne(p, 1);
    SubseqDropOne(p, 2);
    SubseqDropOne(p, 3);
  }

  /** With one joker, three distinct colours make five sets, listed in this order. */
  lemma ThreeColorsOneJoker(x: Color, y: Color, z: Color)
    requires x.Index() < y.Index() < z.Index()
    ensures SetsFromColors([x, y, z], 1, SetMin) ==
      [[None, Some(x), Some(y)], [None, Some(x), Some(y), Some(z)], [None, Some(x), Some(z)],
       [None, Some(y), Some(z)], [Some(x), Some(y), Some(z)]]
  {
    var pool := Jokered([x, y, z], 1);
    assert pool == [None, Some(x), Some(y), Some(z)];
    var expected :=
      [[None, Some(x), Some(y)], [None, Some(x), Some(y), Some(z)], [None, Some(x), Some(z)],
       [None, Some(y), Some(z)], [Some(x), Some(y), Some(z)]];
    var result := SetsFromColors([x, y, z], 1, SetMin);
    SetsFromColorsMeaning([x, y, z], 1, SetMin);
    forall c
      ensures c in result <==> c in expected
    {
      ThreeOfFour(pool, c);
    }
    FiveKeysSorted(x, y, z);
    StrictlySortedUnique(result, expected, SetKey);
  }

  lemma FiveKeysSorted(x: Color, y: Color, z: Color)
    requires x.Index() < y.Index() < z.Index()
    ensures StrictlySortedBy(
      [[None, Some(x), Some(y)], [None, Some(x), Some(y), Some(z)], [None, Some(x), Some(z)],
       [None, Some(y), Some(z)], [Some(x), Some(y), Some(z)]], SetKey)
  {
    var a: int, b: int, c: int := x.Index(), y.Index(), z.Index();
    var e := [[None, Some(x), Some(y)], [None, Some(x), Some(y), Some(z)], [None, Some(x), Some(z)],
       [None, Some(y), Some(z)], [Some(x), Some(y), Some(z)]];
    assert SetKey(e[0]) == [-1, a, b];
    assert SetKey(e[1]) == [-1, a, b, c];
    assert SetKey(e[2]) == [-1, a, c];
    assert SetKey(e[3]) == [-1, b, c];
    assert SetKey(e[4]) == [a, b, c];
    LexLtPrefix([-1, a, b], [c]);
    assert [-1, a, b] + [c] == [-1, a, b, c];
    LexLtAt([-1, a], b, c, [c], []);
    assert [-1, a] + [b] + [c] == [-1, a, b, c] && [-1, a] + [c] + [] == [-1, a, c];
    LexLtAt([-1], a, b, [c], [c]);
    assert [-1] + [a] + [c] == [-1, a, c] && [-1] + [b] + [c] == [-1, b, c];
    LexLtAt([], -1, a, [b, c], [b, c]);
    assert [] + [-1] + [b, c] == [-1, b, c] && [] + [a] + [b, c] == [a, b, c];
    forall i | 0 <= i < |e| - 1
      ensures LexLt(SetKey(e[i]), SetKey(e[i + 1]))
    {
    }
    StrictlySortedFromAdjacent(e, SetKey);
  }
}
