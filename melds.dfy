/**
 * The meld searches of liverpool/generation.py: `iter_sets` and `iter_runs` (and their
 * table-driven variants) list the sets and runs an IndexedHand supports; `take_committed`
 * tries to take several combos at once; `iter_melds` lists the combinations of sets and runs
 * that an objective asks for and that the hand can supply together.
 */
module Melds {
  import opened Wrappers
  import opened Common
  import opened Hands
  import opened Indexes
  import opened IndexedHands
  import opened Combinatorics
  import opened Enumeration
  import opened Luts

  // ---------------------------------------------------------------------------
  // Taking several combos in a row
  // ---------------------------------------------------------------------------

  /** The cards of several combos, one combo after the other. */
  function Flatten(combos: seq<seq<Card>>): (cs: seq<Card>)
    decreases |combos|
  {
    if combos == [] then [] else Flatten(combos[..|combos| - 1]) + combos[|combos| - 1]
  }

  lemma {:induction false} FlattenAppend(a: seq<seq<Card>>, b: seq<seq<Card>>)
    ensures Flatten(a + b) == Flatten(a) + Flatten(b)
    decreases |b|
  {
    if b == [] {
      assert a + b == a;
    } else {
      var n := |b| - 1;
      FlattenAppend(a, b[..n]);
      assert (a + b)[..|a + b| - 1] == a + b[..n];
    }
  }

  /**
   * Taking `a + b` is taking `a`, then, if that succeeded, taking `b` from what is left.
   */
  lemma {:induction false} TakeAllAppend(k: Counts, a: seq<Card>, b: seq<Card>)
    ensures TakeAll(k, a + b) ==
      if TakeAll(k, a).ok then AfterTakes(TakeAll(k, a).taken, TakeAll(TakeAll(k, a).counts, b))
      else TakeAll(k, a)
    decreases |a|
  {
    if a == [] {
      assert a + b == b;
      assert [] + TakeAll(k, b).taken == TakeAll(k, b).taken;
    } else {
      assert (a + b)[0] == a[0] && (a + b)[1..] == a[1..] + b;
      match TakeOne(k, a[0])
      case Err(_) =>
      case Ok((k', t)) =>
        TakeAllAppend(k', a[1..], b);
        var r := TakeAll(k', a[1..]);
        if r.ok {
          var s := TakeAll(r.counts, b);
          assert [t] + (r.taken + s.taken) == ([t] + r.taken) + s.taken;
        }
    }
  }

  lemma {:induction false} SomesConcat(a: seq<Card>, b: seq<Card>)
    ensures Somes(a + b) == Somes(a) + Somes(b)
    decreases |b|
  {
    if b == [] {
      assert a + b == a;
    } else {
      var n := |b| - 1;
      SomesConcat(a, b[..n]);
      assert (a + b)[..|a + b| - 1] == a + b[..n];
      assert b[..|b| - 1] == b[..n];
    }
  }

  /** On a stack that ends with a marker, the takes pushed since are exactly what is pending. */
  lemma {:induction false} PendingSomes(s: seq<Option<Card>>, t: seq<Card>)
    requires |s| > 0 && s[|s| - 1] == None
    ensures Pending(s + Somes(t)) == Reverse(t)
    ensures Settled(s + Somes(t)) == s
    decreases |t|
  {
    if t == [] {
      assert s + Somes(t) == s;
    } else {
      var n := |t| - 1;
      PendingSomes(s, t[..n]);
      assert t == t[..n] + [t[n]];
      SomesAppend(t[..n], t[n]);
      assert s + Somes(t) == (s + Somes(t[..n])) + [Some(t[n])];
      PendingAfterPush(s + Somes(t[..n]), t[n]);
      assert Reverse(t) == [t[n]] + Reverse(t[..n]);
    }
  }

  /** A stack that ends with a marker has nothing pending. */
  lemma SettledStack(s: seq<Option<Card>>)
    requires |s| > 0 && s[|s| - 1] == None
    ensures Pending(s) == [] && Settled(s) == s
  {
  }

  /**
   * `take_committed(hand, combos, commit)`: takes every combo in turn. When a take fails it
   * rolls back and answers False; otherwise it commits or rolls back as asked and answers
   * True.
   */
  method TakeCommitted(h: IndexedHand, combos: seq<seq<Card>>, commit: bool) returns (ok: bool)
    requires h.Valid()
    modifies h.Repr
    ensures h.Valid()
    ensures ok == TakeAll(old(h.Snapshot()), Flatten(combos)).ok
    ensures !(ok && commit) ==>
      h.Snapshot() == old(h.hand.Restored()) && h.hand.stack == Settled(old(h.hand.stack))
    ensures ok && commit ==>
      h.Snapshot() == TakeAll(old(h.Snapshot()), Flatten(combos)).counts &&
      h.hand.stack == old(h.hand.stack) + Somes(TakeAll(old(h.Snapshot()), Flatten(combos)).taken) + [None]
    ensures old(h.hand.stack)[|old(h.hand.stack)| - 1] == None && !(ok && commit) ==>
      h.Snapshot() == old(h.Snapshot()) && h.hand.stack == old(h.hand.stack)
  {
    ghost var stack0 := h.hand.stack;
    ghost var taken;
    ok, taken := TakeCombos(h, combos);
    if !ok {
      h.Rollback();
      SettledAfterTakes(stack0, taken);
      return false;
    }
    if commit {
      h.Commit();
    } else {
      h.Rollback();
      SettledAfterTakes(stack0, taken);
    }
  }

  /** The `for` loop of `take_committed`: `take_combo` for each combo until one fails. */
  method TakeCombos(h: IndexedHand, combos: seq<seq<Card>>) returns (ok: bool, ghost taken: seq<Card>)
    requires h.Valid()
    modifies h.Repr
    ensures h.Valid()
    ensures ok == TakeAll(old(h.Snapshot()), Flatten(combos)).ok
    ensures h.hand.stack == old(h.hand.stack) + Somes(taken)
    ensures h.hand.Restored() == old(h.hand.Restored())
    ensures ok ==>
      h.Snapshot() == TakeAll(old(h.Snapshot()), Flatten(combos)).counts &&
      taken == TakeAll(old(h.Snapshot()), Flatten(combos)).taken
  {
    ghost var k0, stack0, restored0 := h.Snapshot(), h.hand.stack, h.hand.Restored();
    var i := 0;
    taken := [];
    assert stack0 + Somes([]) == stack0 && combos[0..] == combos;
    assert AfterTakes([], TakeAll(k0, Flatten(combos))) == TakeAll(k0, Flatten(combos));
    while i < |combos|
      invariant 0 <= i <= |combos|
      invariant h.Valid()
      invariant CombosTaken(h, k0, stack0, restored0, combos, i, taken)
    {
      ok, taken := TakeComboStep(h, k0, stack0, restored0, combos, i, taken);
      if !ok {
        return false, taken;
      }
      i := i + 1;
    }
    assert combos[i..] == [];
    assert taken + [] == taken;
    return true, taken;
  }

  /**
   * Partway through `take_committed`: the cards `taken` were taken for the first `i` combos,
   * and the rest of the combos decide the outcome.
   */
  ghost predicate CombosTaken(h: IndexedHand, k0: Counts, stack0: seq<Option<Card>>, restored0: Counts,
                              combos: seq<seq<Card>>, i: nat, taken: seq<Card>)
    reads h, h.hand
  {
    i <= |combos| &&
    TakeAll(k0, Flatten(combos)) == AfterTakes(taken, TakeAll(h.Snapshot(), Flatten(combos[i..]))) &&
    h.hand.stack == stack0 + Somes(taken) &&
    h.hand.Restored() == restored0
  }

  /** One pass of the loop: `take_combo` of combo `i`. */
  method TakeComboStep(h: IndexedHand, ghost k0: Counts, ghost stack0: seq<Option<Card>>, ghost restored0: Counts,
                       combos: seq<seq<Card>>, i: nat, ghost taken: seq<Card>)
    returns (ok: bool, ghost taken': seq<Card>)
    requires h.Valid() && i < |combos| && CombosTaken(h, k0, stack0, restored0, combos, i, taken)
    modifies h.Repr
    ensures h.Valid()
    ensures ok ==> CombosTaken(h, k0, stack0, restored0, combos, i + 1, taken')
    ensures !ok ==>
      TakeAll(k0, Flatten(combos)) == Taken(false, h.Snapshot(), taken') &&
      h.hand.stack == stack0 + Somes(taken') && h.hand.Restored() == restored0
  {
    ghost var before := h.Snapshot();
    TakeNextCombo(before, combos, i, taken);
    ghost var step := TakeAll(before, combos[i]);
    ghost var stack := h.hand.stack;
    var r := h.TakeCombo(combos[i]);
    SomesConcat(taken, step.taken);
    taken' := taken + step.taken;
    Associative(stack0, Somes(taken), Somes(step.taken));
    ok := r.Ok?;
  }

  lemma Associative<T>(a: seq<T>, b: seq<T>, c: seq<T>)
    ensures (a + b) + c == a + (b + c)
  {
  }

  /** The rest of the combos from `i` on: combo `i`, then the others. */
  lemma TakeNextCombo(k: Counts, combos: seq<seq<Card>>, i: nat, taken: seq<Card>)
    requires i < |combos|
    ensures AfterTakes(taken, TakeAll(k, Flatten(combos[i..]))) ==
      if TakeAll(k, combos[i]).ok then
        AfterTakes(taken + TakeAll(k, combos[i]).taken, TakeAll(TakeAll(k, combos[i]).counts, Flatten(combos[i + 1..])))
      else Taken(false, TakeAll(k, combos[i]).counts, taken + TakeAll(k, combos[i]).taken)
  {
    assert combos[i..] == [combos[i]] + combos[i + 1..];
    FlattenAppend([combos[i]], combos[i + 1..]);
    assert Flatten([combos[i]]) == combos[i] by {
      assert [combos[i]][..0] == [];
    }
    TakeAllAppend(k, combos[i], Flatten(combos[i + 1..]));
    var s := TakeAll(k, combos[i]);
    if s.ok {
      var rest := TakeAll(s.counts, Flatten(combos[i + 1..]));
      assert taken + (s.taken + rest.taken) == (taken + s.taken) + rest.taken;
    }
  }

  /** Popping the takes pushed on a stack leaves what popping its own pending takes leaves. */
  lemma {:induction false} SettledAfterTakes(s: seq<Option<Card>>, t: seq<Card>)
    ensures Settled(s + Somes(t)) == Settled(s)
    decreases |t|
  {
    if t == [] {
      assert s + Somes(t) == s;
    } else {
      var n := |t| - 1;
      SettledAfterTakes(s, t[..n]);
      assert t == t[..n] + [t[n]];
      SomesAppend(t[..n], t[n]);
      assert s + Somes(t) == (s + Somes(t[..n])) + [Some(t[n])];
      PendingAfterPush(s + Somes(t[..n]), t[n]);
    }
  }

  /**
   * `take_committed(hand, combos, False)` on a hand with nothing pending answers whether the
   * hand can supply all the combos' cards together, each card it lacks taking a joker, and
   * leaves the hand as it was.
   */
  lemma TakeCommittedMeaning(k: Counts, combos: seq<seq<Card>>)
    requires Joker !in k.cards
    ensures TakeAll(k, Flatten(combos)).ok <==> JokersNeeded(k.cards, Flatten(combos)) <= k.jokers
    ensures TakeAll(k, Flatten(combos)).ok ==>
      TakeAll(k, Flatten(combos)).counts ==
        Counts(k.cards - multiset(Flatten(combos)), k.jokers - JokersNeeded(k.cards, Flatten(combos)))
  {
    TakeAllClosedForm(k, Flatten(combos));
  }

  // ---------------------------------------------------------------------------
  // iter_sets and iter_runs
  // ---------------------------------------------------------------------------

  /** `min(_SET_LUT_MAX_JOKERS, jokers)`: the jokers `iter_sets` lets a set use. */
  function SetJokers(jokers: nat): nat
  {
    if jokers < SetLutMaxJokers then jokers else SetLutMaxJokers
  }

  /** `Set.of(rank, combination)` for each combination of one rank. */
  function SetsOfRank(r: Rank, combos: seq<seq<Option<Color>>>): (ss: seq<Set>)
    ensures |ss| == |combos| && forall i :: 0 <= i < |ss| ==> ss[i] == Set(r, combos[i])
  {
    seq(|combos|, i requires 0 <= i < |combos| => Set(r, combos[i]))
  }

  /** The colour tuples the Setdex at rank `r` allows for these cards and jokers. */
  function RankCombos(cards: multiset<Card>, jokers: nat, r: int): seq<seq<Option<Color>>>
  {
    SetsFromColors(ColorsOf(SetdexValueFor(cards, r)), SetJokers(jokers), SetMin)
  }

  /** The sets `iter_sets` yields for the Setdex at index `r` (none below Rank.MIN). */
  function RankSets(cards: multiset<Card>, jokers: nat): nat -> seq<Set>
  {
    (r: nat) => if RankMin <= r <= RankMax then SetsOfRank(r, RankCombos(cards, jokers, r)) else []
  }

  /** Everything `iter_sets` yields for a hand with these counts, Setdex by Setdex. */
  function HandSets(k: Counts): seq<Set>
  {
    ConcatMap(Range(0, RankMax + 1), RankSets(k.cards, k.jokers))
  }

  /** `iter_sets(hand)` on an IndexedHand. */
  method IterSets(h: IndexedHand) returns (sets: seq<Set>)
    requires h.Valid()
    ensures sets == HandSets(h.Snapshot())
  {
    var jokers := SetJokers(h.hand.jokers);
    var ranks := Range(0, |h.setdexen|);
    sets := [];
    var i := 0;
    while i < |ranks|
      invariant 0 <= i <= |ranks|
      invariant sets == ConcatMap(ranks[..i], RankSets(h.hand.cards, h.hand.jokers))
    {
      ConcatMapNext(ranks, RankSets(h.hand.cards, h.hand.jokers), i);
      var rank := ranks[i];
      if rank >= RankMin {
        var colors := h.setdexen[rank];
        sets := sets + SetsOfRank(rank, SetsFromColors(colors.Colors(), jokers, SetMin));
      }
      i := i + 1;
    }
    assert ranks[..i] == ranks;
  }

  /**
   * A set is listed exactly when its rank is a real rank and its colours are at least three
   * slots of that rank's Setdex colours after up to `min(3, jokers)` leading jokers, kept in order.
   */
  lemma HandSetsMeaning(k: Counts)
    ensures forall s :: s in HandSets(k) <==>
      SetMin <= |s.colors| &&
      IsSubseq(s.colors, Jokered(ColorsOf(SetdexValueFor(k.cards, s.rank)), SetJokers(k.jokers)))
  {
    forall s
      ensures s in HandSets(k) <==>
        SetMin <= |s.colors| &&
        IsSubseq(s.colors, Jokered(ColorsOf(SetdexValueFor(k.cards, s.rank)), SetJokers(k.jokers)))
    {
      HandSetMember(k, s);
      SetsFromColorsMeaning(ColorsOf(SetdexValueFor(k.cards, s.rank)), SetJokers(k.jokers), SetMin);
    }
  }

  /**
   * `iter_sets` lists no set twice: one Setdex lists its colour tuples strictly sorted, and
   * different Setdexes list sets of different ranks.
   */
  lemma HandSetsDistinct(k: Counts)
    ensures Distinct(HandSets(k))
  {
    var f := RankSets(k.cards, k.jokers);
    forall r | r in Range(0, RankMax + 1)
      ensures Distinct(f(r)) && forall s :: s in f(r) ==> s.rank == r
    {
      RankSetsDistinct(k, r);
    }
    ConcatMapDistinct(Range(0, RankMax + 1), f);
  }

  lemma RankSetsDistinct(k: Counts, r: nat)
    ensures Distinct(RankSets(k.cards, k.jokers)(r))
    ensures forall s :: s in RankSets(k.cards, k.jokers)(r) ==> s.rank == r
  {
    if RankMin <= r <= RankMax {
      var combos := RankCombos(k.cards, k.jokers, r);
      SetsFromColorsMeaning(ColorsOf(SetdexValueFor(k.cards, r)), SetJokers(k.jokers), SetMin);
      StrictlySortedDistinct(combos, SetKey);
      var ss := SetsOfRank(r, combos);
      forall i, j | 0 <= i < j < |ss|
        ensures ss[i] != ss[j]
      {
        assert ss[i].colors == combos[i] && ss[j].colors == combos[j];
      }
    }
  }

  /** A set is listed exactly when its colours are among its rank's combinations. */
  lemma HandSetMember(k: Counts, s: Set)
    ensures s in HandSets(k) <==> s.colors in RankCombos(k.cards, k.jokers, s.rank)
  {
    IndexedSetMember(Range(0, RankMax + 1), RankSets(k.cards, k.jokers),
      (r: nat) => RankCombos(k.cards, k.jokers, r), s);
  }

  /**
   * Concatenating, rank by rank, the sets of each rank's combinations lists a set exactly
   * when its colours are among the combinations of its rank.
   */
  lemma IndexedSetMember(ranks: seq<nat>, f: nat -> seq<Set>, g: nat -> seq<seq<Option<Color>>>, s: Set)
    requires |ranks| == RankMax + 1 && forall i :: 0 <= i < |ranks| ==> ranks[i] == i
    requires forall r: nat :: f(r) == if RankMin <= r <= RankMax then SetsOfRank(r, g(r)) else []
    ensures s in ConcatMap(ranks, f) <==> s.colors in g(s.rank)
  {
    ConcatMapMember(ranks, f, s);
    if s.colors in g(s.rank) {
      var i :| 0 <= i < |g(s.rank)| && g(s.rank)[i] == s.colors;
      assert ranks[s.rank] == s.rank;
      assert f(s.rank)[i] == s;
    }
    if s in ConcatMap(ranks, f) {
      var r: nat :| r in ranks && s in f(r);
      var i :| 0 <= i < |f(r)| && f(r)[i] == s;
      assert g(r)[i] == s.colors;
    }
  }

  /** Every Setdex value the hand holds at a real rank is a key of the set table. */
  ghost predicate SetKeysPresent(cards: multiset<Card>)
  {
    forall r :: RankMin <= r <= RankMax ==> SetKeyPresent(cards, r)
  }

  /** The Setdex values at the real ranks below `n` are keys of the set table. */
  ghost predicate SetKeysBelow(cards: multiset<Card>, n: int)
    decreases n
  {
    n <= RankMin || (SetKeysBelow(cards, n - 1) && SetKeyPresent(cards, n - 1))
  }

  /** Below `n`, the recursive check and the quantified one agree. */
  lemma {:induction false} SetKeysBelowMeaning(cards: multiset<Card>, n: int)
    ensures SetKeysBelow(cards, n) <==> forall r :: RankMin <= r < n ==> SetKeyPresent(cards, r)
    decreases n
  {
    if n > RankMin {
      SetKeysBelowMeaning(cards, n - 1);
    }
  }

  /** The Setdex value the hand holds at rank `r` is a key of the set table. */
  ghost predicate SetKeyPresent(cards: multiset<Card>, r: int)
  {
    SetdexValueFor(cards, r) < 256
  }

  /**
   * `iter_sets_lut(hand)`: `maybe_precompute()`, then the set table for `min(3, jokers)`
   * looked up by each Setdex value. A missing table or value raises KeyError; otherwise the
   * sets are exactly those `iter_sets` yields.
   */
  method IterSetsLut(h: IndexedHand, t: Tables) returns (r: Result<seq<Set>, Error>)
    requires h.Valid() && t.Valid() && t !in h.Repr
    modifies t
    ensures t.Valid()
    ensures old(t.setLut) == map[] || old(t.runLut) == map[] ==>
      (forall j :: 0 <= j <= SetLutMaxJokers ==> j in t.setLut) &&
      (forall j :: 0 <= j <= RunLutMaxJokers ==> j in t.runLut)
    ensures old(t.setLut) != map[] && old(t.runLut) != map[] ==>
      t.setLut == old(t.setLut) && t.runLut == old(t.runLut)
    ensures r.Ok? <==> SetJokers(h.hand.jokers) in t.setLut && SetKeysPresent(h.hand.cards)
    ensures r.Err? ==> r.error == KeyError
    ensures r.Ok? ==> r.value == HandSets(h.Snapshot())
  {
    t.MaybePrecompute();
    var jokers := SetJokers(h.hand.jokers);
    if jokers !in t.setLut {
      return Err(KeyError);
    }
    r := SetsFromTable(h, t.setLut[jokers]);
  }

  /** The loop of `iter_sets_lut` over the Setdexen, reading one set table. */
  method SetsFromTable(h: IndexedHand, table: SetTable) returns (r: Result<seq<Set>, Error>)
    requires h.Valid() && SetTableFor(table, SetJokers(h.hand.jokers))
    ensures r.Ok? <==> SetKeysPresent(h.hand.cards)
    ensures r.Err? ==> r.error == KeyError
    ensures r.Ok? ==> r.value == HandSets(h.Snapshot())
  {
    var ranks := Range(0, |h.setdexen|);
    assert ranks == Range(0, RankMax + 1);
    var sets := [];
    var i := 0;
    while i < |ranks|
      invariant 0 <= i <= |ranks|
      invariant sets == ConcatMap(ranks[..i], RankSets(h.hand.cards, h.hand.jokers))
      invariant SetKeysBelow(h.hand.cards, i)
    {
      var more := SetsAtIndex(h, table, ranks, i, sets);
      if more.None? {
        return Err(KeyError);
      }
      sets := more.value;
      i := i + 1;
    }
    SetsLoopDone(h.hand.cards, h.hand.jokers, ranks, sets);
    return Ok(sets);
  }

  /** After the last pass, every real rank's key was found and the sets are those of `iter_sets`. */
  lemma SetsLoopDone(cards: multiset<Card>, jokers: nat, ranks: seq<nat>, sets: seq<Set>)
    requires ranks == Range(0, RankMax + 1)
    requires sets == ConcatMap(ranks[..|ranks|], RankSets(cards, jokers))
    requires SetKeysBelow(cards, |ranks|)
    ensures sets == HandSets(Counts(cards, jokers)) && SetKeysPresent(cards)
  {
    assert ranks[..|ranks|] == ranks;
    SetKeysBelowMeaning(cards, |ranks|);
  }

  /** One pass of the loop of `iter_sets_lut`: nothing below the real ranks, else the table entry. */
  method SetsAtIndex(h: IndexedHand, table: SetTable, ranks: seq<nat>, i: nat, sets: seq<Set>)
    returns (more: Option<seq<Set>>)
    requires h.Valid() && SetTableFor(table, SetJokers(h.hand.jokers))
    requires ranks == Range(0, RankMax + 1) && i < |ranks|
    requires sets == ConcatMap(ranks[..i], RankSets(h.hand.cards, h.hand.jokers))
    requires SetKeysBelow(h.hand.cards, i)
    ensures more.Some? <==> i < RankMin || SetKeyPresent(h.hand.cards, i)
    ensures more.None? ==> !SetKeysPresent(h.hand.cards)
    ensures more.Some? ==> more.value == ConcatMap(ranks[..i + 1], RankSets(h.hand.cards, h.hand.jokers))
    ensures more.Some? ==> SetKeysBelow(h.hand.cards, i + 1)
  {
    ConcatMapNext(ranks, RankSets(h.hand.cards, h.hand.jokers), i);
    assert ranks[i] == i;
    if i < RankMin {
      return Some(sets);
    }
    var found := SetdexSetsFromTable(h, table, i);
    if found.None? {
      return None;
    }
    return Some(sets + found.value);
  }

  /** The inner loop of `iter_sets_lut`: the table entry for one Setdex's value, if present. */
  method SetdexSetsFromTable(h: IndexedHand, table: SetTable, rank: Rank) returns (sets: Option<seq<Set>>)
    requires h.Valid() && SetTableFor(table, SetJokers(h.hand.jokers))
    ensures sets.Some? <==> SetKeyPresent(h.hand.cards, rank)
    ensures sets.Some? ==> sets.value == RankSets(h.hand.cards, h.hand.jokers)(rank)
  {
    var value := h.setdexen[rank].value;
    if value !in table {
      return None;
    }
    return Some(SetsOfRank(rank, table[value]));
  }

  /** `Run.of(color, start, jokers)` for each `(start, jokers)` of one colour. */
  function RunsOfColor(c: Color, spans: seq<RunSpan>): (rs: seq<Run>)
    ensures |rs| == |spans| && forall i :: 0 <= i < |rs| ==> rs[i] == Run(c, spans[i].start, spans[i].flags)
  {
    seq(|spans|, i requires 0 <= i < |spans| => Run(c, spans[i].start, spans[i].flags))
  }

  /** The runs `iter_runs` yields for the Rundex of colour `c`. */
  function ColorRuns(cards: multiset<Card>, jokers: nat): Color -> seq<Run>
  {
    c => RunsOfColor(c, RunsFromRanks(RanksFrom(RundexCountsFor(cards, c), RankMin), jokers))
  }

  /** Everything `iter_runs` yields for a hand with these counts, colour by colour. */
  function HandRuns(k: Counts): seq<Run>
  {
    ConcatMap(ColorIter(), ColorRuns(k.cards, k.jokers))
  }

  /** The Rundex of a colour holds the counts of that colour's real cards. */
  lemma RundexHolds(h: IndexedHand, c: Color)
    requires h.Valid()
    ensures h.rundexen[c].Valid() && h.rundexen[c].arr[..] == RundexCountsFor(h.hand.cards, c)
  {
  }

  /** `iter_runs(hand)` on an IndexedHand: the Rundexen in colour order. */
  method IterRuns(h: IndexedHand) returns (runs: seq<Run>)
    requires h.Valid()
    ensures runs == HandRuns(h.Snapshot())
  {
    var colors := ColorIter();
    runs := [];
    var i := 0;
    while i < |colors|
      invariant 0 <= i <= |colors|
      invariant runs == ConcatMap(colors[..i], ColorRuns(h.hand.cards, h.hand.jokers))
    {
      ConcatMapNext(colors, ColorRuns(h.hand.cards, h.hand.jokers), i);
      var more := RundexRuns(h, colors[i]);
      runs := runs + more;
      i := i + 1;
    }
    assert colors[..i] == colors;
  }

  /** The inner loop of `iter_runs`: the runs of one Rundex. */
  method RundexRuns(h: IndexedHand, color: Color) returns (runs: seq<Run>)
    requires h.Valid()
    ensures runs == ColorRuns(h.hand.cards, h.hand.jokers)(color)
  {
    RundexHolds(h, color);
    var spans := RanksFromRundex(h.rundexen[color], h.hand.jokers);
    runs := RunsOfColor(color, spans);
  }

  /**
   * A run is listed exactly when its start, length and joker flags fit the hand: at least
   * Run.MIN long, within 2..14, every unflagged rank held in its colour, and at most
   * `min(3, jokers)` flags.
   */
  lemma HandRunsMeaning(k: Counts)
    ensures forall run :: run in HandRuns(k) <==>
      FitsCounts(RunSpan(run.start, run.jokers), RundexCountsFor(k.cards, run.color), k.jokers)
  {
    forall run
      ensures run in HandRuns(k) <==>
        FitsCounts(RunSpan(run.start, run.jokers), RundexCountsFor(k.cards, run.color), k.jokers)
    {
      HandRunMember(k, run);
      RundexRunsMeaning(RundexCountsFor(k.cards, run.color), k.jokers);
    }
  }

  /**
   * `iter_runs` lists no run twice: one colour's spans are strictly sorted, and different
   * colours give runs of different colours.
   */
  lemma HandRunsDistinct(k: Counts)
    ensures Distinct(HandRuns(k))
  {
    var f := ColorRuns(k.cards, k.jokers);
    forall c | c in ColorIter()
      ensures Distinct(f(c)) && forall run :: run in f(c) ==> run.color == c
    {
      ColorRunsDistinct(k, c);
    }
    assert Distinct(ColorIter()) by {
      ColorIterProps();
      forall i, j | 0 <= i < j < 4
        ensures ColorIter()[i] != ColorIter()[j]
      {
        assert ColorIter()[i].Code() != ColorIter()[j].Code();
      }
    }
    ConcatMapDistinct(ColorIter(), f);
  }

  lemma ColorRunsDistinct(k: Counts, c: Color)
    ensures Distinct(ColorRuns(k.cards, k.jokers)(c))
    ensures forall run :: run in ColorRuns(k.cards, k.jokers)(c) ==> run.color == c
  {
    var spans := ColorSpans(k, c);
    RundexRunsMeaning(RundexCountsFor(k.cards, c), k.jokers);
    StrictlySortedDistinct(spans, SpanKey);
    RunsOfColorDistinct(c, spans);
  }

  lemma RunsOfColorDistinct(c: Color, spans: seq<RunSpan>)
    requires Distinct(spans)
    ensures Distinct(RunsOfColor(c, spans))
    ensures forall run :: run in RunsOfColor(c, spans) ==> run.color == c
  {
    var rs := RunsOfColor(c, spans);
    forall i, j | 0 <= i < j < |rs|
      ensures rs[i] != rs[j]
    {
      assert RunSpan(rs[i].start, rs[i].jokers) == spans[i];
      assert RunSpan(rs[j].start, rs[j].jokers) == spans[j];
    }
  }

  /** The runs `ranks_from_rundex` lists for the Rundex of colour `c`. */
  function ColorSpans(k: Counts, c: Color): seq<RunSpan>
  {
    RunsFromRanks(RanksFrom(RundexCountsFor(k.cards, c), RankMin), k.jokers)
  }

  /** A run is listed exactly when its span is among its colour's spans. */
  lemma HandRunMember(k: Counts, run: Run)
    ensures run in HandRuns(k) <==> RunSpan(run.start, run.jokers) in ColorSpans(k, run.color)
  {
    var f := ColorRuns(k.cards, k.jokers);
    ConcatMapMember(ColorIter(), f, run);
    if RunSpan(run.start, run.jokers) in ColorSpans(k, run.color) {
      var spans := ColorSpans(k, run.color);
      var i :| 0 <= i < |spans| && spans[i] == RunSpan(run.start, run.jokers);
      ColorIterProps();
      assert f(run.color)[i] == run;
    }
    if run in HandRuns(k) {
      var c :| c in ColorIter() && run in f(c);
      var i :| 0 <= i < |f(c)| && f(c)[i] == run;
      assert ColorSpans(k, c)[i] == RunSpan(run.start, run.jokers);
    }
  }

  /** The run table's entry for a Rundex's vector lists what `ranks_from_rundex` lists for it. */
  lemma RunLutEntry(t: RunTable, j: nat, v: int, a: seq<int>)
    requires RunTableFor(t, JokerCap(j)) && InVectorRange(v) && |a| == RankMax + 1
    requires forall r: Rank :: HasRank(v, r) <==> a[r] > 0
    ensures v in t && t[v] == RunsFromRanks(RanksFrom(a, RankMin), j)
  {
    RanksFromPositive(VectorCounts(v), a, RankMin);
    assert JokerCap(JokerCap(j)) == JokerCap(j);
  }

  /**
   * `iter_runs_lut(hand)`: `maybe_precompute()`, then the run table for `min(jokers, 3)`
   * looked up by each Rundex's `to_vector()`. A missing table raises KeyError; otherwise the
   * runs are exactly those `iter_runs` yields.
   */
  method IterRunsLut(h: IndexedHand, t: Tables) returns (r: Result<seq<Run>, Error>)
    requires h.Valid() && t.Valid() && t !in h.Repr
    modifies t
    ensures t.Valid()
    ensures old(t.setLut) == map[] || old(t.runLut) == map[] ==>
      (forall j :: 0 <= j <= SetLutMaxJokers ==> j in t.setLut) &&
      (forall j :: 0 <= j <= RunLutMaxJokers ==> j in t.runLut)
    ensures old(t.setLut) != map[] && old(t.runLut) != map[] ==>
      t.setLut == old(t.setLut) && t.runLut == old(t.runLut)
    ensures r.Ok? <==> JokerCap(h.hand.jokers) in t.runLut
    ensures r.Err? ==> r.error == KeyError
    ensures r.Ok? ==> r.value == HandRuns(h.Snapshot())
  {
    t.MaybePrecompute();
    var jokers := JokerCap(h.hand.jokers);
    if jokers !in t.runLut {
      return Err(KeyError);
    }
    var runs := RunsFromTable(h, t.runLut[jokers]);
    return Ok(runs);
  }

  /** The loop of `iter_runs_lut` over the Rundexen, reading one run table. */
  method RunsFromTable(h: IndexedHand, table: RunTable) returns (runs: seq<Run>)
    requires h.Valid() && RunTableFor(table, JokerCap(h.hand.jokers))
    ensures runs == HandRuns(h.Snapshot())
  {
    var colors := ColorIter();
    runs := [];
    var i := 0;
    while i < |colors|
      invariant 0 <= i <= |colors|
      invariant runs == ConcatMap(colors[..i], ColorRuns(h.hand.cards, h.hand.jokers))
    {
      ConcatMapNext(colors, ColorRuns(h.hand.cards, h.hand.jokers), i);
      var more := RundexRunsFromTable(h, table, colors[i]);
      runs := runs + more;
      i := i + 1;
    }
    assert colors[..i] == colors;
  }

  /** The inner loop of `iter_runs_lut`: the table entry for one Rundex's vector. */
  method RundexRunsFromTable(h: IndexedHand, table: RunTable, color: Color) returns (runs: seq<Run>)
    requires h.Valid() && RunTableFor(table, JokerCap(h.hand.jokers))
    ensures runs == ColorRuns(h.hand.cards, h.hand.jokers)(color)
  {
    RundexHolds(h, color);
    var vector := h.rundexen[color].ToVector();
    RunLutEntry(table, h.hand.jokers, vector, RundexCountsFor(h.hand.cards, color));
    runs := RunsOfColor(color, table[vector]);
  }
}
