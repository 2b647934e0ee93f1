/**
 * The update generators of liverpool/generation.py for one meld on the table: `iter_adds`
 * (cards added to a set), `extend_from` (the cards one run adds around another) and
 * `iter_extends` (every extension a hand allows for a run).
 */
module Updates {
  import opened Wrappers
  import opened Common
  import opened Hands
  import opened Indexes
  import opened IndexedHands
  import opened Combinatorics
  import opened Enumeration
  import opened Melds
  import opened MeldSearch

  // ---------------------------------------------------------------------------
  // iter_adds
  // ---------------------------------------------------------------------------

  /** `Add(Card.of(rank, color) ...)`: a colour tuple of one rank as cards; `None` is a joker. */
  function AddOf(rank: Rank, combination: seq<Option<Color>>): Add
  {
    Add(SetCards(Set(rank, combination)))
  }

  /** The colour tuples `iter_adds` turns into cards: all jokers count, and one card is enough. */
  function AddCombos(k: Counts, rank: Rank): seq<seq<Option<Color>>>
  {
    SetsFromColors(ColorsOf(SetdexValueFor(k.cards, rank)), k.jokers, 1)
  }

  /** Everything `iter_adds(hand, set_)` yields: the empty add, then one add per colour tuple. */
  function AddsOf(k: Counts, s: Set): (adds: seq<Add>)
    ensures |adds| == 1 + |AddCombos(k, s.rank)| && adds[0] == Add([])
    ensures forall i :: 0 <= i < |AddCombos(k, s.rank)| ==> adds[i + 1] == AddOf(s.rank, AddCombos(k, s.rank)[i])
    ensures forall a, i :: a in adds && 0 <= i < |a.cards| ==> RankOf(a.cards[i]) == Some(s.rank)
  {
    var combos := AddCombos(k, s.rank);
    [Add([])] + seq(|combos|, i requires 0 <= i < |combos| => AddOf(s.rank, combos[i]))
  }

  /** `iter_adds(hand, set_)` on an IndexedHand: reads the Setdex of the set's rank. */
  method IterAdds(h: IndexedHand, s: Set) returns (adds: seq<Add>)
    requires h.Valid()
    ensures adds == AddsOf(h.Snapshot(), s)
  {
    var colors := h.setdexen[s.rank].Colors();
    assert colors == ColorsOf(SetdexValueFor(h.hand.cards, s.rank));
    var combos := SetsFromColors(colors, h.hand.jokers, 1);
    ghost var expected := AddsOf(h.Snapshot(), s);
    assert combos == AddCombos(h.Snapshot(), s.rank);
    adds := AddsFrom(s.rank, combos);
    assert forall n :: 0 <= n < |adds| ==> adds[n] == expected[n] by {
      forall n | 0 <= n < |adds|
        ensures adds[n] == expected[n]
      {
        if n > 0 {
          assert adds[n] == AddOf(s.rank, combos[n - 1]);
        }
      }
    }
  }

  /** The loop of `iter_adds`: the empty add, then one add per colour tuple, in order. */
  method AddsFrom(rank: Rank, combos: seq<seq<Option<Color>>>) returns (adds: seq<Add>)
    ensures |adds| == |combos| + 1 && adds[0] == Add([])
    ensures forall n :: 0 <= n < |combos| ==> adds[n + 1] == AddOf(rank, combos[n])
  {
    adds := [Add([])];
    var i := 0;
    while i < |combos|
      invariant 0 <= i <= |combos| && |adds| == i + 1 && adds[0] == Add([])
      invariant forall n :: 0 <= n < i ==> adds[n + 1] == AddOf(rank, combos[n])
    {
      adds := adds + [AddOf(rank, combos[i])];
      i := i + 1;
    }
  }

  /**
   * Apart from the empty add, an add lists the cards of one rank, at least one of them, in the
   * colour order of the hand's Setdex with any number of the hand's jokers in front.
   */
  lemma AddsOfSound(k: Counts, s: Set, a: Add) returns (c: seq<Option<Color>>)
    requires a in AddsOf(k, s) && a != Add([])
    ensures 1 <= |c| && IsSubseq(c, Jokered(ColorsOf(SetdexValueFor(k.cards, s.rank)), k.jokers))
    ensures a == AddOf(s.rank, c)
  {
    var combos := AddCombos(k, s.rank);
    var adds := AddsOf(k, s);
    var i :| 0 <= i < |adds| && adds[i] == a;
    c := combos[i - 1];
    assert c in combos;
    SetsFromColorsMeaning(ColorsOf(SetdexValueFor(k.cards, s.rank)), k.jokers, 1);
  }

  /** Every such choice of colours and jokers is yielded. */
  lemma AddsOfComplete(k: Counts, s: Set, c: seq<Option<Color>>)
    requires 1 <= |c| && IsSubseq(c, Jokered(ColorsOf(SetdexValueFor(k.cards, s.rank)), k.jokers))
    ensures AddOf(s.rank, c) in AddsOf(k, s)
  {
    var combos := AddCombos(k, s.rank);
    SetsFromColorsMeaning(ColorsOf(SetdexValueFor(k.cards, s.rank)), k.jokers, 1);
    assert c in combos;
    var i :| 0 <= i < |combos| && combos[i] == c;
    assert AddsOf(k, s)[i + 1] == AddOf(s.rank, c);
  }

  // ---------------------------------------------------------------------------
  // extend_from
  // ---------------------------------------------------------------------------

  /** Card order as `extend_from` uses it: by rank. */
  predicate CardBelow(a: Card, b: Card)
  {
    RankOf(a).Some? && RankOf(b).Some? && RankOf(a).value < RankOf(b).value
  }

  /** How many leading cards of `other` lie below `first`. */
  function LeftCount(other: seq<Card>, first: Card): (n: nat)
    ensures n <= |other|
    ensures forall i :: 0 <= i < n ==> CardBelow(other[i], first)
    ensures n < |other| ==> !CardBelow(other[n], first)
    decreases |other|
  {
    if other != [] && CardBelow(other[0], first) then 1 + LeftCount(other[1..], first) else 0
  }

  /**
   * The checks `extend_from` makes once the cards below `run1`'s first card are popped:
   * the next cards must be exactly `run1`'s, and something must be added.
   */
  function ExtendAround(mine: seq<Card>, left: seq<Card>, rest: seq<Card>): (r: Result<Extend, Error>)
    ensures r.Ok? ==> rest == mine + r.value.right && r.value.left == left
    ensures r.Err? ==> r.error == ValueError
  {
    var m := if |mine| < |rest| then |mine| else |rest|;
    if rest[..m] != mine then Err(ValueError)
    else if left == [] && m == |rest| then Err(ValueError)
    else
      assert rest == rest[..m] + rest[m..];
      Ok(Extend(left, rest[m..]))
  }

  /**
   * `extend_from(run1, run2)`: the cards `run2` holds below and above `run1`. The runs must
   * share a colour, `run1` must appear in `run2` right after the cards below its first card,
   * and something must be added. With no cards in `run1`, the first comparison fails.
   */
  function ExtendOf(run1: Run, run2: Run): Result<Extend, Error>
    requires RunInRange(run1) && RunInRange(run2)
  {
    if run1.color != run2.color then Err(ValueError)
    else
      var mine, other := RunCards(run1), RunCards(run2);
      if mine == [] then (if other != [] then Err(IndexError) else Err(ValueError))
      else
        var n := LeftCount(other, mine[0]);
        ExtendAround(mine, other[..n], other[n..])
  }

  /** `extend_from(run1, run2)`: pops the cards below `run1`, then checks what is left. */
  method ExtendFrom(run1: Run, run2: Run) returns (r: Result<Extend, Error>)
    requires RunInRange(run1) && RunInRange(run2)
    ensures r == ExtendOf(run1, run2)
  {
    if run1.color != run2.color {
      return Err(ValueError);
    }
    var mine := RunCards(run1);
    var split := PopBelow(mine, RunCards(run2));
    if split.Err? {
      return Err(split.error);
    }
    var (left, other) := split.value;
    assert RunCards(run2)[..|left|] == left && RunCards(run2)[|left|..] == other;
    var m := if |mine| < |other| then |mine| else |other|;
    var overlap, right := other[..m], other[m..];
    if overlap != mine {
      return Err(ValueError);
    }
    if left == [] && right == [] {
      return Err(ValueError);
    }
    return Ok(Extend(left, right));
  }

  /**
   * The `while` loop of `extend_from`: moves the leading cards of `other` below `mine`'s first
   * card to `left`. Comparing against the first card of an empty `mine` is an IndexError.
   */
  method PopBelow(mine: seq<Card>, other: seq<Card>) returns (r: Result<(seq<Card>, seq<Card>), Error>)
    ensures r.Err? <==> mine == [] && other != []
    ensures r.Err? ==> r.error == IndexError
    ensures r.Ok? ==> r.value.0 + r.value.1 == other
    ensures r.Ok? ==> |r.value.0| == if mine == [] then 0 else LeftCount(other, mine[0])
  {
    var left := [];
    var rest := other;
    while rest != []
      invariant left + rest == other
      invariant mine == [] ==> left == []
      invariant mine != [] ==> LeftCount(other, mine[0]) == |left| + LeftCount(rest, mine[0])
      decreases |rest|
    {
      if mine == [] {
        return Err(IndexError);
      }
      if !CardBelow(rest[0], mine[0]) {
        break;
      }
      assert rest == [rest[0]] + rest[1..];
      left := left + [rest[0]];
      rest := rest[1..];
    }
    return Ok((left, rest));
  }

  /** In a run, the cards below the card of rank `start + p` are exactly the first `p`. */
  lemma BelowByPosition(run2: Run, p: nat, first: Card)
    requires RunInRange(run2) && p < |run2.jokers|
    requires RankOf(first) == Some(run2.start + p)
    ensures LeftCount(RunCards(run2), first) == p
  {
    var other := RunCards(run2);
    assert !CardBelow(other[p], first);
    assert forall i :: 0 <= i < p ==> CardBelow(other[i], first);
  }

  /**
   * An extension puts `run1` back together with what was added: `run2` is the cards below,
   * `run1`, then the cards above, and at least one card is added.
   */
  lemma ExtendOfSound(run1: Run, run2: Run)
    requires RunInRange(run1) && RunInRange(run2)
    ensures ExtendOf(run1, run2).Ok? ==>
      var e := ExtendOf(run1, run2).value;
      run1.color == run2.color &&
      RunCards(run2) == e.left + RunCards(run1) + e.right && |ExtendCards(e)| > 0
  {
    var mine, other := RunCards(run1), RunCards(run2);
    if ExtendOf(run1, run2).Ok? {
      var n := LeftCount(other, mine[0]);
      assert other == other[..n] + other[n..];
    }
  }

  /** Whenever `run2` is `run1` with some cards around it, `extend_from` finds exactly those cards. */
  lemma ExtendOfComplete(run1: Run, run2: Run, left: seq<Card>, right: seq<Card>)
    requires RunInRange(run1) && RunInRange(run2)
    requires run1.color == run2.color && RunCards(run1) != [] && |left + right| > 0
    requires RunCards(run2) == left + RunCards(run1) + right
    ensures ExtendOf(run1, run2) == Ok(Extend(left, right))
  {
    var mine, other := RunCards(run1), RunCards(run2);
    assert other[|left|] == mine[0];
    BelowByPosition(run2, |left|, mine[0]);
    assert other[|left|..] == mine + right;
    assert other[..|left|] == left;
    assert (mine + right)[..|mine|] == mine;
  }

  /**
   * The errors of `extend_from`: an IndexError exactly when `run1` has no cards and `run2` has
   * some; a ValueError for runs of different colours and for a run extended by itself.
   */
  lemma ExtendOfErrors(run1: Run, run2: Run)
    requires RunInRange(run1) && RunInRange(run2)
    ensures ExtendOf(run1, run2) == Err(IndexError) <==>
      run1.color == run2.color && RunCards(run1) == [] && RunCards(run2) != []
    ensures run1.color != run2.color ==> ExtendOf(run1, run2) == Err(ValueError)
    ensures RunCards(run1) == RunCards(run2) ==> ExtendOf(run1, run2).Err?
  {
    if run1.color == run2.color && RunCards(run1) == RunCards(run2) && RunCards(run1) != [] {
      BelowByPosition(run2, 0, RunCards(run1)[0]);
    }
  }

  // ---------------------------------------------------------------------------
  // iter_extends
  // ---------------------------------------------------------------------------

  /** What `iter_color(c)` lists for these cards: each real card of colour `c`, rank by rank. */
  function ColorCardsOf(cards: multiset<Card>, c: Color): (cs: seq<Card>)
    ensures forall x :: x in cs ==> x.Natural? && x.color == c
  {
    var ranks := CopiesFrom(RundexCountsFor(cards, c), RankMin);
    CopiesFromBounds(RundexCountsFor(cards, c), RankMin);
    seq(|ranks|, i requires 0 <= i < |ranks| => Natural(ranks[i], c))
  }

  /** `iter_color` reads what the Rundex of the colour holds. */
  lemma IterColorOf(h: IndexedHand, c: Color)
    requires h.Valid()
    ensures h.IterColor(c) == ColorCardsOf(h.hand.cards, c)
  {
    RundexHolds(h, c);
  }

  /** `card.dematerialized()` for each card. */
  function DematerializeAll(cs: seq<Card>): (ds: seq<Card>)
    ensures |ds| == |cs| && forall i :: 0 <= i < |cs| ==> ds[i] == Dematerialized(cs[i])
  {
    seq(|cs|, i requires 0 <= i < |cs| => Dematerialized(cs[i]))
  }

  /**
   * The hand `iter_extends` searches: the real cards of the run's colour, the run's cards
   * with its jokers as plain jokers, and all of the hand's jokers.
   */
  function ExtendHand(k: Counts, run: Run): Counts
    requires RunInRange(run)
  {
    var colored := PutAll(Counts(multiset{}, 0), ColorCardsOf(k.cards, run.color));
    PutAll(PutAll(colored, DematerializeAll(RunCards(run))), Hands.Repeat(Joker, k.jokers))
  }

  /** `acc` in front of a result's items; an error stays. */
  function Prefixed(acc: seq<Extend>, r: Result<seq<Extend>, Error>): (p: Result<seq<Extend>, Error>)
    ensures p.Ok? == r.Ok? && (r.Ok? ==> p.value == acc + r.value) && (r.Err? ==> p == r)
  {
    if r.Ok? then Ok(acc + r.value) else r
  }

  predicate AllInRange(runs: seq<Run>)
  {
    forall i :: 0 <= i < |runs| ==> RunInRange(runs[i])
  }

  /**
   * The extensions of `run` by each of `runs` in order, skipping the runs `extend_from`
   * rejects with a ValueError; any other error ends the search.
   */
  function ExtendsAmong(run: Run, runs: seq<Run>): Result<seq<Extend>, Error>
    requires RunInRange(run) && AllInRange(runs)
    decreases |runs|
  {
    if runs == [] then Ok([])
    else
      var first := ExtendOf(run, runs[0]);
      if first.Ok? then Prefixed([first.value], ExtendsAmong(run, runs[1..]))
      else if first.error == ValueError then ExtendsAmong(run, runs[1..])
      else Err(first.error)
  }

  /** Everything `iter_extends(hand, run)` yields: the empty extension, then the search. */
  function ExtendsOf(k: Counts, run: Run): Result<seq<Extend>, Error>
    requires RunInRange(run)
  {
    ExtendsIn(run, ExtendHand(k, run))
  }

  /** The empty extension, then the extensions of `run` by the runs of a hand with counts `k`. */
  function ExtendsIn(run: Run, k: Counts): Result<seq<Extend>, Error>
    requires RunInRange(run)
  {
    HandRunsInRange(k);
    Prefixed([Extend([], [])], ExtendsAmong(run, HandRuns(k)))
  }

  /** `iter_extends(hand, run)` with `iter_runs` as the run iterator. */
  method IterExtends(h: IndexedHand, run: Run) returns (r: Result<seq<Extend>, Error>)
    requires h.Valid() && RunInRange(run)
    ensures r == ExtendsOf(h.Snapshot(), run)
  {
    var newHand := NewExtendHand(h, run);
    r := ExtendsInHand(run, newHand);
  }

  /** The new hand of `iter_extends`: its colour cards, then the run's cards, then the jokers. */
  method NewExtendHand(h: IndexedHand, run: Run) returns (newHand: IndexedHand)
    requires h.Valid() && RunInRange(run)
    ensures newHand.Valid() && fresh(newHand.Repr)
    ensures newHand.Snapshot() == ExtendHand(h.Snapshot(), run)
  {
    var colored := h.IterColor(run.color);
    IterColorOf(h, run.color);
    newHand := new IndexedHand(colored);
    newHand.PutCombo(DematerializeAll(RunCards(run)));
    newHand.PutCombo(Hands.Repeat(Joker, h.hand.jokers));
  }

  /** The search of `iter_extends` through the runs `iter_runs` yields for the new hand. */
  method ExtendsInHand(run: Run, newHand: IndexedHand) returns (r: Result<seq<Extend>, Error>)
    requires newHand.Valid() && RunInRange(run)
    ensures r == ExtendsIn(run, newHand.Snapshot())
  {
    var runs := IterRuns(newHand);
    HandRunsInRange(newHand.Snapshot());
    r := ExtendsFromRuns(run, runs);
  }

  /** The loop of `iter_extends` over the runs of the new hand. */
  method ExtendsFromRuns(run: Run, runs: seq<Run>) returns (r: Result<seq<Extend>, Error>)
    requires RunInRange(run) && AllInRange(runs)
    ensures r == Prefixed([Extend([], [])], ExtendsAmong(run, runs))
  {
    var found := [Extend([], [])];
    var i := 0;
    while i < |runs|
      invariant 0 <= i <= |runs|
      invariant Prefixed([Extend([], [])], ExtendsAmong(run, runs)) ==
        Prefixed(found, ExtendsAmong(run, runs[i..]))
    {
      assert runs[i..][0] == runs[i] && runs[i..][1..] == runs[i + 1..];
      var e := ExtendFrom(run, runs[i]);
      if e.Ok? {
        ghost var tail := ExtendsAmong(run, runs[i + 1..]);
        if tail.Ok? {
          Associative(found, [e.value], tail.value);
        }
        found := found + [e.value];
      } else if e.error != ValueError {
        return Err(e.error);
      }
      i := i + 1;
    }
    assert runs[i..] == [] && found + [] == found;
    return Ok(found);
  }

  /** Each extension found comes from one of the runs, which is `run` with that extension around it. */
  lemma {:induction false} ExtendsAmongSound(run: Run, runs: seq<Run>, e: Extend) returns (r2: Run)
    requires RunInRange(run) && AllInRange(runs)
    requires ExtendsAmong(run, runs).Ok? && e in ExtendsAmong(run, runs).value
    ensures r2 in runs && RunInRange(r2) && r2.color == run.color
    ensures RunCards(r2) == e.left + RunCards(run) + e.right && |ExtendCards(e)| > 0
    decreases |runs|
  {
    var first := ExtendOf(run, runs[0]);
    ExtendOfSound(run, runs[0]);
    if first.Ok? && e == first.value {
      r2 := runs[0];
    } else {
      r2 := ExtendsAmongSound(run, runs[1..], e);
    }
  }

  /** The search fails only on an IndexError, which needs a `run` without cards. */
  lemma {:induction false} ExtendsAmongErrors(run: Run, runs: seq<Run>)
    requires RunInRange(run) && AllInRange(runs)
    ensures ExtendsAmong(run, runs).Err? ==> ExtendsAmong(run, runs).error == IndexError && RunCards(run) == []
    decreases |runs|
  {
    if runs != [] {
      ExtendOfErrors(run, runs[0]);
      ExtendsAmongErrors(run, runs[1..]);
    }
  }

  /** Every run that is `run` with cards around it contributes exactly those cards. */
  lemma {:induction false} ExtendsAmongComplete(run: Run, runs: seq<Run>, i: nat, left: seq<Card>, right: seq<Card>)
    requires RunInRange(run) && AllInRange(runs) && i < |runs|
    requires runs[i].color == run.color && RunCards(run) != [] && |left + right| > 0
    requires RunCards(runs[i]) == left + RunCards(run) + right
    ensures ExtendsAmong(run, runs).Ok? && Extend(left, right) in ExtendsAmong(run, runs).value
    decreases |runs|
  {
    ExtendsAmongErrors(run, runs);
    if i == 0 {
      ExtendOfComplete(run, runs[0], left, right);
    } else {
      ExtendsAmongComplete(run, runs[1..], i - 1, left, right);
      ExtendsAmongErrors(run, runs[1..]);
    }
  }

  /**
   * Apart from the empty extension, `iter_extends` yields only extensions to runs of the
   * searched hand that contain `run` with at least one more card; it fails only with an
   * IndexError, for a run without cards.
   */
  lemma ExtendsOfSound(k: Counts, run: Run, e: Extend) returns (r2: Run)
    requires RunInRange(run) && ExtendsOf(k, run).Ok? && e in ExtendsOf(k, run).value && e != Extend([], [])
    ensures r2 in HandRuns(ExtendHand(k, run)) && RunInRange(r2) && r2.color == run.color
    ensures RunCards(r2) == e.left + RunCards(run) + e.right && |ExtendCards(e)| > 0
  {
    var runs := HandRuns(ExtendHand(k, run));
    HandRunsInRange(ExtendHand(k, run));
    r2 := ExtendsAmongSound(run, runs, e);
  }

  lemma ExtendsOfErrors(k: Counts, run: Run)
    requires RunInRange(run)
    ensures ExtendsOf(k, run).Ok? ==> ExtendsOf(k, run).value[0] == Extend([], [])
    ensures ExtendsOf(k, run).Err? ==> ExtendsOf(k, run).error == IndexError && RunCards(run) == []
  {
    HandRunsInRange(ExtendHand(k, run));
    ExtendsAmongErrors(run, HandRuns(ExtendHand(k, run)));
  }

  /** Every run of the searched hand that is `run` with cards around it yields those cards. */
  lemma ExtendsOfComplete(k: Counts, run: Run, r2: Run, left: seq<Card>, right: seq<Card>)
    requires RunInRange(run) && r2 in HandRuns(ExtendHand(k, run))
    requires RunInRange(r2) && r2.color == run.color && RunCards(run) != [] && |left + right| > 0
    requires RunCards(r2) == left + RunCards(run) + right
    ensures ExtendsOf(k, run).Ok? && Extend(left, right) in ExtendsOf(k, run).value
  {
    var runs := HandRuns(ExtendHand(k, run));
    HandRunsInRange(ExtendHand(k, run));
    var i :| 0 <= i < |runs| && runs[i] == r2;
    ExtendsAmongComplete(run, runs, i, left, right);
  }
}
