/**
 * `IndexedHand` of liverpool/generation.py: a hand annotated with one Setdex per rank and one
 * Rundex per colour, kept in step with the hand's real cards on every put and take, including
 * the puts a rollback replays.
 *
 * Python's subclass overrides `put_card` and `take_card`, and the inherited `rollback`,
 * `undo` and `take_combo` dispatch to the overrides. Here the class holds the plain Hand and
 * repeats those inherited loops so that they call the indexed operations.
 */
module IndexedHands {
  import opened Wrappers
  import opened Common
  import opened Hands
  import opened Indexes

  /** How many real cards of rank `r` and colour `c` the cards hold (0 off the rank range). */
  function CountOf(cards: multiset<Card>, r: int, c: Color): nat
  {
    if RankMin <= r <= RankMax then cards[Natural(r, c)] else 0
  }

  /** The value a Setdex of rank `r` holds: every real card of that rank adds `1 << 2 * colour`. */
  function SetdexValueFor(cards: multiset<Card>, r: int): int
  {
    64 * CountOf(cards, r, Diamond) + 16 * CountOf(cards, r, Heart) +
    4 * CountOf(cards, r, Spade) + CountOf(cards, r, Club)
  }

  /** The `count` a Setdex of rank `r` holds: the number of real cards of that rank. */
  function SetdexCountFor(cards: multiset<Card>, r: int): int
  {
    CountOf(cards, r, Diamond) + CountOf(cards, r, Heart) + CountOf(cards, r, Spade) + CountOf(cards, r, Club)
  }

  /** The counts a Rundex of colour `c` holds, one per index 0..14. */
  function RundexCountsFor(cards: multiset<Card>, c: Color): (a: seq<int>)
    ensures |a| == RankMax + 1 && forall r :: 0 <= r <= RankMax ==> a[r] == CountOf(cards, r, c)
  {
    seq(RankMax + 1, r requires 0 <= r <= RankMax => CountOf(cards, r, c))
  }

  /** While no colour of a rank is held 4 times or more, its Setdex iterates over exactly its colours. */
  lemma SetdexColorsExact(cards: multiset<Card>, r: Rank)
    requires forall c: Color :: CountOf(cards, r, c) <= 3
    ensures forall c: Color :: multiset(ColorsOf(SetdexValueFor(cards, r)))[c] == CountOf(cards, r, c)
  {
    var m := multiset{}[Club := CountOf(cards, r, Club)][Spade := CountOf(cards, r, Spade)]
      [Heart := CountOf(cards, r, Heart)][Diamond := CountOf(cards, r, Diamond)];
    assert SetdexValue(m) == SetdexValueFor(cards, r);
    forall c: Color
      ensures m[c] <= 3 && m[c] == CountOf(cards, r, c)
    {
      match c
      case Club =>
      case Spade =>
      case Heart =>
      case Diamond =>
    }
    SetdexValueDecodes(m);
  }

  /** Adding a card changes only its own count. */
  lemma CountAfterAdd(cards: multiset<Card>, c: Card, r: int, x: Color)
    ensures CountOf(cards + multiset{c}, r, x) ==
      CountOf(cards, r, x) + (if c.Natural? && c.rank == r && c.color == x then 1 else 0)
  {
  }

  /** Removing a held card changes only its own count. */
  lemma CountAfterRemove(cards: multiset<Card>, c: Card, r: int, x: Color)
    requires c in cards
    ensures CountOf(cards - multiset{c}, r, x) ==
      CountOf(cards, r, x) - (if c.Natural? && c.rank == r && c.color == x then 1 else 0)
  {
  }

  /** Adding a real card moves its rank's Setdex by its colour's field, and no other Setdex. */
  lemma SetdexAfterAdd(cards: multiset<Card>, c: Card, r: int)
    ensures SetdexValueFor(cards + multiset{c}, r) ==
      SetdexValueFor(cards, r) + (if c.Natural? && c.rank == r then Shift(c.color) else 0)
    ensures SetdexCountFor(cards + multiset{c}, r) ==
      SetdexCountFor(cards, r) + (if c.Natural? && c.rank == r then 1 else 0)
  {
    CountAfterAdd(cards, c, r, Club);
    CountAfterAdd(cards, c, r, Spade);
    CountAfterAdd(cards, c, r, Heart);
    CountAfterAdd(cards, c, r, Diamond);
  }

  /** Removing a held real card moves its rank's Setdex back by its colour's field. */
  lemma SetdexAfterRemove(cards: multiset<Card>, c: Card, r: int)
    requires c in cards
    ensures SetdexValueFor(cards - multiset{c}, r) ==
      SetdexValueFor(cards, r) - (if c.Natural? && c.rank == r then Shift(c.color) else 0)
    ensures SetdexCountFor(cards - multiset{c}, r) ==
      SetdexCountFor(cards, r) - (if c.Natural? && c.rank == r then 1 else 0)
  {
    CountAfterRemove(cards, c, r, Club);
    CountAfterRemove(cards, c, r, Spade);
    CountAfterRemove(cards, c, r, Heart);
    CountAfterRemove(cards, c, r, Diamond);
  }

  /** 15 distinct Setdex objects and one Rundex per colour, with distinct arrays, all in `repr`. */
  ghost predicate Shaped(sds: seq<Setdex>, rds: map<Color, Rundex>, repr: set<object>)
  {
    |sds| == RankMax + 1 &&
    (forall r :: 0 <= r < |sds| ==> sds[r] in repr) &&
    (forall r, s :: 0 <= r < s < |sds| ==> sds[r] != sds[s]) &&
    (forall c: Color :: c in rds && rds[c] in repr && rds[c].arr in repr) &&
    (forall c: Color, d: Color :: c != d ==> rds[c].arr != rds[d].arr)
  }

  /** Every Setdex and Rundex holds what the real cards of `cards` make it hold. */
  ghost predicate IndexesOf(sds: seq<Setdex>, rds: map<Color, Rundex>, repr: set<object>, cards: multiset<Card>)
    reads repr
    requires Shaped(sds, rds, repr)
  {
    (forall c: Color :: rds[c].Valid()) &&
    (forall r :: 0 <= r < |sds| ==>
      sds[r].value == SetdexValueFor(cards, r) && sds[r].count == SetdexCountFor(cards, r)) &&
    (forall c: Color, r :: 0 <= r <= RankMax ==> rds[c].arr[r] == CountOf(cards, r, c))
  }

  /** Empty indices for an empty hand. */
  method NewIndices() returns (sds: seq<Setdex>, rds: map<Color, Rundex>, ghost repr: set<object>)
    ensures Shaped(sds, rds, repr) && fresh(repr)
    ensures IndexesOf(sds, rds, repr, multiset{})
  {
    sds := NewSetdexen();
    rds := NewRundexen();
    repr := rds.Values + (set rd | rd in rds.Values :: rd.arr) + (set sd | sd in sds);
    forall r | 0 <= r < |sds|
      ensures sds[r].value == SetdexValueFor(multiset{}, r)
      ensures sds[r].count == SetdexCountFor(multiset{}, r)
    {
    }
    forall x: Color, r | 0 <= r <= RankMax
      ensures rds[x].arr[r] == CountOf(multiset{}, r, x)
    {
    }
  }

  /** One empty Setdex per index 0..14. */
  method NewSetdexen() returns (sds: seq<Setdex>)
    ensures |sds| == RankMax + 1
    ensures forall r :: 0 <= r < |sds| ==> fresh(sds[r]) && sds[r].value == 0 && sds[r].count == 0
    ensures forall r, s :: 0 <= r < s < |sds| ==> sds[r] != sds[s]
  {
    sds := [];
    while |sds| < RankMax + 1
      invariant |sds| <= RankMax + 1
      invariant forall r :: 0 <= r < |sds| ==> fresh(sds[r]) && sds[r].value == 0 && sds[r].count == 0
      invariant forall r, s :: 0 <= r < s < |sds| ==> sds[r] != sds[s]
    {
      var sd := new Setdex(0);
      assert ColorsOf(0) == [];
      sds := sds + [sd];
    }
  }

  /** One empty Rundex per colour. */
  method NewRundexen() returns (rds: map<Color, Rundex>)
    ensures forall c: Color :: (c in rds && fresh(rds[c]) && fresh(rds[c].arr) && rds[c].Valid() &&
      forall r :: 0 <= r <= RankMax ==> rds[c].arr[r] == 0)
    ensures forall c: Color, d: Color :: c != d ==> rds[c].arr != rds[d].arr
  {
    var club := new Rundex();
    var spade := new Rundex();
    var heart := new Rundex();
    var diamond := new Rundex();
    rds := map[Club := club, Spade := spade, Heart := heart, Diamond := diamond];
    forall c: Color
      ensures c in rds && fresh(rds[c]) && fresh(rds[c].arr) && rds[c].Valid()
      ensures forall r :: 0 <= r <= RankMax ==> rds[c].arr[r] == 0
    {
      match c
      case Club =>
      case Spade =>
      case Heart =>
      case Diamond =>
    }
  }

  class IndexedHand {
    const hand: Hand
    const setdexen: seq<Setdex>
    const rundexen: map<Color, Rundex>
    /** The Setdex and Rundex objects and the Rundex arrays. */
    ghost const IndexRepr: set<object>
    ghost const Repr: set<object>

    /** The indices are shaped as they should be and the hand is not among them. */
    ghost predicate Frame()
      reads this
    {
      Repr == {hand} + IndexRepr && hand !in IndexRepr && Shaped(setdexen, rundexen, IndexRepr)
    }

    /** The indices agree with the real cards of `cards`. */
    ghost predicate Indexed(cards: multiset<Card>)
      reads this, IndexRepr
      requires Frame()
    {
      IndexesOf(setdexen, rundexen, IndexRepr, cards)
    }

    ghost predicate Valid()
      reads this, Repr
    {
      Frame() && hand.Valid() && Indexed(hand.cards)
    }

    /** The hand's counts. */
    function Snapshot(): Counts
      reads this, hand
    {
      hand.Snapshot()
    }

    /**
     * `IndexedHand(cards)`: empty indices, then the Hand constructor's puts (dispatched to
     * the indexed `put_card`) and its commit.
     */
    constructor(initial: seq<Card>)
      ensures Valid()
      ensures fresh(Repr)
      ensures Snapshot() == PutAll(Counts(multiset{}, 0), initial)
      ensures Snapshot().Contents() == multiset(initial)
      ensures hand.stack == [None, None]
    {
      var sds, rds, irepr := NewIndices();
      var h := new Hand([]);
      hand := h;
      setdexen := sds;
      rundexen := rds;
      IndexRepr := irepr;
      Repr := {h} + irepr;
      new;
      assert Indexed(hand.cards);
      PutCombo(initial);
      PutAllFromEmpty(initial);
    }

    /** The index half of `put_card`: a real card joins its Rundex and its Setdex. */
    method IndexPut(c: Card, ghost cards: multiset<Card>)
      requires Frame() && Indexed(cards) && c.Natural?
      modifies rundexen[c.color].arr, setdexen[c.rank]
      ensures Indexed(cards + multiset{c})
    {
      rundexen[c.color].Add(c.rank);
      setdexen[c.rank].Append(c.color);
      forall r | 0 <= r < |setdexen|
        ensures setdexen[r].value == SetdexValueFor(cards + multiset{c}, r)
        ensures setdexen[r].count == SetdexCountFor(cards + multiset{c}, r)
      {
        SetdexAfterAdd(cards, c, r);
      }
      forall x: Color, r | 0 <= r <= RankMax
        ensures rundexen[x].arr[r] == CountOf(cards + multiset{c}, r, x)
      {
        CountAfterAdd(cards, c, r, x);
      }
    }

    /** The index half of `take_card`: a real card taken leaves its Rundex and its Setdex. */
    method IndexTake(c: Card, ghost cards: multiset<Card>)
      requires Frame() && Indexed(cards) && c.Natural? && c in cards
      modifies rundexen[c.color].arr, setdexen[c.rank]
      ensures Indexed(cards - multiset{c})
    {
      CountAfterRemove(cards, c, c.rank, c.color);
      var removed := rundexen[c.color].Remove(c.rank);
      setdexen[c.rank].Remove(c.color);
      forall r | 0 <= r < |setdexen|
        ensures setdexen[r].value == SetdexValueFor(cards - multiset{c}, r)
        ensures setdexen[r].count == SetdexCountFor(cards - multiset{c}, r)
      {
        SetdexAfterRemove(cards, c, r);
      }
      forall x: Color, r | 0 <= r <= RankMax
        ensures rundexen[x].arr[r] == CountOf(cards - multiset{c}, r, x)
      {
        CountAfterRemove(cards, c, r, x);
      }
    }

    /** A materialized joker is not indexed, so putting it leaves the indices in step. */
    lemma IndexedWithWild(c: Card, cards: multiset<Card>)
      requires Frame() && Indexed(cards) && c.Wild?
      ensures Indexed(cards + multiset{c})
    {
      forall r | 0 <= r < |setdexen|
        ensures setdexen[r].value == SetdexValueFor(cards + multiset{c}, r)
        ensures setdexen[r].count == SetdexCountFor(cards + multiset{c}, r)
      {
        SetdexAfterAdd(cards, c, r);
      }
      forall x: Color, r | 0 <= r <= RankMax
        ensures rundexen[x].arr[r] == CountOf(cards + multiset{c}, r, x)
      {
        CountAfterAdd(cards, c, r, x);
      }
    }

    /** A held materialized joker is not indexed, so taking it leaves the indices in step. */
    lemma IndexedWithoutWild(c: Card, cards: multiset<Card>)
      requires Frame() && Indexed(cards) && c.Wild? && c in cards
      ensures Indexed(cards - multiset{c})
    {
      forall r | 0 <= r < |setdexen|
        ensures setdexen[r].value == SetdexValueFor(cards - multiset{c}, r)
        ensures setdexen[r].count == SetdexCountFor(cards - multiset{c}, r)
      {
        SetdexAfterRemove(cards, c, r);
      }
      forall x: Color, r | 0 <= r <= RankMax
        ensures rundexen[x].arr[r] == CountOf(cards - multiset{c}, r, x)
      {
        CountAfterRemove(cards, c, r, x);
      }
    }

    /** `put_card`: the Hand's put, then a real card is added to its Rundex and Setdex. */
    method PutCard(c: Card)
      requires Valid()
      modifies Repr
      ensures Valid()
      ensures Snapshot() == PutOne(old(Snapshot()), c) && hand.stack == old(hand.stack)
    {
      ghost var before := hand.cards;
      hand.PutCard(c);
      if c.Natural? {
        IndexPut(c, before);
      } else if c.Wild? {
        IndexedWithWild(c, before);
      }
    }

    /** `put_combo`: the indexed `put_card` for each card. */
    method PutCombo(combo: seq<Card>)
      requires Valid()
      modifies Repr
      ensures Valid()
      ensures Snapshot() == PutAll(old(Snapshot()), combo) && hand.stack == old(hand.stack)
    {
      var i := 0;
      while i < |combo|
        invariant 0 <= i <= |combo|
        invariant Valid() && hand.stack == old(hand.stack)
        invariant Snapshot() == PutAll(old(Snapshot()), combo[..i])
      {
        PutAllLast(old(Snapshot()), combo[..i], combo[i]);
        assert combo[..i + 1] == combo[..i] + [combo[i]];
        PutCard(combo[i]);
        i := i + 1;
      }
      assert combo[..i] == combo;
    }

    /**
     * `take_card`: the Hand's take; when a real card was taken it also leaves its Rundex and
     * Setdex. InvalidTake propagates with nothing changed.
     */
    method TakeCard(c: Card) returns (r: Result<Card, Error>)
      requires Valid()
      modifies Repr
      ensures Valid()
      ensures TakeOne(old(Snapshot()), c).Ok? ==>
        r == Ok(TakeOne(old(Snapshot()), c).value.1) &&
        Snapshot() == TakeOne(old(Snapshot()), c).value.0 &&
        hand.stack == old(hand.stack) + [Some(r.value)]
      ensures TakeOne(old(Snapshot()), c).Err? ==>
        r == Err(InvalidTake) && Snapshot() == old(Snapshot()) && hand.stack == old(hand.stack)
      ensures hand.Restored() == old(hand.Restored())
    {
      ghost var before := hand.cards;
      r := hand.TakeCard(c);
      assert Indexed(before);
      if r.Ok? && r.value.Natural? {
        IndexTake(c, before);
      } else if r.Ok? && r.value.Wild? {
        IndexedWithoutWild(r.value, before);
      }
    }

    /** `commit`: the Hand's commit. */
    method Commit()
      requires Valid()
      modifies Repr
      ensures Valid()
      ensures Snapshot() == old(Snapshot()) && hand.stack == old(hand.stack) + [None]
    {
      hand.Commit();
    }

    /**
     * `rollback`, dispatching to the indexed `put_card`: puts back every card taken since the
     * most recent marker, so the indices return with the counts.
     */
    method Rollback()
      requires Valid()
      modifies Repr
      ensures Valid()
      ensures hand.stack == Settled(old(hand.stack))
      ensures hand.stack[|hand.stack| - 1] == None
      ensures Snapshot() == old(hand.Restored())
    {
      while hand.stack[|hand.stack| - 1].Some?
        invariant Valid()
        invariant Settled(hand.stack) == Settled(old(hand.stack))
        invariant hand.Restored() == old(hand.Restored())
        decreases |hand.stack|
      {
        var top := hand.PopPending();
        PutCard(top);
      }
      SettledEndsWithMarker(hand.stack);
    }

    /** `undo`: the Hand's checks, then the indexed rollback of the previous transaction. */
    method Undo() returns (r: Result<(), Error>)
      requires Valid()
      modifies Repr
      ensures Valid()
      ensures |old(hand.stack)| <= 1 ==>
        r == Err(AssertionError) && Snapshot() == old(Snapshot()) && hand.stack == old(hand.stack)
      ensures |old(hand.stack)| > 1 && old(hand.stack)[|old(hand.stack)| - 1].Some? ==>
        r == Err(AssertionError) && Snapshot() == old(Snapshot()) &&
        hand.stack == old(hand.stack)[..|old(hand.stack)| - 1]
      ensures |old(hand.stack)| > 1 && old(hand.stack)[|old(hand.stack)| - 1].None? ==>
        r == Ok(()) &&
        hand.stack == Settled(old(hand.stack)[..|old(hand.stack)| - 1]) &&
        Snapshot() == PutAll(old(Snapshot()), Pending(old(hand.stack)[..|old(hand.stack)| - 1]))
    {
      if |hand.stack| <= 1 {
        return Err(AssertionError);
      }
      var top := hand.stack[|hand.stack| - 1];
      hand.stack := hand.stack[..|hand.stack| - 1];
      if top.Some? {
        return Err(AssertionError);
      }
      Rollback();
      return Ok(());
    }

    /** `take_combo`: the indexed `take_card` for each card, stopping at the first failure. */
    method TakeCombo(combo: seq<Card>) returns (r: Result<(), Error>)
      requires Valid()
      modifies Repr
      ensures Valid()
      ensures r.Ok? == TakeAll(old(Snapshot()), combo).ok
      ensures r.Err? ==> r.error == InvalidTake
      ensures Snapshot() == TakeAll(old(Snapshot()), combo).counts
      ensures hand.stack == old(hand.stack) + Somes(TakeAll(old(Snapshot()), combo).taken)
      ensures hand.Restored() == old(hand.Restored())
    {
      ghost var k0, stack0, restored0 := Snapshot(), hand.stack, hand.Restored();
      ghost var done: seq<Card> := [];
      var i := 0;
      TakeAllStart(k0, combo);
      assert stack0 + Somes(done) == stack0;
      while i < |combo|
        invariant 0 <= i <= |combo|
        invariant Valid()
        invariant Taking(k0, stack0, restored0, combo, i, done)
      {
        var t := TakeNext(combo, i, done, k0, stack0, restored0);
        if t.Err? {
          return Err(InvalidTake);
        }
        done := done + [t.value];
        i := i + 1;
      }
      TakeAllDone(done, Snapshot(), combo);
      return Ok(());
    }

    /** Partway through `take_combo`: the first `i` cards were taken, as `done`. */
    ghost predicate Taking(k0: Counts, stack0: seq<Option<Card>>, restored0: Counts, combo: seq<Card>, i: nat,
                           done: seq<Card>)
      reads this, hand
    {
      TakingState(k0, stack0, restored0, combo, i, done, Snapshot(), hand.stack, hand.Restored())
    }

    /** One step of `take_combo`: the indexed take of `combo[i]`. */
    method TakeNext(combo: seq<Card>, i: nat, ghost done: seq<Card>, ghost k0: Counts,
                    ghost stack0: seq<Option<Card>>, ghost restored0: Counts)
      returns (t: Result<Card, Error>)
      requires Valid() && i < |combo| && Taking(k0, stack0, restored0, combo, i, done)
      modifies Repr
      ensures Valid()
      ensures t.Ok? ==> Taking(k0, stack0, restored0, combo, i + 1, done + [t.value])
      ensures t.Err? ==>
        TakeAll(k0, combo) == Taken(false, Snapshot(), done) &&
        hand.stack == stack0 + Somes(done) && hand.Restored() == restored0
    {
      ghost var before, stack1, restored1 := Snapshot(), hand.stack, hand.Restored();
      TakingAdvance(k0, stack0, restored0, combo, i, done, before, stack1, restored1);
      t := TakeCard(combo[i]);
    }

    /**
     * `iter_color`: the real cards of one colour, rank by rank, read from its Rundex; each as
     * often as the hand holds it.
     */
    function IterColor(c: Color): (cs: seq<Card>)
      reads this, Repr
      requires Valid()
      ensures forall x :: x in cs ==> x.Natural? && x.color == c
      ensures forall r: Rank :: multiset(cs)[Natural(r, c)] == hand.cards[Natural(r, c)]
    {
      var ranks := rundexen[c].Iter();
      CopiesFromBounds(rundexen[c].arr[..], RankMin);
      var cs := seq(|ranks|, i requires 0 <= i < |ranks| => Natural(ranks[i], c));
      IterColorCounts(rundexen[c].arr[..], ranks, cs, c);
      cs
    }
  }

  /** Each rank listed by a Rundex becomes one card of its colour. */
  lemma IterColorCounts(a: seq<int>, ranks: seq<int>, cs: seq<Card>, c: Color)
    requires |a| == RankMax + 1 && a[0] == 0 && a[1] == 0 && forall r :: 0 <= r < |a| ==> 0 <= a[r]
    requires ranks == CopiesFrom(a, RankMin)
    requires |cs| == |ranks| && forall i :: 0 <= i < |ranks| ==> RankMin <= ranks[i] <= RankMax
    requires forall i :: 0 <= i < |ranks| ==> cs[i] == Natural(ranks[i], c)
    ensures forall x :: x in cs ==> x.Natural? && x.color == c
    ensures forall r: Rank :: multiset(cs)[Natural(r, c)] == a[r]
  {
    forall r: Rank
      ensures multiset(cs)[Natural(r, c)] == a[r]
    {
      CopiesFromCount(a, RankMin, r);
      CardsOfRanks(ranks, cs, c, r);
    }
  }

  lemma {:induction false} CardsOfRanks(ranks: seq<int>, cs: seq<Card>, c: Color, r: Rank)
    requires |cs| == |ranks| && forall i :: 0 <= i < |ranks| ==> RankMin <= ranks[i] <= RankMax
    requires forall i :: 0 <= i < |ranks| ==> cs[i] == Natural(ranks[i], c)
    ensures multiset(cs)[Natural(r, c)] == multiset(ranks)[r]
    decreases |ranks|
  {
    if ranks != [] {
      var n := |ranks| - 1;
      CardsOfRanks(ranks[..n], cs[..n], c, r);
      assert ranks == ranks[..n] + [ranks[n]] && cs == cs[..n] + [cs[n]];
    }
  }
}
