/**
 * liverpool/hand.py: a hand is a multiset of cards, a joker counter and an undo stack of
 * the cards taken, on which `None` marks the start of a transaction.
 */
module Hands {
  import opened Wrappers
  import opened Common

  /** The counting part of a hand: the `cards` dict (jokers excluded) and the `jokers` counter. */
  datatype Counts = Counts(cards: multiset<Card>, jokers: nat)
  {
    /** Every card of the hand, jokers included. */
    function Contents(): multiset<Card>
    {
      cards[Joker := jokers]
    }

    /** The number of cards the hand yields when iterated. */
    function Size(): nat
    {
      |cards| + jokers
    }
  }

  /** `put_card` on the counts: a joker raises only the joker counter. */
  function PutOne(k: Counts, c: Card): (r: Counts)
    ensures c == Joker ==> r.cards == k.cards && r.jokers == k.jokers + 1
    ensures c != Joker ==> r.cards == k.cards + multiset{c} && r.jokers == k.jokers
  {
    if c == Joker then Counts(k.cards, k.jokers + 1) else Counts(k.cards + multiset{c}, k.jokers)
  }

  /** `put_card` for each card in turn. */
  function PutAll(k: Counts, cs: seq<Card>): Counts
    decreases |cs|
  {
    if cs == [] then k else PutAll(PutOne(k, cs[0]), cs[1..])
  }

  lemma {:induction false} PutAllLast(k: Counts, p: seq<Card>, c: Card)
    ensures PutAll(k, p + [c]) == PutOne(PutAll(k, p), c)
    decreases |p|
  {
    if p != [] {
      assert (p + [c])[1..] == p[1..] + [c];
      PutAllLast(PutOne(k, p[0]), p[1..], c);
    }
  }

  /** Putting cards adds them to the contents; only the jokers among them raise `jokers`. */
  lemma {:induction false} PutAllContents(k: Counts, cs: seq<Card>)
    ensures PutAll(k, cs).cards == k.cards + multiset(cs)[Joker := 0]
    ensures PutAll(k, cs).jokers == k.jokers + multiset(cs)[Joker]
    decreases |cs|
  {
    if cs != [] {
      PutAllContents(PutOne(k, cs[0]), cs[1..]);
      assert cs == [cs[0]] + cs[1..];
      var m := multiset(cs[1..]);
      assert multiset(cs) == multiset{cs[0]} + m;
      if cs[0] != Joker {
        assert (multiset{cs[0]} + m)[Joker := 0] == multiset{cs[0]} + m[Joker := 0];
      }
    }
  }

  /** Putting cards into empty counts holds exactly those cards. */
  lemma PutAllFromEmpty(cs: seq<Card>)
    ensures PutAll(Counts(multiset{}, 0), cs).Contents() == multiset(cs)
  {
    var k := PutAll(Counts(multiset{}, 0), cs);
    PutAllContents(Counts(multiset{}, 0), cs);
    var m := multiset(cs);
    forall x
      ensures k.Contents()[x] == m[x]
    {
    }
    assert k.Contents() == m;
  }

  /**
   * `take_card` on the counts: the card itself when the hand holds it, otherwise (and for
   * the generic joker) a joker; InvalidTake when neither is there. Returns the new counts
   * and the card actually taken.
   */
  function TakeOne(k: Counts, c: Card): (r: Result<(Counts, Card), Error>)
    ensures r.Ok? <==> (c != Joker && c in k.cards) || k.jokers > 0
    ensures r.Err? ==> r.error == InvalidTake
    ensures c != Joker && c in k.cards ==> r == Ok((Counts(k.cards - multiset{c}, k.jokers), c))
    ensures (c == Joker || c !in k.cards) && k.jokers > 0 ==> r == Ok((Counts(k.cards, k.jokers - 1), Joker))
  {
    if c == Joker || k.cards[c] <= 0 then
      if k.jokers == 0 then Err(InvalidTake) else Ok((Counts(k.cards, k.jokers - 1), Joker))
    else
      Ok((Counts(k.cards - multiset{c}, k.jokers), c))
  }

  /** The outcome of taking cards one by one until one fails: the counts and the cards taken. */
  datatype Taken = Taken(ok: bool, counts: Counts, taken: seq<Card>)

  /** `take_combo` on the counts: stops at the first failing take, keeping the earlier ones. */
  function TakeAll(k: Counts, cs: seq<Card>): (r: Taken)
    ensures r.ok ==> |r.taken| == |cs|
    ensures |r.taken| <= |cs|
    decreases |cs|
  {
    if cs == [] then Taken(true, k, [])
    else
      match TakeOne(k, cs[0])
      case Err(_) => Taken(false, k, [])
      case Ok((k', t)) =>
        var rest := TakeAll(k', cs[1..]);
        Taken(rest.ok, rest.counts, [t] + rest.taken)
  }

  /** Putting cards adds one to the size per card. */
  lemma {:induction false} PutAllSize(k: Counts, cs: seq<Card>)
    ensures PutAll(k, cs).Size() == k.Size() + |cs|
    decreases |cs|
  {
    if cs != [] {
      PutAllSize(PutOne(k, cs[0]), cs[1..]);
    }
  }

  /** A successful take removes one card the hand held: the card itself, or a joker. */
  lemma TakeOneSize(k: Counts, c: Card)
    requires TakeOne(k, c).Ok?
    ensures TakeOne(k, c).value.0.Size() + 1 == k.Size()
    ensures TakeOne(k, c).value.1 in k.Contents()
  {
    if c != Joker && c in k.cards {
      assert k.cards == k.cards - multiset{c} + multiset{c};
    }
  }

  /** Each card actually taken lowers the size by one. */
  lemma {:induction false} TakeAllSize(k: Counts, cs: seq<Card>)
    ensures TakeAll(k, cs).counts.Size() + |TakeAll(k, cs).taken| == k.Size()
    decreases |cs|
  {
    if cs != [] && TakeOne(k, cs[0]).Ok? {
      TakeOneSize(k, cs[0]);
      TakeAllSize(TakeOne(k, cs[0]).value.0, cs[1..]);
    }
  }

  /** How many jokers a joint take of `cs` needs: every card the hand cannot supply itself. */
  function JokersNeeded(cards: multiset<Card>, cs: seq<Card>): int
  {
    |cs| - |multiset(cs) * cards|
  }

  lemma IntersectWithTaken(a: multiset<Card>, cards: multiset<Card>, c: Card)
    requires c in cards
    ensures (multiset{c} + a) * cards == a * (cards - multiset{c}) + multiset{c}
    ensures cards - (multiset{c} + a) == (cards - multiset{c}) - a
  {
    var l := (multiset{c} + a) * cards;
    var r := a * (cards - multiset{c}) + multiset{c};
    forall x
      ensures l[x] == r[x]
    {
    }
    assert l == r;
    var l2 := cards - (multiset{c} + a);
    var r2 := (cards - multiset{c}) - a;
    forall x
      ensures l2[x] == r2[x]
    {
    }
    assert l2 == r2;
  }

  lemma IntersectWithMissing(a: multiset<Card>, cards: multiset<Card>, c: Card)
    requires c !in cards
    ensures (multiset{c} + a) * cards == a * cards
    ensures cards - (multiset{c} + a) == cards - a
  {
    var l := (multiset{c} + a) * cards;
    forall x
      ensures l[x] == (a * cards)[x]
    {
    }
    assert l == a * cards;
    var l2 := cards - (multiset{c} + a);
    forall x
      ensures l2[x] == (cards - a)[x]
    {
    }
    assert l2 == cards - a;
  }

  /**
   * A joint take succeeds exactly when the hand's jokers cover every card it lacks; it then
   * removes the requested real cards and that many jokers. The order of the cards does not
   * matter.
   */
  lemma {:induction false} TakeAllClosedForm(k: Counts, cs: seq<Card>)
    requires Joker !in k.cards
    ensures 0 <= JokersNeeded(k.cards, cs) <= |cs|
    ensures TakeAll(k, cs).ok <==> JokersNeeded(k.cards, cs) <= k.jokers
    ensures TakeAll(k, cs).ok ==>
      TakeAll(k, cs).counts == Counts(k.cards - multiset(cs), k.jokers - JokersNeeded(k.cards, cs))
    decreases |cs|
  {
    if cs != [] {
      var c, rest := cs[0], cs[1..];
      assert cs == [c] + rest;
      if c != Joker && c in k.cards {
        TakeAllClosedForm(Counts(k.cards - multiset{c}, k.jokers), rest);
        ClosedFormHeld(k, c, rest);
      } else {
        TakeAllClosedForm(Counts(k.cards, if k.jokers > 0 then k.jokers - 1 else 0), rest);
        ClosedFormMissing(k, c, rest);
      }
    }
  }

  /** The closed form of a joint take, as `TakeAllClosedForm` states it. */
  ghost predicate ClosedForm(k: Counts, cs: seq<Card>)
  {
    0 <= JokersNeeded(k.cards, cs) <= |cs| &&
    (TakeAll(k, cs).ok <==> JokersNeeded(k.cards, cs) <= k.jokers) &&
    (TakeAll(k, cs).ok ==>
      TakeAll(k, cs).counts == Counts(k.cards - multiset(cs), k.jokers - JokersNeeded(k.cards, cs)))
  }

  /** A first card the hand holds is taken itself, and the rest follow the closed form. */
  lemma ClosedFormHeld(k: Counts, c: Card, rest: seq<Card>)
    requires c != Joker && c in k.cards
    requires ClosedForm(Counts(k.cards - multiset{c}, k.jokers), rest)
    ensures ClosedForm(k, [c] + rest)
  {
    NeededWithTaken(k.cards, c, rest);
    var k' := Counts(k.cards - multiset{c}, k.jokers);
    TakeAllStepOk(k, c, rest, k', c);
  }

  /** A first card the hand lacks takes a joker, if there is one, and the rest follow the closed form. */
  lemma ClosedFormMissing(k: Counts, c: Card, rest: seq<Card>)
    requires Joker !in k.cards && !(c != Joker && c in k.cards)
    requires ClosedForm(Counts(k.cards, if k.jokers > 0 then k.jokers - 1 else 0), rest)
    ensures ClosedForm(k, [c] + rest)
  {
    NeededWithMissing(k.cards, c, rest);
    if k.jokers > 0 {
      TakeAllStepOk(k, c, rest, Counts(k.cards, k.jokers - 1), Joker);
    } else {
      assert ([c] + rest)[0] == c;
    }
  }

  /** One successful take, then the rest. */
  lemma TakeAllStepOk(k: Counts, c: Card, rest: seq<Card>, k': Counts, t: Card)
    requires TakeOne(k, c) == Ok((k', t))
    ensures TakeAll(k, [c] + rest).ok == TakeAll(k', rest).ok
    ensures TakeAll(k, [c] + rest).counts == TakeAll(k', rest).counts
  {
    assert ([c] + rest)[0] == c && ([c] + rest)[1..] == rest;
  }

  /** A card the hand holds needs no joker, and is removed from the cards. */
  lemma NeededWithTaken(cards: multiset<Card>, c: Card, rest: seq<Card>)
    requires c in cards
    ensures JokersNeeded(cards, [c] + rest) == JokersNeeded(cards - multiset{c}, rest)
    ensures cards - multiset([c] + rest) == (cards - multiset{c}) - multiset(rest)
  {
    assert multiset([c] + rest) == multiset{c} + multiset(rest);
    IntersectWithTaken(multiset(rest), cards, c);
  }

  /** A card the hand lacks needs one joker, and leaves the cards alone. */
  lemma NeededWithMissing(cards: multiset<Card>, c: Card, rest: seq<Card>)
    requires c !in cards
    ensures JokersNeeded(cards, [c] + rest) == JokersNeeded(cards, rest) + 1
    ensures cards - multiset([c] + rest) == cards - multiset(rest)
  {
    assert multiset([c] + rest) == multiset{c} + multiset(rest);
    IntersectWithMissing(multiset(rest), cards, c);
  }

  function Reverse<T>(s: seq<T>): (r: seq<T>)
    ensures |r| == |s| && forall i :: 0 <= i < |s| ==> r[i] == s[|s| - 1 - i]
  {
    seq(|s|, i requires 0 <= i < |s| => s[|s| - 1 - i])
  }

  /**
   * Putting back the cards actually taken, most recent first, restores the counts: what
   * rollback relies on.
   */
  lemma {:induction false} TakeAllThenPutBack(k: Counts, cs: seq<Card>)
    ensures PutAll(TakeAll(k, cs).counts, Reverse(TakeAll(k, cs).taken)) == k
    decreases |cs|
  {
    if cs != [] {
      match TakeOne(k, cs[0])
      case Err(_) =>
      case Ok((k', t)) =>
        TakeAllThenPutBack(k', cs[1..]);
        var r := TakeAll(k', cs[1..]);
        assert Reverse([t] + r.taken) == Reverse(r.taken) + [t];
        PutAllLast(r.counts, Reverse(r.taken), t);
        if t != Joker {
          assert k.cards - multiset{t} + multiset{t} == k.cards;
        }
    }
  }

  /**
   * The cards taken since the most recent transaction marker, most recent first: the order
   * in which rollback puts them back.
   */
  function Pending(s: seq<Option<Card>>): (p: seq<Card>)
    ensures |p| <= |s|
    decreases |s|
  {
    if s == [] || s[|s| - 1].None? then [] else [s[|s| - 1].value] + Pending(s[..|s| - 1])
  }

  /** The stack with the pending takes popped. */
  function Settled(s: seq<Option<Card>>): seq<Option<Card>>
  {
    s[..|s| - |Pending(s)|]
  }

  lemma PendingAfterPush(s: seq<Option<Card>>, c: Card)
    ensures Pending(s + [Some(c)]) == [c] + Pending(s)
    ensures Settled(s + [Some(c)]) == Settled(s)
  {
    assert (s + [Some(c)])[..|s|] == s;
  }

  lemma SettledEndsWithMarker(s: seq<Option<Card>>)
    requires |s| > 0 && s[0] == None
    ensures |Pending(s)| < |s|
    ensures Settled(s)[|Settled(s)| - 1] == None
    decreases |s|
  {
    if s[|s| - 1].Some? {
      SettledEndsWithMarker(s[..|s| - 1]);
      assert s[..|s| - 1][..|s| - 1 - |Pending(s[..|s| - 1])|] == s[..|s| - |Pending(s)|];
    }
  }

  /** The stack entries for the cards `cs`, pushed in order. */
  function Somes(cs: seq<Card>): (r: seq<Option<Card>>)
    ensures |r| == |cs|
    decreases |cs|
  {
    if cs == [] then [] else Somes(cs[..|cs| - 1]) + [Some(cs[|cs| - 1])]
  }

  lemma SomesAppend(cs: seq<Card>, c: Card)
    ensures Somes(cs + [c]) == Somes(cs) + [Some(c)]
  {
    assert (cs + [c])[..|cs|] == cs;
  }

  /** The outcome `r` of further takes, after the cards `done` were already taken. */
  function AfterTakes(done: seq<Card>, r: Taken): Taken
  {
    Taken(r.ok, r.counts, done + r.taken)
  }

  lemma TakeAllStep(done: seq<Card>, k: Counts, cs: seq<Card>, i: nat)
    requires i < |cs|
    ensures TakeOne(k, cs[i]).Err? ==> AfterTakes(done, TakeAll(k, cs[i..])) == Taken(false, k, done)
    ensures TakeOne(k, cs[i]).Ok? ==>
      AfterTakes(done, TakeAll(k, cs[i..])) ==
      AfterTakes(done + [TakeOne(k, cs[i]).value.1], TakeAll(TakeOne(k, cs[i]).value.0, cs[i + 1..]))
  {
    assert cs[i..][0] == cs[i] && cs[i..][1..] == cs[i + 1..];
    if TakeOne(k, cs[i]).Err? {
      assert done + [] == done;
    } else {
      var t := TakeOne(k, cs[i]).value.1;
      var rest := TakeAll(TakeOne(k, cs[i]).value.0, cs[i + 1..]);
      assert done + ([t] + rest.taken) == (done + [t]) + rest.taken;
    }
  }

  /** Before any take, the joint take is all that is still to come. */
  lemma TakeAllStart(k: Counts, cs: seq<Card>)
    ensures TakeAll(k, cs) == AfterTakes([], TakeAll(k, cs[0..]))
  {
    assert cs[0..] == cs;
    assert [] + TakeAll(k, cs).taken == TakeAll(k, cs).taken;
  }

  /** Once every card was taken, nothing more is taken. */
  lemma TakeAllDone(done: seq<Card>, k: Counts, cs: seq<Card>)
    ensures AfterTakes(done, TakeAll(k, cs[|cs|..])) == Taken(true, k, done)
  {
    assert cs[|cs|..] == [];
    assert done + [] == done;
  }

  /** The state partway through a joint take of `combo`, from counts `k0` and stack `stack0`. */
  ghost predicate TakingState(k0: Counts, stack0: seq<Option<Card>>, restored0: Counts, combo: seq<Card>, i: nat,
                              done: seq<Card>, k: Counts, stack: seq<Option<Card>>, restored: Counts)
  {
    i <= |combo| &&
    TakeAll(k0, combo) == AfterTakes(done, TakeAll(k, combo[i..])) &&
    stack == stack0 + Somes(done) &&
    restored == restored0
  }

  /** Taking `combo[i]` either advances the joint take or ends it with what was taken so far. */
  lemma TakingAdvance(k0: Counts, stack0: seq<Option<Card>>, restored0: Counts, combo: seq<Card>, i: nat,
                      done: seq<Card>, k: Counts, stack: seq<Option<Card>>, restored: Counts)
    requires i < |combo| && TakingState(k0, stack0, restored0, combo, i, done, k, stack, restored)
    ensures TakeOne(k, combo[i]).Ok? ==>
      TakingState(k0, stack0, restored0, combo, i + 1, done + [TakeOne(k, combo[i]).value.1],
                  TakeOne(k, combo[i]).value.0, stack + [Some(TakeOne(k, combo[i]).value.1)], restored)
    ensures TakeOne(k, combo[i]).Err? ==> TakeAll(k0, combo) == Taken(false, k, done)
  {
    TakeAllStep(done, k, combo, i);
    if TakeOne(k, combo[i]).Ok? {
      SomesAppend(done, TakeOne(k, combo[i]).value.1);
    }
  }

  class Hand {
    var cards: multiset<Card>
    var jokers: nat
    var stack: seq<Option<Card>>

    ghost predicate Valid()
      reads this
    {
      |stack| >= 1 && stack[0] == None && Joker !in cards
    }

    function Snapshot(): Counts
      reads this
    {
      Counts(cards, jokers)
    }

    /** The counts a rollback would return to: the current ones plus every pending take. */
    function Restored(): Counts
      reads this
    {
      PutAll(Snapshot(), Pending(stack))
    }

    /** `Hand(cards)`: puts every card, then commits, so the stack is [None, None]. */
    constructor(initial: seq<Card>)
      ensures Valid()
      ensures Snapshot() == PutAll(Counts(multiset{}, 0), initial)
      ensures Snapshot().Contents() == multiset(initial)
      ensures stack == [None, None]
      ensures Pending(stack) == [] && Restored() == Snapshot()
    {
      cards := multiset{};
      jokers := 0;
      stack := [None];
      new;
      PutCombo(initial);
      Commit();
      PutAllFromEmpty(initial);
    }

    /** `put_card`: a joker raises only `jokers`, any other card only its own count. */
    method PutCard(c: Card)
      requires Valid()
      modifies this
      ensures Valid()
      ensures Snapshot() == PutOne(old(Snapshot()), c)
      ensures stack == old(stack)
      ensures Snapshot().Contents() == old(Snapshot().Contents()) + multiset{c}
      ensures c == Joker ==> cards == old(cards) && jokers == old(jokers) + 1
      ensures c != Joker ==> cards == old(cards) + multiset{c} && jokers == old(jokers)
    {
      if c == Joker {
        jokers := jokers + 1;
        return;
      }
      cards := cards + multiset{c};
    }

    /**
     * `take_card`: on success the counts are those of TakeOne and the card actually taken
     * is pushed; on InvalidTake nothing changes.
     */
    method TakeCard(c: Card) returns (r: Result<Card, Error>)
      requires Valid()
      modifies this
      ensures Valid()
      ensures TakeOne(old(Snapshot()), c).Ok? ==>
        r == Ok(TakeOne(old(Snapshot()), c).value.1) &&
        Snapshot() == TakeOne(old(Snapshot()), c).value.0 &&
        stack == old(stack) + [Some(r.value)]
      ensures TakeOne(old(Snapshot()), c).Err? ==>
        r == Err(InvalidTake) && Snapshot() == old(Snapshot()) && stack == old(stack)
      ensures Restored() == old(Restored())
      ensures r.Ok? && r.value != Joker ==> r.value == c && c in old(cards) && cards == old(cards) - multiset{c}
      ensures r.Err? || r.value == Joker ==> cards == old(cards)
    {
      if c == Joker || cards[c] <= 0 {
        if jokers == 0 {
          return Err(InvalidTake);
        }
        PendingAfterPush(stack, Joker);
        jokers := jokers - 1;
        stack := stack + [Some(Joker)];
        return Ok(Joker);
      }
      PendingAfterPush(stack, c);
      assert cards - multiset{c} + multiset{c} == cards;
      cards := cards - multiset{c};
      stack := stack + [Some(c)];
      return Ok(c);
    }

    /** `commit`: pushes a transaction marker, so nothing is pending afterwards. */
    method Commit()
      requires Valid()
      modifies this
      ensures Valid()
      ensures Snapshot() == old(Snapshot()) && stack == old(stack) + [None]
      ensures Pending(stack) == [] && Restored() == Snapshot()
    {
      stack := stack + [None];
    }

    /**
     * `rollback`: puts back every card taken since the most recent marker, which is then on
     * top of the stack.
     */
    method Rollback()
      requires Valid()
      modifies this
      ensures Valid()
      ensures stack == Settled(old(stack))
      ensures stack[|stack| - 1] == None
      ensures Snapshot() == old(Restored())
      ensures Pending(stack) == []
    {
      while stack[|stack| - 1].Some?
        invariant Valid()
        invariant Settled(stack) == Settled(old(stack))
        invariant Restored() == old(Restored())
        decreases |stack|
      {
        var top := PopPending();
        PutCard(top);
      }
      SettledEndsWithMarker(stack);
    }

    /** `stack.pop()` while the top is a pending take: the card to put back. */
    method PopPending() returns (top: Card)
      requires Valid() && stack[|stack| - 1].Some?
      modifies this
      ensures Valid() && cards == old(cards) && jokers == old(jokers)
      ensures stack == old(stack)[..|old(stack)| - 1] && top == old(stack)[|old(stack)| - 1].value
      ensures Settled(stack) == Settled(old(stack))
      ensures PutAll(PutOne(Snapshot(), top), Pending(stack)) == old(Restored())
    {
      top := stack[|stack| - 1].value;
      stack := stack[..|stack| - 1];
    }

    /**
     * `undo`: asserts that more than the bottom marker is on the stack, pops the top and
     * asserts it was a marker, then rolls back the previous transaction. A failed assertion
     * is AssertionError, raised after the pop when the top was not a marker.
     */
    method Undo() returns (r: Result<(), Error>)
      requires Valid()
      modifies this
      ensures Valid()
      ensures |old(stack)| <= 1 ==> r == Err(AssertionError) && Snapshot() == old(Snapshot()) && stack == old(stack)
      ensures |old(stack)| > 1 && old(stack)[|old(stack)| - 1].Some? ==>
        r == Err(AssertionError) && Snapshot() == old(Snapshot()) && stack == old(stack)[..|old(stack)| - 1]
      ensures |old(stack)| > 1 && old(stack)[|old(stack)| - 1].None? ==>
        r == Ok(()) &&
        stack == Settled(old(stack)[..|old(stack)| - 1]) &&
        Snapshot() == PutAll(old(Snapshot()), Pending(old(stack)[..|old(stack)| - 1]))
    {
      if |stack| <= 1 {
        return Err(AssertionError);
      }
      var top := stack[|stack| - 1];
      stack := stack[..|stack| - 1];
      if top.Some? {
        return Err(AssertionError);
      }
      Rollback();
      return Ok(());
    }

    /** `truncate`: forgets every transaction. */
    method Truncate()
      requires Valid()
      modifies this
      ensures Valid()
      ensures stack == [None] && Snapshot() == old(Snapshot())
    {
      stack := [None];
    }

    /** `put_combo`: `put_card` for each card. */
    method PutCombo(combo: seq<Card>)
      requires Valid()
      modifies this
      ensures Valid()
      ensures Snapshot() == PutAll(old(Snapshot()), combo)
      ensures stack == old(stack)
    {
      var i := 0;
      while i < |combo|
        invariant 0 <= i <= |combo|
        invariant Valid() && stack == old(stack)
        invariant Snapshot() == PutAll(old(Snapshot()), combo[..i])
      {
        PutAllLast(old(Snapshot()), combo[..i], combo[i]);
        assert combo[..i + 1] == combo[..i] + [combo[i]];
        PutCard(combo[i]);
        i := i + 1;
      }
      assert combo[..i] == combo;
    }

    /**
     * `take_combo`: `take_card` for each card in order. On InvalidTake the earlier takes stay
     * on the stack, for a later rollback to undo.
     */
    method TakeCombo(combo: seq<Card>) returns (r: Result<(), Error>)
      requires Valid()
      modifies this
      ensures Valid()
      ensures r.Ok? == TakeAll(old(Snapshot()), combo).ok
      ensures r.Err? ==> r.error == InvalidTake
      ensures Snapshot() == TakeAll(old(Snapshot()), combo).counts
      ensures stack == old(stack) + Somes(TakeAll(old(Snapshot()), combo).taken)
      ensures Restored() == old(Restored())
    {
      ghost var k0, stack0, restored0 := Snapshot(), stack, Restored();
      ghost var done: seq<Card> := [];
      var i := 0;
      TakeAllStart(k0, combo);
      assert stack0 + Somes(done) == stack0;
      while i < |combo|
        invariant 0 <= i <= |combo|
        invariant Valid()
        invariant TakingState(k0, stack0, restored0, combo, i, done, Snapshot(), stack, Restored())
      {
        TakingAdvance(k0, stack0, restored0, combo, i, done, Snapshot(), stack, Restored());
        var t := TakeCard(combo[i]);
        if t.Err? {
          return Err(InvalidTake);
        }
        done := done + [t.value];
        i := i + 1;
      }
      TakeAllDone(done, Snapshot(), combo);
      return Ok(());
    }

    /**
     * `__iter__`: every card as often as it is held, then the jokers. The order of the real
     * cards (the dict's insertion order) is not tracked, so it is left open here.
     */
    method Iter() returns (r: seq<Card>)
      requires Valid()
      ensures multiset(r) == Snapshot().Contents()
      ensures |r| == Snapshot().Size()
      ensures forall i :: 0 <= i < |r| ==> (r[i] == Joker <==> i >= |r| - jokers)
    {
      var reals := Enumerate(cards);
      r := reals + Repeat(Joker, jokers);
      forall i | 0 <= i < |reals|
        ensures r[i] != Joker
      {
        assert r[i] == reals[i] && reals[i] in multiset(reals);
      }
      ghost var m := Snapshot().Contents();
      assert multiset(r) == cards + multiset{}[Joker := jokers];
      assert multiset(r) == m by {
        forall x
          ensures multiset(r)[x] == m[x]
        {
        }
      }
    }
  }

  /** Each element of a multiset as often as it occurs, all copies of one element together. */
  method Enumerate<T>(m: multiset<T>) returns (r: seq<T>)
    ensures multiset(r) == m
  {
    r := [];
    var rest := m;
    while rest != multiset{}
      invariant multiset(r) + rest == m
      decreases |rest|
    {
      var c :| c in rest;
      var copies := Repeat(c, rest[c]);
      r := r + copies;
      rest := rest[c := 0];
    }
  }

  function Repeat<T>(x: T, n: nat): (r: seq<T>)
    ensures |r| == n && forall i :: 0 <= i < n ==> r[i] == x
    ensures multiset(r) == multiset{}[x := n]
    decreases n
  {
    if n == 0 then [] else
      var r := Repeat(x, n - 1) + [x];
      assert multiset(r) == multiset(Repeat(x, n - 1)) + multiset{x};
      r
  }
}
