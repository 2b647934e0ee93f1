/**
 * The card-tracking listeners of `liverpool/listeners/listeners.py`: a `PlayerView` per
 * player, remembering the cards that player is known to hold and how many unknown cards
 * it holds; a `DealerView` with the same bookkeeping over everybody plus the discard pile;
 * and the `GameListener` that forwards every action to the dealer view and then to the
 * player views.
 *
 * Each class is proved against a pure next-state function (`PlayerNext`, `DealerNext`),
 * and the lemmas below state what those functions promise.
 */
module Listeners {
  import opened Wrappers
  import opened Common

  /** `Game.PLAYERS_TO_DECKS`: how many decks a game of 2..8 players uses. */
  const PlayersToDecks: map<int, nat> := map[2 := 2, 3 := 2, 4 := 2, 5 := 3, 6 := 3, 7 := 3, 8 := 3]

  /** The start of a round: the number of players and the round's objective. */
  datatype Init = Init(players: int, objective: Objective)

  /** A move, seen as the cards it lays down (`for card in action.move`) and its discard. */
  datatype Move = Move(cards: seq<Card>, discard: Option<Card>)

  /** One action of the game, with every field a listener reads. */
  datatype Action = Action(
    playerId: int,
    init: Option<Init>,
    move: Option<Move>,
    flipDiscard: Option<Card>,
    purchase: Option<Card>,
    drawDiscard: Option<Card>,
    drawDeck: bool,
    shuffleDiscards: bool)

  // ---------------------------------------------------------------------------------
  // Forgetting the cards of a move
  // ---------------------------------------------------------------------------------

  /** Python's `list.remove(c)` on a list holding `c`: drops the first occurrence. */
  function RemoveFirst(xs: seq<Card>, c: Card): (r: seq<Card>)
    requires c in xs
    ensures |r| == |xs| - 1
    ensures multiset(r) == multiset(xs) - multiset{c}
  {
    assert xs == [xs[0]] + xs[1..];
    if xs[0] == c then xs[1..] else [xs[0]] + RemoveFirst(xs[1..], c)
  }

  /** The removed occurrence is the first one: everything before it is kept in order. */
  lemma {:induction false} RemoveFirstAt(xs: seq<Card>, c: Card, i: nat)
    requires i < |xs| && xs[i] == c && c !in xs[..i]
    ensures RemoveFirst(xs, c) == xs[..i] + xs[i + 1..]
    decreases i
  {
    if i > 0 {
      assert xs[0] in xs[..i];
      assert c in xs[1..] by { assert xs[1..][i - 1] == c; }
      assert xs[1..][..i - 1] == xs[1..i];
      assert xs[..i] == [xs[0]] + xs[1..i];
      assert multiset(xs[..i]) == multiset{xs[0]} + multiset(xs[1..i]);
      assert c !in multiset(xs[1..i]);
      RemoveFirstAt(xs[1..], c, i - 1);
      assert xs[1..][i..] == xs[i + 1..];
      assert xs[..i] == [xs[0]] + xs[1..i];
    }
  }

  /**
   * The loop over a move's cards: each card removes one equal known card if there is one,
   * and otherwise is taken from the unknown cards.
   */
  function Forget(known: seq<Card>, unknown: int, cards: seq<Card>): (seq<Card>, int)
    decreases |cards|
  {
    if cards == [] then (known, unknown)
    else if cards[0] in known then Forget(RemoveFirst(known, cards[0]), unknown, cards[1..])
    else Forget(known, unknown - 1, cards[1..])
  }

  /**
   * What a move leaves: the known cards lose exactly the laid cards they held, and the
   * unknown count drops by the number of laid cards that were not known.
   */
  lemma {:induction false} ForgetMeaning(known: seq<Card>, unknown: int, cards: seq<Card>)
    ensures multiset(Forget(known, unknown, cards).0) == multiset(known) - multiset(cards)
    ensures Forget(known, unknown, cards).1 == unknown - |multiset(cards) - multiset(known)|
    decreases |cards|
  {
    if cards != [] {
      var c, rest := cards[0], cards[1..];
      assert cards == [c] + rest;
      assert multiset(cards) == multiset{c} + multiset(rest);
      if c in known {
        ForgetMeaning(RemoveFirst(known, c), unknown, rest);
        LaidKnown(multiset(known), multiset(rest), c);
      } else {
        ForgetMeaning(known, unknown - 1, rest);
        LaidUnknown(multiset(known), multiset(rest), c);
      }
    }
  }

  /** A laid card the view knew: it leaves the known cards first. */
  lemma LaidKnown(known: multiset<Card>, rest: multiset<Card>, c: Card)
    requires c in known
    ensures (known - multiset{c}) - rest == known - (multiset{c} + rest)
    ensures rest - (known - multiset{c}) == (multiset{c} + rest) - known
  {
  }

  /** A laid card the view did not know: it counts against the unknown cards. */
  lemma LaidUnknown(known: multiset<Card>, rest: multiset<Card>, c: Card)
    requires c !in known
    ensures known - rest == known - (multiset{c} + rest)
    ensures |(multiset{c} + rest) - known| == |rest - known| + 1
  {
    assert (multiset{c} + rest) - known == multiset{c} + (rest - known);
  }

  /** Every laid card leaves the view's hand: known plus unknown drops by the move's size. */
  lemma {:induction false} ForgetTotal(known: seq<Card>, unknown: int, cards: seq<Card>)
    ensures |Forget(known, unknown, cards).0| + Forget(known, unknown, cards).1 == |known| + unknown - |cards|
    decreases |cards|
  {
    if cards != [] {
      if cards[0] in known {
        ForgetTotal(RemoveFirst(known, cards[0]), unknown, cards[1..]);
      } else {
        ForgetTotal(known, unknown - 1, cards[1..]);
      }
    }
  }

  /** The move loop shared by both views (`for card in action.move: ...`). */
  method ForgetCards(known: seq<Card>, unknown: int, cards: seq<Card>) returns (k: seq<Card>, u: int)
    ensures (k, u) == Forget(known, unknown, cards)
  {
    k, u := known, unknown;
    var i := 0;
    while i < |cards|
      invariant i <= |cards|
      invariant Forget(known, unknown, cards) == Forget(k, u, cards[i..])
    {
      assert cards[i..][1..] == cards[i + 1..];
      var card := cards[i];
      if card in k {
        k := RemoveFirst(k, card);
      } else {
        u := u - 1;
      }
      i := i + 1;
    }
  }

  // ---------------------------------------------------------------------------------
  // PlayerView
  // ---------------------------------------------------------------------------------

  /** What a player view holds. */
  datatype PlayerState = PlayerState(known: seq<Card>, unknown: int, meld: Option<Meld>)

  const EmptyPlayer := PlayerState([], 0, None)

  /** `PlayerView.publish_action` as a function of the view's state. */
  function PlayerNext(pid: int, s: PlayerState, a: Action, melds: map<int, Meld>): PlayerState
  {
    var s1 := if a.init.Some? then EmptyPlayer else s;
    var s2 := if pid in melds then s1.(meld := Some(melds[pid])) else s1;
    if a.playerId != pid then s2
    else if a.move.Some? then
      var f := Forget(s2.known, s2.unknown, a.move.value.cards);
      s2.(known := f.0, unknown := f.1)
    else if a.purchase.Some? then s2.(known := s2.known + [a.purchase.value])
    else if a.drawDiscard.Some? then s2.(known := s2.known + [a.drawDiscard.value])
    else if a.drawDeck then s2.(unknown := s2.unknown + 1)
    else s2
  }

  /** An init action forgets everything the view held before. */
  lemma PlayerInitResets(pid: int, s: PlayerState, s': PlayerState, a: Action, melds: map<int, Meld>)
    requires a.init.Some?
    ensures PlayerNext(pid, s, a, melds) == PlayerNext(pid, s', a, melds)
    ensures a.playerId != pid ==> PlayerNext(pid, s, a, melds).known == [] && PlayerNext(pid, s, a, melds).unknown == 0
    ensures pid !in melds ==> PlayerNext(pid, s, a, melds).meld == None
  {
  }

  /** The view's meld follows the table; it changes only through `melds` or an init. */
  lemma PlayerMeld(pid: int, s: PlayerState, a: Action, melds: map<int, Meld>)
    ensures pid in melds ==> PlayerNext(pid, s, a, melds).meld == Some(melds[pid])
    ensures pid !in melds && a.init.None? ==> PlayerNext(pid, s, a, melds).meld == s.meld
  {
  }

  /** Another player's action (no init) never changes what the view knows. */
  lemma PlayerOthers(pid: int, s: PlayerState, a: Action, melds: map<int, Meld>)
    requires a.playerId != pid && a.init.None?
    ensures PlayerNext(pid, s, a, melds).known == s.known
    ensures PlayerNext(pid, s, a, melds).unknown == s.unknown
  {
  }

  /**
   * The player's own action, with no init: a move forgets its cards as `ForgetMeaning`
   * says and takes them out of the view's total; otherwise the first of purchase,
   * draw-discard and draw-deck present adds one card (known for the first two).
   */
  lemma PlayerOwn(pid: int, s: PlayerState, a: Action, melds: map<int, Meld>)
    requires a.playerId == pid && a.init.None?
    ensures var r := PlayerNext(pid, s, a, melds);
      a.move.Some? ==>
        multiset(r.known) == multiset(s.known) - multiset(a.move.value.cards) &&
        r.unknown == s.unknown - |multiset(a.move.value.cards) - multiset(s.known)| &&
        |r.known| + r.unknown == |s.known| + s.unknown - |a.move.value.cards|
    ensures var r := PlayerNext(pid, s, a, melds);
      a.move.None? && a.purchase.Some? ==> r.known == s.known + [a.purchase.value] && r.unknown == s.unknown
    ensures var r := PlayerNext(pid, s, a, melds);
      a.move.None? && a.purchase.None? && a.drawDiscard.Some? ==>
        r.known == s.known + [a.drawDiscard.value] && r.unknown == s.unknown
    ensures var r := PlayerNext(pid, s, a, melds);
      a.move.None? && a.purchase.None? && a.drawDiscard.None? ==>
        r.known == s.known && r.unknown == s.unknown + (if a.drawDeck then 1 else 0)
  {
    if a.move.Some? {
      ForgetMeaning(s.known, s.unknown, a.move.value.cards);
      ForgetTotal(s.known, s.unknown, a.move.value.cards);
    }
  }

  /** Drawing a card and then laying exactly that card leaves the same cards known and unknown. */
  lemma DrawThenLay(pid: int, s: PlayerState, c: Card, melds: map<int, Meld>)
    ensures var drawn := PlayerNext(pid, s, Action(pid, None, None, None, None, Some(c), false, false), melds);
      var laid := PlayerNext(pid, drawn, Action(pid, None, Some(Move([c], None)), None, None, None, false, false), melds);
      multiset(laid.known) == multiset(s.known) && laid.unknown == s.unknown
  {
    var drawn := PlayerNext(pid, s, Action(pid, None, None, None, None, Some(c), false, false), melds);
    assert drawn.known == s.known + [c];
    assert multiset(drawn.known) == multiset(s.known) + multiset{c};
    ForgetMeaning(drawn.known, drawn.unknown, [c]);
  }

  /** A player's view of its own hand. */
  class PlayerView {
    const pid: int
    var knownCards: seq<Card>
    var unknownCards: int
    var meld: Option<Meld>

    function State(): PlayerState
      reads this
    {
      PlayerState(knownCards, unknownCards, meld)
    }

    constructor(pid: int)
      ensures this.pid == pid && State() == EmptyPlayer
    {
      this.pid := pid;
      knownCards := [];
      unknownCards := 0;
      meld := None;
    }

    /** `publish_action(action, melds)`. */
    method PublishAction(action: Action, melds: map<int, Meld>)
      modifies this
      ensures State() == PlayerNext(pid, old(State()), action, melds)
    {
      if action.init.Some? {
        knownCards := [];
        unknownCards := 0;
        meld := None;
      }
      if pid in melds {
        meld := Some(melds[pid]);
      }
      if action.playerId != pid {
        return;
      }
      if action.move.Some? {
        knownCards, unknownCards := ForgetCards(knownCards, unknownCards, action.move.value.cards);
      } else if action.purchase.Some? {
        knownCards := knownCards + [action.purchase.value];
      } else if action.drawDiscard.Some? {
        knownCards := knownCards + [action.drawDiscard.value];
      } else if action.drawDeck {
        unknownCards := unknownCards + 1;
      }
    }
  }

  /** The known cards of the views, one view after the other. */
  function AllKnown(states: seq<PlayerState>): (r: seq<Card>)
  {
    if states == [] then [] else states[0].known + AllKnown(states[1..])
  }

  /** The unknown counts of the views, summed. */
  function AllUnknown(states: seq<PlayerState>): int
  {
    if states == [] then 0 else states[0].unknown + AllUnknown(states[1..])
  }

  /** Merging is compositional: merging two groups of views concatenates and adds. */
  lemma MergeAppend(a: seq<PlayerState>, b: seq<PlayerState>)
    ensures AllKnown(a + b) == AllKnown(a) + AllKnown(b)
    ensures AllUnknown(a + b) == AllUnknown(a) + AllUnknown(b)
  {
    KnownAppend(a, b);
    UnknownAppend(a, b);
  }

  /** The known half of `MergeAppend`. */
  lemma {:induction false} KnownAppend(a: seq<PlayerState>, b: seq<PlayerState>)
    ensures AllKnown(a + b) == AllKnown(a) + AllKnown(b)
    decreases |a|
  {
    if a == [] {
      assert a + b == b;
    } else {
      var c := a + b;
      assert c[0] == a[0] && c[1..] == a[1..] + b;
      KnownAppend(a[1..], b);
      assert AllKnown(c) == a[0].known + AllKnown(c[1..]);
    }
  }

  /** The unknown half of `MergeAppend`. */
  lemma {:induction false} UnknownAppend(a: seq<PlayerState>, b: seq<PlayerState>)
    ensures AllUnknown(a + b) == AllUnknown(a) + AllUnknown(b)
    decreases |a|
  {
    if a == [] {
      assert a + b == b;
    } else {
      var c := a + b;
      assert c[0] == a[0] && c[1..] == a[1..] + b;
      UnknownAppend(a[1..], b);
    }
  }

  /** Every view's known cards are among the merged ones. */
  lemma {:induction false} MergeKeepsKnown(states: seq<PlayerState>, i: nat)
    requires i < |states|
    ensures multiset(states[i].known) <= multiset(AllKnown(states))
    decreases i
  {
    if i > 0 {
      MergeKeepsKnown(states[1..], i - 1);
    }
  }

  /** The states of some views, in order. */
  function States(views: seq<PlayerView>): (r: seq<PlayerState>)
    reads set v | v in views
    ensures |r| == |views|
    ensures forall i :: 0 <= i < |views| ==> r[i] == views[i].State()
  {
    if views == [] then [] else [views[0].State()] + States(views[1..])
  }

  /** `PlayerView.merge(views)`. */
  method Merge(views: seq<PlayerView>) returns (known: seq<Card>, unknown: int)
    ensures known == AllKnown(States(views)) && unknown == AllUnknown(States(views))
  {
    known, unknown := [], 0;
    var i := 0;
    while i < |views|
      invariant i <= |views|
      invariant known == AllKnown(States(views[..i])) && unknown == AllUnknown(States(views[..i]))
    {
      assert views[..i + 1] == views[..i] + [views[i]];
      assert States(views[..i + 1]) == States(views[..i]) + [views[i].State()];
      MergeAppend(States(views[..i]), [views[i].State()]);
      known := known + views[i].knownCards;
      unknown := unknown + views[i].unknownCards;
      i := i + 1;
    }
    assert views[..i] == views;
  }

  // ---------------------------------------------------------------------------------
  // DealerView
  // ---------------------------------------------------------------------------------

  /** What the dealer view holds (the deck it also builds is not part of this model). */
  datatype DealerState = DealerState(known: seq<Card>, discards: seq<Card>, unknown: int)

  const EmptyDealer := DealerState([], [], 0)

  /** The dealer view after an action, and whether `publish_action` raised. */
  datatype Published = Published(state: DealerState, outcome: Result<(), Error>)

  /**
   * `DealerView.publish_action` as a function of the view's state. A raise leaves the
   * state as far as the source got: an unknown player count raises before anything
   * changes; drawing from an empty pile has already appended the drawn card; a mismatching
   * top card has already been popped.
   */
  function DealerNext(s: DealerState, a: Action): Published
  {
    if a.init.Some? && a.init.value.players !in PlayersToDecks then Published(s, Err(KeyError))
    else
      var s1 := if a.init.Some? then EmptyDealer else s;
      if a.move.Some? then
        var f := Forget(s1.known, s1.unknown, a.move.value.cards);
        var d := a.move.value.discard;
        Published(DealerState(f.0, if d.Some? then s1.discards + [d.value] else s1.discards, f.1), Ok(()))
      else if a.flipDiscard.Some? then Published(s1.(discards := s1.discards + [a.flipDiscard.value]), Ok(()))
      else if a.purchase.Some? then Published(s1.(known := s1.known + [a.purchase.value]), Ok(()))
      else if a.drawDiscard.Some? then
        var c := a.drawDiscard.value;
        var s2 := s1.(known := s1.known + [c]);
        if s1.discards == [] then Published(s2, Err(IndexError))
        else
          var top := s1.discards[|s1.discards| - 1];
          var s3 := s2.(discards := s1.discards[..|s1.discards| - 1]);
          Published(s3, if top == c then Ok(()) else Err(AssertionError))
      else if a.drawDeck then Published(s1.(unknown := s1.unknown + 1), Ok(()))
      else if a.shuffleDiscards then Published(s1.(discards := []), Ok(()))
      else Published(s1, Ok(()))
  }

  /** An init is refused exactly when the player count has no deck count, and then nothing changes. */
  lemma DealerInit(s: DealerState, a: Action)
    requires a.init.Some?
    ensures DealerNext(s, a).outcome == Err(KeyError) <==> a.init.value.players !in PlayersToDecks
    ensures a.init.value.players !in PlayersToDecks ==> DealerNext(s, a).state == s
    ensures a.init.value.players in PlayersToDecks ==> DealerNext(s, a) == DealerNext(EmptyDealer, a.(init := None))
  {
  }

  /**
   * The discard pile is a stack: a move's discard and a flipped card are pushed, a drawn
   * discard is popped, and the pop succeeds exactly when the pile is non-empty and its top
   * is the drawn card; a shuffle empties the pile, and the other actions leave it alone.
   */
  lemma DealerDiscards(s: DealerState, a: Action)
    requires a.init.None?
    ensures var r := DealerNext(s, a);
      a.move.Some? ==>
        r.outcome.Ok? &&
        r.state.discards == s.discards + (if a.move.value.discard.Some? then [a.move.value.discard.value] else [])
    ensures var r := DealerNext(s, a);
      a.move.None? && a.flipDiscard.Some? ==>
        r.outcome.Ok? && r.state == s.(discards := s.discards + [a.flipDiscard.value])
    ensures var r := DealerNext(s, a);
      a.move.None? && a.flipDiscard.None? && a.purchase.Some? ==>
        r.outcome.Ok? && r.state.discards == s.discards
    ensures var r := DealerNext(s, a);
      a.move.None? && a.flipDiscard.None? && a.purchase.None? && a.drawDiscard.Some? ==>
        r.state.known == s.known + [a.drawDiscard.value] && r.state.unknown == s.unknown &&
        (r.outcome.Ok? <==> s.discards != [] && s.discards[|s.discards| - 1] == a.drawDiscard.value) &&
        (r.outcome.Ok? ==> r.state.discards + [a.drawDiscard.value] == s.discards) &&
        (r.outcome == Err(IndexError) <==> s.discards == [])
    ensures var r := DealerNext(s, a);
      a.move.None? && a.flipDiscard.None? && a.purchase.None? && a.drawDiscard.None? ==>
        r.outcome.Ok? &&
        r.state.discards == (if !a.drawDeck && a.shuffleDiscards then [] else s.discards)
  {
    if a.move.None? && a.flipDiscard.None? && a.purchase.None? && a.drawDiscard.Some? && s.discards != [] {
      var n := |s.discards|;
      assert s.discards == s.discards[..n - 1] + [s.discards[n - 1]];
    }
  }

  /** Flipping a card and drawing it back restores the pile, with the card now known. */
  lemma FlipThenDraw(s: DealerState, c: Card, pid: int)
    ensures var flipped := DealerNext(s, Action(pid, None, None, Some(c), None, None, false, false));
      flipped.outcome == Ok(()) &&
      DealerNext(flipped.state, Action(pid, None, None, None, None, Some(c), false, false)) ==
        Published(s.(known := s.known + [c]), Ok(()))
  {
    var p := s.discards + [c];
    assert p[..|p| - 1] == s.discards;
  }

  /** The dealer's view of the table. */
  class DealerView {
    var knownCards: seq<Card>
    var discards: seq<Card>
    var unknownCards: int

    function State(): DealerState
      reads this
    {
      DealerState(knownCards, discards, unknownCards)
    }

    constructor()
      ensures State() == EmptyDealer
    {
      knownCards := [];
      discards := [];
      unknownCards := 0;
    }

    /** `publish_action(action, melds)`; `r` is `Err` where the source raises. */
    method PublishAction(action: Action) returns (r: Result<(), Error>)
      modifies this
      ensures State() == DealerNext(old(State()), action).state
      ensures r == DealerNext(old(State()), action).outcome
    {
      if action.init.Some? {
        if action.init.value.players !in PlayersToDecks {
          return Err(KeyError);
        }
        knownCards := [];
        discards := [];
        unknownCards := 0;
      }
      r := Ok(());
      if action.move.Some? {
        knownCards, unknownCards := ForgetCards(knownCards, unknownCards, action.move.value.cards);
        if action.move.value.discard.Some? {
          discards := discards + [action.move.value.discard.value];
        }
      } else if action.flipDiscard.Some? {
        discards := discards + [action.flipDiscard.value];
      } else if action.purchase.Some? {
        knownCards := knownCards + [action.purchase.value];
      } else if action.drawDiscard.Some? {
        knownCards := knownCards + [action.drawDiscard.value];
        if discards == [] {
          return Err(IndexError);
        }
        var top := discards[|discards| - 1];
        discards := discards[..|discards| - 1];
        if top != action.drawDiscard.value {
          return Err(AssertionError);
        }
      } else if action.drawDeck {
        unknownCards := unknownCards + 1;
      } else if action.shuffleDiscards {
        discards := [];
      }
    }
  }

  // ---------------------------------------------------------------------------------
  // GameListener
  // ---------------------------------------------------------------------------------

  /** The listener that keeps the dealer view and one view per player up to date. */
  class GameListener {
    const dealer: DealerView
    var players: seq<PlayerView>
    var objective: Option<Objective>

    /** `players` maps each pid 0..n-1 to its own view, in that order. */
    ghost predicate Valid()
      reads this
    {
      forall i :: 0 <= i < |players| ==> players[i].pid == i
    }

    constructor()
      ensures Valid() && players == [] && objective == None
      ensures fresh(dealer) && dealer.State() == EmptyDealer
    {
      dealer := new DealerView();
      players := [];
      objective := None;
    }

    /**
     * `publish_action(action, melds)`: the dealer view first (a raise there stops
     * everything else); on init a fresh view per player; then every player view in pid order.
     */
    method PublishAction(action: Action, melds: map<int, Meld>) returns (r: Result<(), Error>)
      requires Valid()
      modifies this, dealer, set v | v in players
      ensures Valid()
      ensures dealer.State() == DealerNext(old(dealer.State()), action).state
      ensures r == DealerNext(old(dealer.State()), action).outcome
      ensures r.Err? ==> players == old(players) && objective == old(objective)
      ensures r.Err? ==> forall i :: 0 <= i < |players| ==> players[i].State() == old(players[i].State())
      ensures r.Ok? && action.init.Some? ==>
        objective == Some(action.init.value.objective) && |players| == action.init.value.players &&
        forall i :: 0 <= i < |players| ==>
          (fresh(players[i]) && players[i].State() == PlayerNext(i, EmptyPlayer, action, melds))
      ensures r.Ok? && action.init.None? ==>
        players == old(players) && objective == old(objective) &&
        forall i :: 0 <= i < |players| ==> players[i].State() == PlayerNext(i, old(players[i].State()), action, melds)
    {
      r := dealer.PublishAction(action);
      if r.Err? {
        return;
      }
      if action.init.Some? {
        objective := Some(action.init.value.objective);
        players := NewViews(action.init.value.players);
      }
      PublishToPlayers(players, action, melds);
    }
  }

  /** `{pid: PlayerView(pid) for pid in range(n)}`. */
  method NewViews(n: int) returns (views: seq<PlayerView>)
    ensures |views| == if n < 0 then 0 else n
    ensures forall i :: 0 <= i < |views| ==> fresh(views[i]) && views[i].pid == i && views[i].State() == EmptyPlayer
  {
    views := [];
    var i: nat := 0;
    while i < n
      invariant |views| == i
      invariant if n < 0 then i == 0 else i <= n
      invariant forall j :: 0 <= j < |views| ==> fresh(views[j]) && views[j].pid == j && views[j].State() == EmptyPlayer
    {
      var v := new PlayerView(i);
      views := views + [v];
      i := i + 1;
    }
  }

  /** `for player in self.players.values(): player.publish_action(action, melds)`. */
  method PublishToPlayers(views: seq<PlayerView>, action: Action, melds: map<int, Meld>)
    requires forall i :: 0 <= i < |views| ==> views[i].pid == i
    modifies set v | v in views
    ensures forall i :: 0 <= i < |views| ==> views[i].State() == PlayerNext(i, old(views[i].State()), action, melds)
  {
    var i := 0;
    while i < |views|
      invariant i <= |views|
      invariant forall j :: 0 <= j < i ==> views[j].State() == PlayerNext(j, old(views[j].State()), action, melds)
      invariant forall j :: i <= j < |views| ==> views[j].State() == old(views[j].State())
    {
      views[i].PublishAction(action, melds);
      i := i + 1;
    }
  }
}
