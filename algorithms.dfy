/**
 * The ranking helpers of liverpool/algorithms.py: the card scores, the sort keys that rank
 * cards by how useful they are, and `find_useful_cards`, which adds one joker at a time to a
 * copy of a hand and counts, for every meld the objective allows, which real cards it uses
 * and which missing cards its jokers stand for.
 */
module Algorithms {
  import opened Wrappers
  import opened Common
  import opened Hands
  import opened IndexedHands
  import opened Luts
  import opened Melds
  import opened MeldSearch

  // ---------------------------------------------------------------------------
  // CARD_SCORES and the sort keys
  // ---------------------------------------------------------------------------

  /** `CARD_SCORES`, keyed by a card's rank (`None` for the generic joker). */
  const CardScores: map<Option<int>, nat> := map[
    Some(2) := 5, Some(3) := 5, Some(4) := 5, Some(5) := 5,
    Some(6) := 5, Some(7) := 5, Some(8) := 5, Some(9) := 5,
    Some(10) := 10, Some(Jack) := 10, Some(Queen) := 10, Some(King) := 10,
    Some(Ace) := 15, None := 15]

  /** The keys are the ranks 2..ace and `None`; low cards score 5, 10..king 10, ace and joker 15. */
  lemma CardScoresTable()
    ensures forall r: Option<int> :: r in CardScores <==> r == None || (r.Some? && RankMin <= r.value <= RankMax)
    ensures forall r: int :: 2 <= r <= 9 ==> CardScores[Some(r)] == 5
    ensures forall r: int :: 10 <= r <= King ==> CardScores[Some(r)] == 10
    ensures CardScores[Some(Ace)] == 15 && CardScores[None] == 15
  {
    forall r: Option<int>
      ensures r in CardScores <==> r == None || (r.Some? && RankMin <= r.value <= RankMax)
    {
      if r.Some? && RankMin <= r.value <= RankMax {
        ScoreKey(r.value);
      }
    }
    forall r: int | 2 <= r <= King
      ensures CardScores[Some(r)] == if r <= 9 then 5 else 10
    {
      ScoreKey(r);
    }
  }

  /** Each rank is a key of `CARD_SCORES`, with its score. */
  lemma ScoreKey(v: int)
    requires RankMin <= v <= RankMax
    ensures Some(v) in CardScores
    ensures CardScores[Some(v)] == if v <= 9 then 5 else if v <= King then 10 else 15
  {
    if v <= 8 {
      assert v == 2 || v == 3 || v == 4 || v == 5 || v == 6 || v == 7 || v == 8;
    } else {
      assert v == 9 || v == 10 || v == 11 || v == 12 || v == 13 || v == 14;
    }
  }

  /** `CARD_SCORES[card.rank]`: every card's rank is a key. */
  function Score(c: Card): (s: nat)
    ensures s == 5 || s == 10 || s == 15
    ensures c.Joker? || c.rank == Ace ==> s == 15
  {
    CardScoresTable();
    CardScores[RankOf(c)]
  }

  /** `existing_utility((card, count))`: fewer uses rank higher, then a higher score. */
  function ExistingUtility(kv: (Card, int)): (int, int)
  {
    (-kv.1, Score(kv.0))
  }

  /** Python's tuple order, strictly: `a > b`. */
  predicate KeyAbove(a: (int, int), b: (int, int))
  {
    a.0 > b.0 || (a.0 == b.0 && a.1 > b.1)
  }

  /**
   * The item a stable `sorted(..., reverse=True)` puts first: the first item, in dict order,
   * whose key no other item's key exceeds.
   */
  function FirstBest(items: seq<(Card, int)>): (i: nat)
    requires items != []
    ensures i < |items|
    ensures forall j :: 0 <= j < |items| ==> !KeyAbove(ExistingUtility(items[j]), ExistingUtility(items[i]))
    ensures forall j :: 0 <= j < i ==> KeyAbove(ExistingUtility(items[i]), ExistingUtility(items[j]))
    decreases |items|
  {
    if |items| == 1 then 0
    else
      var init := items[..|items| - 1];
      var p := FirstBest(init);
      assert forall j :: 0 <= j < |init| ==> init[j] == items[j];
      if KeyAbove(ExistingUtility(items[|items| - 1]), ExistingUtility(items[p])) then |items| - 1 else p
  }

  /**
   * `least_useful(cards)` over the dict's items in insertion order: `pop(0)` of the sorted
   * items, which raises IndexError when there are none.
   */
  function LeastUseful(items: seq<(Card, int)>): (r: Result<Card, Error>)
    ensures r.Err? <==> items == []
    ensures r.Err? ==> r.error == IndexError
  {
    if items == [] then Err(IndexError) else Ok(items[FirstBest(items)].0)
  }

  /**
   * The card `least_useful` picks has the fewest uses; among the cards with that count it
   * has the highest score; and every earlier item has more uses or a lower score.
   */
  lemma LeastUsefulMeaning(items: seq<(Card, int)>) returns (i: nat)
    requires items != []
    ensures i < |items| && LeastUseful(items) == Ok(items[i].0)
    ensures forall j :: 0 <= j < |items| ==> items[i].1 <= items[j].1
    ensures forall j :: 0 <= j < |items| && items[j].1 == items[i].1 ==> Score(items[j].0) <= Score(items[i].0)
    ensures forall j :: 0 <= j < i ==>
      items[j].1 > items[i].1 || (items[j].1 == items[i].1 && Score(items[j].0) < Score(items[i].0))
  {
    i := FirstBest(items);
  }

  /** A non-empty set of distances has a smallest one. */
  lemma SmallestExists(s: set<nat>)
    requires s != {}
    ensures exists d :: d in s && forall e :: e in s ==> d <= e
  {
    var x :| x in s;
    SmallestBelow(s, x);
  }

  /** Descending from any member reaches the smallest one. */
  lemma {:induction false} SmallestBelow(s: set<nat>, n: nat)
    requires n in s
    ensures exists d :: d in s && forall e :: e in s ==> d <= e
    decreases n
  {
    if e :| e in s && e < n {
      SmallestBelow(s, e);
    } else {
      assert forall e :: e in s ==> n <= e;
    }
  }

  /**
   * `missing_utility((card, usefulness))`: the smallest item of the sorted (distance, count)
   * pairs, as (distance, -count). With no distances `pop(0)` raises IndexError.
   */
  function MissingUtility(kv: (Card, map<nat, nat>)): (r: Result<(int, int), Error>)
    ensures r.Err? <==> kv.1 == map[]
    ensures r.Err? ==> r.error == IndexError
    ensures r.Ok? ==> r.value.0 in kv.1 && r.value.1 == -(kv.1[r.value.0] as int)
    ensures r.Ok? ==> forall d :: d in kv.1 ==> r.value.0 <= d
  {
    var usefulness := kv.1;
    if usefulness == map[] then Err(IndexError)
    else
      assert usefulness.Keys != {} by {
        var d0 :| d0 in usefulness;
        assert d0 in usefulness.Keys;
      }
      SmallestExists(usefulness.Keys);
      var d :| d in usefulness.Keys && forall e :: e in usefulness.Keys ==> d <= e;
      var count: int := usefulness[d];
      Ok((d as int, -count))
  }

  // ---------------------------------------------------------------------------
  // find_useful_cards: crediting the cards of the melds found
  // ---------------------------------------------------------------------------

  /** `useful_missing_cards` (card -> distance -> count) and `useful_existing_cards`. */
  datatype Useful = Useful(missing: map<Card, map<nat, nat>>, existing: map<Card, nat>)

  /** `useful_missing_cards[c][d]`, reading 0 where the defaultdicts have no entry. */
  function Tally(missing: map<Card, map<nat, nat>>, c: Card, d: nat): nat
  {
    if c in missing && d in missing[c] then missing[c][d] else 0
  }

  /** `useful_missing_cards[c][d] += 1`. */
  function CreditOne(missing: map<Card, map<nat, nat>>, c: Card, d: nat): (r: map<Card, map<nat, nat>>)
    ensures r.Keys == missing.Keys + {c}
    ensures forall x, e :: Tally(r, x, e) == Tally(missing, x, e) + (if x == c && e == d then 1 else 0)
  {
    var inner := if c in missing then missing[c] else map[];
    missing[c := inner[d := Tally(missing, c, d) + 1]]
  }

  /** One `+= 1` for each card in turn. */
  function CreditAll(missing: map<Card, map<nat, nat>>, cs: seq<Card>, d: nat): map<Card, map<nat, nat>>
    decreases |cs|
  {
    if cs == [] then missing else CreditAll(CreditOne(missing, cs[0], d), cs[1..], d)
  }

  /** Crediting several cards credits each as often as it occurs, at distance `d` only. */
  lemma {:induction false} CreditAllTally(missing: map<Card, map<nat, nat>>, cs: seq<Card>, d: nat, x: Card, e: nat)
    ensures Tally(CreditAll(missing, cs, d), x, e) == Tally(missing, x, e) + (if e == d then multiset(cs)[x] else 0)
    ensures CreditAll(missing, cs, d).Keys == missing.Keys + set c | c in cs
  {
    CreditAllCount(missing, cs, d, x, e);
    CreditAllKeys(missing, cs, d);
  }

  lemma {:induction false} CreditAllCount(missing: map<Card, map<nat, nat>>, cs: seq<Card>, d: nat, x: Card, e: nat)
    ensures Tally(CreditAll(missing, cs, d), x, e) == Tally(missing, x, e) + (if e == d then multiset(cs)[x] else 0)
    decreases |cs|
  {
    if cs != [] {
      var m1 := CreditOne(missing, cs[0], d);
      CreditAllCount(m1, cs[1..], d, x, e);
      assert Tally(m1, x, e) == Tally(missing, x, e) + (if x == cs[0] && e == d then 1 else 0);
      assert cs == [cs[0]] + cs[1..];
      assert multiset(cs)[x] == multiset(cs[1..])[x] + (if x == cs[0] then 1 else 0);
    }
  }

  lemma {:induction false} CreditAllKeys(missing: map<Card, map<nat, nat>>, cs: seq<Card>, d: nat)
    ensures CreditAll(missing, cs, d).Keys == missing.Keys + set c | c in cs
    decreases |cs|
  {
    if cs != [] {
      CreditAllKeys(CreditOne(missing, cs[0], d), cs[1..], d);
      assert cs == [cs[0]] + cs[1..];
      assert (set c | c in cs) == {cs[0]} + set c | c in cs[1..];
    }
  }

  /** `Card.of(card.rank, color)` for each colour other than the joker's, in `Color.iter()` order. */
  function OthersFrom(card: Card, colors: seq<Color>): (cs: seq<Card>)
    requires !card.Joker?
    ensures |cs| <= |colors|
    decreases |colors|
  {
    if colors == [] then []
    else (if colors[0] != card.color then [Natural(card.rank, colors[0])] else []) + OthersFrom(card, colors[1..])
  }

  /** The other-colour cards a joker of a set also credits (a generic joker has no rank). */
  function Others(card: Card): seq<Card>
  {
    if card.Joker? then [] else OthersFrom(card, ColorIter())
  }

  /**
   * The loop body for one card of a combo: a joker credits the card it stands for at
   * distance `d` (and, inside a set, the same rank in the other colours); a real card counts
   * one more use, and one that is not a key of `useful_existing_cards` raises KeyError.
   */
  function CreditCard(u: Useful, card: Card, inSet: bool, d: nat): Result<Useful, Error>
  {
    if IsJoker(card) then
      Ok(u.(missing := CreditAll(CreditOne(u.missing, AsCommon(card), d), if inSet then Others(card) else [], d)))
    else if card in u.existing then Ok(u.(existing := u.existing[card := u.existing[card] + 1]))
    else Err(KeyError)
  }

  /** `for card in combo`. */
  function CreditCombo(u: Useful, combo: seq<Card>, inSet: bool, d: nat): Result<Useful, Error>
    decreases |combo|
  {
    if combo == [] then Ok(u)
    else match CreditCard(u, combo[0], inSet, d)
      case Err(e) => Err(e)
      case Ok(v) => CreditCombo(v, combo[1..], inSet, d)
  }

  /** The combos of a meld, each with whether it is a set: the sets first, then the runs. */
  function MeldCombos(m: Meld): (cs: seq<(seq<Card>, bool)>)
    ensures |cs| == |m.sets| + |m.runs|
    ensures forall i :: 0 <= i < |m.sets| ==> cs[i] == (SetCards(m.sets[i]), true)
    ensures forall i :: 0 <= i < |m.runs| ==> cs[|m.sets| + i] == (RunCombo(m.runs[i]), false)
  {
    seq(|m.sets|, i requires 0 <= i < |m.sets| => (SetCards(m.sets[i]), true)) +
    seq(|m.runs|, i requires 0 <= i < |m.runs| => (RunCombo(m.runs[i]), false))
  }

  /** `for combo in meld`. */
  function CreditCombos(u: Useful, combos: seq<(seq<Card>, bool)>, d: nat): Result<Useful, Error>
    decreases |combos|
  {
    if combos == [] then Ok(u)
    else match CreditCombo(u, combos[0].0, combos[0].1, d)
      case Err(e) => Err(e)
      case Ok(v) => CreditCombos(v, combos[1..], d)
  }

  /** `for meld in iter_melds(...)`. */
  function CreditMelds(u: Useful, melds: seq<Meld>, d: nat): Result<Useful, Error>
    decreases |melds|
  {
    if melds == [] then Ok(u)
    else match CreditCombos(u, MeldCombos(melds[0]), d)
      case Err(e) => Err(e)
      case Ok(v) => CreditMelds(v, melds[1..], d)
  }

  // ---------------------------------------------------------------------------
  // find_useful_cards: the passes
  // ---------------------------------------------------------------------------

  /** The hand copy after `n` passes: `n` more jokers. */
  function WithJokers(k: Counts, n: nat): Counts
  {
    Counts(k.cards, k.jokers + n)
  }

  /** Whether `iter_melds` calls its set iterator for this objective. */
  predicate UsesSets(obj: Objective)
  {
    obj.numRuns == 0 || obj.numSets != 0
  }

  /**
   * One pass over the melds of a hand: `iter_sets_lut` raises KeyError when a Setdex value
   * is not a key of the set table; otherwise the melds are those of `iter_melds`.
   */
  ghost function Pass(u: Useful, k: Counts, obj: Objective, d: nat): Result<Useful, Error>
  {
    if UsesSets(obj) && !SetKeysPresent(k.cards) then Err(KeyError)
    else CreditMelds(u, MeldsOf(k, obj), d)
  }

  /**
   * What the loop ends with: the two tallies, `additional_jokers`, `jokers_beyond_utility`,
   * and whether the loop condition failed (rather than the pass bound running out).
   */
  datatype Outcome = Outcome(useful: Useful, added: nat, beyond: nat, finished: bool)

  /** The loop condition of `find_useful_cards`. */
  predicate Continue(u: Useful, beyond: nat, maxExtra: int)
  {
    u.missing == map[] || beyond < maxExtra
  }

  /** A pass as a function of the tallies and the number of jokers added so far. */
  type PassFn = (Useful, nat) -> Result<Useful, Error>

  /** The passes over the hand `k` with `d` more jokers. */
  ghost function Passes(k: Counts, obj: Objective): PassFn
  {
    (u: Useful, d: nat) => Pass(u, WithJokers(k, d), obj, d)
  }

  /** `pass` makes the passes over the hand `k`: each application is the `Pass` with `d` more jokers. */
  ghost predicate PassesOver(pass: PassFn, k: Counts, obj: Objective)
  {
    forall u: Useful, d: nat {:trigger Pass(u, WithJokers(k, d), obj, d)} ::
      pass(u, d) == Pass(u, WithJokers(k, d), obj, d)
  }

  /**
   * The `while` loop from a state: `d` jokers added so far, `beyond` of them after some
   * missing card became useful, and at most `fuel` more passes.
   */
  ghost function Search(pass: PassFn, u: Useful, maxExtra: int, beyond: nat, d: nat, fuel: nat)
    : Result<Outcome, Error>
    decreases fuel
  {
    if !Continue(u, beyond, maxExtra) then Ok(Outcome(u, d, beyond, true))
    else if fuel == 0 then Ok(Outcome(u, d, beyond, false))
    else
      var b := if u.missing != map[] then beyond + 1 else beyond;
      match pass(u, d)
      case Err(e) => Err(e)
      case Ok(v) => Search(pass, v, maxExtra, b, d + 1, fuel - 1)
  }

  /** `{card: 0 for card in h if not card.is_joker}`. */
  function ZeroExisting(cards: multiset<Card>): (m: map<Card, nat>)
  {
    map c | c in cards && c.Natural? :: 0
  }

  /** `find_useful_cards(h, objective, max_extra_jokers)`, with at most `fuel` passes. */
  ghost function FindUseful(k: Counts, obj: Objective, maxExtra: int, fuel: nat): Result<Outcome, Error>
  {
    Search(Passes(k, obj), Useful(map[], ZeroExisting(k.cards)), maxExtra, 0, 0, fuel)
  }

  /** What the loop of `find_useful_cards` keeps: a valid hand copy with nothing pending, and the tables. */
  ghost predicate Ready(copy: IndexedHand, t: Tables)
    reads copy, copy.Repr, t
  {
    copy.Valid() && NothingPending(copy.hand.stack) && t.Valid() && Prepared(t) && t !in copy.Repr
  }

  /** The tables are empty (`maybe_precompute` builds them) or hold every joker count 0..3. */
  ghost predicate Prepared(t: Tables)
    reads t
  {
    t.setLut == map[] || t.runLut == map[] || Full(t)
  }

  ghost predicate Full(t: Tables)
    reads t
  {
    (forall j :: 0 <= j <= SetLutMaxJokers ==> j in t.setLut) &&
    (forall j :: 0 <= j <= RunLutMaxJokers ==> j in t.runLut)
  }

  /**
   * `find_useful_cards(h, objective, max_extra_jokers)`: works on an IndexedHand copy of
   * `h`, so `h` itself is not modified; stops after `fuel` passes if the loop has not ended.
   */
  method FindUsefulCards(h: Hand, obj: Objective, maxExtra: int, fuel: nat, t: Tables)
    returns (r: Result<Outcome, Error>)
    requires h.Valid() && t.Valid() && Prepared(t)
    modifies t
    ensures t.Valid()
    ensures r == FindUseful(h.Snapshot(), obj, maxExtra, fuel)
  {
    ghost var k := h.Snapshot();
    var u := Useful(map[], ZeroExisting(h.cards));
    ghost var pass := Passes(k, obj);
    assert FindUseful(k, obj, maxExtra, fuel) == Search(pass, u, maxExtra, 0, 0, fuel);
    PassesApply(k, obj);
    var cards := h.Iter();
    var copy := new IndexedHand(cards);
    CopySnapshot(k, cards);
    r := Turns(copy, t, obj, k, pass, u, maxExtra, fuel);
  }

  /** The `while` loop of `find_useful_cards`, from no extra jokers on. */
  method Turns(copy: IndexedHand, t: Tables, obj: Objective, ghost k: Counts, ghost pass: PassFn,
               u0: Useful, maxExtra: int, fuel: nat)
    returns (r: Result<Outcome, Error>)
    requires Ready(copy, t)
    requires copy.Snapshot() == k && PassesOver(pass, k, obj)
    modifies copy.Repr, t
    ensures t.Valid()
    ensures r == Search(pass, u0, maxExtra, 0, 0, fuel)
  {
    var u := u0;
    var added: nat := 0;
    var beyond: nat := 0;
    ghost var left: nat := fuel;
    ghost var goal := Search(pass, u0, maxExtra, 0, 0, fuel);
    while Continue(u, beyond, maxExtra) && added < fuel
      invariant added + left == fuel
      invariant Ready(copy, t)
      invariant copy.Snapshot() == WithJokers(k, added)
      invariant goal == Search(pass, u, maxExtra, beyond, added, left)
      decreases left
    {
      var p;
      p, beyond, left := UsefulTurn(copy, t, obj, k, pass, u, maxExtra, beyond, added, left);
      if p.Err? {
        return Err(p.error);
      }
      u := p.value;
      added := added + 1;
    }
    SearchDone(pass, u, maxExtra, beyond, added, left);
    r := Ok(Outcome(u, added, beyond, !Continue(u, beyond, maxExtra)));
  }

  /** Where the loop stops, `Search` stops too. */
  lemma SearchDone(pass: PassFn, u: Useful, maxExtra: int, beyond: nat, d: nat, fuel: nat)
    requires !Continue(u, beyond, maxExtra) || fuel == 0
    ensures Search(pass, u, maxExtra, beyond, d, fuel) == Ok(Outcome(u, d, beyond, !Continue(u, beyond, maxExtra)))
  {
  }

  /**
   * One turn of the loop: `jokers_beyond_utility` counts the turn if some missing card is
   * already useful, then a pass over the melds, then one more joker in the copy.
   */
  method UsefulTurn(copy: IndexedHand, t: Tables, obj: Objective, ghost k: Counts, ghost pass: PassFn,
                    u: Useful, maxExtra: int, beyond: nat, added: nat, ghost fuel: nat)
    returns (r: Result<Useful, Error>, beyond': nat, ghost fuel': nat)
    requires Ready(copy, t)
    requires copy.Snapshot() == WithJokers(k, added)
    requires PassesOver(pass, k, obj) && Continue(u, beyond, maxExtra) && fuel > 0
    modifies copy.Repr, t
    ensures Ready(copy, t) && Full(t)
    ensures r.Ok? ==> copy.Snapshot() == WithJokers(k, added + 1)
    ensures r.Err? ==> Search(pass, u, maxExtra, beyond, added, fuel) == Err(r.error)
    ensures fuel' + 1 == fuel
    ensures r.Ok? ==> (Search(pass, u, maxExtra, beyond, added, fuel) ==
      Search(pass, r.value, maxExtra, beyond', added + 1, fuel'))
  {
    beyond', fuel' := beyond, fuel - 1;
    if u.missing != map[] {
      beyond' := beyond + 1;
    }
    r := UsefulPass(copy, t, obj, u, added);
    SearchStep(pass, u, maxExtra, beyond, added, fuel, r, beyond', fuel');
  }

  /** One turn of the loop, as `Search` takes it. */
  lemma SearchStep(pass: PassFn, u: Useful, maxExtra: int, beyond: nat, d: nat, fuel: nat,
                   p: Result<Useful, Error>, beyond': nat, fuel': nat)
    requires pass(u, d) == p
    requires Continue(u, beyond, maxExtra) && fuel == fuel' + 1
    requires beyond' == if u.missing != map[] then beyond + 1 else beyond
    ensures p.Err? ==> Search(pass, u, maxExtra, beyond, d, fuel) == Err(p.error)
    ensures p.Ok? ==> Search(pass, u, maxExtra, beyond, d, fuel) == Search(pass, p.value, maxExtra, beyond', d + 1, fuel')
  {
  }

  /** The pass `find_useful_cards` makes with `d` extra jokers. */
  lemma PassesApply(k: Counts, obj: Objective)
    ensures PassesOver(Passes(k, obj), k, obj)
  {
  }


  /** `IndexedHand(cards=h)` holds the same counts as `h`. */
  lemma CopySnapshot(k: Counts, cards: seq<Card>)
    requires Joker !in k.cards && multiset(cards) == k.Contents()
    ensures PutAll(Counts(multiset{}, 0), cards) == k
  {
    PutAllContents(Counts(multiset{}, 0), cards);
    var after := PutAll(Counts(multiset{}, 0), cards);
    assert after.cards == k.cards by {
      forall x
        ensures after.cards[x] == k.cards[x]
      {
      }
    }
  }

  /**
   * One pass of the loop: the melds of `iter_melds` with the table-driven iterators, and
   * the credits for their cards; then one more joker in the copy.
   */
  method UsefulPass(copy: IndexedHand, t: Tables, obj: Objective, u: Useful, d: nat)
    returns (r: Result<Useful, Error>)
    requires copy.Valid() && NothingPending(copy.hand.stack) && t.Valid() && Prepared(t) && t !in copy.Repr
    modifies copy.Repr, t
    ensures copy.Valid() && NothingPending(copy.hand.stack) && t.Valid() && Full(t)
    ensures r.Ok? ==> copy.Snapshot() == PutOne(old(copy.Snapshot()), Joker)
    ensures r == Pass(u, old(copy.Snapshot()), obj, d)
  {
    var found := TableLookups(copy, t, obj);
    if !found {
      return Err(KeyError);
    }
    r := PassMelds(copy, obj, u, d);
  }

  /**
   * The table lookups of `iter_sets_lut` (or, for runs only, `iter_runs_lut`), which call
   * `maybe_precompute()` first; `iter_sets_lut` raises KeyError for a Setdex value that is
   * not a key. Their results are the sets and runs `iter_sets` and `iter_runs` give.
   */
  method TableLookups(copy: IndexedHand, t: Tables, obj: Objective) returns (found: bool)
    requires copy.Valid() && t.Valid() && Prepared(t) && t !in copy.Repr
    modifies t
    ensures t.Valid() && Full(t)
    ensures found <==> !(UsesSets(obj) && !SetKeysPresent(copy.hand.cards))
  {
    if UsesSets(obj) {
      var sets := IterSetsLut(copy, t);
      found := sets.Ok?;
    } else {
      var runs := IterRunsLut(copy, t);
      found := true;
    }
  }

  /** `iter_melds` on the copy, the credits for the cards of every meld, then `put_card(joker)`. */
  method PassMelds(copy: IndexedHand, obj: Objective, u: Useful, d: nat) returns (r: Result<Useful, Error>)
    requires copy.Valid() && NothingPending(copy.hand.stack)
    modifies copy.Repr
    ensures copy.Valid() && NothingPending(copy.hand.stack)
    ensures r.Ok? ==> copy.Snapshot() == PutOne(old(copy.Snapshot()), Joker)
    ensures r == CreditMelds(u, MeldsOf(old(copy.Snapshot()), obj), d)
  {
    var melds := IterMelds(copy, obj);
    r := CreditMeldList(u, melds, d);
    if r.Ok? {
      copy.PutCard(Joker);
    }
  }

  /** The loop over the melds. */
  method CreditMeldList(u: Useful, melds: seq<Meld>, d: nat) returns (r: Result<Useful, Error>)
    ensures r == CreditMelds(u, melds, d)
  {
    var cur := u;
    var i := 0;
    while i < |melds|
      invariant 0 <= i <= |melds|
      invariant CreditMelds(u, melds, d) == CreditMelds(cur, melds[i..], d)
    {
      assert melds[i..][1..] == melds[i + 1..];
      var step := CreditComboList(cur, MeldCombos(melds[i]), d);
      if step.Err? {
        return step;
      }
      cur := step.value;
      i := i + 1;
    }
    return Ok(cur);
  }

  /** The loop over the combos of one meld. */
  method CreditComboList(u: Useful, combos: seq<(seq<Card>, bool)>, d: nat) returns (r: Result<Useful, Error>)
    ensures r == CreditCombos(u, combos, d)
  {
    var cur := u;
    var i := 0;
    while i < |combos|
      invariant 0 <= i <= |combos|
      invariant CreditCombos(u, combos, d) == CreditCombos(cur, combos[i..], d)
    {
      assert combos[i..][1..] == combos[i + 1..];
      var step := CreditComboCards(cur, combos[i].0, combos[i].1, d);
      if step.Err? {
        return step;
      }
      cur := step.value;
      i := i + 1;
    }
    return Ok(cur);
  }

  /** The loop over the cards of one combo. */
  method CreditComboCards(u: Useful, combo: seq<Card>, inSet: bool, d: nat) returns (r: Result<Useful, Error>)
    ensures r == CreditCombo(u, combo, inSet, d)
  {
    var cur := u;
    var i := 0;
    while i < |combo|
      invariant 0 <= i <= |combo|
      invariant CreditCombo(u, combo, inSet, d) == CreditCombo(cur, combo[i..], inSet, d)
    {
      assert combo[i..][1..] == combo[i + 1..] && combo[i..][0] == combo[i];
      var step := CreditCardStep(cur, combo[i], inSet, d);
      if step.Err? {
        return step;
      }
      cur := step.value;
      i := i + 1;
    }
    return Ok(cur);
  }

  /** One pass of the loop over a combo's cards. */
  method CreditCardStep(u: Useful, card: Card, inSet: bool, d: nat) returns (r: Result<Useful, Error>)
    ensures r == CreditCard(u, card, inSet, d)
  {
    if IsJoker(card) {
      var missing := CreditOne(u.missing, AsCommon(card), d);
      if inSet && !card.Joker? {
        missing := CreditOtherColors(missing, card, d);
      }
      return Ok(u.(missing := missing));
    } else if card in u.existing {
      return Ok(u.(existing := u.existing[card := u.existing[card] + 1]));
    } else {
      return Err(KeyError);
    }
  }

  lemma CreditAllCons(missing: map<Card, map<nat, nat>>, c: Card, rest: seq<Card>, d: nat)
    ensures CreditAll(missing, [c] + rest, d) == CreditAll(CreditOne(missing, c, d), rest, d)
  {
    assert ([c] + rest)[0] == c && ([c] + rest)[1..] == rest;
  }

  /** The loop over `Color.iter()` that credits a set joker's rank in the other colours. */
  method CreditOtherColors(missing: map<Card, map<nat, nat>>, card: Card, d: nat)
    returns (r: map<Card, map<nat, nat>>)
    requires !card.Joker?
    ensures r == CreditAll(missing, Others(card), d)
  {
    var colors := ColorIter();
    r := missing;
    var i := 0;
    while i < |colors|
      invariant 0 <= i <= |colors|
      invariant CreditAll(missing, OthersFrom(card, colors), d) == CreditAll(r, OthersFrom(card, colors[i..]), d)
    {
      assert colors[i..][1..] == colors[i + 1..];
      var rest := OthersFrom(card, colors[i + 1..]);
      assert colors[i..][0] == colors[i];
      if colors[i] != card.color {
        assert OthersFrom(card, colors[i..]) == [Natural(card.rank, colors[i])] + rest;
        CreditAllCons(r, Natural(card.rank, colors[i]), rest, d);
        r := CreditOne(r, Natural(card.rank, colors[i]), d);
      } else {
        assert OthersFrom(card, colors[i..]) == [] + rest;
        assert [] + rest == rest;
      }
      i := i + 1;
    }
  }

  // ---------------------------------------------------------------------------
  // find_useful_cards: properties
  // ---------------------------------------------------------------------------

  /** A set joker's card followed by its rank in the other colours, in `Color.iter()` order. */
  function FourColors(r: Rank, c: Color): seq<Card>
  {
    match c
    case Club => [Natural(r, Club), Natural(r, Spade), Natural(r, Heart), Natural(r, Diamond)]
    case Spade => [Natural(r, Spade), Natural(r, Club), Natural(r, Heart), Natural(r, Diamond)]
    case Heart => [Natural(r, Heart), Natural(r, Club), Natural(r, Spade), Natural(r, Diamond)]
    case Diamond => [Natural(r, Diamond), Natural(r, Club), Natural(r, Spade), Natural(r, Heart)]
  }

  /** The four cards are distinct and are exactly the real cards of rank `r`. */
  lemma FourColorsProps(r: Rank, c: Color)
    ensures forall i, j :: 0 <= i < j < 4 ==> FourColors(r, c)[i] != FourColors(r, c)[j]
    ensures forall y :: y in FourColors(r, c) <==> y.Natural? && y.rank == r
  {
    var four := FourColors(r, c);
    forall y: Card | y.Natural? && y.rank == r
      ensures y in four
    {
      assert y == Natural(r, y.color);
      assert Natural(r, Club) in four && Natural(r, Spade) in four &&
             Natural(r, Heart) in four && Natural(r, Diamond) in four by {
        match c
        case Club =>
        case Spade =>
        case Heart =>
        case Diamond =>
      }
      match y.color
      case Club =>
      case Spade =>
      case Heart =>
      case Diamond =>
    }
  }

  lemma OthersValue(card: Card)
    requires card.Wild?
    ensures [AsCommon(card)] + Others(card) == FourColors(card.rank, card.color)
  {
    var r := card.rank;
    var cs := ColorIter();
    assert cs[1..] == [Spade, Heart, Diamond] && cs[1..][1..] == [Heart, Diamond];
    assert cs[1..][1..][1..] == [Diamond] && cs[1..][1..][1..][1..] == [];
    var o3 := OthersFrom(card, [Diamond]);
    var o2 := OthersFrom(card, [Heart, Diamond]);
    var o1 := OthersFrom(card, [Spade, Heart, Diamond]);
    assert o3 == (if Diamond != card.color then [Natural(r, Diamond)] else []);
    assert o2 == (if Heart != card.color then [Natural(r, Heart)] else []) + o3;
    assert o1 == (if Spade != card.color then [Natural(r, Spade)] else []) + o2;
    assert Others(card) == (if Club != card.color then [Natural(r, Club)] else []) + o1;
  }

  /** In a sequence without repeats, every element occurs once. */
  lemma {:induction false} DistinctCount(cs: seq<Card>, x: Card)
    requires forall i, j :: 0 <= i < j < |cs| ==> cs[i] != cs[j]
    ensures multiset(cs)[x] == if x in cs then 1 else 0
    decreases |cs|
  {
    if cs != [] {
      DistinctCount(cs[1..], x);
      assert cs == [cs[0]] + cs[1..];
      assert cs[0] !in cs[1..];
    }
  }

  /** A set joker's cards: every colour of its rank once; a run joker's: its own card. */
  lemma JokerCards(card: Card, inSet: bool, x: Card)
    requires card.Wild?
    ensures multiset([AsCommon(card)] + (if inSet then Others(card) else []))[x] ==
      if x.Natural? && x.rank == card.rank && (inSet || x.color == card.color) then 1 else 0
  {
    if inSet {
      OthersValue(card);
      FourColorsProps(card.rank, card.color);
      DistinctCount(FourColors(card.rank, card.color), x);
    } else {
      assert [AsCommon(card)] + [] == [Natural(card.rank, card.color)];
    }
  }

  /**
   * A materialized joker credits its own card at the current distance, and inside a set the
   * same rank in every other colour too; nothing else changes.
   */
  lemma JokerCredit(u: Useful, card: Card, inSet: bool, d: nat, x: Card, e: nat)
    requires card.Wild?
    ensures CreditCard(u, card, inSet, d).Ok?
    ensures CreditCard(u, card, inSet, d).value.existing == u.existing
    ensures Tally(CreditCard(u, card, inSet, d).value.missing, x, e) == Tally(u.missing, x, e) +
      if e == d && x.Natural? && x.rank == card.rank && (inSet || x.color == card.color) then 1 else 0
  {
    var extra := if inSet then Others(card) else [];
    CreditAllTally(CreditOne(u.missing, AsCommon(card), d), extra, d, x, e);
    JokerCards(card, inSet, x);
    assert multiset([AsCommon(card)] + extra)[x] == (if x == AsCommon(card) then 1 else 0) + multiset(extra)[x];
  }

  /** A real card counts one more use of itself, or raises KeyError when it is not a key. */
  lemma RealCredit(u: Useful, card: Card, inSet: bool, d: nat)
    requires card.Natural?
    ensures CreditCard(u, card, inSet, d).Ok? <==> card in u.existing
    ensures CreditCard(u, card, inSet, d).Err? ==> CreditCard(u, card, inSet, d).error == KeyError
    ensures CreditCard(u, card, inSet, d).Ok? ==>
      CreditCard(u, card, inSet, d).value.missing == u.missing &&
      CreditCard(u, card, inSet, d).value.existing == u.existing[card := u.existing[card] + 1]
  {
  }

  /**
   * `v` is `u` after some credits: the same cards are keys of `useful_existing_cards` and no
   * count, existing or missing, went down.
   */
  ghost predicate Grows(u: Useful, v: Useful)
  {
    (forall c :: c in v.existing <==> c in u.existing) &&
    (forall c :: c in u.existing ==> u.existing[c] <= v.existing[c]) &&
    (forall c :: c in u.missing ==> c in v.missing) &&
    (forall c, e :: Tally(u.missing, c, e) <= Tally(v.missing, c, e))
  }

  lemma GrowsTrans(u: Useful, v: Useful, w: Useful)
    requires Grows(u, v) && Grows(v, w)
    ensures Grows(u, w)
  {
  }

  lemma CreditCardGrows(u: Useful, card: Card, inSet: bool, d: nat)
    ensures CreditCard(u, card, inSet, d).Ok? ==> Grows(u, CreditCard(u, card, inSet, d).value)
  {
    if IsJoker(card) {
      var m1 := CreditOne(u.missing, AsCommon(card), d);
      var extra := if inSet then Others(card) else [];
      forall c, e
        ensures Tally(u.missing, c, e) <= Tally(CreditAll(m1, extra, d), c, e)
      {
        CreditAllTally(m1, extra, d, c, e);
      }
      CreditAllTally(m1, extra, d, card, 0);
    }
  }

  lemma {:induction false} CreditComboGrows(u: Useful, combo: seq<Card>, inSet: bool, d: nat)
    ensures CreditCombo(u, combo, inSet, d).Ok? ==> Grows(u, CreditCombo(u, combo, inSet, d).value)
    decreases |combo|
  {
    if combo != [] {
      CreditCardGrows(u, combo[0], inSet, d);
      var step := CreditCard(u, combo[0], inSet, d);
      if step.Ok? {
        CreditComboGrows(step.value, combo[1..], inSet, d);
        var r := CreditCombo(step.value, combo[1..], inSet, d);
        if r.Ok? {
          GrowsTrans(u, step.value, r.value);
        }
      }
    }
  }

  lemma {:induction false} CreditCombosGrows(u: Useful, combos: seq<(seq<Card>, bool)>, d: nat)
    ensures CreditCombos(u, combos, d).Ok? ==> Grows(u, CreditCombos(u, combos, d).value)
    decreases |combos|
  {
    if combos != [] {
      CreditComboGrows(u, combos[0].0, combos[0].1, d);
      var step := CreditCombo(u, combos[0].0, combos[0].1, d);
      if step.Ok? {
        CreditCombosGrows(step.value, combos[1..], d);
        var r := CreditCombos(step.value, combos[1..], d);
        if r.Ok? {
          GrowsTrans(u, step.value, r.value);
        }
      }
    }
  }

  /** Crediting the melds of a pass only raises counts and keeps the existing keys. */
  lemma {:induction false} CreditMeldsGrows(u: Useful, melds: seq<Meld>, d: nat)
    ensures CreditMelds(u, melds, d).Ok? ==> Grows(u, CreditMelds(u, melds, d).value)
    decreases |melds|
  {
    if melds != [] {
      CreditCombosGrows(u, MeldCombos(melds[0]), d);
      var step := CreditCombos(u, MeldCombos(melds[0]), d);
      if step.Ok? {
        CreditMeldsGrows(step.value, melds[1..], d);
        var r := CreditMelds(step.value, melds[1..], d);
        if r.Ok? {
          GrowsTrans(u, step.value, r.value);
        }
      }
    }
  }

  /** The larger of 0 and `n`. */
  function AtLeastZero(n: int): nat
  {
    if n < 0 then 0 else n
  }

  /**
   * The loop from any state: counts only grow; it ends with the condition failed exactly
   * when it reports `finished`, otherwise after exactly `fuel` more passes;
   * `jokers_beyond_utility` never passes `max(0, max_extra_jokers)`.
   */
  lemma {:induction false} SearchOutcome(pass: PassFn, u: Useful, maxExtra: int, beyond: nat, d: nat, fuel: nat)
    requires forall v: Useful, e: nat :: pass(v, e).Ok? ==> Grows(v, pass(v, e).value)
    requires beyond <= AtLeastZero(maxExtra)
    ensures var r := Search(pass, u, maxExtra, beyond, d, fuel);
      r.Ok? ==>
        Grows(u, r.value.useful) &&
        d <= r.value.added <= d + fuel &&
        (r.value.finished <==> !Continue(r.value.useful, r.value.beyond, maxExtra)) &&
        (!r.value.finished ==> r.value.added == d + fuel) &&
        r.value.beyond <= AtLeastZero(maxExtra)
    decreases fuel
  {
    if Continue(u, beyond, maxExtra) && fuel > 0 {
      var b := if u.missing != map[] then beyond + 1 else beyond;
      var p := pass(u, d);
      if p.Ok? {
        SearchOutcome(pass, p.value, maxExtra, b, d + 1, fuel - 1);
        var r := Search(pass, p.value, maxExtra, b, d + 1, fuel - 1);
        if r.Ok? {
          GrowsTrans(u, p.value, r.value.useful);
        }
      }
    }
  }

  /** Every pass over the hand only raises counts and keeps the existing keys. */
  lemma PassesGrow(k: Counts, obj: Objective)
    ensures forall v: Useful, e: nat :: Passes(k, obj)(v, e).Ok? ==> Grows(v, Passes(k, obj)(v, e).value)
  {
    forall v: Useful, e: nat | Passes(k, obj)(v, e).Ok?
      ensures Grows(v, Passes(k, obj)(v, e).value)
    {
      CreditMeldsGrows(v, MeldsOf(WithJokers(k, e), obj), e);
    }
  }

  /**
   * `find_useful_cards`: `useful_existing_cards` keeps exactly the hand's real cards as keys,
   * every count only grows from zero, and the loop stops only once some missing card is
   * useful and `jokers_beyond_utility` has reached `max_extra_jokers`.
   */
  lemma FindUsefulMeaning(k: Counts, obj: Objective, maxExtra: int, fuel: nat)
    ensures var r := FindUseful(k, obj, maxExtra, fuel);
      r.Ok? ==>
        Grows(Useful(map[], ZeroExisting(k.cards)), r.value.useful) &&
        (forall c :: c in r.value.useful.existing <==> c in k.cards && c.Natural?) &&
        (r.value.finished <==> r.value.useful.missing != map[] && r.value.beyond >= maxExtra) &&
        (!r.value.finished ==> r.value.added == fuel) &&
        r.value.beyond <= AtLeastZero(maxExtra)
  {
    var u0 := Useful(map[], ZeroExisting(k.cards));
    PassesGrow(k, obj);
    SearchOutcome(Passes(k, obj), u0, maxExtra, 0, 0, fuel);
  }
}
