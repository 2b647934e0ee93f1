/**
 * The card value types of liverpool/common.py: colours, ranks, cards (with generic and
 * materialized jokers), runs, sets, and the meld / update records built from them.
 */
module Common {
  import opened Wrappers

  /** The exceptions the core raises, one constructor per exception class. */
  datatype Error =
    | InvalidColor
    | InvalidRank
    | InvalidTake
    | ValueError
    | KeyError
    | IndexError
    | AssertionError
    | InvalidExtend

  // ---------------------------------------------------------------------------
  // Colours
  // ---------------------------------------------------------------------------

  datatype Color = Club | Spade | Heart | Diamond
  {
    /** The integer code of liverpool/common.py (CLUB = 1 .. DIAMOND = 4). */
    function Code(): int
    {
      match this
      case Club => 1
      case Spade => 2
      case Heart => 3
      case Diamond => 4
    }

    /** The 0-based index used for the 2-bit fields of a Setdex. */
    function Index(): nat
    {
      Code() - 1
    }
  }

  /** `Color.validate`: the colour with that code, or InvalidColor. */
  function ColorValidate(code: int): (r: Result<Color, Error>)
    ensures r.Ok? <==> 1 <= code <= 4
    ensures r.Ok? ==> r.value.Code() == code
    ensures r.Err? ==> r.error == InvalidColor
  {
    if code == 1 then Ok(Club)
    else if code == 2 then Ok(Spade)
    else if code == 3 then Ok(Heart)
    else if code == 4 then Ok(Diamond)
    else Err(InvalidColor)
  }

  /** `Color.iter`: CLUB, SPADE, HEART, DIAMOND. */
  function ColorIter(): seq<Color>
  {
    [Club, Spade, Heart, Diamond]
  }

  /** `Color.iter` lists every colour once, in increasing code order. */
  lemma ColorIterProps()
    ensures |ColorIter()| == 4
    ensures forall i :: 0 <= i < 4 ==> ColorIter()[i].Code() == i + 1
    ensures forall c: Color :: c in ColorIter()
  {
    forall c: Color
      ensures c in ColorIter()
    {
      assert ColorIter()[c.Index()] == c;
    }
  }

  /** The code of a colour identifies it. */
  lemma ColorCodeInjective(a: Color, b: Color)
    ensures a.Code() == b.Code() <==> a == b
  {
  }

  // ---------------------------------------------------------------------------
  // Ranks
  // ---------------------------------------------------------------------------

  const RankMin := 2
  const Jack := 11
  const Queen := 12
  const King := 13
  const Ace := 14
  const RankMax := Ace

  type Rank = r: int | RankMin <= r <= RankMax witness RankMin

  /** `Rank.validate`: its argument when it lies in 2..14, InvalidRank otherwise. */
  function RankValidate(rank: int): (r: Result<Rank, Error>)
    ensures r.Ok? <==> 2 <= rank <= 14
    ensures r.Ok? ==> r.value == rank
    ensures r.Err? ==> r.error == InvalidRank
  {
    if rank < RankMin || rank > RankMax then Err(InvalidRank) else Ok(rank)
  }

  /** `Rank.iter`: range(RANK_MIN, RANK_MAX + 1). */
  function RankIter(): seq<Rank>
  {
    seq(RankMax - RankMin + 1, i requires 0 <= i < RankMax - RankMin + 1 => RankMin + i)
  }

  /** `Rank.iter` is 2..14 ascending: exactly the ranks `Rank.validate` accepts. */
  lemma RankIterProps()
    ensures |RankIter()| == 13
    ensures forall i, j :: 0 <= i < j < |RankIter()| ==> RankIter()[i] < RankIter()[j]
    ensures forall x: int :: x in RankIter() <==> RankValidate(x).Ok?
  {
    forall x: int | RankValidate(x).Ok?
      ensures x in RankIter()
    {
      assert RankIter()[x - 2] == x;
    }
  }

  // ---------------------------------------------------------------------------
  // Cards
  // ---------------------------------------------------------------------------

  /**
   * A card: a real card, the generic joker `Card.JOKER` (rank and colour `None`), or a
   * joker materialized with a rank and a colour (`Card.of(rank, color, joker=True)`).
   * Equality is equality of (rank, colour, joker flag).
   */
  datatype Card =
    | Natural(rank: Rank, color: Color)
    | Joker
    | Wild(rank: Rank, color: Color)

  function RankOf(c: Card): Option<int>
  {
    if c.Joker? then None else Some(c.rank)
  }

  function ColorOf(c: Card): Option<Color>
  {
    if c.Joker? then None else Some(c.color)
  }

  predicate IsJoker(c: Card)
  {
    !c.Natural?
  }

  predicate IsMaterialized(c: Card)
  {
    c.Wild?
  }

  /**
   * `Card.of(rank, color, joker)`: the constructor validates the colour first and then the
   * rank, as `Card.__init__` does (liverpool/common.py:67-69).
   */
  function CardOf(rank: int, code: int, joker: bool): (r: Result<Card, Error>)
    ensures r.Ok? <==> ColorValidate(code).Ok? && RankValidate(rank).Ok?
    ensures !ColorValidate(code).Ok? ==> r == Err(InvalidColor)
    ensures r.Ok? ==> RankOf(r.value) == Some(rank) && ColorOf(r.value) == Some(ColorValidate(code).value)
    ensures r.Ok? ==> IsJoker(r.value) == joker && IsMaterialized(r.value) == joker
  {
    match ColorValidate(code)
    case Err(e) => Err(e)
    case Ok(color) =>
      match RankValidate(rank)
      case Err(e) => Err(e)
      case Ok(rk) => if joker then Ok(Wild(rk, color)) else Ok(Natural(rk, color))
  }

  /** `card.dematerialized()`: a materialized joker becomes the generic joker. */
  function Dematerialized(c: Card): (r: Card)
    ensures IsJoker(r) == IsJoker(c) && !IsMaterialized(r)
    ensures !IsJoker(c) ==> r == c
  {
    if c.Wild? then Joker else c
  }

  /** `card.as_common()`: the real card a materialized joker stands for. */
  function AsCommon(c: Card): (r: Card)
    ensures c != Joker ==> r.Natural? && RankOf(r) == RankOf(c) && ColorOf(r) == ColorOf(c)
    ensures c.Natural? ==> r == c
  {
    if c.Wild? then Natural(c.rank, c.color) else c
  }

  /**
   * `card.iter_rank()`: the cards of the same colour from the card's rank up to the ace.
   * The generic joker fails the assertion on its colour.
   */
  function IterRank(c: Card): (r: Result<seq<Card>, Error>)
    ensures r.Err? <==> c == Joker
    ensures r.Ok? ==> |r.value| == RankMax - c.rank + 1
    ensures r.Ok? ==> forall i :: 0 <= i < |r.value| ==> r.value[i] == Natural(c.rank + i, c.color)
  {
    if c.Joker? then Err(AssertionError)
    else Ok(seq(RankMax - c.rank + 1, i requires 0 <= i < RankMax - c.rank + 1 => Natural(c.rank + i, c.color)))
  }

  /** iter_rank starts at the card's own rank, ends at the ace, and ascends by one. */
  lemma IterRankProps(c: Card)
    requires c != Joker
    ensures IterRank(c).Ok?
    ensures IterRank(c).value[0] == Natural(c.rank, c.color)
    ensures IterRank(c).value[|IterRank(c).value| - 1] == Natural(Ace, c.color)
    ensures forall i :: 0 <= i < |IterRank(c).value| - 1 ==>
      IterRank(c).value[i + 1].rank == IterRank(c).value[i].rank + 1
  {
  }

  // ---------------------------------------------------------------------------
  // Runs
  // ---------------------------------------------------------------------------

  /** `Run.MIN`. */
  const RunMin := 4

  /** A run: a colour, a start rank, and one joker flag per position. */
  datatype Run = Run(color: Color, start: int, jokers: seq<bool>)

  /** All of a run's ranks are real ranks (2..14). */
  predicate RunInRange(r: Run)
  {
    RankMin <= r.start && r.start + |r.jokers| - 1 <= RankMax
  }

  /** The cards of a run, in rank order; a flagged position is a materialized joker. */
  function RunCards(r: Run): (cs: seq<Card>)
    requires RunInRange(r)
    ensures |cs| == |r.jokers|
    ensures forall i :: 0 <= i < |cs| ==> RankOf(cs[i]) == Some(r.start + i) && ColorOf(cs[i]) == Some(r.color)
    ensures forall i :: 0 <= i < |cs| ==> (IsJoker(cs[i]) <==> r.jokers[i])
  {
    seq(|r.jokers|, i requires 0 <= i < |r.jokers| =>
      if r.jokers[i] then Wild(r.start + i, r.color) else Natural(r.start + i, r.color))
  }

  /**
   * `Run.of(color, start, length, joker_indices)`: consecutive ranks of one colour, the given
   * positions flagged as jokers. Each card is validated, so a run past the ace fails.
   */
  function RunOf(color: Color, start: int, length: nat, jokerIndices: seq<int>): (r: Result<Run, Error>)
    ensures r.Ok? <==> length == 0 || (RankMin <= start && start + length - 1 <= RankMax)
    ensures r.Err? ==> r.error == InvalidRank
    ensures r.Ok? ==> r.value.color == color && r.value.start == start && |r.value.jokers| == length
    ensures r.Ok? ==> forall i :: 0 <= i < length ==> (r.value.jokers[i] <==> i in jokerIndices)
  {
    if length > 0 && (start < RankMin || start + length - 1 > RankMax) then Err(InvalidRank)
    else Ok(Run(color, start, seq(length, i requires 0 <= i < length => i in jokerIndices)))
  }

  /** Runs are equal iff colour, start and flags agree: a joker flag makes a run different. */
  lemma RunJokerFlagMatters(color: Color, start: int, i: nat)
    requires RankMin <= start && start + RunMin - 1 <= RankMax && i < RunMin
    ensures RunOf(color, start, RunMin, [i]) != RunOf(color, start, RunMin, [])
  {
    assert !RunOf(color, start, RunMin, []).value.jokers[i];
    assert RunOf(color, start, RunMin, [i]).value.jokers[i];
  }

  /** A run may end at the ace: JACK..ACE is a valid run. */
  lemma RunEndsAtAce(color: Color)
    ensures RunOf(color, Jack, RunMin, []).Ok?
    ensures RunCards(RunOf(color, Jack, RunMin, []).value)[RunMin - 1] == Natural(Ace, color)
    ensures RunOf(color, Queen, RunMin, []).Err?
  {
  }

  /**
   * `Run.extend(card)`: a run grows by the card of its colour one rank above its last card
   * (a materialized joker adds a flagged position); any other card raises InvalidExtend.
   */
  function RunExtend(r: Run, c: Card): Result<Run, Error>
  {
    if !c.Joker? && c.color == r.color && c.rank == r.start + |r.jokers| then
      Ok(Run(r.color, r.start, r.jokers + [c.Wild?]))
    else
      Err(InvalidExtend)
  }

  /** Extending appends the card to the run's cards, and only the next card of the colour fits. */
  lemma RunExtendMeaning(r: Run, c: Card)
    requires RunInRange(r)
    ensures RunExtend(r, c).Ok? <==> ColorOf(c) == Some(r.color) && RankOf(c) == Some(r.start + |r.jokers|)
    ensures RunExtend(r, c).Err? ==> RunExtend(r, c).error == InvalidExtend
    ensures RunExtend(r, c).Ok? ==>
      RunInRange(RunExtend(r, c).value) && RunCards(RunExtend(r, c).value) == RunCards(r) + [c]
  {
    if RunExtend(r, c).Ok? {
      var e := RunExtend(r, c).value;
      assert RunCards(e)[|r.jokers|] == c;
      assert forall i :: 0 <= i < |r.jokers| ==> RunCards(e)[i] == RunCards(r)[i];
    }
  }

  /** The 2..5 run of hearts takes the six of hearts, but neither the seven nor the six of spades. */
  lemma RunExtendCases()
    ensures RunExtend(RunOf(Heart, 2, 4, []).value, Natural(6, Heart)) == RunOf(Heart, 2, 5, [])
    ensures RunExtend(RunOf(Heart, 2, 4, []).value, Natural(7, Heart)) == Err(InvalidExtend)
    ensures RunExtend(RunOf(Heart, 2, 4, []).value, Natural(6, Spade)) == Err(InvalidExtend)
  {
    assert RunOf(Heart, 2, 4, []).value.jokers + [false] == RunOf(Heart, 2, 5, []).value.jokers;
  }

  // ---------------------------------------------------------------------------
  // Sets
  // ---------------------------------------------------------------------------

  /** `Set.MIN`. */
  const SetMin := 3

  /** A set: a rank and one colour per member, `None` for a joker. */
  datatype Set = Set(rank: Rank, colors: seq<Option<Color>>)

  /** Validates each non-`None` colour code in order. */
  function ValidateColors(codes: seq<Option<int>>): (r: Result<seq<Option<Color>>, Error>)
    ensures r.Ok? <==> forall i :: 0 <= i < |codes| && codes[i].Some? ==> 1 <= codes[i].value <= 4
    ensures r.Err? ==> r.error == InvalidColor
    ensures r.Ok? ==> |r.value| == |codes|
    ensures r.Ok? ==> forall i :: 0 <= i < |codes| ==>
      (r.value[i].None? <==> codes[i].None?) && (codes[i].Some? ==> r.value[i].value.Code() == codes[i].value)
    decreases |codes|
  {
    if codes == [] then Ok([])
    else
      var head: Result<Option<Color>, Error> :=
        if codes[0].None? then Ok(None)
        else match ColorValidate(codes[0].value) case Ok(c) => Ok(Some(c)) case Err(e) => Err(e);
      match head
      case Err(e) => Err(e)
      case Ok(h) =>
        match ValidateColors(codes[1..])
        case Err(e) =>
          assert exists i :: 1 <= i < |codes| && codes[i].Some? && !(1 <= codes[i].value <= 4) by {
            var k :| 0 <= k < |codes[1..]| && codes[1..][k].Some? && !(1 <= codes[1..][k].value <= 4);
            assert codes[k + 1] == codes[1..][k];
          }
          Err(e)
        case Ok(t) =>
          assert forall i :: 1 <= i < |codes| ==> codes[i] == codes[1..][i - 1];
          Ok([h] + t)
  }

  /**
   * `Set(rank, colors)`: validates every non-`None` colour, then the rank
   * (liverpool/common.py:116-117), so a bad colour is reported first.
   */
  function SetNew(rank: int, codes: seq<Option<int>>): (r: Result<Set, Error>)
    ensures r.Ok? <==> ValidateColors(codes).Ok? && RankValidate(rank).Ok?
    ensures ValidateColors(codes).Err? ==> r == Err(InvalidColor)
    ensures r.Ok? ==> r.value.rank == rank && r.value.colors == ValidateColors(codes).value
  {
    match ValidateColors(codes)
    case Err(e) => Err(e)
    case Ok(colors) =>
      match RankValidate(rank)
      case Err(e) => Err(e)
      case Ok(rk) => Ok(Set(rk, colors))
  }

  /** `Set.of(rank, colors)`: the cards of a set, each `None` a joker materialized as a spade. */
  function SetCards(s: Set): (cs: seq<Card>)
    ensures |cs| == |s.colors|
    ensures forall i :: 0 <= i < |cs| ==> RankOf(cs[i]) == Some(s.rank)
    ensures forall i :: 0 <= i < |cs| ==>
      cs[i] == (if s.colors[i].None? then Wild(s.rank, Spade) else Natural(s.rank, s.colors[i].value))
  {
    seq(|s.colors|, i requires 0 <= i < |s.colors| =>
      if s.colors[i].None? then Wild(s.rank, Spade) else Natural(s.rank, s.colors[i].value))
  }

  /** A set with a joker differs from the all-real set with the same colours elsewhere. */
  lemma SetJokerMatters(s: Set, i: nat)
    requires i < |s.colors| && s.colors[i].Some?
    ensures Set(s.rank, s.colors[i := None]) != s
    ensures SetCards(Set(s.rank, s.colors[i := None])) != SetCards(s)
  {
    assert SetCards(Set(s.rank, s.colors[i := None]))[i] != SetCards(s)[i];
  }

  /**
   * `Set.extend(card)`: a set grows by any card of its rank (a materialized joker adds a wild
   * slot); a card of another rank, or the generic joker, raises InvalidExtend.
   */
  function SetExtend(s: Set, c: Card): Result<Set, Error>
  {
    if !c.Joker? && c.rank == s.rank then
      Ok(Set(s.rank, s.colors + [if c.Wild? then None else Some(c.color)]))
    else
      Err(InvalidExtend)
  }

  /** A set takes exactly the cards of its rank, each as one more member. */
  lemma SetExtendMeaning(s: Set, c: Card)
    ensures SetExtend(s, c).Ok? <==> RankOf(c) == Some(s.rank)
    ensures SetExtend(s, c).Err? ==> SetExtend(s, c).error == InvalidExtend
    ensures SetExtend(s, c).Ok? ==> SetExtend(s, c).value.rank == s.rank && |SetExtend(s, c).value.colors| == |s.colors| + 1
    ensures SetExtend(s, c).Ok? && c.Natural? ==> SetCards(SetExtend(s, c).value) == SetCards(s) + [c]
  {
    if SetExtend(s, c).Ok? && c.Natural? {
      var e := SetExtend(s, c).value;
      assert SetCards(e)[|s.colors|] == c;
      assert forall i :: 0 <= i < |s.colors| ==> SetCards(e)[i] == SetCards(s)[i];
    }
  }

  // ---------------------------------------------------------------------------
  // Melds and updates
  // ---------------------------------------------------------------------------

  /** `Objective(num_sets, num_runs)`. */
  datatype Objective = Objective(numSets: nat, numRuns: nat)

  /** A meld: its sets and its runs. A missing side (`None` in the source) is empty. */
  datatype Meld = Meld(sets: seq<Set>, runs: seq<Run>)

  /** Cards added to a set on the table. */
  datatype Add = Add(cards: seq<Card>)

  /** Cards added below and above a run on the table. */
  datatype Extend = Extend(left: seq<Card>, right: seq<Card>)

  function AddLength(a: Add): nat
  {
    |a.cards|
  }

  function ExtendLength(e: Extend): nat
  {
    |e.left| + |e.right|
  }

  function ExtendCards(e: Extend): seq<Card>
  {
    e.left + e.right
  }

  /** The updates to one player's meld: adds keyed by set index, extends keyed by run index. */
  datatype MeldUpdate = MeldUpdate(adds: map<int, Add>, runExtends: map<int, Extend>)
}
