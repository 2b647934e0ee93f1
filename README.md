# liverpool move generation, modelled in Dafny

This project models the move-generation core of *liverpool*, a contract-rummy engine. A
player must lay down a *meld* that meets the round's *objective*: a number of *sets* (three
or more cards of one rank) and a number of *runs* (four or more consecutive ranks of one
colour). Jokers are wild. The model covers these parts:

- **Card values** (`common.dfy`, module `Common`). These are colours, ranks, cards (real
  cards, the generic joker and materialized jokers), runs, sets, and the meld and update
  records.
- **The transactional hand** (`hand.dfy`, module `Hands`). It holds a multiset of cards and
  a joker counter. Its undo stack uses `None` transaction markers. `take_card` falls back to
  a joker. `rollback`, `undo`, `commit` and `truncate` manage transactions. The class
  `Hands.Hand` keeps these fields, and its methods change them in place.
- **The index structures** (`indexes.dfy` and `indexed_hand.dfy`). A `Setdex` packs four
  2-bit colour counters into one integer. A `Rundex` is a count array over the ranks, with a
  13-bit presence vector. An `IndexedHand` keeps fifteen Setdexen and four Rundexen in step
  with its hand on every put and take, including those that `rollback` replays.
- **The enumerators** (`combinatorics.dfy`, `lex.dfy`, `enumeration.dfy`, `luts.dfy`).
  These are `uniq`, `sort_uniq`, `unique_combinations`, `interleave`, `ranks_from_rundex`
  and `sets_from_colors`. The precomputed set and run tables are also here.
- **The searches** (`melds.dfy`, `iter_melds.dfy`, `updates.dfy`, `multi_updates.dfy`).
  These are `iter_sets`, `iter_runs` and their table-driven variants, `take_committed`,
  `iter_melds`, `iter_adds`, `extend_from`, `iter_extends` and `iter_updates_multi`.
- **The consumers** (`algorithms.dfy` and `listeners.dfy`). These are the card-ranking
  helpers, `find_useful_cards`, and the player, dealer and game listeners that track cards.

**Modelling conventions**

- Generators become methods that return the whole sequence they would yield. Each such
  method is proved equal to a specification function. The order of the yielded values is
  kept, because `uniq` only drops adjacent repeats.
- Exceptions are `Result` values. `Common.Error` has one constructor per exception class.
- Colours are numbered 1..4 for `Color.validate`. They are numbered 0..3 for the Setdex bit
  fields, as its docstring says.

**Where the code disagrees with the rest of the repository**

- The `common.py` in this repository predates `generation.py` and the tests. The model
  follows what `generation.py` and the tests use:
  - `Card.of(rank, color, joker)`, which can make a materialized joker;
  - `Run.MIN = 4` and `Set.MIN = 3`;
  - `Set.of`, which materializes a wild slot as a spade;
  - `Run.extend` and `Set.extend`, as the tests describe them.
- Card equality therefore compares the joker flag too.
- `iter_runs` passes the flag tuple to `Run.of` positionally. The model builds the run
  `(color, start, flags)` that this evidently means.

## Model

| member | source | states |
|---|---|---|
| Combinatorics.Uniq | liverpool/combinatorics.py:4-10 | The loop over the input, carrying `last`, yields exactly the specification `UniqOf` (the value yielded last is compared with each new value). |
| Combinatorics.UniqNoAdjacentRepeats | liverpool/combinatorics.py:4-10 | `uniq` never yields two equal values in a row. |
| Combinatorics.UniqIsSubseq | liverpool/combinatorics.py:4-10 | What `uniq` yields is an order-preserving subsequence of its input. |
| Combinatorics.UniqMembers | liverpool/combinatorics.py:4-10 | A value is yielded exactly when it occurs in the input (no `None` occurs in the model). |
| Combinatorics.UniqIdempotent | liverpool/combinatorics.py:4-10 | `uniq(uniq(xs)) == uniq(xs)`. |
| Combinatorics.UniqOfSortedIsStrict | liverpool/combinatorics.py:4-10 | On input sorted by a key that tells its values apart, `uniq` yields a strictly increasing, hence repeat-free, sequence. |
| Combinatorics.SortByProps | liverpool/combinatorics.py:13-14 | The stable sort that `sort_uniq` applies is a permutation of its input and is sorted by the key. |
| Combinatorics.SortUniqProps | liverpool/combinatorics.py:13-14 | `sort_uniq` holds exactly the input's values, and it is strictly sorted (sorted and repeat-free) when the key tells the values apart. |
| Combinatorics.SortUniqOfSameValues | liverpool/combinatorics.py:13-14 | `sort_uniq` depends only on the set of input values, not on their order or multiplicity. |
| Combinatorics.StrictlySortedUnique | liverpool/combinatorics.py:13-14 | Two strictly sorted sequences with the same values are equal, so the sorted, de-duplicated output is unique. |
| Combinatorics.CombinationsMembers | liverpool/combinatorics.py:17-18 | The combinations of length n are exactly the order-preserving subsequences of length n. |
| Combinatorics.UniqueCombinationsMembers | liverpool/combinatorics.py:17-18 | `unique_combinations` yields every length-n order-preserving subsequence and nothing else, and drops only adjacent repeats. |
| Combinatorics.ConcatMapMember | liverpool/generation.py:209-219 | A nested loop that appends what each pass yields yields a value exactly when some pass does. |
| Lex.LexLeTransitive | liverpool/combinatorics.py:13-14 | Python's order on integer tuples, which the sorts use, is transitive. |
| Lex.LexLeAntisymmetric | liverpool/combinatorics.py:13-14 | Two tuples that are each at most the other are equal. |
| Lex.LexLeTotal | liverpool/combinatorics.py:13-14 | Any two integer tuples are comparable. |
| Common.ColorValidate | liverpool/common.py:17-21 | Succeeds exactly for the codes 1..4 and returns the colour with that code; otherwise InvalidColor. |
| Common.ColorIterProps | liverpool/common.py:27-29 | `Color.iter` lists all four colours once, in increasing code order (CLUB, SPADE, HEART, DIAMOND). |
| Common.RankValidate | liverpool/common.py:49-53 | Accepts exactly 2..14 and returns its argument; otherwise InvalidRank. |
| Common.RankIterProps | liverpool/common.py:59-61 | `Rank.iter` is 2..14 ascending: exactly the ranks `Rank.validate` accepts. |
| Common.CardOf | liverpool/common.py:67-69 | Validates the colour first, then the rank. On success the card has that rank and colour, and it is a materialized joker exactly when asked for. |
| Common.Dematerialized | liverpool/generation.py:438 | A materialized joker becomes the generic joker; a real card stays itself. |
| Common.AsCommon | liverpool/algorithms.py:66 | A materialized joker becomes the real card of its rank and colour; a real card stays itself. |
| Common.IterRank | liverpool/common.py:71-76 | Fails exactly for the generic joker (the colour assertion). Otherwise it yields cards of the card's colour, ranks from its own up to the ace. |
| Common.IterRankProps | liverpool/common.py:71-76 | The cards start at the card's own rank, end at the ace, and ascend by one. |
| Common.RunCards | tests/test_common.py:67-89 | A run's cards have consecutive ranks from `start` in its colour, and a card is a joker exactly where the run flags one. |
| Common.RunOf | tests/test_common.py:46-65 | Succeeds exactly when every rank lies in 2..14, so a run may end at the ace. The flags are set exactly at the given joker indices. |
| Common.RunJokerFlagMatters | liverpool/common.py:104-107 | A run with a joker flag differs from the all-real run with the same start. |
| Common.RunEndsAtAce | tests/test_common.py:83-89 | JACK..ACE is a valid run ending with the real ace; QUEEN with length 4 would pass the ace and fails. |
| Common.RunExtendMeaning | tests/test_common.py:134-148 | `Run.extend` accepts exactly the card of the run's colour one rank above its end and appends it to the run's cards; anything else is InvalidExtend. |
| Common.RunExtendCases | tests/test_common.py:134-148 | The 2..5 heart run takes the six of hearts and refuses the seven of hearts and the six of spades. |
| Common.ValidateColors | liverpool/common.py:116 | Succeeds exactly when every non-`None` code is 1..4, keeping `None` slots and mapping each code to its colour. |
| Common.SetNew | liverpool/common.py:113-117 | Validates every colour before the rank, so a bad colour is reported first. On success the set has that rank and those colours. |
| Common.SetCards | liverpool/generation.py:360-364 | `Set.of`: every member has the set's rank, and a `None` slot is a joker materialized as a spade. |
| Common.SetJokerMatters | liverpool/common.py:122-125 | A set with a joker in some slot differs from the set with a real colour there, both as a value and as cards. |
| Common.SetExtendMeaning | tests/test_common.py:185-198 | `Set.extend` accepts exactly the cards of the set's rank, each as one more member; another rank is InvalidExtend. |
| Hands.PutOne | liverpool/hand.py:67-75 | Putting the generic joker raises only the joker counter; any other card raises only its own count. |
| Hands.PutAllContents | liverpool/hand.py:77-79 | Putting a sequence of cards adds its real cards to the counts and its jokers to the counter. |
| Hands.PutAllSize | liverpool/hand.py:67-75 | Each put raises the hand's size (counts plus jokers) by one. |
| Hands.PutAllFromEmpty | liverpool/hand.py:22-28 | Putting cards into an empty hand holds exactly those cards, as the constructor does. |
| Hands.TakeAll | liverpool/hand.py:81-83 | A joint take that succeeds takes one card per requested card, and a failing one takes fewer. |
| Hands.TakeOne | liverpool/hand.py:52-65 | Takes the card itself when it is held; otherwise, and for the generic joker, a joker; InvalidTake when neither is available. Returns the card actually taken. |
| Hands.TakeOneSize | liverpool/hand.py:52-65 | A successful take lowers the size by exactly one and returns a card the hand held. |
| Hands.TakeAllSize | liverpool/hand.py:81-83 | Each card actually taken lowers the size by one. |
| Hands.TakeAllClosedForm | liverpool/hand.py:81-83 | A joint take succeeds exactly when the jokers cover every requested card the hand lacks. It then removes the requested real cards and that many jokers, whatever the order of the cards. |
| Hands.TakeAllThenPutBack | liverpool/hand.py:40-42 | Putting back the cards actually taken, most recent first, restores the counts. This is the fact that `rollback` relies on. |
| Hands.Hand.constructor | liverpool/hand.py:22-28 | The hand holds exactly the initial cards, its stack is `[None, None]`, and nothing is pending. |
| Hands.Hand.PutCard | liverpool/hand.py:67-75 | The counts become `PutOne` of the old ones; the stack is unchanged. |
| Hands.Hand.TakeCard | liverpool/hand.py:52-65 | On success the counts are those of `TakeOne` and the card actually taken is pushed. On InvalidTake the counts and the stack are unchanged. |
| Hands.Hand.Commit | liverpool/hand.py:37-38 | Pushes a marker; the counts are unchanged and nothing is pending afterwards. |
| Hands.Hand.Rollback | liverpool/hand.py:40-42 | Puts back every card taken since the most recent marker. The counts return to their value at that marker, and the marker is on top afterwards. |
| Hands.Hand.Undo | liverpool/hand.py:44-47 | Raises AssertionError with at most the bottom marker on the stack, or after popping a top that is not a marker. Otherwise it pops the marker and rolls back the previous transaction. |
| Hands.Hand.PopPending | liverpool/hand.py:41-42 | Pops a pending take. Putting it back before the rest of the pending takes restores the counts at the marker. |
| Hands.Hand.Truncate | liverpool/hand.py:49-50 | The stack becomes `[None]`; the counts are unchanged. |
| Hands.Hand.PutCombo | liverpool/hand.py:77-79 | The counts become those after putting every card in order. |
| Hands.Hand.TakeCombo | liverpool/hand.py:81-83 | Takes the cards in order until one fails. The earlier takes stay on the stack, so a later rollback restores the counts. |
| Hands.Hand.Iter | liverpool/hand.py:30-35 | Yields every held card as often as it is held, with the jokers last. |
| Hands.Enumerate | liverpool/hand.py:31-33 | Lists every element of the counter as often as it occurs. |
| Indexes.Unpack | liverpool/generation.py:91-98 | Every Setdex value is its four 2-bit colour counters plus the bits above them. |
| Indexes.Packed | liverpool/generation.py:91-98 | Counters below 4, packed into their fields, read back unchanged. |
| Indexes.AppendFields | liverpool/generation.py:81-84 | Appending a colour whose counter is below 3 raises that counter by one and no other. |
| Indexes.RemoveFields | liverpool/generation.py:86-89 | Removing a colour whose counter is positive lowers that counter by one and no other. |
| Indexes.ColorsOfCounts | liverpool/generation.py:91-98 | Iterating a Setdex yields each colour exactly as often as its counter says. |
| Indexes.ColorsOfSorted | liverpool/generation.py:91-98 | Iterating a Setdex yields the colours in ascending order. |
| Indexes.AppendColors | liverpool/generation.py:81-84 | While the counter is below 3, appending a colour adds one copy of it to the iteration. |
| Indexes.RemoveColors | liverpool/generation.py:86-89 | Removing a present colour drops one copy of it from the iteration. |
| Indexes.SetdexValueDecodes | tests/test_generation.py:12-27 | A Setdex's value depends only on the multiset of colours appended, not their order, and it decodes back to that multiset. |
| Indexes.Setdex.constructor | liverpool/generation.py:77-79 | `count` is the length of the iteration of the given value. |
| Indexes.Setdex.Append | liverpool/generation.py:81-84 | Adds the colour's field unit to `value`, without a bounds check, and raises `count` by one. |
| Indexes.Setdex.Remove | liverpool/generation.py:86-89 | Subtracts the colour's field unit from `value`, without a bounds check, and lowers `count` by one. |
| Indexes.AllSetdexValues | liverpool/generation.py:72-75 | `iter_all` lists every value 0..255 of the four counters, in order. |
| Indexes.CopiesFromCount | liverpool/generation.py:124-128 | Iterating a Rundex yields each rank exactly as often as it is counted. |
| Indexes.CopiesFromSorted | liverpool/generation.py:124-128 | Iterating a Rundex yields the ranks in ascending order. |
| Indexes.RanksFrom | liverpool/generation.py:130-133 | `iter_ranks` yields exactly the ranks with a positive count, strictly ascending. |
| Indexes.VectorExtensional | liverpool/generation.py:135-140 | A vector in the table's range is determined by the ranks it holds. |
| Indexes.Rundex.constructor | liverpool/generation.py:114-115 | A fresh Rundex counts 0 for every index. |
| Indexes.Rundex.Add | liverpool/generation.py:117-118 | One more card of that rank; no other count changes. |
| Indexes.Rundex.Remove | liverpool/generation.py:120-122 | One card fewer of that rank. A count of 0 raises ValueError and stays unchanged, so counts never go negative. |
| Indexes.Rundex.ToVector | liverpool/generation.py:135-140 | The vector has bit `rank - 2` set exactly for the ranks held and lies in `range(2 ** 13)`. |
| Indexes.VectorCounts | liverpool/generation.py:104-112 | The counts `from_vector` evidently means to build: one card of each rank whose bit is set. |
| Indexes.FromVector | liverpool/generation.py:104-112 | The corrected `from_vector`: a fresh Rundex holding one card of each rank whose bit is set. |
| Indexes.VectorRoundTrip | liverpool/generation.py:104-140 | `to_vector(from_vector(v)) == v` for every vector of the run table. |
| Indexes.CountsRoundTrip | liverpool/generation.py:104-140 | `from_vector(to_vector(rd))` holds one card of each rank that `rd` holds. |
| Indexes.RanksFromPositive | liverpool/generation.py:130-133 | `iter_ranks` depends only on which counts are positive. |
| Indexes.VectorRanks | liverpool/generation.py:104-112 | The ranks listed for a vector are exactly those whose bit is set. |
| IndexedHands.SetdexColorsExact | liverpool/generation.py:164-169 | While no colour of a rank is held four times, that rank's Setdex iterates over exactly the hand's cards of that rank. |
| IndexedHands.SetdexAfterAdd | liverpool/generation.py:164-169 | Putting a real card moves only its own rank's Setdex, by its colour's field. |
| IndexedHands.SetdexAfterRemove | liverpool/generation.py:157-162 | Taking a held real card moves its rank's Setdex back by its colour's field. |
| IndexedHands.NewIndices | liverpool/generation.py:148-150 | The empty indices agree with an empty hand. |
| IndexedHands.IndexedHand.constructor | liverpool/generation.py:148-151 | The hand holds exactly the initial cards, and every Setdex and Rundex agrees with them. |
| IndexedHands.IndexedHand.PutCard | liverpool/generation.py:164-169 | The hand's put, after which a real card is also in its Rundex and its Setdex; the indices stay in step. |
| IndexedHands.IndexedHand.IndexPut | liverpool/generation.py:166-169 | A real card put joins its colour's Rundex and its rank's Setdex, and the indices agree with the new hand. |
| IndexedHands.IndexedHand.IndexedWithWild | liverpool/generation.py:166 | A materialized joker is not indexed, so putting it keeps the indices in step. |
| IndexedHands.IndexedHand.TakeCard | liverpool/generation.py:157-162 | The hand's take, after which a real card taken also leaves its Rundex and Setdex. A joker taken leaves them alone. InvalidTake changes nothing. |
| IndexedHands.IndexedHand.IndexTake | liverpool/generation.py:159-162 | A real card taken leaves its Rundex and its Setdex, and the indices agree with the new hand. |
| IndexedHands.IndexedHand.TakeNext | liverpool/hand.py:81-83 | One step of `take_combo`: either the joint take goes on, or it stops with exactly the cards taken so far on the stack. |
| IndexedHands.IndexedHand.Rollback | liverpool/hand.py:40-42 | Replays the pending puts through the indexed `put_card`, so the counts and the indices return to the marker. |
| IndexedHands.IndexedHand.Undo | liverpool/hand.py:44-47 | The hand's checks, then the indexed rollback of the previous transaction. |
| IndexedHands.IndexedHand.Commit | liverpool/hand.py:37-38 | Pushes a marker and keeps the counts and indices. |
| IndexedHands.IndexedHand.PutCombo | liverpool/hand.py:77-79 | The indexed put of every card, in order. |
| IndexedHands.IndexedHand.TakeCombo | liverpool/hand.py:81-83 | The indexed take of each card until one fails, with the same counts and stack as the plain hand. |
| IndexedHands.IndexedHand.IterColor | liverpool/generation.py:153-155 | Yields the real cards of one colour, read from its Rundex, each as often as the hand holds it. |
| Enumeration.MinMaxBound | liverpool/generation.py:174-179 | `min` and `max` of a non-empty vector are elements, below and above every element. |
| Enumeration.InterleaveMeaning | liverpool/generation.py:172-187 | `interleave` succeeds exactly when the card and joker ranks are disjoint and together fill an interval. It then returns that interval's start, flagging exactly the joker ranks. Every failure is a ValueError. |
| Enumeration.InterleaveFails | liverpool/generation.py:181-185 | A rank of the range that is in both vectors, or in neither, makes `interleave` fail. |
| Enumeration.InterleaveSucceeds | liverpool/generation.py:180-187 | With every rank of the range in exactly one vector, `interleave` returns the flags. |
| Enumeration.Interleave | liverpool/generation.py:172-187 | The loop from the smallest to the largest rank computes exactly the specification `InterleaveOf`. |
| Enumeration.RanksFromRundex | liverpool/generation.py:198-220 | The four nested loops, then `sort_uniq`. The result lists exactly the runs the Rundex's counts support, sorted and without repeats. |
| Enumeration.RunsFromRanksMeaning | liverpool/generation.py:198-220 | `ranks_from_rundex` lists exactly the runs of at least Run.MIN ranks within 2..14 whose real ranks are held and that use at most `min(3, jokers)` jokers. The list is sorted and without repeats. |
| Enumeration.RundexRunsMeaning | liverpool/generation.py:198-220 | The same, stated on the Rundex's counts. |
| Enumeration.JokerCounts | liverpool/generation.py:209 | `range(total_jokers + 1)`: every joker count from 0 up to the cap. |
| Enumeration.CandidatesMeaning | liverpool/generation.py:209-220 | After `sort_uniq`, the candidates are exactly the fitting runs, strictly sorted. |
| Enumeration.CandidateFits | liverpool/generation.py:209-219 | Every run the loops append is a run of held ranks with at most `min(3, jokers)` jokers. |
| Enumeration.FitsCandidate | liverpool/generation.py:209-219 | Every such run is appended by some pass of the loops. |
| Enumeration.SpanKeyDetermines | liverpool/generation.py:220 | The sort key `(start, flags)` tells runs apart. |
| Enumeration.SetsFromColorsMeaning | liverpool/generation.py:227-234 | `sets_from_colors` lists exactly the order-preserving selections of at least `min_size` slots from the jokers' wild slots followed by the colours. The list is sorted with wild slots first and has no repeats. |
| Enumeration.SetsFromColorsBounds | liverpool/generation.py:227-234 | Every listed set has between `min_size` and `jokers + len(colors)` slots, at most `jokers` of them wild, and no colour more often than `colors` holds it. |
| Enumeration.Jokered | liverpool/generation.py:231 | One wild slot per joker, then the colours in order. |
| Enumeration.FiveKeysSorted | tests/test_generation.py:29-38 | The five sets of three colours and a joker are strictly sorted by the set key. |
| Enumeration.SetKeyDetermines | liverpool/generation.py:223-224 | `orderable_colors_with_none` tells colour tuples apart. |
| Enumeration.ThreeColorsNoJoker | tests/test_generation.py:12-27 | Three distinct colours and no joker make exactly one set. |
| Enumeration.ThreeColorsOneJoker | tests/test_generation.py:29-38 | Three distinct colours and one joker make exactly five sets, listed in this order. |
| Luts.Tables.constructor | liverpool/generation.py:260-267 | Both tables start empty. |
| Luts.BuildSetTable | liverpool/generation.py:276-278 | The set table for `j` jokers has one entry per Setdex value 0..255, listing `sets_from_colors` of its colours. |
| Luts.BuildRunTable | liverpool/generation.py:284-287 | The run table for `j` jokers has one entry per vector 0..8191, listing `ranks_from_rundex` of the corrected `from_vector`. |
| Luts.Tables.Precompute | liverpool/generation.py:270-288 | With the corrected `from_vector`, rebuilds both tables for every joker count from 0 up to each maximum and keeps every other entry. |
| Luts.Tables.FillSets | liverpool/generation.py:273-278 | The first loop of `precompute_luts`. |
| Luts.Tables.FillRuns | liverpool/generation.py:281-287 | The second loop of `precompute_luts`. |
| Luts.Tables.MaybePrecompute | liverpool/generation.py:313-319 | When either table is empty, both are built for 0..3 jokers with the corrected `from_vector`; otherwise nothing changes. |
| Luts.RunTableMeaning | liverpool/generation.py:284-287 | Each run table entry lists exactly the runs its vector's ranks support, sorted and without repeats. |
| Luts.SetTableMeaning | liverpool/generation.py:276-278 | Each set table entry lists exactly the colour tuples of at least three slots that keep the value's colours in order after `j` leading wild slots, sorted and without repeats. |
| Luts.FromVectorYields | liverpool/generation.py:104-112 | As written, `from_vector` is a generator that yields only zeros. |
| Luts.FromVectorYieldsCount | liverpool/generation.py:104-112 | As written, it yields exactly one 0 per index below Rank.MIN. |
| Luts.FromVectorLosesRanks | liverpool/generation.py:104-112 | As written, the generators for vectors 0 and 1 yield the same two zeros, although the intended Rundexen differ. |
| Melds.TakeCommitted | liverpool/generation.py:246-257 | Answers whether all the combos could be taken in turn. On failure, or when not committing, the hand returns to its state at the last marker; when committing, the takes stay and a marker is pushed. |
| Melds.TakeCombos | liverpool/generation.py:248-249 | `take_combo` for each combo until one fails, with the counts and stack of the joint take. |
| Melds.TakeAllAppend | liverpool/generation.py:248-249 | Taking `a + b` is taking `a` and then, if that succeeded, taking `b` from what is left. |
| Melds.TakeCommittedMeaning | liverpool/generation.py:246-257 | On a hand with nothing pending, the answer is whether the hand supplies all the combos' cards together, each missing card taking a joker. |
| Melds.SetsOfRank | liverpool/generation.py:348-349 | One `Set.of(rank, combination)` per combination, in order. |
| Melds.IterSets | liverpool/generation.py:342-349 | Yields exactly the sets `HandSets` lists, Setdex by Setdex from rank 2. |
| Melds.HandSetsDistinct | liverpool/generation.py:342-349 | `iter_sets` lists no set twice. |
| Melds.HandSetsMeaning | liverpool/generation.py:342-349 | A set is listed exactly when its colours are at least three slots of its rank's Setdex colours after up to `min(3, jokers)` leading wild slots, kept in order. |
| Melds.IterSetsLut | liverpool/generation.py:352-360 | Calls `maybe_precompute` first. Raises KeyError when a Setdex value is not a table key; otherwise yields exactly what `iter_sets` yields. |
| Melds.SetsFromTable | liverpool/generation.py:356-360 | Reading the set table gives KeyError exactly for a missing key, and otherwise the sets of `iter_sets`. |
| Melds.RunsOfColor | liverpool/generation.py:326-328 | One run per `(start, flags)`, in the given colour and order. |
| Melds.IterRuns | liverpool/generation.py:322-328 | Yields exactly the runs `HandRuns` lists, colour by colour. |
| Melds.HandRunsDistinct | liverpool/generation.py:322-328 | `iter_runs` lists no run twice. |
| Melds.HandRunsMeaning | liverpool/generation.py:322-328 | A run is listed exactly when it fits the hand: at least Run.MIN long, within 2..14, every unflagged rank held in its colour, and at most `min(3, jokers)` flags. |
| Melds.RunLutEntry | liverpool/generation.py:336-337 | The run table's entry for a Rundex's vector lists what `ranks_from_rundex` lists for that Rundex. |
| Melds.RundexHolds | liverpool/generation.py:164-169 | The Rundex of a colour holds exactly the counts of that colour's real cards in the hand. |
| Melds.IterRunsLut | liverpool/generation.py:331-339 | Calls `maybe_precompute` first. KeyError when the table for `min(jokers, 3)` is missing; otherwise yields exactly what `iter_runs` yields. |
| Melds.RunsFromTable | liverpool/generation.py:335-339 | Reading the run table gives the runs of `iter_runs`. |
| MeldSearch.SetCombos | liverpool/generation.py:372 | The cards of each set, in order. |
| MeldSearch.RunCombos | liverpool/generation.py:376 | The cards of each run, in order. |
| MeldSearch.HandRunsInRange | liverpool/generation.py:322-328 | Every run `iter_runs` yields lies within 2..14. |
| MeldSearch.IterMelds | liverpool/generation.py:367-384 | Yields exactly `MeldsOf(hand, objective)` and leaves the hand's counts and stack as it found them. |
| MeldSearch.SetBranch | liverpool/generation.py:370-373 | The branch for no runs. |
| MeldSearch.RunBranch | liverpool/generation.py:374-377 | The branch for runs and no sets. |
| MeldSearch.MixedBranch | liverpool/generation.py:378-384 | The branch for both sets and runs. |
| MeldSearch.MixedStep | liverpool/generation.py:380-384 | Commits the sets, lists the runs of what is left, keeps the choices of runs the hand can still supply, then `undo` restores the hand. |
| MeldSearch.MeldsOfMeaning | liverpool/generation.py:367-384 | A meld is yielded exactly when it has the objective's numbers of sets and runs, its sets are drawn in order from `iter_sets`, the hand supplies them, its runs are drawn in order from `iter_runs` of what the sets leave, and that remainder supplies them. |
| MeldSearch.MeldsOfProps | liverpool/generation.py:367-384 | Every meld yielded has the objective's numbers of sets and runs, its sets drawn in order from `iter_sets` and its runs from `iter_runs` of what the sets leave, and the hand supplies all their cards together. |
| MeldSearch.MeldsOfComplete | liverpool/generation.py:367-384 | Every meld the hand can supply in that way is yielded. |
| MeldSearch.SetMeldsComplete | liverpool/generation.py:370-373 | With no runs, every choice of sets the hand supplies is yielded. |
| MeldSearch.RunMeldsComplete | liverpool/generation.py:374-377 | With runs and no sets, every choice of runs the hand supplies is yielded. |
| MeldSearch.MixedMeldsComplete | liverpool/generation.py:378-384 | With both, every choice of sets the hand supplies, completed by every choice of runs of what they leave that the rest supplies, is yielded. |
| MeldSearch.MeldsOfDistinct | tests/test_generation.py:41-63 | `iter_melds` yields no meld twice, for every hand and objective. |
| MeldSearch.ChoicesDistinct | liverpool/generation.py:371 | Choosing among values none of which repeats never gives the same choice twice. |
| MeldSearch.SetMeldProps | liverpool/generation.py:370-373 | In the first branch a meld has no runs, its sets come in order from `iter_sets`, and the hand supplies them. |
| MeldSearch.RunMeldProps | liverpool/generation.py:374-377 | In the second branch a meld has no sets, its runs come in order from `iter_runs`, and the hand supplies them. |
| MeldSearch.MixedMeldProps | liverpool/generation.py:378-384 | In the third branch a meld's sets come in order from `iter_sets` and the hand supplies them, and its runs come in order from `iter_runs` of what the sets leave, which supplies them. |
| MeldSearch.ChoiceMember | liverpool/generation.py:371 | A choice has the size asked for and keeps the order of the listed values. |
| MeldSearch.ChoiceComplete | liverpool/generation.py:371 | Every order-preserving selection of the size asked for is a choice. |
| Updates.AddsOf | liverpool/generation.py:392-402 | The empty add comes first, then one add per colour tuple, every card of the set's rank. |
| Updates.IterAdds | liverpool/generation.py:392-402 | Reads the Setdex of the set's rank and yields exactly `AddsOf`. |
| Updates.AddsOfSound | liverpool/generation.py:396-402 | Every non-empty add is at least one card of the set's rank, in the Setdex's colour order, with any number of the hand's jokers in front. |
| Updates.AddsOfComplete | liverpool/generation.py:396-402 | Every such choice of colours and jokers is yielded. |
| Updates.LeftCount | liverpool/generation.py:413-414 | Counts the leading cards of `other` below `first`, and no further. |
| Updates.ExtendAround | liverpool/generation.py:416-427 | Succeeds only when the remaining cards are `run1`'s cards followed by the right part; every failure is ValueError. |
| Updates.ExtendFrom | liverpool/generation.py:405-427 | The loop that pops the cards below `run1` computes exactly `ExtendOf`. |
| Updates.PopBelow | liverpool/generation.py:412-414 | Moves exactly the leading cards below `run1`'s first card. With no first card to compare against, it raises IndexError. |
| Updates.ExtendOfSound | liverpool/generation.py:405-427 | A successful extension puts the runs back together: `run2 == left + run1 + right`, in one colour, with at least one card added. |
| Updates.ExtendOfComplete | liverpool/generation.py:405-427 | Whenever `run2` is `run1` with cards around it, `extend_from` finds exactly those cards. |
| Updates.ExtendOfErrors | liverpool/generation.py:405-427 | IndexError exactly for an empty `run1` against a non-empty `run2` of its colour. ValueError for different colours and for an empty extension. |
| Updates.BelowByPosition | liverpool/generation.py:412-414 | In a run, the cards below the card of rank `start + p` are exactly the first `p`. |
| Updates.IterColorOf | liverpool/generation.py:153-155 | `iter_color` lists what the colour's Rundex holds. |
| Updates.DematerializeAll | liverpool/generation.py:437-438 | Each run card, dematerialized. |
| Updates.IterExtends | liverpool/generation.py:430-452 | Yields exactly `ExtendsOf`: the empty extension, then each extension the searched hand's runs give. |
| Updates.NewExtendHand | liverpool/generation.py:434-441 | The new hand holds the colour's cards, the run's cards with jokers dematerialized, and all of the hand's jokers. |
| Updates.ExtendsFromRuns | liverpool/generation.py:446-452 | The loop over the runs skips those that `extend_from` rejects with ValueError. |
| Updates.ExtendsInHand | liverpool/generation.py:446-452 | The search runs through the runs `iter_runs` yields for the new hand. |
| Updates.ExtendsOfSound | liverpool/generation.py:430-452 | Apart from the empty extension, every extension comes from a run of the searched hand that is `run` with at least one more card. |
| Updates.ExtendsOfErrors | liverpool/generation.py:430-452 | The empty extension comes first. The search fails only with IndexError, and only for a run without cards. |
| Updates.ExtendsOfComplete | liverpool/generation.py:430-452 | Every run of the searched hand that is `run` with cards around it yields those cards. |
| MultiUpdates.MutationCombos | liverpool/generation.py:501 | The cards each mutation takes, in order. |
| MultiUpdates.NonEmptyAdds | liverpool/generation.py:486 | Keeps exactly the non-empty adds, tagged with player and set index. |
| MultiUpdates.NonEmptyExtends | liverpool/generation.py:488-492 | Keeps exactly the non-empty extensions, tagged with player and run index. |
| MultiUpdates.CandidatesSound | liverpool/generation.py:482-494 | Every candidate changes a set or run of some player's meld by cards that `iter_adds` or `iter_extends` offers for it, and takes at least one card. |
| MultiUpdates.Candidates | liverpool/generation.py:482-494 | The loop over the players collects exactly `CandidatesOf`, adds before extensions. |
| MultiUpdates.AddLostToExtend | liverpool/generation.py:503-505 | An add to set 0 and an extension of run 0 of one player: as written, the add is dropped although its cards were taken; the corrected grouping keeps both. |
| MultiUpdates.UpdatesForPlayers | liverpool/generation.py:503-520 | The corrected grouping has an update for exactly the players the combination touches. |
| MultiUpdates.UpdatesForComplete | liverpool/generation.py:503-520 | The corrected grouping records every change of the combination under its player and index. |
| MultiUpdates.UpdatesForSound | liverpool/generation.py:503-520 | Every add and extension the corrected grouping records is a change of the combination. |
| MultiUpdates.IterUpdatesMulti | liverpool/generation.py:479-520 | Collects the candidates, then tries every combination with `take_committed(..., commit=False)`. It yields exactly `UpdatesOf`, each combination grouped by the corrected grouping, and leaves the hand as it was. |
| MultiUpdates.UpdatesFrom | liverpool/generation.py:499-520 | The two nested loops yield every combination's update under the corrected grouping, smallest combinations first. |
| MultiUpdates.UpdatesAmongSound | liverpool/generation.py:499-520 | Each update is the corrected grouping of a combination of candidates, in their order, whose cards the hand holds together. |
| MultiUpdates.UpdatesAmongComplete | liverpool/generation.py:499-520 | Every combination of candidates whose cards the hand holds together is yielded, with the corrected grouping. |
| MultiUpdates.UpdatesAsWrittenAgrees | liverpool/generation.py:503-520 | When no player has an add and an extension under the same index, the grouping as written equals the corrected one. |
| MultiUpdates.UpdatesAmongFirst | liverpool/generation.py:499-506 | The first update yielded is the empty one. |
| Algorithms.CardScoresTable | liverpool/algorithms.py:21-36 | The keys are the ranks 2..14 and `None`: 2..9 score 5, 10..king 10, the ace and the joker 15. |
| Algorithms.Score | liverpool/algorithms.py:42 | Every card's score is 5, 10 or 15, and the joker and the aces score 15. |
| Algorithms.FirstBest | liverpool/algorithms.py:46 | The item a stable reverse sort puts first: no key exceeds it, and every earlier item's key is below it. |
| Algorithms.LeastUseful | liverpool/algorithms.py:45-46 | IndexError exactly for an empty dictionary. |
| Algorithms.LeastUsefulMeaning | liverpool/algorithms.py:39-46 | The card picked has the fewest uses, the highest score among those, and every earlier item has more uses or a lower score. |
| Algorithms.MissingUtility | liverpool/algorithms.py:15-18 | The smallest distance and the negated count at it. IndexError for an empty distance map. |
| Algorithms.CreditOne | liverpool/algorithms.py:66 | Raises exactly one tally, that of the card at the distance, by one. |
| Algorithms.CreditAllTally | liverpool/algorithms.py:70-74 | Crediting several cards credits each as often as it occurs, at that distance only. |
| Algorithms.MeldCombos | liverpool/algorithms.py:63 | A meld's combos are its sets, then its runs, each marked whether it is a set. |
| Algorithms.JokerCredit | liverpool/algorithms.py:65-74 | A joker credits its card at the current distance, and inside a set the same rank in every other colour; nothing else changes. |
| Algorithms.RealCredit | liverpool/algorithms.py:75-76 | A real card counts one more use of itself, or raises KeyError when it is not a key. |
| Algorithms.CreditMeldsGrows | liverpool/algorithms.py:60-76 | Crediting the melds of a pass only raises counts and keeps the existing keys. |
| Algorithms.SearchOutcome | liverpool/algorithms.py:54-78 | The loop only raises counts. It reports `finished` exactly when its condition failed, and otherwise stops after the pass bound. `jokers_beyond_utility` never passes `max(0, max_extra_jokers)`. |
| Algorithms.PassesGrow | liverpool/algorithms.py:60-76 | Every pass only raises counts and keeps the existing keys. |
| Algorithms.FindUsefulMeaning | liverpool/algorithms.py:49-80 | Every count only grows from the all-zero start. The existing tally keeps exactly the hand's real cards as keys. The loop stops only once a missing card is useful and `jokers_beyond_utility >= max_extra_jokers`. |
| Algorithms.FindUsefulCards | liverpool/algorithms.py:49-80 | Works on an IndexedHand copy, so the argument hand is left alone. Computes exactly `FindUseful`. |
| Algorithms.Turns | liverpool/algorithms.py:54-78 | The `while` loop from no extra jokers computes exactly the specification `Search`. |
| Algorithms.SearchStep | liverpool/algorithms.py:57-78 | One turn of the loop: an error stops the search, and otherwise the search goes on from the new tallies with one more joker. |
| Algorithms.UsefulTurn | liverpool/algorithms.py:57-78 | One turn: counts the turn if a missing card is already useful, makes a pass, and adds exactly one joker to the copy. |
| Algorithms.UsefulPass | liverpool/algorithms.py:60-77 | The table lookups, the credits for every meld, and one more joker in the copy. |
| Algorithms.PassMelds | liverpool/algorithms.py:60-77 | The credits for the melds of `iter_melds` on the copy, then `put_card(joker)`. |
| Algorithms.TableLookups | liverpool/generation.py:352-360 | The table-driven set iterator fails exactly when a Setdex value is not a key, after `maybe_precompute` filled the tables. |
| Algorithms.CreditMeldList | liverpool/algorithms.py:60-76 | The loop over the melds computes exactly `CreditMelds`. |
| Algorithms.CreditComboList | liverpool/algorithms.py:63-76 | The loop over a meld's combos computes exactly `CreditCombos`. |
| Algorithms.CreditComboCards | liverpool/algorithms.py:64-76 | The loop over a combo's cards computes exactly `CreditCombo`. |
| Algorithms.CreditOtherColors | liverpool/algorithms.py:70-74 | The loop over `Color.iter()` credits the joker's rank in the other three colours. |
| Algorithms.FourColorsProps | liverpool/algorithms.py:70-74 | A set joker's card and its three other colours are four distinct cards, exactly the real cards of that rank. |
| Listeners.RemoveFirst | liverpool/listeners/listeners.py:37 | `list.remove` drops one copy of the card. |
| Listeners.RemoveFirstAt | liverpool/listeners/listeners.py:37 | The copy removed is the first one, and the order of the rest is kept. |
| Listeners.ForgetMeaning | liverpool/listeners/listeners.py:34-39 | The known cards lose exactly the laid cards they held. The unknown count drops by the number of laid cards that were not known. |
| Listeners.ForgetTotal | liverpool/listeners/listeners.py:34-39 | Known plus unknown drops by the number of cards laid. |
| Listeners.ForgetCards | liverpool/listeners/listeners.py:35-39 | The loop over a move's cards computes exactly `Forget`. |
| Listeners.PlayerInitResets | liverpool/listeners/listeners.py:26-29 | An init forgets everything the view held before. |
| Listeners.PlayerMeld | liverpool/listeners/listeners.py:30-31 | The view's meld follows the table and changes only through `melds` or an init. |
| Listeners.PlayerOthers | liverpool/listeners/listeners.py:32-33 | Another player's action never changes what the view knows. |
| Listeners.PlayerOwn | liverpool/listeners/listeners.py:34-45 | The player's own action applies at most one of move, purchase, draw-discard and draw-deck, in that priority. A move forgets its cards as `ForgetMeaning` says. |
| Listeners.DrawThenLay | liverpool/listeners/listeners.py:34-43 | Drawing a card and then laying exactly that card leaves the same cards known and unknown. |
| Listeners.PlayerView.constructor | liverpool/listeners/listeners.py:19-23 | A fresh view knows nothing and has no meld. |
| Listeners.PlayerView.PublishAction | liverpool/listeners/listeners.py:25-45 | The new state is `PlayerNext` of the old one. |
| Listeners.MergeAppend | liverpool/listeners/listeners.py:10-17 | Merging two groups of views concatenates their known cards and adds their unknown counts. |
| Listeners.MergeKeepsKnown | liverpool/listeners/listeners.py:10-17 | Every view's known cards are among the merged ones. |
| Listeners.Merge | liverpool/listeners/listeners.py:10-17 | The loop concatenates the views' known cards and sums their unknown counts. |
| Listeners.DealerInit | liverpool/listeners/listeners.py:56-60 | An init is refused with KeyError exactly when the player count has no deck count, and then nothing changes; otherwise the view starts empty. |
| Listeners.DealerDiscards | liverpool/listeners/listeners.py:61-79 | The discard pile is a stack. A move pushes its discard, if any, and a flipped card is pushed. A drawn discard is popped: this succeeds exactly when the pile is non-empty and its top is the drawn card, and an empty pile gives IndexError. A shuffle empties the pile; a purchase and a deck draw leave it alone. |
| Listeners.FlipThenDraw | liverpool/listeners/listeners.py:69-75 | Flipping a card and drawing it back restores the pile, with the card now known. |
| Listeners.DealerView.constructor | liverpool/listeners/listeners.py:49-53 | A fresh view knows nothing and has no discards. |
| Listeners.DealerView.PublishAction | liverpool/listeners/listeners.py:55-79 | The new state and the outcome are those of `DealerNext`. |
| Listeners.GameListener.constructor | liverpool/listeners/listeners.py:83-86 | No player views, no objective, an empty dealer view. |
| Listeners.GameListener.PublishAction | liverpool/listeners/listeners.py:88-98 | The dealer view first, and an error there stops the rest. On init, one fresh view per pid 0..players-1. Then every player view is updated, in pid order. |
| Listeners.NewViews | liverpool/listeners/listeners.py:93 | Exactly one fresh, empty view per pid 0..n-1. |
| Listeners.PublishToPlayers | liverpool/listeners/listeners.py:95-96 | Every player view moves to `PlayerNext` of its own state. |
| Listeners.States | liverpool/listeners/listeners.py:95-96 | The states of the player views, one per view, in order. |

## Left out

- LUT persistence is not modelled: `save_luts`, `load_luts` and the file branch of `maybe_precompute` (gzip, JSON and files under `~/.liverpool_*`). The tables are maps built in memory, and a loaded file is taken to hold what an earlier build produced. The timing and progress prints of `precompute_luts` are left out as well.
- The conversion `IndexedHand(cards=list(hand))`, which every iterator applies to a plain hand, is not modelled. The iterators take an `IndexedHand`.
- `iter_melds`, `iter_extends` and `iter_updates_multi` use only the default run iterator `iter_runs`. `find_useful_cards` is the one caller that passes the table-driven iterators.
- MeldSearch.MeldsOf: the regression count of 39 melds for 2♣ 2♥ 2♦ 5♠ 5♥ K♦ with four jokers and three sets (tests/test_generation.py:41-63) is not proved as a number. Evaluating it would unfold every Setdex and every three-set choice inside the solver. What the regression guards against, a meld yielded twice, is proved for every hand by MeldSearch.MeldsOfDistinct.
- MeldSearch.IterMelds: requires a hand with nothing pending (its stack ends with a marker). Every caller in the repository passes such a hand, because the constructor commits.
- Common.Meld: `Meld`, `MeldUpdate`, `Add`, `Extend` and `Objective` are imported from `liverpool/common.py`, which does not define them, so their behaviour here is assumed:
  - `iter_melds` yields `Meld(sets, None)` and `Meld(None, runs)` (generation.py:373, 377). The model makes the missing side an empty sequence. If `Meld` kept `None`, `enumerate(meld.runs)` (generation.py:487) would raise TypeError on a sets-only meld, and MultiUpdates.IterUpdatesMulti accepts such a meld without error.
  - `for combo in meld` (algorithms.py:63) is assumed to yield the sets and then the runs. Algorithms.MeldCombos rests on this.
  - `len(add_)` and `len(extend)` (generation.py:486, 491) are assumed to count the cards added.
- MultiUpdates.IterUpdatesMulti: the updates use the corrected grouping, not the one in the code, which lets a player's extension of run i replace their add to set i (see Findings). The two agree on every combination without that collision (MultiUpdates.UpdatesAsWrittenAgrees).
- Luts.Tables.Precompute: the run entries use the corrected `from_vector`. As written, `precompute_luts` raises AttributeError at its first run entry (generation.py:286, then :208), so the run tables are never built (see Findings). Luts.Tables.MaybePrecompute and Luts.BuildRunTable inherit this.
- MultiUpdates.IterUpdatesMulti: requires a hand with nothing pending, as above, and melds whose runs lie within 2..14, as every meld of `iter_melds` does.
- A generator that raises part-way is modelled as an error result. The values it yielded before the raise are not kept.
- `iter_updates` is not modelled. It stores lists of `Add`s as mutations, which `take_card` rejects with a TypeError. `iter_updates_multi` is modelled instead.
- The debug prints of `iter_updates_multi` are left out.
- `materialized_sets_from_optional_colors` is left out: no modelled operation calls it.
- The broken `Hand` in `liverpool/common.py`, `SMECalculator` (floating point and printing), and the deck that `DealerView` builds are not modelled. `Deck` is not part of this model.
- `liverpool/game.py`, `liverpool/player.py`, the players, `liverpool/move.py` and the command-line and benchmark scripts are not modelled. They are the turn engine, strategy and I/O, not move generation.
- Updates.ExtendFrom: `extend_from` compares cards with `<`, which the repository does not define. The model compares by rank, which is all that is needed within one colour.
- MultiUpdates.UpdatesFor: when one combination changes the same set twice, the later change wins, as in a Python dictionary.
- Algorithms.FindUsefulCards: the loop is bounded by a `fuel` count of passes. Without a bound the source loops forever on a hand and objective that never make a missing card useful.
- Algorithms.FindUsefulCards: it requires the tables to be empty or complete for 0..3 jokers, which is what `maybe_precompute` leaves behind.
- Algorithms.FindUsefulCards: the run table is read through its proved equality with `iter_runs`.
- Algorithms.FindUsefulCards: the melds are those of `iter_melds` with the iterators' modelled order.
- Algorithms.LeastUseful: takes the dictionary's items as a sequence in insertion order.
- Hands.Hand.Iter: the order of the real cards follows the dictionary's insertion order, which the model does not track. Only the multiset and the jokers-last order are stated.
- Listeners: a move is seen as the cards it lays plus its discard. `liverpool/game.py`'s `Move` has no `__iter__`.
- Listeners: `Action` carries every field the listeners read (`init`, `flip_discard`, `shuffle_discards`), although `liverpool/game.py`'s `Action` declares only `player_id`, `move`, `purchase`, `draw_discard` and `draw_deck`.
- Listeners: Python's `assert` is modelled as active, so a mismatching drawn discard is an error result.
- Indexes.Rundex: the bytearray's limit of 255 per entry is not modelled. A hand never holds that many copies of one card.

## Findings

| source | as written | input that shows it | evidently intended | confidence | as-written member | corrected member |
|---|---|---|---|---|---|---|
| liverpool/generation.py:104-112 | The stray `yield 0` makes `from_vector` a generator function. Callers receive a generator object, never the Rundex; iterating it would yield only two zeros. | vector 0, the first run entry `precompute_luts` builds (generation.py:285-286): `ranks_from_rundex` receives the generator and raises AttributeError at `rundex.iter_ranks()` (generation.py:208). Vector 1 shows what is lost: its generator yields `[0, 0]`, the same as for vector 0. | A Rundex with one card of each rank whose bit is set, so that `to_vector(from_vector(v)) == v`. | not executed | Luts.FromVectorLosesRanks | Indexes.VectorRoundTrip |
| liverpool/generation.py:503-505 | `updates[pid][combo_id] = combo` keys a player's adds (by set index) and extensions (by run index) in one dictionary. | one player's add to set 0 together with an extension of run 0: the extension replaces the add, whose cards were taken. | Adds and extensions keyed apart, each recorded. | not executed | MultiUpdates.AddLostToExtend | MultiUpdates.UpdatesForComplete |
