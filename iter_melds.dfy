/**
 * `iter_melds` of liverpool/generation.py: for an objective of `num_sets` sets and `num_runs`
 * runs, every combination of the hand's sets (then runs) that the hand can supply together.
 * The search takes the combos with `take_committed`, commits the sets while it looks for
 * runs in what is left, and restores the hand with `undo`.
 */
module MeldSearch {
  import opened Wrappers
  import opened Common
  import opened Hands
  import opened IndexedHands
  import opened Combinatorics
  import opened Melds

  // ---------------------------------------------------------------------------
  // The cards the search takes
  // ---------------------------------------------------------------------------

  /** The cards of each set, as `take_combo` iterates them. */
  function SetCombos(sets: seq<Set>): (cs: seq<seq<Card>>)
    ensures |cs| == |sets| && forall i :: 0 <= i < |sets| ==> cs[i] == SetCards(sets[i])
  {
    seq(|sets|, i requires 0 <= i < |sets| => SetCards(sets[i]))
  }

  /**
   * The cards of a run. Every run `iter_runs` yields lies within 2..14 (`HandRunsInRange`);
   * for any other run `Run.of` would already have failed, and it contributes no cards here.
   */
  function RunCombo(r: Run): seq<Card>
  {
    if RunInRange(r) then RunCards(r) else []
  }

  /** The cards of each run, as `take_combo` iterates them. */
  function RunCombos(runs: seq<Run>): (cs: seq<seq<Card>>)
    ensures |cs| == |runs| && forall i :: 0 <= i < |runs| ==> cs[i] == RunCombo(runs[i])
  {
    seq(|runs|, i requires 0 <= i < |runs| => RunCombo(runs[i]))
  }

  /** Every run `iter_runs` yields lies within 2..14. */
  lemma HandRunsInRange(k: Counts)
    ensures forall run :: run in HandRuns(k) ==> RunInRange(run)
  {
    HandRunsMeaning(k);
  }

  // ---------------------------------------------------------------------------
  // What iter_melds yields
  // ---------------------------------------------------------------------------

  /** `uniq(itertools.combinations(xs, n))`. */
  function Choices<T(==)>(xs: seq<T>, n: nat): seq<seq<T>>
  {
    UniqOf(Combinations(xs, n))
  }

  /** The first branch's loop body: a choice of sets the hand can supply is a meld. */
  function SetMeldStep(k: Counts): seq<Set> -> seq<Meld>
  {
    sets => if TakeAll(k, Flatten(SetCombos(sets))).ok then [Meld(sets, [])] else []
  }

  /** The loop over runs: a choice of runs the hand can supply completes a meld with `sets`. */
  function RunMeldStep(k: Counts, sets: seq<Set>): seq<Run> -> seq<Meld>
  {
    runs => if TakeAll(k, Flatten(RunCombos(runs))).ok then [Meld(sets, runs)] else []
  }

  /** What is left of the hand once the sets are taken. */
  function AfterSets(k: Counts, sets: seq<Set>): Counts
  {
    TakeAll(k, Flatten(SetCombos(sets))).counts
  }

  /**
   * The third branch's outer loop body: a choice of sets the hand can supply is combined
   * with every choice of runs from what is left.
   */
  function MixedMeldStep(k: Counts, numRuns: nat): seq<Set> -> seq<Meld>
  {
    sets => MeldsWithSets(k, numRuns, sets)
  }

  /** The melds that complete a choice of sets, when the hand can supply it. */
  function MeldsWithSets(k: Counts, numRuns: nat, sets: seq<Set>): seq<Meld>
  {
    if TakeAll(k, Flatten(SetCombos(sets))).ok then
      ConcatMap(Choices(HandRuns(AfterSets(k, sets)), numRuns), RunMeldStep(AfterSets(k, sets), sets))
    else []
  }

  /** Everything `iter_melds(hand, objective)` yields for a hand with these counts. */
  function MeldsOf(k: Counts, obj: Objective): seq<Meld>
  {
    if obj.numRuns == 0 then ConcatMap(Choices(HandSets(k), obj.numSets), SetMeldStep(k))
    else if obj.numSets == 0 then ConcatMap(Choices(HandRuns(k), obj.numRuns), RunMeldStep(k, []))
    else ConcatMap(Choices(HandSets(k), obj.numSets), MixedMeldStep(k, obj.numRuns))
  }

  // ---------------------------------------------------------------------------
  // The search
  // ---------------------------------------------------------------------------

  /** The hand has nothing pending: its stack ends with a marker. */
  predicate NothingPending(stack: seq<Option<Card>>)
  {
    |stack| > 0 && stack[|stack| - 1] == None
  }

  /**
   * `iter_melds(hand, strategy)` on an IndexedHand with nothing pending: yields exactly
   * `MeldsOf` and leaves the hand as it found it.
   */
  method IterMelds(h: IndexedHand, obj: Objective) returns (melds: seq<Meld>)
    requires h.Valid() && NothingPending(h.hand.stack)
    modifies h.Repr
    ensures h.Valid()
    ensures h.Snapshot() == old(h.Snapshot()) && h.hand.stack == old(h.hand.stack)
    ensures melds == MeldsOf(old(h.Snapshot()), obj)
  {
    if obj.numRuns == 0 {
      melds := SetBranch(h, obj.numSets);
    } else if obj.numSets == 0 {
      melds := RunBranch(h, obj.numRuns);
    } else {
      melds := MixedBranch(h, obj.numSets, obj.numRuns);
    }
  }

  /** `iter_melds` when the objective asks for no runs. */
  method SetBranch(h: IndexedHand, numSets: nat) returns (melds: seq<Meld>)
    requires h.Valid() && NothingPending(h.hand.stack)
    modifies h.Repr
    ensures h.Valid()
    ensures h.Snapshot() == old(h.Snapshot()) && h.hand.stack == old(h.hand.stack)
    ensures melds == MeldsOf(old(h.Snapshot()), Objective(numSets, 0))
  {
    var sets := IterSets(h);
    var choices := Uniq(Combinations(sets, numSets));
    melds := SetMelds(h, choices);
  }

  /** `iter_melds` when the objective asks for runs and no sets. */
  method RunBranch(h: IndexedHand, numRuns: nat) returns (melds: seq<Meld>)
    requires h.Valid() && NothingPending(h.hand.stack) && numRuns > 0
    modifies h.Repr
    ensures h.Valid()
    ensures h.Snapshot() == old(h.Snapshot()) && h.hand.stack == old(h.hand.stack)
    ensures melds == MeldsOf(old(h.Snapshot()), Objective(0, numRuns))
  {
    var runs := IterRuns(h);
    var choices := Uniq(Combinations(runs, numRuns));
    melds := RunMelds(h, choices, []);
  }

  /** `iter_melds` when the objective asks for both sets and runs. */
  method MixedBranch(h: IndexedHand, numSets: nat, numRuns: nat) returns (melds: seq<Meld>)
    requires h.Valid() && NothingPending(h.hand.stack) && numSets > 0 && numRuns > 0
    modifies h.Repr
    ensures h.Valid()
    ensures h.Snapshot() == old(h.Snapshot()) && h.hand.stack == old(h.hand.stack)
    ensures melds == MeldsOf(old(h.Snapshot()), Objective(numSets, numRuns))
  {
    var sets := IterSets(h);
    var choices := Uniq(Combinations(sets, numSets));
    melds := MixedMelds(h, choices, numRuns);
  }

  /** The first branch: each choice of sets that `take_committed(..., False)` accepts. */
  method SetMelds(h: IndexedHand, choices: seq<seq<Set>>) returns (melds: seq<Meld>)
    requires h.Valid() && NothingPending(h.hand.stack)
    modifies h.Repr
    ensures h.Valid()
    ensures h.Snapshot() == old(h.Snapshot()) && h.hand.stack == old(h.hand.stack)
    ensures melds == ConcatMap(choices, SetMeldStep(old(h.Snapshot())))
  {
    ghost var k0 := h.Snapshot();
    melds := [];
    var i := 0;
    while i < |choices|
      invariant 0 <= i <= |choices|
      invariant h.Valid() && h.Snapshot() == k0 && h.hand.stack == old(h.hand.stack)
      invariant melds == ConcatMap(choices[..i], SetMeldStep(k0))
    {
      ConcatMapNext(choices, SetMeldStep(k0), i);
      var ok := TakeCommitted(h, SetCombos(choices[i]), false);
      if ok {
        melds := melds + [Meld(choices[i], [])];
      }
      i := i + 1;
    }
    assert choices[..i] == choices;
  }

  /**
   * The loop over choices of runs (the second branch, and the inner loop of the third):
   * each choice that `take_committed(..., False)` accepts completes a meld with `sets`.
   */
  method RunMelds(h: IndexedHand, choices: seq<seq<Run>>, sets: seq<Set>) returns (melds: seq<Meld>)
    requires h.Valid() && NothingPending(h.hand.stack)
    modifies h.Repr
    ensures h.Valid()
    ensures h.Snapshot() == old(h.Snapshot()) && h.hand.stack == old(h.hand.stack)
    ensures melds == ConcatMap(choices, RunMeldStep(old(h.Snapshot()), sets))
  {
    ghost var k0 := h.Snapshot();
    melds := [];
    var i := 0;
    while i < |choices|
      invariant 0 <= i <= |choices|
      invariant h.Valid() && h.Snapshot() == k0 && h.hand.stack == old(h.hand.stack)
      invariant melds == ConcatMap(choices[..i], RunMeldStep(k0, sets))
    {
      ConcatMapNext(choices, RunMeldStep(k0, sets), i);
      var ok := TakeCommitted(h, RunCombos(choices[i]), false);
      if ok {
        melds := melds + [Meld(sets, choices[i])];
      }
      i := i + 1;
    }
    assert choices[..i] == choices;
  }

  /** The third branch: the runs that go with each choice of sets the hand can supply. */
  method MixedMelds(h: IndexedHand, choices: seq<seq<Set>>, numRuns: nat) returns (melds: seq<Meld>)
    requires h.Valid() && NothingPending(h.hand.stack)
    modifies h.Repr
    ensures h.Valid()
    ensures h.Snapshot() == old(h.Snapshot()) && h.hand.stack == old(h.hand.stack)
    ensures melds == ConcatMap(choices, MixedMeldStep(old(h.Snapshot()), numRuns))
  {
    ghost var k0, stack0 := h.Snapshot(), h.hand.stack;
    assert |stack0| > 0 && stack0[|stack0| - 1] == None;
    melds := [];
    var i := 0;
    while i < |choices|
      invariant 0 <= i <= |choices|
      invariant h.Valid() && h.Snapshot() == k0 && h.hand.stack == stack0
      invariant melds == ConcatMap(choices[..i], MixedMeldStep(k0, numRuns))
    {
      var more := MixedStep(h, choices[i], numRuns);
      MixedNext(k0, numRuns, choices, i, melds, more);
      melds := melds + more;
      i := i + 1;
    }
    assert choices[..i] == choices;
  }

  /** The third branch's outer loop, one pass further. */
  lemma MixedNext(k0: Counts, numRuns: nat, choices: seq<seq<Set>>, i: nat, melds: seq<Meld>, more: seq<Meld>)
    requires i < |choices|
    requires melds == ConcatMap(choices[..i], MixedMeldStep(k0, numRuns))
    requires more == MeldsWithSets(k0, numRuns, choices[i])
    ensures melds + more == ConcatMap(choices[..i + 1], MixedMeldStep(k0, numRuns))
  {
    ConcatMapNext(choices, MixedMeldStep(k0, numRuns), i);
  }

  /**
   * One pass of the third branch's outer loop: commit the sets, list the runs of what is
   * left, keep the choices of runs it can also supply, then `undo`.
   */
  method MixedStep(h: IndexedHand, sets: seq<Set>, numRuns: nat) returns (melds: seq<Meld>)
    requires h.Valid() && NothingPending(h.hand.stack)
    modifies h.Repr
    ensures h.Valid()
    ensures h.Snapshot() == old(h.Snapshot()) && h.hand.stack == old(h.hand.stack)
    ensures melds == MeldsWithSets(old(h.Snapshot()), numRuns, sets)
  {
    ghost var k0, stack0 := h.Snapshot(), h.hand.stack;
    var ok := TakeCommitted(h, SetCombos(sets), true);
    if !ok {
      return [];
    }
    ghost var taken := TakeAll(k0, Flatten(SetCombos(sets))).taken;
    var runs := IterRuns(h);
    var choices := Uniq(Combinations(runs, numRuns));
    melds := RunMelds(h, choices, sets);
    var undone := h.Undo();
    PendingSomes(stack0, taken);
    TakeAllThenPutBack(k0, Flatten(SetCombos(sets)));
  }

  // ---------------------------------------------------------------------------
  // What the melds are
  // ---------------------------------------------------------------------------

  /**
   * A meld for the objective that the hand can supply: the objective's numbers of sets and
   * runs, the sets drawn in order from what `iter_sets` lists, the runs drawn in order from
   * what `iter_runs` lists for the cards the sets leave, and the hand supplying the sets'
   * cards and then the runs' cards (a missing card taking a joker).
   */
  ghost predicate Supplied(k: Counts, obj: Objective, m: Meld)
  {
    |m.sets| == obj.numSets && |m.runs| == obj.numRuns &&
    IsSubseq(m.sets, HandSets(k)) && TakeAll(k, Flatten(SetCombos(m.sets))).ok &&
    IsSubseq(m.runs, HandRuns(AfterSets(k, m.sets))) &&
    TakeAll(AfterSets(k, m.sets), Flatten(RunCombos(m.runs))).ok
  }

  /**
   * `iter_melds` yields exactly the melds the hand can supply: every meld it yields is
   * supplied, and every supplied meld is yielded.
   */
  lemma MeldsOfMeaning(k: Counts, obj: Objective, m: Meld)
    ensures m in MeldsOf(k, obj) <==> Supplied(k, obj, m)
  {
    if m in MeldsOf(k, obj) {
      MeldsOfProps(k, obj, m);
    }
    if Supplied(k, obj, m) {
      MeldsOfComplete(k, obj, m);
    }
  }

  /**
   * Every meld `iter_melds` yields is supplied by the hand, and the hand can supply all of
   * its cards together.
   */
  lemma MeldsOfProps(k: Counts, obj: Objective, m: Meld)
    requires m in MeldsOf(k, obj)
    ensures Supplied(k, obj, m)
    ensures TakeAll(k, Flatten(SetCombos(m.sets)) + Flatten(RunCombos(m.runs))).ok
  {
    if obj.numRuns == 0 {
      SetMeldProps(k, obj.numSets, m);
    } else if obj.numSets == 0 {
      RunMeldProps(k, obj.numRuns, m);
    } else {
      MixedMeldProps(k, obj.numSets, obj.numRuns, m);
    }
    TakeAllAppend(k, Flatten(SetCombos(m.sets)), Flatten(RunCombos(m.runs)));
  }

  /**
   * `iter_melds` yields no meld twice, whatever the hand: `iter_sets` and `iter_runs` list no
   * value twice, so neither do their combinations, and melds from different choices differ
   * in their sets or in their runs.
   */
  lemma MeldsOfDistinct(k: Counts, obj: Objective)
    ensures Distinct(MeldsOf(k, obj))
  {
    if obj.numRuns == 0 {
      HandSetsDistinct(k);
      ChoicesDistinct(HandSets(k), obj.numSets);
      SetStepsDistinct(k, Choices(HandSets(k), obj.numSets));
    } else if obj.numSets == 0 {
      HandRunsDistinct(k);
      ChoicesDistinct(HandRuns(k), obj.numRuns);
      RunStepsDistinct(k, [], Choices(HandRuns(k), obj.numRuns));
    } else {
      HandSetsDistinct(k);
      ChoicesDistinct(HandSets(k), obj.numSets);
      MixedStepsDistinct(k, obj.numRuns, Choices(HandSets(k), obj.numSets));
    }
  }

  lemma SetStepsDistinct(k: Counts, choices: seq<seq<Set>>)
    requires Distinct(choices)
    ensures Distinct(ConcatMap(choices, SetMeldStep(k)))
  {
    var f := SetMeldStep(k);
    forall sets | sets in choices
      ensures Distinct(f(sets)) && forall m :: m in f(sets) ==> m.sets == sets
    {
    }
    ConcatMapDistinct(choices, f);
  }

  lemma RunStepsDistinct(k: Counts, sets: seq<Set>, choices: seq<seq<Run>>)
    requires Distinct(choices)
    ensures Distinct(ConcatMap(choices, RunMeldStep(k, sets)))
    ensures forall m :: m in ConcatMap(choices, RunMeldStep(k, sets)) ==> m.sets == sets
  {
    var f := RunMeldStep(k, sets);
    forall runs | runs in choices
      ensures Distinct(f(runs)) && forall m :: m in f(runs) ==> m.runs == runs && m.sets == sets
    {
    }
    ConcatMapDistinct(choices, f);
    forall m: Meld | m in ConcatMap(choices, f)
      ensures m.sets == sets
    {
      ConcatMapMember(choices, f, m);
    }
  }

  lemma MixedStepsDistinct(k: Counts, numRuns: nat, choices: seq<seq<Set>>)
    requires Distinct(choices)
    ensures Distinct(ConcatMap(choices, MixedMeldStep(k, numRuns)))
  {
    var f := MixedMeldStep(k, numRuns);
    forall sets | sets in choices
      ensures Distinct(f(sets)) && forall m :: m in f(sets) ==> m.sets == sets
    {
      MeldsWithSetsDistinct(k, numRuns, sets);
    }
    ConcatMapDistinct(choices, f);
  }

  /** The melds completing one choice of sets are pairwise different and all keep those sets. */
  lemma MeldsWithSetsDistinct(k: Counts, numRuns: nat, sets: seq<Set>)
    ensures Distinct(MeldsWithSets(k, numRuns, sets))
    ensures forall m :: m in MeldsWithSets(k, numRuns, sets) ==> m.sets == sets
  {
    if TakeAll(k, Flatten(SetCombos(sets))).ok {
      var after := AfterSets(k, sets);
      HandRunsDistinct(after);
      ChoicesDistinct(HandRuns(after), numRuns);
      RunStepsDistinct(after, sets, Choices(HandRuns(after), numRuns));
    }
  }

  /** Choosing among values none of which repeats never gives the same choice twice. */
  lemma ChoicesDistinct<T>(xs: seq<T>, n: nat)
    requires Distinct(xs)
    ensures Distinct(Choices(xs, n))
  {
    CombinationsDistinct(xs, n);
    UniqOfDistinct(Combinations(xs, n));
  }

  /** Every meld the hand can supply is yielded by `iter_melds`. */
  lemma MeldsOfComplete(k: Counts, obj: Objective, m: Meld)
    requires Supplied(k, obj, m)
    ensures m in MeldsOf(k, obj)
  {
    if obj.numRuns == 0 {
      SetMeldsComplete(k, obj, m);
    } else if obj.numSets == 0 {
      RunMeldsComplete(k, obj, m);
    } else {
      MixedMeldsComplete(k, obj, m);
    }
  }

  /** No sets take no cards and leave the hand as it is. */
  lemma NoSets(k: Counts)
    ensures Flatten(SetCombos([])) == [] && AfterSets(k, []) == k && TakeAll(k, []).ok
  {
    assert SetCombos([]) == [];
  }

  /** No runs take no cards. */
  lemma NoRuns(k: Counts)
    ensures Flatten(RunCombos([])) == [] && TakeAll(k, []).ok && IsSubseq<Run>([], HandRuns(k))
  {
    assert RunCombos([]) == [];
  }

  /** The first branch of `MeldsOfProps`. */
  lemma SetMeldProps(k: Counts, numSets: nat, m: Meld)
    requires m in ConcatMap(Choices(HandSets(k), numSets), SetMeldStep(k))
    ensures m.runs == [] && Supplied(k, Objective(numSets, 0), m)
  {
    var sets := ChoiceOf(Choices(HandSets(k), numSets), SetMeldStep(k), m);
    ChoiceMember(HandSets(k), numSets, sets);
    assert m == Meld(sets, []);
    NoRuns(AfterSets(k, sets));
  }

  /** The second branch of `MeldsOfProps`. */
  lemma RunMeldProps(k: Counts, numRuns: nat, m: Meld)
    requires m in ConcatMap(Choices(HandRuns(k), numRuns), RunMeldStep(k, []))
    ensures m.sets == [] && Supplied(k, Objective(0, numRuns), m)
  {
    var runs := ChoiceOf(Choices(HandRuns(k), numRuns), RunMeldStep(k, []), m);
    ChoiceMember(HandRuns(k), numRuns, runs);
    assert m == Meld([], runs);
    NoSets(k);
  }

  /** The third branch of `MeldsOfProps`: the runs come from what the sets leave. */
  lemma MixedMeldProps(k: Counts, numSets: nat, numRuns: nat, m: Meld)
    requires m in ConcatMap(Choices(HandSets(k), numSets), MixedMeldStep(k, numRuns))
    ensures Supplied(k, Objective(numSets, numRuns), m)
  {
    var sets := ChoiceOf(Choices(HandSets(k), numSets), MixedMeldStep(k, numRuns), m);
    ChoiceMember(HandSets(k), numSets, sets);
    var k' := AfterSets(k, sets);
    var runs := MeldWithSets(k, numRuns, sets, m);
    ChoiceMember(HandRuns(k'), numRuns, runs);
  }

  /** The first branch of `MeldsOfComplete`. */
  lemma SetMeldsComplete(k: Counts, obj: Objective, m: Meld)
    requires obj.numRuns == 0 && Supplied(k, obj, m)
    ensures m in MeldsOf(k, obj)
  {
    var xs := Choices(HandSets(k), obj.numSets);
    ChoiceComplete(HandSets(k), obj.numSets, m.sets);
    assert m == Meld(m.sets, []);
    assert m in SetMeldStep(k)(m.sets);
    ConcatMapMember(xs, SetMeldStep(k), m);
  }

  /** The second branch of `MeldsOfComplete`. */
  lemma RunMeldsComplete(k: Counts, obj: Objective, m: Meld)
    requires obj.numRuns > 0 && obj.numSets == 0 && Supplied(k, obj, m)
    ensures m in MeldsOf(k, obj)
  {
    var xs := Choices(HandRuns(k), obj.numRuns);
    NoSets(k);
    ChoiceComplete(HandRuns(k), obj.numRuns, m.runs);
    assert m == Meld([], m.runs);
    assert m in RunMeldStep(k, [])(m.runs);
    ConcatMapMember(xs, RunMeldStep(k, []), m);
  }

  /** The third branch of `MeldsOfComplete`. */
  lemma MixedMeldsComplete(k: Counts, obj: Objective, m: Meld)
    requires obj.numRuns > 0 && obj.numSets > 0 && Supplied(k, obj, m)
    ensures m in MeldsOf(k, obj)
  {
    var k' := AfterSets(k, m.sets);
    var ys := Choices(HandRuns(k'), obj.numRuns);
    ChoiceComplete(HandRuns(k'), obj.numRuns, m.runs);
    assert m in RunMeldStep(k', m.sets)(m.runs);
    ConcatMapMember(ys, RunMeldStep(k', m.sets), m);
    assert m in MixedMeldStep(k, obj.numRuns)(m.sets);
    var xs := Choices(HandSets(k), obj.numSets);
    ChoiceComplete(HandSets(k), obj.numSets, m.sets);
    ConcatMapMember(xs, MixedMeldStep(k, obj.numRuns), m);
  }

  /** A meld that completes a choice of sets: the hand supplies the sets, then the runs. */
  lemma MeldWithSets(k: Counts, numRuns: nat, sets: seq<Set>, m: Meld) returns (runs: seq<Run>)
    requires m in MeldsWithSets(k, numRuns, sets)
    ensures TakeAll(k, Flatten(SetCombos(sets))).ok
    ensures runs in Choices(HandRuns(AfterSets(k, sets)), numRuns)
    ensures TakeAll(AfterSets(k, sets), Flatten(RunCombos(runs))).ok
    ensures m == Meld(sets, runs)
  {
    var k' := AfterSets(k, sets);
    runs := ChoiceOf(Choices(HandRuns(k'), numRuns), RunMeldStep(k', sets), m);
  }

  /** A value that a loop of the shape `ConcatMap(xs, f)` yields comes from some element. */
  lemma ChoiceOf<T, U>(xs: seq<T>, f: T -> seq<U>, u: U) returns (t: T)
    requires u in ConcatMap(xs, f)
    ensures t in xs && u in f(t)
  {
    ConcatMapMember(xs, f, u);
    t :| t in xs && u in f(t);
  }

  /** A choice has the size asked for and keeps the order of the listed values. */
  lemma ChoiceMember<T>(xs: seq<T>, n: nat, c: seq<T>)
    requires c in Choices(xs, n)
    ensures |c| == n && IsSubseq(c, xs)
  {
    UniqMember(Combinations(xs, n), c);
    CombinationsMembers(xs, n, c);
  }

  /** Every subsequence of the size asked for is a choice. */
  lemma ChoiceComplete<T>(xs: seq<T>, n: nat, c: seq<T>)
    requires |c| == n && IsSubseq(c, xs)
    ensures c in Choices(xs, n)
  {
    UniqueCombinationsMembers(xs, n);
    assert Choices(xs, n) == UniqueCombinations(xs, n);
  }
}
