/**
 * `iter_updates_multi` of liverpool/generation.py: every way one hand can add to the sets and
 * extend the runs of several players' melds at once. The candidates are the non-empty adds of
 * every player, then the non-empty extensions of every player; each combination of candidates
 * whose cards the hand holds all together becomes one update per player. The grouping into
 * updates is the corrected one (`UpdatesFor`), which keeps a player's add and extension under
 * the same index apart; `UpdatesAsWrittenAgrees` shows it differs from the code as written
 * only on that collision.
 */
module MultiUpdates {
  import opened Wrappers
  import opened Common
  import opened Hands
  import opened IndexedHands
  import opened Combinatorics
  import opened Melds
  import opened MeldSearch
  import opened Updates

  /** One candidate change to a meld on the table. */
  datatype Change = AddTo(add: Add) | ExtendBy(ext: Extend)

  /** `(pid, combo_id, combo)`: a change to set or run `id` of player `pid`'s meld. */
  datatype Mutation = Mutation(pid: int, id: nat, change: Change)

  /** The cards a change takes from the hand. */
  function ChangeCards(c: Change): seq<Card>
  {
    match c
    case AddTo(a) => a.cards
    case ExtendBy(e) => ExtendCards(e)
  }

  /** `combos_only`: the cards of each mutation of a combination. */
  function MutationCombos(comb: seq<Mutation>): (cs: seq<seq<Card>>)
    ensures |cs| == |comb| && forall i :: 0 <= i < |comb| ==> cs[i] == ChangeCards(comb[i].change)
  {
    seq(|comb|, i requires 0 <= i < |comb| => ChangeCards(comb[i].change))
  }

  /** The players' melds in the order of the dictionary, each run within the real ranks. */
  predicate MeldsInRange(melds: seq<(int, Meld)>)
  {
    forall i :: 0 <= i < |melds| ==> AllInRange(melds[i].1.runs)
  }

  // ---------------------------------------------------------------------------
  // The candidates
  // ---------------------------------------------------------------------------

  /** `(pid, set_id, add_) for add_ in iter_adds(...) if len(add_) > 0`. */
  function NonEmptyAdds(pid: int, id: nat, adds: seq<Add>): (ms: seq<Mutation>)
    ensures forall m :: m in ms <==>
      (m.pid == pid && m.id == id && m.change.AddTo? && m.change.add in adds && |m.change.add.cards| > 0)
    decreases |adds|
  {
    if adds == [] then []
    else
      var n := |adds| - 1;
      NonEmptyAdds(pid, id, adds[..n]) +
        (if |adds[n].cards| > 0 then [Mutation(pid, id, AddTo(adds[n]))] else [])
  }

  /** `(pid, run_id, extend) for extend in iter_extends(...) if len(extend) > 0`. */
  function NonEmptyExtends(pid: int, id: nat, found: seq<Extend>): (ms: seq<Mutation>)
    ensures forall m :: m in ms <==>
      (m.pid == pid && m.id == id && m.change.ExtendBy? && m.change.ext in found && |ExtendCards(m.change.ext)| > 0)
    decreases |found|
  {
    if found == [] then []
    else
      var n := |found| - 1;
      NonEmptyExtends(pid, id, found[..n]) +
        (if |ExtendCards(found[n])| > 0 then [Mutation(pid, id, ExtendBy(found[n]))] else [])
  }

  /** The adds of one player, set by set. */
  function SetAdds(k: Counts, pid: int, sets: seq<Set>): seq<Mutation>
    decreases |sets|
  {
    if sets == [] then []
    else
      var n := |sets| - 1;
      SetAdds(k, pid, sets[..n]) + NonEmptyAdds(pid, n, AddsOf(k, sets[n]))
  }

  /** What `iter_extends` yields for each run of a player, in order. */
  function ExtendsList(k: Counts, runs: seq<Run>): (fs: seq<Result<seq<Extend>, Error>>)
    requires AllInRange(runs)
  {
    seq(|runs|, i requires 0 <= i < |runs| => ExtendsOf(k, runs[i]))
  }

  /** The non-empty extensions of the runs, run by run, from what `iter_extends` yields for each; the first error ends the search. */
  function Collect(pid: int, fs: seq<Result<seq<Extend>, Error>>): Result<seq<Mutation>, Error>
    decreases |fs|
  {
    if fs == [] then Ok([])
    else
      var n := |fs| - 1;
      var prev := Collect(pid, fs[..n]);
      if prev.Err? then prev
      else if fs[n].Err? then Err(fs[n].error)
      else Ok(prev.value + NonEmptyExtends(pid, n, fs[n].value))
  }

  /** The extensions of one player, run by run; an error of `iter_extends` ends the search. */
  function RunExtends(k: Counts, pid: int, runs: seq<Run>): Result<seq<Mutation>, Error>
    requires AllInRange(runs)
  {
    Collect(pid, ExtendsList(k, runs))
  }

  /** The adds of every player, in the order of the dictionary. */
  function AllAdds(k: Counts, melds: seq<(int, Meld)>): seq<Mutation>
    decreases |melds|
  {
    if melds == [] then []
    else
      var n := |melds| - 1;
      AllAdds(k, melds[..n]) + SetAdds(k, melds[n].0, melds[n].1.sets)
  }

  /** The extensions of every player, in the order of the dictionary. */
  function AllExtends(k: Counts, melds: seq<(int, Meld)>): Result<seq<Mutation>, Error>
    requires MeldsInRange(melds)
    decreases |melds|
  {
    if melds == [] then Ok([])
    else
      var n := |melds| - 1;
      var prev := AllExtends(k, melds[..n]);
      var found := RunExtends(k, melds[n].0, melds[n].1.runs);
      if prev.Err? then prev
      else if found.Err? then found
      else Ok(prev.value + found.value)
  }

  /** `mutations = adds + extends`. */
  function CandidatesOf(k: Counts, melds: seq<(int, Meld)>): Result<seq<Mutation>, Error>
    requires MeldsInRange(melds)
  {
    var found := AllExtends(k, melds);
    if found.Err? then Err(found.error) else Ok(AllAdds(k, melds) + found.value)
  }

  /** A player's add candidate is a non-empty add `iter_adds` yields for one of its sets. */
  lemma {:induction false} SetAddsSound(k: Counts, pid: int, sets: seq<Set>, m: Mutation)
    requires m in SetAdds(k, pid, sets)
    ensures m.pid == pid && m.change.AddTo? && m.id < |sets|
    ensures m.change.add in AddsOf(k, sets[m.id]) && |m.change.add.cards| > 0
    decreases |sets|
  {
    var n := |sets| - 1;
    if m in SetAdds(k, pid, sets[..n]) {
      SetAddsSound(k, pid, sets[..n], m);
      assert sets[..n][m.id] == sets[m.id];
    }
  }

  /** A player's extension candidate is a non-empty extension `iter_extends` yields for one of its runs. */
  lemma RunExtendsSound(k: Counts, pid: int, runs: seq<Run>, m: Mutation)
    requires AllInRange(runs) && RunExtends(k, pid, runs).Ok? && m in RunExtends(k, pid, runs).value
    ensures m.pid == pid && m.change.ExtendBy? && m.id < |runs|
    ensures ExtendsOf(k, runs[m.id]).Ok? && m.change.ext in ExtendsOf(k, runs[m.id]).value
    ensures |ExtendCards(m.change.ext)| > 0
  {
    var fs := ExtendsList(k, runs);
    CollectSound(pid, fs, m);
    assert fs[m.id] == ExtendsOf(k, runs[m.id]);
  }

  /** Every collected extension is a non-empty one found for its run. */
  lemma {:induction false} CollectSound(pid: int, fs: seq<Result<seq<Extend>, Error>>, m: Mutation)
    requires Collect(pid, fs).Ok? && m in Collect(pid, fs).value
    ensures m.pid == pid && m.change.ExtendBy? && m.id < |fs|
    ensures fs[m.id].Ok? && m.change.ext in fs[m.id].value && |ExtendCards(m.change.ext)| > 0
    decreases |fs|
  {
    var n := |fs| - 1;
    var prev := Collect(pid, fs[..n]);
    if m in prev.value {
      CollectSound(pid, fs[..n], m);
      assert fs[..n][m.id] == fs[m.id];
    } else {
      assert m in NonEmptyExtends(pid, n, fs[n].value);
    }
  }

  /** The add candidates of all players. */
  lemma {:induction false} AllAddsSound(k: Counts, melds: seq<(int, Meld)>, m: Mutation) returns (p: nat)
    requires m in AllAdds(k, melds)
    ensures p < |melds| && melds[p].0 == m.pid && m.change.AddTo? && m.id < |melds[p].1.sets|
    ensures m.change.add in AddsOf(k, melds[p].1.sets[m.id]) && |m.change.add.cards| > 0
    decreases |melds|
  {
    var n := |melds| - 1;
    if m in AllAdds(k, melds[..n]) {
      p := AllAddsSound(k, melds[..n], m);
      assert melds[..n][p] == melds[p];
    } else {
      p := n;
      SetAddsSound(k, melds[n].0, melds[n].1.sets, m);
    }
  }

  /** The extension candidates of all players. */
  lemma {:induction false} AllExtendsSound(k: Counts, melds: seq<(int, Meld)>, m: Mutation) returns (p: nat)
    requires MeldsInRange(melds) && AllExtends(k, melds).Ok? && m in AllExtends(k, melds).value
    ensures p < |melds| && melds[p].0 == m.pid && m.change.ExtendBy? && m.id < |melds[p].1.runs|
    ensures RunInRange(melds[p].1.runs[m.id])
    ensures ExtendsOf(k, melds[p].1.runs[m.id]).Ok?
    ensures m.change.ext in ExtendsOf(k, melds[p].1.runs[m.id]).value && |ExtendCards(m.change.ext)| > 0
    decreases |melds|
  {
    var n := |melds| - 1;
    if m in AllExtends(k, melds[..n]).value {
      p := AllExtendsSound(k, melds[..n], m);
      assert melds[..n][p] == melds[p];
    } else {
      p := n;
      RunExtendsSound(k, melds[n].0, melds[n].1.runs, m);
    }
  }

  /**
   * Every candidate changes a set or run of some player's meld by cards `iter_adds` or
   * `iter_extends` offers for it, and takes at least one card.
   */
  lemma CandidatesSound(k: Counts, melds: seq<(int, Meld)>, m: Mutation) returns (p: nat)
    requires MeldsInRange(melds) && CandidatesOf(k, melds).Ok? && m in CandidatesOf(k, melds).value
    ensures p < |melds| && melds[p].0 == m.pid && |ChangeCards(m.change)| > 0
    ensures m.change.AddTo? ==>
      m.id < |melds[p].1.sets| && m.change.add in AddsOf(k, melds[p].1.sets[m.id])
    ensures m.change.ExtendBy? ==>
      m.id < |melds[p].1.runs| && RunInRange(melds[p].1.runs[m.id]) &&
      ExtendsOf(k, melds[p].1.runs[m.id]).Ok? && m.change.ext in ExtendsOf(k, melds[p].1.runs[m.id]).value
  {
    if m in AllAdds(k, melds) {
      p := AllAddsSound(k, melds, m);
    } else {
      p := AllExtendsSound(k, melds, m);
    }
  }

  // ---------------------------------------------------------------------------
  // Building one update
  // ---------------------------------------------------------------------------

  /** The corrected grouping: adds keyed by set index, extensions keyed by run index, apart. */
  function Apply(u: MeldUpdate, m: Mutation): MeldUpdate
  {
    match m.change
    case AddTo(a) => u.(adds := u.adds[m.id := a])
    case ExtendBy(e) => u.(runExtends := u.runExtends[m.id := e])
  }

  /** The update of every player a combination touches; a later change of a key wins. */
  function UpdatesFor(comb: seq<Mutation>): map<int, MeldUpdate>
    decreases |comb|
  {
    if comb == [] then map[]
    else
      var n := |comb| - 1;
      var u := UpdatesFor(comb[..n]);
      var m := comb[n];
      u[m.pid := Apply(if m.pid in u then u[m.pid] else MeldUpdate(map[], map[]), m)]
  }

  /** The corrected grouping has an update for exactly the players the combination touches. */
  lemma {:induction false} UpdatesForPlayers(comb: seq<Mutation>)
    ensures forall pid :: pid in UpdatesFor(comb) <==> exists i :: 0 <= i < |comb| && comb[i].pid == pid
    decreases |comb|
  {
    if comb != [] {
      var n := |comb| - 1;
      UpdatesForPlayers(comb[..n]);
      assert forall i :: 0 <= i < n ==> comb[..n][i] == comb[i];
    }
  }

  /** The corrected grouping records each change of the combination under its player and index. */
  lemma {:induction false} UpdatesForComplete(comb: seq<Mutation>)
    ensures forall i :: 0 <= i < |comb| ==> comb[i].pid in UpdatesFor(comb)
    ensures forall i :: 0 <= i < |comb| && comb[i].change.AddTo? ==>
      comb[i].id in UpdatesFor(comb)[comb[i].pid].adds
    ensures forall i :: 0 <= i < |comb| && comb[i].change.ExtendBy? ==>
      comb[i].id in UpdatesFor(comb)[comb[i].pid].runExtends
    decreases |comb|
  {
    if comb != [] {
      var n := |comb| - 1;
      UpdatesForComplete(comb[..n]);
      assert forall i :: 0 <= i < n ==> comb[..n][i] == comb[i];
    }
  }

  /** Every add and extension the corrected grouping records is a change of the combination. */
  lemma {:induction false} UpdatesForSound(comb: seq<Mutation>)
    ensures forall pid, id :: pid in UpdatesFor(comb) && id in UpdatesFor(comb)[pid].adds ==>
      Mutation(pid, id, AddTo(UpdatesFor(comb)[pid].adds[id])) in comb
    ensures forall pid, id :: pid in UpdatesFor(comb) && id in UpdatesFor(comb)[pid].runExtends ==>
      Mutation(pid, id, ExtendBy(UpdatesFor(comb)[pid].runExtends[id])) in comb
    decreases |comb|
  {
    if comb != [] {
      var n := |comb| - 1;
      UpdatesForSound(comb[..n]);
      assert comb == comb[..n] + [comb[n]];
    }
  }

  /**
   * The grouping as written: `updates[pid][combo_id] = combo` keys adds and extensions of one
   * player by their index in the same dictionary, then splits them by kind.
   */
  function GroupedAsWritten(comb: seq<Mutation>): map<int, map<nat, Change>>
    decreases |comb|
  {
    if comb == [] then map[]
    else
      var n := |comb| - 1;
      var g := GroupedAsWritten(comb[..n]);
      var m := comb[n];
      g[m.pid := (if m.pid in g then g[m.pid] else map[])[m.id := m.change]]
  }

  /** `MeldUpdate(adds=..., extends=...)` of one player's changes, split by kind. */
  function Split(row: map<nat, Change>): MeldUpdate
  {
    MeldUpdate(
      map id | id in row && row[id].AddTo? :: row[id].add,
      map id | id in row && row[id].ExtendBy? :: row[id].ext)
  }

  function UpdatesAsWritten(comb: seq<Mutation>): map<int, MeldUpdate>
  {
    var g := GroupedAsWritten(comb);
    map pid | pid in g :: Split(g[pid])
  }

  /** No player has an add and an extension under the same index. */
  predicate NoSharedIndex(comb: seq<Mutation>)
  {
    forall i, j :: 0 <= i < |comb| && 0 <= j < |comb| && comb[i].pid == comb[j].pid && comb[i].id == comb[j].id ==>
      comb[i].change.AddTo? == comb[j].change.AddTo?
  }

  /**
   * The two groupings differ only on the collision: when no player has an add and an
   * extension under the same index, the grouping as written is the corrected one.
   */
  lemma UpdatesAsWrittenAgrees(comb: seq<Mutation>)
    requires NoSharedIndex(comb)
    ensures UpdatesAsWritten(comb) == UpdatesFor(comb)
  {
    GroupingsAgree(comb);
  }

  lemma {:induction false} GroupingsAgree(comb: seq<Mutation>)
    requires NoSharedIndex(comb)
    ensures var g := GroupedAsWritten(comb);
      (forall pid :: pid in g <==> pid in UpdatesFor(comb)) &&
      (forall pid :: pid in g ==> UpdatesFor(comb)[pid] == Split(g[pid]))
    decreases |comb|
  {
    if comb != [] {
      var n := |comb| - 1;
      var init, m := comb[..n], comb[n];
      assert forall i :: 0 <= i < n ==> init[i] == comb[i];
      GroupingsAgree(init);
      GroupedAsWrittenSound(init);
      var g := GroupedAsWritten(init);
      var row := if m.pid in g then g[m.pid] else map[];
      if m.id in row {
        var j :| 0 <= j < n && init[j] == Mutation(m.pid, m.id, row[m.id]);
        assert comb[j].pid == comb[n].pid && comb[j].id == comb[n].id;
      }
      SplitApply(row, m);
    }
  }

  /** Every change the grouping as written keeps comes from the combination. */
  lemma {:induction false} GroupedAsWrittenSound(comb: seq<Mutation>)
    ensures forall pid, id :: pid in GroupedAsWritten(comb) && id in GroupedAsWritten(comb)[pid] ==>
      Mutation(pid, id, GroupedAsWritten(comb)[pid][id]) in comb
    decreases |comb|
  {
    if comb != [] {
      var n := |comb| - 1;
      GroupedAsWrittenSound(comb[..n]);
      var g, g' := GroupedAsWritten(comb[..n]), GroupedAsWritten(comb);
      forall pid, id | pid in g' && id in g'[pid]
        ensures Mutation(pid, id, g'[pid][id]) in comb
      {
        if pid == comb[n].pid && id == comb[n].id {
          assert g'[pid][id] == comb[n].change;
        } else {
          assert pid in g && id in g[pid] && g'[pid][id] == g[pid][id];
          assert Mutation(pid, id, g[pid][id]) in comb[..n];
        }
      }
    }
  }

  /** Recording a change of the kind already under its index updates the split as `Apply` does. */
  lemma SplitApply(row: map<nat, Change>, m: Mutation)
    requires m.id in row ==> row[m.id].AddTo? == m.change.AddTo?
    ensures Split(row[m.id := m.change]) == Apply(Split(row), m)
  {
    var r := row[m.id := m.change];
    match m.change {
      case AddTo(a) =>
        assert Split(r).adds == Split(row).adds[m.id := a];
        assert Split(r).runExtends == Split(row).runExtends;
      case ExtendBy(e) =>
        assert Split(r).adds == Split(row).adds;
        assert Split(r).runExtends == Split(row).runExtends[m.id := e];
    }
  }

  /**
   * As written, an add to set 0 and an extension of run 0 of the same player share the key 0:
   * the extension replaces the add, whose cards were taken but which the update drops. The
   * corrected grouping keeps both.
   */
  lemma AddLostToExtend()
    ensures
      var a := Add([Natural(5, Club)]);
      var e := Extend([], [Natural(9, Heart)]);
      var comb := [Mutation(0, 0, AddTo(a)), Mutation(0, 0, ExtendBy(e))];
      UpdatesAsWritten(comb) == map[0 := MeldUpdate(map[], map[0 := e])] &&
      UpdatesFor(comb) == map[0 := MeldUpdate(map[0 := a], map[0 := e])]
  {
    var a := Add([Natural(5, Club)]);
    var e := Extend([], [Natural(9, Heart)]);
    var comb := [Mutation(0, 0, AddTo(a)), Mutation(0, 0, ExtendBy(e))];
    assert comb[..1] == [Mutation(0, 0, AddTo(a))] && comb[..1][..0] == [];
    var g0: map<int, map<nat, Change>> := map[];
    assert GroupedAsWritten(comb[..1][..0]) == g0;
    var g1 := GroupedAsWritten(comb[..1]);
    assert g1 == g0[0 := map[0 := AddTo(a)]];
    assert UpdatesFor(comb[..1]) == map[0 := MeldUpdate(map[0 := a], map[])];
    var g := GroupedAsWritten(comb);
    assert g == g1[0 := g1[0][0 := ExtendBy(e)]];
    assert g1[0][0 := ExtendBy(e)] == map[0 := ExtendBy(e)];
    assert g == map[0 := map[0 := ExtendBy(e)]];
    var u := UpdatesAsWritten(comb);
    assert u[0].adds == map[];
    assert u[0].runExtends == map[0 := e];
  }

  // ---------------------------------------------------------------------------
  // The combinations
  // ---------------------------------------------------------------------------

  /** One combination: an update when the hand holds all of its cards together. */
  function UpdateStep(k: Counts): seq<Mutation> -> seq<map<int, MeldUpdate>>
  {
    comb => if TakeAll(k, Flatten(MutationCombos(comb))).ok then [UpdatesFor(comb)] else []
  }

  /** Every combination of `size` candidates, in `itertools.combinations` order. */
  function SizeStep(k: Counts, muts: seq<Mutation>): nat -> seq<map<int, MeldUpdate>>
  {
    (size: nat) => ConcatMap(Combinations(muts, size), UpdateStep(k))
  }

  /**
   * Everything `iter_updates_multi(hand, melds)` yields, smallest combinations first, with
   * each combination grouped by the corrected `UpdatesFor`.
   */
  function UpdatesOf(k: Counts, melds: seq<(int, Meld)>): Result<seq<map<int, MeldUpdate>>, Error>
    requires MeldsInRange(melds)
  {
    var muts := CandidatesOf(k, melds);
    if muts.Err? then Err(muts.error) else Ok(UpdatesAmong(k, muts.value))
  }

  /** The updates of every combination of the candidates `muts`, smallest combinations first. */
  function UpdatesAmong(k: Counts, muts: seq<Mutation>): seq<map<int, MeldUpdate>>
  {
    ConcatMap(Range(0, |muts| + 1), SizeStep(k, muts))
  }

  /**
   * Each update yielded is the grouping of a combination of the candidates, in their order,
   * whose cards the hand holds all together.
   */
  lemma UpdatesAmongSound(k: Counts, muts: seq<Mutation>, u: map<int, MeldUpdate>) returns (comb: seq<Mutation>)
    requires u in UpdatesAmong(k, muts)
    ensures IsSubseq(comb, muts) && TakeAll(k, Flatten(MutationCombos(comb))).ok && u == UpdatesFor(comb)
  {
    var size := ChoiceOf(Range(0, |muts| + 1), SizeStep(k, muts), u);
    comb := ChoiceOf(Combinations(muts, size), UpdateStep(k), u);
    CombinationsMembers(muts, size, comb);
  }

  /** Every combination of candidates whose cards the hand holds together is yielded. */
  lemma UpdatesAmongComplete(k: Counts, muts: seq<Mutation>, comb: seq<Mutation>)
    requires IsSubseq(comb, muts) && TakeAll(k, Flatten(MutationCombos(comb))).ok
    ensures UpdatesFor(comb) in UpdatesAmong(k, muts)
  {
    SubseqLength(comb, muts);
    CombinationsMembers(muts, |comb|, comb);
    var sizes := Range(0, |muts| + 1);
    assert sizes[|comb|] == |comb|;
    ConcatMapWitness(Combinations(muts, |comb|), UpdateStep(k), comb, UpdatesFor(comb));
    ConcatMapWitness<nat, map<int, MeldUpdate>>(sizes, SizeStep(k, muts), |comb|, UpdatesFor(comb));
  }

  /** The first update yielded is the empty one: no candidates, nothing taken. */
  lemma UpdatesAmongFirst(k: Counts, muts: seq<Mutation>)
    ensures |UpdatesAmong(k, muts)| >= 1 && UpdatesAmong(k, muts)[0] == map[]
  {
    var sizes := Range(0, |muts| + 1);
    ConcatMapFirst(sizes, SizeStep(k, muts));
    var none: seq<Mutation> := [];
    assert Combinations(muts, 0) == [none];
    ConcatMapFirst(Combinations(muts, 0), UpdateStep(k));
    assert MutationCombos(none) == [] && Flatten([]) == [];
  }

  // ---------------------------------------------------------------------------
  // The generator
  // ---------------------------------------------------------------------------

  /**
   * `iter_updates_multi(hand, melds)`: collects the candidates, then tries every combination
   * of them with `take_committed(..., commit=False)`, which leaves the hand as it was. The
   * updates use the corrected grouping.
   */
  method IterUpdatesMulti(h: IndexedHand, melds: seq<(int, Meld)>) returns (r: Result<seq<map<int, MeldUpdate>>, Error>)
    requires h.Valid() && NothingPending(h.hand.stack) && MeldsInRange(melds)
    modifies h.Repr
    ensures h.Valid() && h.Snapshot() == old(h.Snapshot()) && h.hand.stack == old(h.hand.stack)
    ensures r == UpdatesOf(old(h.Snapshot()), melds)
  {
    var candidates := Candidates(h, melds);
    if candidates.Err? {
      return Err(candidates.error);
    }
    var found := UpdatesFrom(h, candidates.value);
    return Ok(found);
  }

  /** The two nested loops over sizes and combinations. */
  method UpdatesFrom(h: IndexedHand, muts: seq<Mutation>) returns (found: seq<map<int, MeldUpdate>>)
    requires h.Valid() && NothingPending(h.hand.stack)
    modifies h.Repr
    ensures h.Valid() && h.Snapshot() == old(h.Snapshot()) && h.hand.stack == old(h.hand.stack)
    ensures found == UpdatesAmong(old(h.Snapshot()), muts)
  {
    ghost var k0 := h.Snapshot();
    var sizes := Range(0, |muts| + 1);
    found := [];
    var i := 0;
    ghost var stack0 := h.hand.stack;
    assert |stack0| > 0 && stack0[|stack0| - 1] == None;
    while i < |sizes|
      invariant 0 <= i <= |sizes|
      invariant h.Valid() && h.Snapshot() == k0 && h.hand.stack == stack0
      invariant found == ConcatMap(sizes[..i], SizeStep(k0, muts))
    {
      var more := UpdatesOfSize(h, muts, sizes[i]);
      SizesNext(k0, muts, sizes, i, found, more);
      found := found + more;
      i := i + 1;
    }
    assert sizes[..i] == sizes;
  }

  /** One more size: its combinations follow the smaller ones. */
  lemma SizesNext(k: Counts, muts: seq<Mutation>, sizes: seq<nat>, i: nat,
                  found: seq<map<int, MeldUpdate>>, more: seq<map<int, MeldUpdate>>)
    requires i < |sizes| && found == ConcatMap(sizes[..i], SizeStep(k, muts))
    requires more == ConcatMap(Combinations(muts, sizes[i]), UpdateStep(k))
    ensures found + more == ConcatMap(sizes[..i + 1], SizeStep(k, muts))
  {
    ConcatMapNext(sizes, SizeStep(k, muts), i);
  }

  /** The inner loop: every combination of `size` candidates. */
  method UpdatesOfSize(h: IndexedHand, muts: seq<Mutation>, size: nat) returns (found: seq<map<int, MeldUpdate>>)
    requires h.Valid() && NothingPending(h.hand.stack)
    modifies h.Repr
    ensures h.Valid() && h.Snapshot() == old(h.Snapshot()) && h.hand.stack == old(h.hand.stack)
    ensures found == ConcatMap(Combinations(muts, size), UpdateStep(old(h.Snapshot())))
  {
    ghost var k0 := h.Snapshot();
    var combs := Combinations(muts, size);
    found := [];
    var i := 0;
    while i < |combs|
      invariant 0 <= i <= |combs|
      invariant h.Valid() && h.Snapshot() == k0 && h.hand.stack == old(h.hand.stack)
      invariant found == ConcatMap(combs[..i], UpdateStep(k0))
    {
      ConcatMapNext(combs, UpdateStep(k0), i);
      var ok := TakeCommitted(h, MutationCombos(combs[i]), false);
      if ok {
        found := found + [UpdatesFor(combs[i])];
      }
      i := i + 1;
    }
    assert combs[..i] == combs;
  }

  /** The loop over the players that collects the candidates before any is tried. */
  method Candidates(h: IndexedHand, melds: seq<(int, Meld)>) returns (r: Result<seq<Mutation>, Error>)
    requires h.Valid() && MeldsInRange(melds)
    ensures r == CandidatesOf(h.Snapshot(), melds)
  {
    ghost var k := h.Snapshot();
    var adds := [];
    var exts := [];
    var i := 0;
    while i < |melds|
      invariant 0 <= i <= |melds|
      invariant adds == AllAdds(k, melds[..i])
      invariant AllExtends(k, melds[..i]) == Ok(exts)
    {
      var (pid, meld) := melds[i];
      var more := PlayerAdds(h, pid, meld.sets);
      var grown := PlayerExtends(h, pid, meld.runs);
      PlayersNext(k, melds, i, adds, exts, more, grown);
      if grown.Err? {
        return Err(grown.error);
      }
      adds := adds + more;
      exts := exts + grown.value;
      i := i + 1;
    }
    assert melds[..i] == melds;
    return Ok(adds + exts);
  }

  /** One more player: its adds and extensions follow the earlier players'; its error ends all. */
  lemma PlayersNext(k: Counts, melds: seq<(int, Meld)>, i: nat, adds: seq<Mutation>, exts: seq<Mutation>,
                    more: seq<Mutation>, grown: Result<seq<Mutation>, Error>)
    requires MeldsInRange(melds) && i < |melds|
    requires adds == AllAdds(k, melds[..i]) && AllExtends(k, melds[..i]) == Ok(exts)
    requires more == SetAdds(k, melds[i].0, melds[i].1.sets)
    requires grown == RunExtends(k, melds[i].0, melds[i].1.runs)
    ensures adds + more == AllAdds(k, melds[..i + 1])
    ensures grown.Ok? ==> AllExtends(k, melds[..i + 1]) == Ok(exts + grown.value)
    ensures grown.Err? ==> CandidatesOf(k, melds) == Err(grown.error)
  {
    assert melds[..i + 1][..i] == melds[..i] && melds[..i + 1][i] == melds[i];
    if grown.Err? {
      AllExtendsPrefixErr(k, melds, i + 1);
    }
  }

  /** Once the players up to `j` fail, all of them fail alike. */
  lemma {:induction false} AllExtendsPrefixErr(k: Counts, melds: seq<(int, Meld)>, j: nat)
    requires MeldsInRange(melds) && j <= |melds| && AllExtends(k, melds[..j]).Err?
    ensures AllExtends(k, melds) == AllExtends(k, melds[..j])
    decreases |melds| - j
  {
    if j < |melds| {
      assert melds[..j + 1][..j] == melds[..j];
      AllExtendsPrefixErr(k, melds, j + 1);
    } else {
      assert melds[..j] == melds;
    }
  }

  /** The adds of one player: `iter_adds` for each of its sets. */
  method PlayerAdds(h: IndexedHand, pid: int, sets: seq<Set>) returns (adds: seq<Mutation>)
    requires h.Valid()
    ensures adds == SetAdds(h.Snapshot(), pid, sets)
  {
    adds := [];
    var i := 0;
    while i < |sets|
      invariant 0 <= i <= |sets|
      invariant adds == SetAdds(h.Snapshot(), pid, sets[..i])
    {
      assert sets[..i + 1][..i] == sets[..i] && sets[..i + 1][i] == sets[i];
      var found := IterAdds(h, sets[i]);
      adds := adds + NonEmptyAdds(pid, i, found);
      i := i + 1;
    }
    assert sets[..i] == sets;
  }

  /** The extensions of one player: `iter_extends` for each of its runs. */
  method PlayerExtends(h: IndexedHand, pid: int, runs: seq<Run>) returns (r: Result<seq<Mutation>, Error>)
    requires h.Valid() && AllInRange(runs)
    ensures r == RunExtends(h.Snapshot(), pid, runs)
  {
    ghost var fs := ExtendsList(h.Snapshot(), runs);
    var exts := [];
    var i := 0;
    while i < |runs|
      invariant 0 <= i <= |runs|
      invariant Collect(pid, fs[..i]) == Ok(exts)
    {
      var found := IterExtends(h, runs[i]);
      assert found == fs[i];
      RunsNext(pid, fs, i, exts);
      if found.Err? {
        return Err(found.error);
      }
      exts := exts + NonEmptyExtends(pid, i, found.value);
      i := i + 1;
    }
    assert fs[..i] == fs;
    return Ok(exts);
  }

  /** One more run: its extensions follow the earlier runs'; its error ends the player's. */
  lemma RunsNext(pid: int, fs: seq<Result<seq<Extend>, Error>>, i: nat, exts: seq<Mutation>)
    requires i < |fs| && Collect(pid, fs[..i]) == Ok(exts)
    ensures fs[i].Ok? ==> Collect(pid, fs[..i + 1]) == Ok(exts + NonEmptyExtends(pid, i, fs[i].value))
    ensures fs[i].Err? ==> Collect(pid, fs) == Err(fs[i].error)
  {
    assert fs[..i + 1][..i] == fs[..i];
    if fs[i].Err? {
      CollectPrefixErr(pid, fs, i + 1);
    }
  }

  /** Once the runs up to `j` fail, the whole player fails alike. */
  lemma {:induction false} CollectPrefixErr(pid: int, fs: seq<Result<seq<Extend>, Error>>, j: nat)
    requires j <= |fs| && Collect(pid, fs[..j]).Err?
    ensures Collect(pid, fs) == Collect(pid, fs[..j])
    decreases |fs| - j
  {
    if j < |fs| {
      assert fs[..j + 1][..j] == fs[..j];
      CollectPrefixErr(pid, fs, j + 1);
    } else {
      assert fs[..j] == fs;
    }
  }
}
