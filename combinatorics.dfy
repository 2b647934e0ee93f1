/**
 * liverpool/combinatorics.py: `uniq` (drop adjacent repeats), `sort_uniq` and
 * `unique_combinations`, together with `itertools.combinations` and Python's stable
 * `sorted(..., key=...)`, on which they are built.
 */
module Combinatorics {
  import opened Wrappers
  import opened Lex

  // ---------------------------------------------------------------------------
  // uniq
  // ---------------------------------------------------------------------------

  /** What `uniq` yields for the rest `xs` of its input when the last value it yielded is `last`. */
  function UniqAfter<T(==)>(last: Option<T>, xs: seq<T>): seq<T>
    decreases |xs|
  {
    if xs == [] then []
    else if last == Some(xs[0]) then UniqAfter(last, xs[1..])
    else [xs[0]] + UniqAfter(Some(xs[0]), xs[1..])
  }

  /** The sequence `uniq(xs)` yields: `last` starts out as `None`. */
  function UniqOf<T(==)>(xs: seq<T>): seq<T>
  {
    UniqAfter(None, xs)
  }

  /** The generator `uniq`, run to completion. */
  method Uniq<T(==)>(xs: seq<T>) returns (ys: seq<T>)
    ensures ys == UniqOf(xs)
  {
    var last: Option<T> := None;
    ys := [];
    var i := 0;
    while i < |xs|
      invariant 0 <= i <= |xs|
      invariant ys + UniqAfter(last, xs[i..]) == UniqOf(xs)
    {
      var comb := xs[i];
      assert xs[i..][1..] == xs[i + 1..];
      if Some(comb) == last {
        i := i + 1;
        continue;
      }
      ys := ys + [comb];
      last := Some(comb);
      i := i + 1;
    }
    assert xs[i..] == [];
  }

  predicate NoAdjacentRepeats<T(==)>(s: seq<T>)
  {
    forall i :: 0 <= i < |s| - 1 ==> s[i] != s[i + 1]
  }

  /** `a` is an order-preserving subsequence of `b`. */
  predicate IsSubseq<T(==)>(a: seq<T>, b: seq<T>)
    decreases |b|
  {
    |a| == 0 || (|b| > 0 && ((a[0] == b[0] && IsSubseq(a[1..], b[1..])) || IsSubseq(a, b[1..])))
  }

  lemma {:induction false} UniqAfterShape<T>(last: Option<T>, xs: seq<T>)
    ensures NoAdjacentRepeats(UniqAfter(last, xs))
    ensures UniqAfter(last, xs) != [] && last.Some? ==> UniqAfter(last, xs)[0] != last.value
    ensures IsSubseq(UniqAfter(last, xs), xs)
    decreases |xs|
  {
    if xs != [] {
      UniqAfterShape(last, xs[1..]);
      UniqAfterShape(Some(xs[0]), xs[1..]);
      var r := UniqAfter(last, xs);
      if last != Some(xs[0]) {
        var t := UniqAfter(Some(xs[0]), xs[1..]);
        assert r == [xs[0]] + t;
        assert r[1..] == t;
        forall i | 0 <= i < |r| - 1
          ensures r[i] != r[i + 1]
        {
          if i > 0 {
            assert r[i] == t[i - 1] && r[i + 1] == t[i];
          }
        }
      } else {
        SubseqOfTail(r, xs);
      }
    }
  }

  lemma {:induction false} SubseqOfTail<T>(a: seq<T>, b: seq<T>)
    requires |b| > 0 && IsSubseq(a, b[1..])
    ensures IsSubseq(a, b)
  {
  }

  /** `uniq` never yields two equal values in a row. */
  lemma UniqNoAdjacentRepeats<T>(xs: seq<T>)
    ensures NoAdjacentRepeats(UniqOf(xs))
  {
    UniqAfterShape(None, xs);
  }

  /** What `uniq` yields is a subsequence of its input. */
  lemma UniqIsSubseq<T>(xs: seq<T>)
    ensures IsSubseq(UniqOf(xs), xs)
  {
    UniqAfterShape(None, xs);
  }

  lemma {:induction false} UniqAfterMembers<T>(last: Option<T>, xs: seq<T>)
    ensures forall x :: x in UniqAfter(last, xs) ==> x in xs
    ensures forall x :: x in xs ==> x in UniqAfter(last, xs) || last == Some(x)
    decreases |xs|
  {
    if xs != [] {
      UniqAfterMembers(last, xs[1..]);
      UniqAfterMembers(Some(xs[0]), xs[1..]);
      assert xs == [xs[0]] + xs[1..];
    }
  }

  lemma UniqMember<T>(xs: seq<T>, x: T)
    ensures x in UniqOf(xs) <==> x in xs
  {
    UniqAfterMembers(None, xs);
  }

  /** Every value of the input is yielded by `uniq`, and only those values. */
  lemma UniqMembers<T>(xs: seq<T>)
    ensures forall x :: x in UniqOf(xs) <==> x in xs
  {
    UniqAfterMembers(None, xs);
  }

  lemma {:induction false} UniqAfterFixed<T>(last: Option<T>, s: seq<T>)
    requires NoAdjacentRepeats(s)
    requires s != [] && last.Some? ==> s[0] != last.value
    ensures UniqAfter(last, s) == s
    decreases |s|
  {
    if s != [] {
      assert NoAdjacentRepeats(s[1..]) by {
        forall i | 0 <= i < |s[1..]| - 1
          ensures s[1..][i] != s[1..][i + 1]
        {
          assert s[1..][i] == s[i + 1] && s[1..][i + 1] == s[i + 2];
        }
      }
      if |s| > 1 {
        assert s[1..][0] == s[1];
      }
      UniqAfterFixed(Some(s[0]), s[1..]);
      assert s == [s[0]] + s[1..];
    }
  }

  /** `uniq` is idempotent. */
  lemma UniqIdempotent<T>(xs: seq<T>)
    ensures UniqOf(UniqOf(xs)) == UniqOf(xs)
  {
    UniqNoAdjacentRepeats(xs);
    UniqAfterFixed(None, UniqOf(xs));
  }

  // ---------------------------------------------------------------------------
  // Order by a key, sorting
  // ---------------------------------------------------------------------------

  predicate SortedBy<T>(s: seq<T>, key: T -> seq<int>)
  {
    forall i, j :: 0 <= i < j < |s| ==> LexLe(key(s[i]), key(s[j]))
  }

  predicate StrictlySortedBy<T>(s: seq<T>, key: T -> seq<int>)
  {
    forall i, j :: 0 <= i < j < |s| ==> LexLt(key(s[i]), key(s[j]))
  }

  /** The key tells apart any two distinct values of `xs`. */
  predicate InjectiveOn<T(==)>(xs: seq<T>, key: T -> seq<int>)
  {
    forall x, y :: x in xs && y in xs && key(x) == key(y) ==> x == y
  }

  lemma SortedCons<T>(h: T, t: seq<T>, key: T -> seq<int>)
    requires SortedBy(t, key)
    requires forall y :: y in t ==> LexLe(key(h), key(y))
    ensures SortedBy([h] + t, key)
  {
    var s := [h] + t;
    forall i, j | 0 <= i < j < |s|
      ensures LexLe(key(s[i]), key(s[j]))
    {
      assert s[j] == t[j - 1];
      if i > 0 {
        assert s[i] == t[i - 1];
      }
    }
  }

  lemma {:induction false} UniqAfterSorted<T>(last: Option<T>, xs: seq<T>, key: T -> seq<int>)
    requires SortedBy(xs, key)
    ensures SortedBy(UniqAfter(last, xs), key)
    decreases |xs|
  {
    if xs != [] {
      assert SortedBy(xs[1..], key) by {
        forall i, j | 0 <= i < j < |xs[1..]|
          ensures LexLe(key(xs[1..][i]), key(xs[1..][j]))
        {
          assert xs[1..][i] == xs[i + 1] && xs[1..][j] == xs[j + 1];
        }
      }
      UniqAfterSorted(last, xs[1..], key);
      UniqAfterSorted(Some(xs[0]), xs[1..], key);
      if last != Some(xs[0]) {
        var t := UniqAfter(Some(xs[0]), xs[1..]);
        UniqAfterMembers(Some(xs[0]), xs[1..]);
        forall y | y in t
          ensures LexLe(key(xs[0]), key(y))
        {
          var k :| 0 <= k < |xs[1..]| && xs[1..][k] == y;
          assert xs[k + 1] == y;
        }
        SortedCons(xs[0], t, key);
      }
    }
  }

  lemma StrictFromSortedDistinct<T>(s: seq<T>, key: T -> seq<int>)
    requires SortedBy(s, key) && NoAdjacentRepeats(s) && InjectiveOn(s, key)
    ensures StrictlySortedBy(s, key)
  {
    forall i, j | 0 <= i < j < |s|
      ensures LexLt(key(s[i]), key(s[j]))
    {
      if key(s[i]) == key(s[j]) {
        assert LexLe(key(s[i]), key(s[i + 1])) && LexLe(key(s[i + 1]), key(s[j]));
        LexLeAntisymmetric(key(s[i]), key(s[i + 1]));
        assert false;
      }
    }
  }

  /** On input sorted by an injective key, `uniq` yields a strictly increasing sequence. */
  lemma UniqOfSortedIsStrict<T>(xs: seq<T>, key: T -> seq<int>)
    requires SortedBy(xs, key) && InjectiveOn(xs, key)
    ensures StrictlySortedBy(UniqOf(xs), key)
  {
    UniqAfterSorted(None, xs, key);
    UniqNoAdjacentRepeats(xs);
    UniqMembers(xs);
    assert InjectiveOn(UniqOf(xs), key) by {
      forall x, y | x in UniqOf(xs) && y in UniqOf(xs) && key(x) == key(y)
        ensures x == y
      {
        UniqMember(xs, x);
        UniqMember(xs, y);
      }
    }
    StrictFromSortedDistinct(UniqOf(xs), key);
  }

  /** Inserts `x` after every element whose key is not greater: a stable insertion. */
  function InsertBy<T>(x: T, s: seq<T>, key: T -> seq<int>): seq<T>
    decreases |s|
  {
    if s == [] then [x]
    else if LexLt(key(x), key(s[0])) then [x] + s
    else [s[0]] + InsertBy(x, s[1..], key)
  }

  /** Python's stable `sorted(xs, key=key)`. */
  function SortBy<T>(xs: seq<T>, key: T -> seq<int>): seq<T>
    decreases |xs|
  {
    if xs == [] then [] else InsertBy(xs[|xs| - 1], SortBy(xs[..|xs| - 1], key), key)
  }

  lemma {:induction false} InsertByProps<T>(x: T, s: seq<T>, key: T -> seq<int>)
    requires SortedBy(s, key)
    ensures multiset(InsertBy(x, s, key)) == multiset(s) + multiset{x}
    ensures SortedBy(InsertBy(x, s, key), key)
    decreases |s|
  {
    if s != [] {
      assert SortedBy(s[1..], key) by {
        forall i, j | 0 <= i < j < |s[1..]|
          ensures LexLe(key(s[1..][i]), key(s[1..][j]))
        {
          assert s[1..][i] == s[i + 1] && s[1..][j] == s[j + 1];
        }
      }
      assert s == [s[0]] + s[1..];
      if LexLt(key(x), key(s[0])) {
        forall y | y in s
          ensures LexLe(key(x), key(y))
        {
          var k :| 0 <= k < |s| && s[k] == y;
          if k > 0 {
            LexLeTransitive(key(x), key(s[0]), key(y));
          }
        }
        SortedCons(x, s, key);
      } else {
        InsertByProps(x, s[1..], key);
        var t := InsertBy(x, s[1..], key);
        NotLeIsLt(key(x), key(s[0]));
        forall y | y in t
          ensures LexLe(key(s[0]), key(y))
        {
          assert y in multiset(t);
          if y != x {
            assert y in multiset(s[1..]);
            var k :| 0 <= k < |s[1..]| && s[1..][k] == y;
            assert s[k + 1] == y;
          }
        }
        SortedCons(s[0], t, key);
      }
    }
  }

  lemma {:induction false} SortByProps<T>(xs: seq<T>, key: T -> seq<int>)
    ensures multiset(SortBy(xs, key)) == multiset(xs)
    ensures SortedBy(SortBy(xs, key), key)
    decreases |xs|
  {
    if xs != [] {
      var init := xs[..|xs| - 1];
      SortByProps(init, key);
      InsertByProps(xs[|xs| - 1], SortBy(init, key), key);
      assert xs == init + [xs[|xs| - 1]];
    }
  }

  // ---------------------------------------------------------------------------
  // sort_uniq
  // ---------------------------------------------------------------------------

  /** `sort_uniq(values, key=key)`: sort, then drop adjacent repeats. */
  function SortUniq<T(==)>(xs: seq<T>, key: T -> seq<int>): seq<T>
  {
    UniqOf(SortBy(xs, key))
  }

  lemma SortByMember<T>(xs: seq<T>, key: T -> seq<int>, x: T)
    ensures x in SortBy(xs, key) <==> x in xs
  {
    SortByProps(xs, key);
    assert x in SortBy(xs, key) <==> x in multiset(SortBy(xs, key));
    assert x in xs <==> x in multiset(xs);
  }

  lemma SortUniqMember<T>(xs: seq<T>, key: T -> seq<int>, x: T)
    ensures x in SortUniq(xs, key) <==> x in xs
  {
    SortByMember(xs, key, x);
    UniqMember(SortBy(xs, key), x);
  }

  /**
   * `sort_uniq` returns a sorted sequence without repeats holding exactly the input's
   * values (when the key tells the input's values apart).
   */
  lemma SortUniqProps<T>(xs: seq<T>, key: T -> seq<int>)
    ensures forall x :: x in SortUniq(xs, key) <==> x in xs
    ensures InjectiveOn(xs, key) ==> StrictlySortedBy(SortUniq(xs, key), key)
  {
    forall x
      ensures x in SortUniq(xs, key) <==> x in xs
    {
      SortUniqMember(xs, key, x);
    }
    if InjectiveOn(xs, key) {
      var s := SortBy(xs, key);
      SortByProps(xs, key);
      forall x, y | x in s && y in s && key(x) == key(y)
        ensures x == y
      {
        SortByMember(xs, key, x);
        SortByMember(xs, key, y);
      }
      UniqOfSortedIsStrict(s, key);
    }
  }

  /** Two strictly sorted sequences holding the same values are equal. */
  lemma {:induction false} StrictlySortedUnique<T>(a: seq<T>, b: seq<T>, key: T -> seq<int>)
    requires StrictlySortedBy(a, key) && StrictlySortedBy(b, key)
    requires forall x :: x in a <==> x in b
    ensures a == b
    decreases |a|
  {
    if a == [] {
      forall x ensures x !in multiset(b) {
        assert x !in a;
      }
      assert multiset(b) == multiset{};
      assert |b| == |multiset(b)| == 0;
    } else {
      SameHead(a, b, key);
      StrictlySortedTail(a, key);
      StrictlySortedTail(b, key);
      SameMembersTail(a, b, key);
      StrictlySortedUnique(a[1..], b[1..], key);
      assert a == [a[0]] + a[1..] && b == [b[0]] + b[1..];
    }
  }

  /** Strictly sorted sequences with the same values start with the same value. */
  lemma SameHead<T>(a: seq<T>, b: seq<T>, key: T -> seq<int>)
    requires StrictlySortedBy(a, key) && StrictlySortedBy(b, key)
    requires forall x :: x in a <==> x in b
    requires a != []
    ensures b != [] && a[0] == b[0]
  {
    assert a[0] in b;
    var k :| 0 <= k < |b| && b[k] == a[0];
    assert b[0] in a;
    var m :| 0 <= m < |a| && a[m] == b[0];
    if k > 0 && m > 0 {
      assert LexLt(key(b[0]), key(a[0])) && LexLt(key(a[0]), key(b[0]));
      LexLeAntisymmetric(key(a[0]), key(b[0]));
      assert false;
    }
  }

  /** The tail of a strictly sorted sequence is strictly sorted. */
  lemma StrictlySortedTail<T>(a: seq<T>, key: T -> seq<int>)
    requires StrictlySortedBy(a, key) && a != []
    ensures StrictlySortedBy(a[1..], key)
  {
    var a' := a[1..];
    forall i, j | 0 <= i < j < |a'|
      ensures LexLt(key(a'[i]), key(a'[j]))
    {
      assert a'[i] == a[i + 1] && a'[j] == a[j + 1];
    }
  }

  /** With the same head gone, the tails of strictly sorted sequences hold the same values. */
  lemma SameMembersTail<T>(a: seq<T>, b: seq<T>, key: T -> seq<int>)
    requires StrictlySortedBy(a, key) && StrictlySortedBy(b, key)
    requires forall x :: x in a <==> x in b
    requires a != [] && b != [] && a[0] == b[0]
    ensures forall x :: x in a[1..] <==> x in b[1..]
  {
    var a', b' := a[1..], b[1..];
    forall x
      ensures x in a' <==> x in b'
    {
      if x in a' {
        var i :| 0 <= i < |a'| && a'[i] == x;
        assert x == a[i + 1] && x != a[0];
        assert x in b;
        var j :| 0 <= j < |b| && b[j] == x;
        assert j > 0;
        assert b'[j - 1] == x;
      }
      if x in b' {
        var j :| 0 <= j < |b'| && b'[j] == x;
        assert x == b[j + 1] && x != b[0];
        assert x in a;
        var i :| 0 <= i < |a| && a[i] == x;
        assert i > 0;
        assert a'[i - 1] == x;
      }
    }
  }

  /** `sort_uniq` depends only on the set of input values (for an injective key). */
  lemma SortUniqOfSameValues<T>(xs: seq<T>, ys: seq<T>, key: T -> seq<int>)
    requires InjectiveOn(xs, key) && InjectiveOn(ys, key)
    requires forall x :: x in xs <==> x in ys
    ensures SortUniq(xs, key) == SortUniq(ys, key)
  {
    SortUniqProps(xs, key);
    SortUniqProps(ys, key);
    StrictlySortedUnique(SortUniq(xs, key), SortUniq(ys, key), key);
  }

  // ---------------------------------------------------------------------------
  // itertools.combinations and unique_combinations
  // ---------------------------------------------------------------------------

  function Prepend<T>(x: T, cs: seq<seq<T>>): (r: seq<seq<T>>)
    ensures |r| == |cs| && forall i :: 0 <= i < |cs| ==> r[i] == [x] + cs[i]
  {
    seq(|cs|, i requires 0 <= i < |cs| => [x] + cs[i])
  }

  /** `itertools.combinations(xs, n)`, in its order (lexicographic in the positions). */
  function Combinations<T>(xs: seq<T>, n: nat): seq<seq<T>>
    decreases |xs|
  {
    if n == 0 then [[]]
    else if |xs| < n then []
    else Prepend(xs[0], Combinations(xs[1..], n - 1)) + Combinations(xs[1..], n)
  }

  lemma {:induction false} SubseqLength<T>(a: seq<T>, b: seq<T>)
    requires IsSubseq(a, b)
    ensures |a| <= |b|
    decreases |b|
  {
    if |a| > 0 {
      if a[0] == b[0] && IsSubseq(a[1..], b[1..]) {
        SubseqLength(a[1..], b[1..]);
      } else {
        SubseqLength(a, b[1..]);
      }
    }
  }

  lemma PrependMembers<T>(x: T, cs: seq<seq<T>>, c: seq<T>)
    ensures c in Prepend(x, cs) <==> |c| > 0 && c[0] == x && c[1..] in cs
  {
    var r := Prepend(x, cs);
    if c in r {
      var i :| 0 <= i < |r| && r[i] == c;
      assert c[1..] == cs[i];
    }
    if |c| > 0 && c[0] == x && c[1..] in cs {
      var i :| 0 <= i < |cs| && cs[i] == c[1..];
      assert r[i] == c;
    }
  }

  /** Every value of a subsequence occurs in the sequence. */
  lemma {:induction false} SubseqMembers<T>(a: seq<T>, b: seq<T>)
    requires IsSubseq(a, b)
    ensures forall x :: x in a ==> x in b
    decreases |b|
  {
    if |a| > 0 {
      if a[0] == b[0] && IsSubseq(a[1..], b[1..]) {
        SubseqMembers(a[1..], b[1..]);
        assert a == [a[0]] + a[1..] && b == [b[0]] + b[1..];
      } else {
        SubseqMembers(a, b[1..]);
        assert b == [b[0]] + b[1..];
      }
    }
  }

  /** The combinations are exactly the order-preserving subsequences of length n. */
  lemma {:induction false} CombinationsMembers<T>(xs: seq<T>, n: nat, c: seq<T>)
    ensures c in Combinations(xs, n) <==> |c| == n && IsSubseq(c, xs)
    decreases |xs|
  {
    if n == 0 {
    } else if |xs| < n {
      if IsSubseq(c, xs) {
        SubseqLength(c, xs);
      }
    } else {
      var front := Prepend(xs[0], Combinations(xs[1..], n - 1));
      var back := Combinations(xs[1..], n);
      assert Combinations(xs, n) == front + back;
      assert c in Combinations(xs, n) <==> c in front || c in back;
      CombinationsMembers(xs[1..], n, c);
      PrependMembers(xs[0], Combinations(xs[1..], n - 1), c);
      if |c| > 0 {
        CombinationsMembers(xs[1..], n - 1, c[1..]);
      }
    }
  }

  /** `unique_combinations(cards, number)`: the combinations with adjacent repeats dropped. */
  function UniqueCombinations<T(==)>(xs: seq<T>, n: nat): seq<seq<T>>
  {
    UniqOf(Combinations(xs, n))
  }

  /**
   * `unique_combinations` yields order-preserving subsequences of length n, all of them,
   * and removes only adjacent repeats.
   */
  lemma UniqueCombinationsMembers<T>(xs: seq<T>, n: nat)
    ensures forall c :: c in UniqueCombinations(xs, n) <==> |c| == n && IsSubseq(c, xs)
    ensures NoAdjacentRepeats(UniqueCombinations(xs, n))
  {
    UniqMembers(Combinations(xs, n));
    UniqNoAdjacentRepeats(Combinations(xs, n));
    forall c
      ensures c in Combinations(xs, n) <==> |c| == n && IsSubseq(c, xs)
    {
      CombinationsMembers(xs, n, c);
    }
  }

  // ---------------------------------------------------------------------------
  // Nested loops that append to one list
  // ---------------------------------------------------------------------------

  /** `range(lo, hi)`. */
  function Range(lo: nat, hi: nat): (r: seq<nat>)
    ensures |r| == if lo <= hi then hi - lo else 0
    ensures forall i :: 0 <= i < |r| ==> r[i] == lo + i
  {
    if lo >= hi then [] else seq(hi - lo, i requires 0 <= i < hi - lo => lo + i)
  }

  /** Everything `f` yields for each element of `xs` in turn. */
  function ConcatMap<T, U>(xs: seq<T>, f: T -> seq<U>): seq<U>
    decreases |xs|
  {
    if xs == [] then [] else ConcatMap(xs[..|xs| - 1], f) + f(xs[|xs| - 1])
  }

  /** One more pass of the loop appends what `f` yields for the next element. */
  lemma ConcatMapNext<T, U>(xs: seq<T>, f: T -> seq<U>, i: nat)
    requires i < |xs|
    ensures ConcatMap(xs[..i + 1], f) == ConcatMap(xs[..i], f) + f(xs[i])
  {
    assert xs[..i + 1][..i] == xs[..i];
  }

  /** A value is yielded exactly when `f` yields it for some element. */
  lemma {:induction false} ConcatMapMember<T, U>(xs: seq<T>, f: T -> seq<U>, u: U)
    ensures u in ConcatMap(xs, f) <==> exists t :: t in xs && u in f(t)
    decreases |xs|
  {
    if xs != [] {
      var init, last := xs[..|xs| - 1], xs[|xs| - 1];
      ConcatMapMember(init, f, u);
      assert xs == init + [last];
      if u in ConcatMap(xs, f) && u !in f(last) {
        var t :| t in init && u in f(t);
        assert t in xs;
      }
      if exists t :: t in xs && u in f(t) {
        var t :| t in xs && u in f(t);
        if t != last {
          assert t in init;
        }
      }
    }
  }

  /** The items of the first value come first. */
  lemma {:induction false} ConcatMapFirst<T, U>(xs: seq<T>, f: T -> seq<U>)
    requires xs != []
    ensures ConcatMap(xs, f) == f(xs[0]) + ConcatMap(xs[1..], f)
    decreases |xs|
  {
    if |xs| > 1 {
      var init := xs[..|xs| - 1];
      ConcatMapFirst(init, f);
      assert xs[1..][..|xs| - 2] == init[1..];
      assert init[0] == xs[0];
    }
  }

  lemma ConcatMapWitness<T, U>(xs: seq<T>, f: T -> seq<U>, t: T, u: U)
    requires t in xs && u in f(t)
    ensures u in ConcatMap(xs, f)
  {
    ConcatMapMember(xs, f, u);
  }

  /** A subsequence takes each value at most as often as the sequence holds it. */
  lemma {:induction false} SubseqMultiset<T>(a: seq<T>, b: seq<T>)
    requires IsSubseq(a, b)
    ensures multiset(a) <= multiset(b)
    decreases |b|
  {
    if |a| > 0 {
      assert b == [b[0]] + b[1..];
      if a[0] == b[0] && IsSubseq(a[1..], b[1..]) {
        SubseqMultiset(a[1..], b[1..]);
        assert a == [a[0]] + a[1..];
      } else {
        SubseqMultiset(a, b[1..]);
      }
    }
  }

  lemma SubseqTailLength<T>(a: seq<T>, b: seq<T>)
    requires |b| > 0
    ensures IsSubseq(a, b[1..]) ==> |a| < |b|
  {
    if IsSubseq(a, b[1..]) {
      SubseqLength(a, b[1..]);
    }
  }

  /** A subsequence as long as the sequence is the sequence itself. */
  lemma {:induction false} SubseqFull<T>(a: seq<T>, b: seq<T>)
    requires IsSubseq(a, b) && |a| == |b|
    ensures a == b
    decreases |b|
  {
    if |a| > 0 {
      SubseqTailLength(a, b);
      SubseqFull(a[1..], b[1..]);
      assert a == [a[0]] + a[1..] && b == [b[0]] + b[1..];
    }
  }

  lemma {:induction false} SubseqReflexive<T>(a: seq<T>)
    ensures IsSubseq(a, a)
    decreases |a|
  {
    if |a| > 0 {
      SubseqReflexive(a[1..]);
    }
  }

  /** Dropping one element leaves a subsequence. */
  lemma {:induction false} SubseqDropOne<T>(b: seq<T>, i: nat)
    requires i < |b|
    ensures IsSubseq(b[..i] + b[i + 1..], b)
    decreases i
  {
    if i == 0 {
      assert b[..0] + b[1..] == b[1..];
      SubseqReflexive(b[1..]);
    } else {
      SubseqDropOne(b[1..], i - 1);
      assert (b[..i] + b[i + 1..])[1..] == b[1..][..i - 1] + b[1..][i..];
    }
  }

  /** A subsequence one shorter than the sequence drops exactly one of its elements. */
  lemma {:induction false} SubseqOneShorter<T>(a: seq<T>, b: seq<T>)
    requires IsSubseq(a, b) && |a| + 1 == |b|
    ensures exists i :: 0 <= i < |b| && a == b[..i] + b[i + 1..]
    decreases |b|
  {
    if |a| == 0 {
      assert a == b[..0] + b[1..];
    } else if a[0] == b[0] && IsSubseq(a[1..], b[1..]) {
      SubseqOneShorter(a[1..], b[1..]);
      var k :| 0 <= k < |b| - 1 && a[1..] == b[1..][..k] + b[1..][k + 1..];
      assert a == [a[0]] + a[1..];
      assert a == b[..k + 1] + b[k + 2..];
    } else {
      SubseqFull(a, b[1..]);
      assert a == b[..0] + b[1..];
    }
  }

  /** No value occurs twice. */
  predicate Distinct<T(==)>(s: seq<T>)
  {
    forall i, j :: 0 <= i < j < |s| ==> s[i] != s[j]
  }

  lemma DistinctAppend<T>(a: seq<T>, b: seq<T>)
    requires Distinct(a) && Distinct(b)
    requires forall x :: x in a ==> x !in b
    ensures Distinct(a + b)
  {
    var s := a + b;
    forall i, j | 0 <= i < j < |s|
      ensures s[i] != s[j]
    {
      if j < |a| {
        assert s[i] == a[i] && s[j] == a[j];
      } else if i >= |a| {
        assert s[i] == b[i - |a|] && s[j] == b[j - |a|];
      } else {
        assert s[i] == a[i] && a[i] in a;
        assert s[j] == b[j - |a|] && b[j - |a|] in b;
      }
    }
  }

  lemma DistinctTail<T>(s: seq<T>)
    requires Distinct(s) && s != []
    ensures Distinct(s[1..]) && s[0] !in s[1..]
  {
    forall i | 0 <= i < |s| - 1
      ensures s[1..][i] != s[0]
    {
      assert s[1..][i] == s[i + 1];
    }
    forall i, j | 0 <= i < j < |s| - 1
      ensures s[1..][i] != s[1..][j]
    {
      assert s[1..][i] == s[i + 1] && s[1..][j] == s[j + 1];
    }
  }

  /** A sequence strictly sorted by a key holds no value twice. */
  lemma StrictlySortedDistinct<T>(s: seq<T>, key: T -> seq<int>)
    requires StrictlySortedBy(s, key)
    ensures Distinct(s)
  {
    forall i, j | 0 <= i < j < |s|
      ensures s[i] != s[j]
    {
      assert LexLt(key(s[i]), key(s[j]));
    }
  }

  /** `uniq` leaves a sequence without repeats as it is. */
  lemma UniqOfDistinct<T>(xs: seq<T>)
    requires Distinct(xs)
    ensures UniqOf(xs) == xs
  {
    assert NoAdjacentRepeats(xs) by {
      forall i | 0 <= i < |xs| - 1
        ensures xs[i] != xs[i + 1]
      {
        assert i < i + 1;
      }
    }
    UniqAfterFixed(None, xs);
  }

  lemma SubseqMembersWhen<T>(a: seq<T>, b: seq<T>)
    ensures IsSubseq(a, b) ==> forall x :: x in a ==> x in b
  {
    if IsSubseq(a, b) {
      SubseqMembers(a, b);
    }
  }

  /** The combinations of a sequence without repeats are pairwise different. */
  lemma {:induction false} CombinationsDistinct<T>(xs: seq<T>, n: nat)
    requires Distinct(xs)
    ensures Distinct(Combinations(xs, n))
    decreases |xs|
  {
    if n > 0 && |xs| >= n {
      var tail := xs[1..];
      DistinctTail(xs);
      CombinationsDistinct(tail, n - 1);
      CombinationsDistinct(tail, n);
      var shorter := Combinations(tail, n - 1);
      var front := Prepend(xs[0], shorter);
      var back := Combinations(tail, n);
      assert Distinct(front) by {
        forall i, j | 0 <= i < j < |front|
          ensures front[i] != front[j]
        {
          assert front[i][1..] == shorter[i] && front[j][1..] == shorter[j];
        }
      }
      forall c | c in front
        ensures c !in back
      {
        PrependMembers(xs[0], shorter, c);
        CombinationsMembers(tail, n, c);
        SubseqMembersWhen(c, tail);
        assert c[0] in c;
      }
      DistinctAppend(front, back);
    }
  }

  /**
   * Everything `f` yields is yielded once when `xs` holds no value twice, `f` yields no value
   * twice for one element and no value for two different elements.
   */
  lemma {:induction false} ConcatMapDistinct<T, U>(xs: seq<T>, f: T -> seq<U>)
    requires Distinct(xs)
    requires forall t :: t in xs ==> Distinct(f(t))
    requires forall t, t', u :: t in xs && t' in xs && u in f(t) && u in f(t') ==> t == t'
    ensures Distinct(ConcatMap(xs, f))
    decreases |xs|
  {
    if xs != [] {
      var init, last := xs[..|xs| - 1], xs[|xs| - 1];
      assert Distinct(init) by {
        forall i, j | 0 <= i < j < |init|
          ensures init[i] != init[j]
        {
          assert init[i] == xs[i] && init[j] == xs[j];
        }
      }
      assert forall t :: t in init ==> t in xs;
      ConcatMapDistinct(init, f);
      forall u | u in ConcatMap(init, f)
        ensures u !in f(last)
      {
        ConcatMapMember(init, f, u);
        var t :| t in init && u in f(t);
        var i :| 0 <= i < |init| && init[i] == t;
        assert xs[i] == t && t != last;
      }
      DistinctAppend(ConcatMap(init, f), f(last));
    }
  }
}
