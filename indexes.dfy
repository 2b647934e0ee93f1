/**
 * The index structures of liverpool/generation.py: a Setdex packs the colours of one rank
 * into 2-bit counters of one integer, a Rundex counts the cards of one colour per rank and
 * converts to and from a 13-bit presence vector.
 */
module Indexes {
  import opened Wrappers
  import opened Common

  // ---------------------------------------------------------------------------
  // Setdex
  // ---------------------------------------------------------------------------

  /** `Setdex.NUM_BITS`: bits per colour counter. */
  const NumBits := 2

  /** `1 << (NUM_BITS * color)` with the colours numbered 0..3. */
  function Shift(c: Color): int
  {
    match c
    case Club => 1
    case Spade => 4
    case Heart => 16
    case Diamond => 64
  }

  /**
   * `(value & (SET_MASK << (NUM_BITS * color))) >> (NUM_BITS * color)`: the 2-bit counter of a
   * colour. Floor division and a non-negative remainder read the same bits as Python's
   * two's-complement `&` and `>>`, negative values included.
   */
  function Field(v: int, c: Color): int
  {
    match c
    case Club => v % 4
    case Spade => (v / 4) % 4
    case Heart => (v / 4 / 4) % 4
    case Diamond => (v / 4 / 4 / 4) % 4
  }

  /** The bits above the four counters. */
  function High(v: int): int
  {
    v / 4 / 4 / 4 / 4
  }

  /** Every value is its four counters plus the bits above them. */
  lemma Unpack(v: int)
    ensures v == 256 * High(v) + 64 * Field(v, Diamond) + 16 * Field(v, Heart) + 4 * Field(v, Spade) + Field(v, Club)
  {
    assert v == 4 * (v / 4) + v % 4;
    assert v / 4 == 4 * (v / 4 / 4) + (v / 4) % 4;
    assert v / 4 / 4 == 4 * (v / 4 / 4 / 4) + (v / 4 / 4) % 4;
    assert v / 4 / 4 / 4 == 4 * High(v) + (v / 4 / 4 / 4) % 4;
  }

  /** Counters below 4 packed above each other read back unchanged. */
  lemma Packed(q: int, f0: int, f1: int, f2: int, f3: int)
    requires 0 <= f0 < 4 && 0 <= f1 < 4 && 0 <= f2 < 4 && 0 <= f3 < 4
    ensures var v := 256 * q + 64 * f3 + 16 * f2 + 4 * f1 + f0;
      Field(v, Club) == f0 && Field(v, Spade) == f1 && Field(v, Heart) == f2 &&
      Field(v, Diamond) == f3 && High(v) == q
  {
    var v := 256 * q + 64 * f3 + 16 * f2 + 4 * f1 + f0;
    assert v / 4 == 64 * q + 16 * f3 + 4 * f2 + f1;
    assert v / 4 / 4 == 16 * q + 4 * f3 + f2;
    assert v / 4 / 4 / 4 == 4 * q + f3;
  }

  /** Appending a colour whose counter is below 3 raises that counter and no other. */
  lemma AppendFields(v: int, c: Color)
    requires Field(v, c) < 3
    ensures Field(v + Shift(c), Club) == Field(v, Club) + (if c == Club then 1 else 0)
    ensures Field(v + Shift(c), Spade) == Field(v, Spade) + (if c == Spade then 1 else 0)
    ensures Field(v + Shift(c), Heart) == Field(v, Heart) + (if c == Heart then 1 else 0)
    ensures Field(v + Shift(c), Diamond) == Field(v, Diamond) + (if c == Diamond then 1 else 0)
  {
    Unpack(v);
    var q, f0, f1, f2, f3 := High(v), Field(v, Club), Field(v, Spade), Field(v, Heart), Field(v, Diamond);
    match c
    case Club => Packed(q, f0 + 1, f1, f2, f3);
    case Spade => Packed(q, f0, f1 + 1, f2, f3);
    case Heart => Packed(q, f0, f1, f2 + 1, f3);
    case Diamond => Packed(q, f0, f1, f2, f3 + 1);
  }

  /** Removing a colour whose counter is positive lowers that counter and no other. */
  lemma RemoveFields(v: int, c: Color)
    requires Field(v, c) > 0
    ensures Field(v - Shift(c), Club) == Field(v, Club) - (if c == Club then 1 else 0)
    ensures Field(v - Shift(c), Spade) == Field(v, Spade) - (if c == Spade then 1 else 0)
    ensures Field(v - Shift(c), Heart) == Field(v, Heart) - (if c == Heart then 1 else 0)
    ensures Field(v - Shift(c), Diamond) == Field(v, Diamond) - (if c == Diamond then 1 else 0)
  {
    Unpack(v);
    var q, f0, f1, f2, f3 := High(v), Field(v, Club), Field(v, Spade), Field(v, Heart), Field(v, Diamond);
    match c
    case Club => Packed(q, f0 - 1, f1, f2, f3);
    case Spade => Packed(q, f0, f1 - 1, f2, f3);
    case Heart => Packed(q, f0, f1, f2 - 1, f3);
    case Diamond => Packed(q, f0, f1, f2, f3 - 1);
  }

  function Repeat<T>(x: T, n: nat): (r: seq<T>)
    ensures |r| == n && forall i :: 0 <= i < n ==> r[i] == x
    decreases n
  {
    if n == 0 then [] else Repeat(x, n - 1) + [x]
  }

  lemma {:induction false} RepeatCount<T>(x: T, n: nat, y: T)
    ensures multiset(Repeat(x, n))[y] == if x == y then n else 0
    decreases n
  {
    if n > 0 {
      RepeatCount(x, n - 1, y);
      assert multiset(Repeat(x, n)) == multiset(Repeat(x, n - 1)) + multiset{x};
    }
  }

  /** Each colour, in Color.iter order, as often as its count says. */
  function Spread(n0: nat, n1: nat, n2: nat, n3: nat): seq<Color>
  {
    Repeat(Club, n0) + Repeat(Spade, n1) + Repeat(Heart, n2) + Repeat(Diamond, n3)
  }

  /** `Setdex.__iter__`: each colour as often as its 2-bit counter says. */
  function ColorsOf(v: int): seq<Color>
  {
    Spread(Field(v, Club), Field(v, Spade), Field(v, Heart), Field(v, Diamond))
  }

  function ColorCount(cs: seq<Color>, c: Color): nat
  {
    multiset(cs)[c]
  }

  lemma SpreadCounts(n0: nat, n1: nat, n2: nat, n3: nat, x: Color)
    ensures ColorCount(Spread(n0, n1, n2, n3), x) ==
      match x case Club => n0 case Spade => n1 case Heart => n2 case Diamond => n3
  {
    var a, b, c, d := Repeat(Club, n0), Repeat(Spade, n1), Repeat(Heart, n2), Repeat(Diamond, n3);
    assert multiset(a + b + c + d) == multiset(a) + multiset(b) + multiset(c) + multiset(d);
    RepeatCount(Club, n0, x);
    RepeatCount(Spade, n1, x);
    RepeatCount(Heart, n2, x);
    RepeatCount(Diamond, n3, x);
  }

  /** Iterating a Setdex yields each colour exactly as often as its 2-bit counter says. */
  lemma ColorsOfCounts(v: int)
    ensures forall c: Color :: ColorCount(ColorsOf(v), c) == Field(v, c)
    ensures |ColorsOf(v)| == Field(v, Club) + Field(v, Spade) + Field(v, Heart) + Field(v, Diamond)
  {
    forall x: Color
      ensures ColorCount(ColorsOf(v), x) == Field(v, x)
    {
      SpreadCounts(Field(v, Club), Field(v, Spade), Field(v, Heart), Field(v, Diamond), x);
    }
  }

  /** Iterating a Setdex yields the colours in ascending order. */
  lemma ColorsOfSorted(v: int)
    ensures forall i, j :: 0 <= i < j < |ColorsOf(v)| ==> ColorsOf(v)[i].Index() <= ColorsOf(v)[j].Index()
  {
    var a := Repeat(Club, Field(v, Club));
    var b := Repeat(Spade, Field(v, Spade));
    var c := Repeat(Heart, Field(v, Heart));
    var d := Repeat(Diamond, Field(v, Diamond));
    var s := ColorsOf(v);
    forall i | 0 <= i < |s|
      ensures s[i].Index() == if i < |a| then 0 else if i < |a| + |b| then 1 else if i < |a| + |b| + |c| then 2 else 3
    {
      if i < |a| {
        assert s[i] == a[i];
      } else if i < |a| + |b| {
        assert s[i] == b[i - |a|];
      } else if i < |a| + |b| + |c| {
        assert s[i] == c[i - |a| - |b|];
      } else {
        assert s[i] == d[i - |a| - |b| - |c|];
      }
    }
  }

  /** A Setdex whose counters are the multiplicities of `m` iterates over exactly `m`. */
  lemma ColorsOfMatches(w: int, m: multiset<Color>)
    requires Field(w, Club) == m[Club] && Field(w, Spade) == m[Spade]
    requires Field(w, Heart) == m[Heart] && Field(w, Diamond) == m[Diamond]
    ensures multiset(ColorsOf(w)) == m
  {
    ColorsOfCounts(w);
    var l := multiset(ColorsOf(w));
    forall x: Color
      ensures l[x] == m[x]
    {
      assert ColorCount(ColorsOf(w), x) == l[x] == Field(w, x);
      match x
      case Club =>
      case Spade =>
      case Heart =>
      case Diamond =>
    }
    assert l == m;
  }

  /** The multiset holding each colour as often as its counter says. */
  function Counted(n0: nat, n1: nat, n2: nat, n3: nat): multiset<Color>
  {
    multiset{}[Club := n0][Spade := n1][Heart := n2][Diamond := n3]
  }

  /** The colours of a Setdex, as a multiset, are its counters. */
  lemma ColorsOfMultiset(v: int)
    ensures multiset(ColorsOf(v)) == Counted(Field(v, Club), Field(v, Spade), Field(v, Heart), Field(v, Diamond))
  {
    var m := Counted(Field(v, Club), Field(v, Spade), Field(v, Heart), Field(v, Diamond));
    ColorsOfMatches(v, m);
  }

  /** One more copy of `c` raises only its counter. */
  lemma CountedAdd(n0: nat, n1: nat, n2: nat, n3: nat, c: Color)
    ensures Counted(n0, n1, n2, n3) + multiset{c} ==
      match c
      case Club => Counted(n0 + 1, n1, n2, n3)
      case Spade => Counted(n0, n1 + 1, n2, n3)
      case Heart => Counted(n0, n1, n2 + 1, n3)
      case Diamond => Counted(n0, n1, n2, n3 + 1)
  {
  }

  /** Two Setdex values whose counters differ by one copy of `c` iterate over multisets that do too. */
  lemma ColorsOneMore(v: int, w: int, c: Color)
    requires Field(w, Club) == Field(v, Club) + (if c == Club then 1 else 0)
    requires Field(w, Spade) == Field(v, Spade) + (if c == Spade then 1 else 0)
    requires Field(w, Heart) == Field(v, Heart) + (if c == Heart then 1 else 0)
    requires Field(w, Diamond) == Field(v, Diamond) + (if c == Diamond then 1 else 0)
    ensures multiset(ColorsOf(w)) == multiset(ColorsOf(v)) + multiset{c}
  {
    ColorsOfMultiset(v);
    ColorsOfMultiset(w);
    var n0, n1, n2, n3 := Field(v, Club), Field(v, Spade), Field(v, Heart), Field(v, Diamond);
    CountedAdd(n0, n1, n2, n3, c);
  }

  /** Appending a colour whose counter is below 3 adds one copy of it to the iteration. */
  lemma AppendColors(v: int, c: Color)
    requires Field(v, c) < 3
    ensures multiset(ColorsOf(v + Shift(c))) == multiset(ColorsOf(v)) + multiset{c}
  {
    AppendFields(v, c);
    ColorsOneMore(v, v + Shift(c), c);
  }

  /** Removing a colour whose counter is positive drops one copy of it from the iteration. */
  lemma RemoveColors(v: int, c: Color)
    requires Field(v, c) > 0
    ensures multiset(ColorsOf(v - Shift(c))) + multiset{c} == multiset(ColorsOf(v))
  {
    RemoveFields(v, c);
    ColorsOneMore(v - Shift(c), v, c);
  }

  /** The encoding of a multiset of colours: each colour counted in its own field. */
  function SetdexValue(m: multiset<Color>): int
  {
    64 * m[Diamond] + 16 * m[Heart] + 4 * m[Spade] + m[Club]
  }

  /**
   * The value of a Setdex depends only on the multiset of colours appended, not on their
   * order, and decodes back to it while every colour occurs at most 3 times.
   */
  lemma SetdexValueDecodes(m: multiset<Color>)
    requires forall c: Color :: m[c] <= 3
    ensures Field(SetdexValue(m), Club) == m[Club] && Field(SetdexValue(m), Spade) == m[Spade]
    ensures Field(SetdexValue(m), Heart) == m[Heart] && Field(SetdexValue(m), Diamond) == m[Diamond]
    ensures multiset(ColorsOf(SetdexValue(m))) == m
  {
    var v := SetdexValue(m);
    assert m[Club] <= 3 && m[Spade] <= 3 && m[Heart] <= 3 && m[Diamond] <= 3;
    Packed(0, m[Club], m[Spade], m[Heart], m[Diamond]);
    ColorsOfMatches(v, m);
  }

  /** A Setdex: the packed counters (`value`) and the number of colours (`count`). */
  class Setdex {
    var value: int
    var count: int

    /** `Setdex(value)`: `count` is the length of the iteration. */
    constructor(v: int)
      ensures value == v && count == |ColorsOf(v)|
    {
      value := v;
      count := |ColorsOf(v)|;
    }

    /** The colours the Setdex iterates over. */
    function Colors(): seq<Color>
      reads this
    {
      ColorsOf(value)
    }

    /** `append`: adds `1 << (2 * color)`; not bounds checked, so a fourth copy carries. */
    method Append(c: Color)
      modifies this
      ensures value == old(value) + Shift(c) && count == old(count) + 1
    {
        value := value + Shift(c);
      count := count + 1;
    }

    /** `remove`: subtracts `1 << (2 * color)`; not bounds checked either. */
    method Remove(c: Color)
      modifies this
      ensures value == old(value) - Shift(c) && count == old(count) - 1
    {
      value := value - Shift(c);
      count := count - 1;
    }
  }

  /** `Setdex.iter_all`: every value of the four 2-bit counters. */
  function AllSetdexValues(): (r: seq<int>)
    ensures |r| == 256 && forall i :: 0 <= i < 256 ==> r[i] == i
  {
    seq(256, i requires 0 <= i < 256 => i)
  }

  // ---------------------------------------------------------------------------
  // Rundex
  // ---------------------------------------------------------------------------

  function Pow2(k: nat): (r: int)
    ensures r >= 1
  {
    if k == 0 then 1 else 2 * Pow2(k - 1)
  }

  /** Bit `k` of `v`. */
  function Bit(v: int, k: nat): (r: bool)
    decreases k
  {
    if k == 0 then v % 2 == 1 else Bit(v / 2, k - 1)
  }

  /** `1 << (rank - Rank.MIN)`. */
  function RankBit(r: Rank): int
  {
    Pow2(r - RankMin)
  }

  /** `vector & (1 << (rank - Rank.MIN))` is non-zero. */
  predicate HasRank(v: int, r: Rank)
  {
    Bit(v, r - RankMin)
  }

  /** The vectors the run table covers: `range(2 ** 13)`. */
  predicate InVectorRange(v: int)
  {
    0 <= v < Pow2(13)
  }

  /** Setting bit `k` of a value whose bit `k` is clear: `v | 1 << k` is `v + 2^k`. */
  lemma {:induction false} BitAdd(v: int, k: nat, j: nat)
    requires !Bit(v, k)
    ensures Bit(v + Pow2(k), j) == (Bit(v, j) || j == k)
    decreases k
  {
    if k == 0 {
      if j > 0 {
        assert (v + 1) / 2 == v / 2;
      }
    } else if j > 0 {
      assert (v + Pow2(k)) / 2 == v / 2 + Pow2(k - 1);
      BitAdd(v / 2, k - 1, j - 1);
    }
  }

  /** A value below `2^n` has no bit at or above `n`. */
  lemma {:induction false} BitsAbove(v: int, n: nat, j: nat)
    requires 0 <= v < Pow2(n) && j >= n
    ensures !Bit(v, j)
    decreases n
  {
    if n == 0 {
      assert v == 0;
      if j > 0 {
        BitZero(j - 1);
      }
    } else if j > 0 {
      BitsAbove(v / 2, n - 1, j - 1);
    }
  }

  lemma {:induction false} BitZero(j: nat)
    ensures !Bit(0, j)
    decreases j
  {
    if j > 0 {
      BitZero(j - 1);
    }
  }

  /** Two values below `2^n` with the same bits are equal. */
  lemma {:induction false} BitsExtensional(a: int, b: int, n: nat)
    requires 0 <= a < Pow2(n) && 0 <= b < Pow2(n)
    requires forall k :: 0 <= k < n ==> Bit(a, k) == Bit(b, k)
    ensures a == b
    decreases n
  {
    if n > 0 {
      assert Bit(a, 0) == Bit(b, 0);
      forall k | 0 <= k < n - 1
        ensures Bit(a / 2, k) == Bit(b / 2, k)
      {
        assert Bit(a, k + 1) == Bit(b, k + 1);
      }
      BitsExtensional(a / 2, b / 2, n - 1);
    }
  }

  /** A vector is determined by the ranks it holds. */
  lemma VectorExtensional(a: int, b: int)
    requires InVectorRange(a) && InVectorRange(b)
    requires forall r: Rank :: HasRank(a, r) == HasRank(b, r)
    ensures a == b
  {
    forall k | 0 <= k < 13
      ensures Bit(a, k) == Bit(b, k)
    {
      assert HasRank(a, k + RankMin) == HasRank(b, k + RankMin);
    }
    BitsExtensional(a, b, 13);
  }

  /** The ranks with a positive count, ascending: `Rundex.iter_ranks` on the counts `a[lo..]`. */
  function RanksFrom(a: seq<int>, lo: nat): (r: seq<int>)
    requires lo <= |a|
    ensures forall i :: 0 <= i < |r| ==> lo <= r[i] < |a| && a[r[i]] > 0
    ensures forall x :: lo <= x < |a| && a[x] > 0 ==> x in r
    ensures forall i, j :: 0 <= i < j < |r| ==> r[i] < r[j]
    decreases |a| - lo
  {
    if lo == |a| then [] else if a[lo] > 0 then [lo] + RanksFrom(a, lo + 1) else RanksFrom(a, lo + 1)
  }

  /** `Rundex.__iter__` on the counts `a[lo..]`: each index as often as it is counted, ascending. */
  function CopiesFrom(a: seq<int>, lo: nat): seq<int>
    requires lo <= |a|
    decreases |a| - lo
  {
    if lo == |a| then []
    else Repeat(lo, if a[lo] > 0 then a[lo] else 0) + CopiesFrom(a, lo + 1)
  }

  /** `__iter__` yields each index exactly as often as its count says. */
  lemma {:induction false} CopiesFromCount(a: seq<int>, lo: nat, x: int)
    requires lo <= |a|
    ensures multiset(CopiesFrom(a, lo))[x] == if lo <= x < |a| && a[x] > 0 then a[x] else 0
    decreases |a| - lo
  {
    if lo < |a| {
      CopiesFromCount(a, lo + 1, x);
      CopiesFromStep(a, lo, x);
    }
  }

  /** The count of `x` among the copies from `lo` follows from its count among those from `lo + 1`. */
  lemma CopiesFromStep(a: seq<int>, lo: nat, x: int)
    requires lo < |a|
    requires multiset(CopiesFrom(a, lo + 1))[x] == if lo + 1 <= x < |a| && a[x] > 0 then a[x] else 0
    ensures multiset(CopiesFrom(a, lo))[x] == if lo <= x < |a| && a[x] > 0 then a[x] else 0
  {
    var n: nat := if a[lo] > 0 then a[lo] else 0;
    var tail := CopiesFrom(a, lo + 1);
    assert CopiesFrom(a, lo) == Repeat(lo, n) + tail;
    CountAfterRepeat(lo, n, tail, x);
  }

  /** Copies of `y` in front of a sequence add `n` to the count of `y` and nothing to the others. */
  lemma CountAfterRepeat(y: int, n: nat, tail: seq<int>, x: int)
    ensures multiset(Repeat(y, n) + tail)[x] == multiset(tail)[x] + (if x == y then n else 0)
  {
    RepeatCount(y, n, x);
    assert multiset(Repeat(y, n) + tail) == multiset(Repeat(y, n)) + multiset(tail);
  }

  /** `__iter__` yields only indices from `lo` up. */
  lemma {:induction false} CopiesFromBounds(a: seq<int>, lo: nat)
    requires lo <= |a|
    ensures forall i :: 0 <= i < |CopiesFrom(a, lo)| ==> lo <= CopiesFrom(a, lo)[i] < |a|
    decreases |a| - lo
  {
    if lo < |a| {
      CopiesFromBounds(a, lo + 1);
      var n: nat := if a[lo] > 0 then a[lo] else 0;
      var head: seq<int> := Repeat(lo, n);
      var r := CopiesFrom(a, lo);
      assert r == head + CopiesFrom(a, lo + 1);
      forall i | 0 <= i < |r|
        ensures lo <= r[i] < |a|
      {
        if i >= n {
          assert r[i] == CopiesFrom(a, lo + 1)[i - n];
        }
      }
    }
  }

  /** `__iter__` yields the indices in ascending order. */
  lemma {:induction false} CopiesFromSorted(a: seq<int>, lo: nat)
    requires lo <= |a|
    ensures forall i, j :: 0 <= i < j < |CopiesFrom(a, lo)| ==> CopiesFrom(a, lo)[i] <= CopiesFrom(a, lo)[j]
    decreases |a| - lo
  {
    if lo < |a| {
      CopiesFromSorted(a, lo + 1);
      CopiesFromBounds(a, lo + 1);
      var n: nat := if a[lo] > 0 then a[lo] else 0;
      var head: seq<int>, tail := Repeat(lo, n), CopiesFrom(a, lo + 1);
      var r := CopiesFrom(a, lo);
      assert r == head + tail;
      forall i, j | 0 <= i < j < |r|
        ensures r[i] <= r[j]
      {
        if j < n {
          assert r[i] == lo && r[j] == lo;
        } else if i < n {
          assert r[i] == lo && r[j] == tail[j - n];
        } else {
          assert r[i] == tail[i - n] && r[j] == tail[j - n];
        }
      }
    }
  }

  /**
   * A Rundex: `_array`, one count per index 0..14; indices 0 and 1 stay 0. The bytearray's
   * limit of 255 per entry is not modelled.
   */
  class Rundex {
    const arr: array<int>

    ghost predicate Valid()
      reads this, arr
    {
      arr.Length == RankMax + 1 && arr[0] == 0 && arr[1] == 0 &&
      forall r :: 0 <= r < arr.Length ==> 0 <= arr[r]
    }

    constructor()
      ensures Valid() && fresh(arr)
      ensures forall r :: 0 <= r < arr.Length ==> arr[r] == 0
    {
      arr := new int[RankMax + 1](_ => 0);
    }

    /** `iter_ranks`: the ranks held, ascending (indices 0 and 1 always hold 0). */
    function IterRanks(): seq<int>
      reads this, arr
      requires Valid()
    {
      RanksFrom(arr[..], RankMin)
    }

    /** `__iter__`: each rank as often as it is held, ascending (indices 0 and 1 always hold 0). */
    function Iter(): seq<int>
      reads this, arr
      requires Valid()
    {
      CopiesFrom(arr[..], RankMin)
    }

    /** `add`: one more card of that rank. */
    method Add(r: Rank)
      requires Valid()
      modifies arr
      ensures Valid()
      ensures arr[..] == old(arr[..])[r := old(arr[r]) + 1]
    {
      arr[r] := arr[r] + 1;
    }

    /**
     * `remove`: one card fewer of that rank. A count of 0 cannot go below 0 in a bytearray,
     * which raises ValueError and leaves the count unchanged.
     */
    method Remove(r: Rank) returns (res: Result<(), Error>)
      requires Valid()
      modifies arr
      ensures Valid()
      ensures old(arr[r]) == 0 ==> res == Err(ValueError) && arr[..] == old(arr[..])
      ensures old(arr[r]) > 0 ==> res == Ok(()) && arr[..] == old(arr[..])[r := old(arr[r]) - 1]
    {
      if arr[r] == 0 {
        return Err(ValueError);
      }
      arr[r] := arr[r] - 1;
      return Ok(());
    }

    /** `to_vector`: bit `rank - 2` set exactly for the ranks held. */
    method ToVector() returns (v: int)
      requires Valid()
      ensures InVectorRange(v)
      ensures forall r: Rank :: HasRank(v, r) <==> arr[r] > 0
    {
      v := 0;
      var rank := RankMin;
      while rank <= RankMax
        invariant RankMin <= rank <= RankMax + 1
        invariant 0 <= v < Pow2(rank - RankMin)
        invariant forall r: Rank :: r < rank ==> (HasRank(v, r) <==> arr[r] > 0)
      {
        BitsAbove(v, rank - RankMin, rank - RankMin);
        assert Pow2(rank + 1 - RankMin) == 2 * Pow2(rank - RankMin);
        if arr[rank] > 0 {
          forall r: Rank | r <= rank
            ensures HasRank(v + RankBit(rank), r) <==> arr[r] > 0
          {
            BitAdd(v, rank - RankMin, r - RankMin);
          }
          v := v + RankBit(rank);
        } else {
          assert !HasRank(v, rank);
        }
        rank := rank + 1;
      }
      forall r: Rank
        ensures HasRank(v, r) <==> arr[r] > 0
      {
      }
    }
  }

  /** The counts `from_vector` evidently means to build: one card of each rank whose bit is set. */
  function VectorCounts(v: int): (a: seq<int>)
    ensures |a| == RankMax + 1 && a[0] == 0 && a[1] == 0
    ensures forall r: Rank :: a[r] == if HasRank(v, r) then 1 else 0
  {
    seq(RankMax + 1, i requires 0 <= i <= RankMax => if i >= RankMin && HasRank(v, i) then 1 else 0)
  }

  /**
   * `from_vector`, as evidently intended: a fresh Rundex holding one card of each rank whose
   * bit is set.
   */
  method FromVector(v: int) returns (rd: Rundex)
    ensures fresh(rd) && fresh(rd.arr) && rd.Valid()
    ensures rd.arr[..] == VectorCounts(v)
  {
    rd := new Rundex();
    var k := RankMin;
    while k <= RankMax
      invariant RankMin <= k <= RankMax + 1
      invariant rd.Valid() && fresh(rd.arr)
      invariant forall r :: 0 <= r < k ==> rd.arr[r] == VectorCounts(v)[r]
      invariant forall r :: k <= r <= RankMax ==> rd.arr[r] == 0
    {
      if HasRank(v, k) {
        rd.Add(k);
      }
      k := k + 1;
    }
    assert rd.arr[..] == VectorCounts(v);
  }

  /** `to_vector(from_vector(v))` is `v` for every vector of the run table. */
  lemma VectorRoundTrip(v: int, w: int)
    requires InVectorRange(v) && InVectorRange(w)
    requires forall r: Rank :: HasRank(w, r) <==> VectorCounts(v)[r] > 0
    ensures w == v
  {
    VectorExtensional(v, w);
  }

  /** `from_vector(to_vector(rd))` holds one card of each rank the Rundex holds. */
  lemma CountsRoundTrip(a: seq<int>, w: int)
    requires |a| == RankMax + 1
    requires forall r: Rank :: HasRank(w, r) <==> a[r] > 0
    ensures forall r: Rank :: VectorCounts(w)[r] == if a[r] > 0 then 1 else 0
  {
  }

  /** `iter_ranks` depends only on which counts are positive. */
  lemma {:induction false} RanksFromPositive(a: seq<int>, b: seq<int>, lo: nat)
    requires |a| == |b| && lo <= |a|
    requires forall x :: lo <= x < |a| ==> (a[x] > 0 <==> b[x] > 0)
    ensures RanksFrom(a, lo) == RanksFrom(b, lo)
    decreases |a| - lo
  {
    if lo < |a| {
      RanksFromPositive(a, b, lo + 1);
    }
  }

  /** The ranks the run table looks up for a vector: `iter_ranks` of `from_vector(v)`. */
  function VectorRanks(v: int): (r: seq<int>)
    ensures forall x :: x in r <==> RankMin <= x <= RankMax && HasRank(v, x)
  {
    RanksFrom(VectorCounts(v), RankMin)
  }
}
