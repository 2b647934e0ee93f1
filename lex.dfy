/**
 * Lexicographic order on integer sequences: Python's comparison of tuples of integers,
 * where a proper prefix is smaller than the longer tuple.
 */
module Lex {

  predicate LexLe(a: seq<int>, b: seq<int>)
    decreases |a|
  {
    |a| == 0 || (|b| > 0 && (a[0] < b[0] || (a[0] == b[0] && LexLe(a[1..], b[1..]))))
  }

  predicate LexLt(a: seq<int>, b: seq<int>)
  {
    LexLe(a, b) && a != b
  }

  lemma {:induction false} LexLeReflexive(a: seq<int>)
    ensures LexLe(a, a)
    decreases |a|
  {
    if |a| > 0 {
      LexLeReflexive(a[1..]);
    }
  }

  lemma {:induction false} LexLeAntisymmetric(a: seq<int>, b: seq<int>)
    requires LexLe(a, b) && LexLe(b, a)
    ensures a == b
    decreases |a|
  {
    if |a| > 0 {
      LexLeAntisymmetric(a[1..], b[1..]);
      assert a == [a[0]] + a[1..] && b == [b[0]] + b[1..];
    }
  }

  lemma {:induction false} LexLeTransitive(a: seq<int>, b: seq<int>, c: seq<int>)
    requires LexLe(a, b) && LexLe(b, c)
    ensures LexLe(a, c)
    decreases |a|
  {
    if |a| > 0 && a[0] == b[0] && b[0] == c[0] {
      LexLeTransitive(a[1..], b[1..], c[1..]);
    }
  }

  lemma {:induction false} LexLeTotal(a: seq<int>, b: seq<int>)
    ensures LexLe(a, b) || LexLe(b, a)
    decreases |a|
  {
    if |a| > 0 && |b| > 0 && a[0] == b[0] {
      LexLeTotal(a[1..], b[1..]);
    }
  }

  lemma LexLtTransitive(a: seq<int>, b: seq<int>, c: seq<int>)
    requires LexLt(a, b) && LexLt(b, c)
    ensures LexLt(a, c)
  {
    LexLeTransitive(a, b, c);
    if a == c {
      LexLeAntisymmetric(a, b);
    }
  }

  /** Not (b <= a) is exactly a < b: the order is total. */
  lemma NotLeIsLt(a: seq<int>, b: seq<int>)
    ensures !LexLe(b, a) <==> LexLt(a, b)
  {
    LexLeTotal(a, b);
    if LexLt(a, b) && LexLe(b, a) {
      LexLeAntisymmetric(a, b);
    }
    if !LexLe(b, a) {
      LexLeReflexive(a);
    }
  }

  /** A tuple is below every longer tuple it is a prefix of. */
  lemma {:induction false} LexLtPrefix(p: seq<int>, q: seq<int>)
    requires q != []
    ensures LexLt(p, p + q)
    decreases |p|
  {
    if p != [] {
      LexLtPrefix(p[1..], q);
      assert (p + q)[1..] == p[1..] + q;
    }
  }

  /** After a common prefix, the first differing element decides. */
  lemma {:induction false} LexLtAt(p: seq<int>, x: int, y: int, s: seq<int>, t: seq<int>)
    requires x < y
    ensures LexLt(p + [x] + s, p + [y] + t)
    decreases |p|
  {
    if p != [] {
      LexLtAt(p[1..], x, y, s, t);
      assert (p + [x] + s)[1..] == p[1..] + [x] + s;
      assert (p + [y] + t)[1..] == p[1..] + [y] + t;
    } else {
      assert (p + [x] + s)[0] == x && (p + [y] + t)[0] == y;
    }
  }
}
