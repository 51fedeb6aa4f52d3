/** The ascending order the database uses for `asc(column)` on text and
    uuid columns, modelled as code-point lexicographic order, and the
    listing of a table's keys in that order. */
module Ordering {

  /** `a` sorts strictly before `b`. */
  predicate Below(a: string, b: string)
    decreases a
  {
    if a == [] then b != []
    else b != [] && (a[0] < b[0] || (a[0] == b[0] && Below(a[1..], b[1..])))
  }

  /** `a` sorts no later than `b`. */
  predicate NotAbove(a: string, b: string)
  {
    !Below(b, a)
  }

  lemma {:induction false} BelowIrreflexive(a: string)
    ensures !Below(a, a)
    decreases a
  {
    if a != [] {
      BelowIrreflexive(a[1..]);
    }
  }

  /** No string sorts before itself. */
  lemma BelowIsIrreflexive()
    ensures forall a :: !Below(a, a)
  {
    forall a
      ensures !Below(a, a)
    {
      BelowIrreflexive(a);
    }
  }

  lemma {:induction false} BelowTransitive(a: string, b: string, c: string)
    ensures Below(a, b) && Below(b, c) ==> Below(a, c)
    decreases a
  {
    if a != [] && b != [] && c != [] {
      BelowTransitive(a[1..], b[1..], c[1..]);
    }
  }

  lemma {:induction false} BelowTotal(a: string, b: string)
    ensures a == b || Below(a, b) || Below(b, a)
    decreases a
  {
    if a != [] && b != [] && a[0] == b[0] {
      BelowTotal(a[1..], b[1..]);
      assert a == [a[0]] + a[1..];
      assert b == [b[0]] + b[1..];
    }
  }

  /** Any two strings are comparable under NotAbove, and it is transitive:
      a total preorder, which is what a sort needs. */
  lemma NotAboveTotal(a: string, b: string)
    ensures NotAbove(a, b) || NotAbove(b, a)
  {
    BelowTotal(a, b);
    if a == b {
      BelowIrreflexive(a);
    } else {
      BelowTransitive(a, b, a);
      BelowIrreflexive(a);
    }
  }

  lemma NotAboveTransitive(a: string, b: string, c: string)
    ensures NotAbove(a, b) && NotAbove(b, c) ==> NotAbove(a, c)
  {
    BelowTotal(a, b);
    BelowTransitive(c, a, b);
  }

  /** `k` is a least element of `s`. */
  predicate Least(k: string, s: set<string>)
  {
    k in s && forall j | j in s :: !Below(j, k)
  }

  /** A least element is strictly below every other element. */
  lemma LeastIsBelowOthers(k: string, s: set<string>)
    requires Least(k, s)
    ensures forall j | j in s && j != k :: Below(k, j)
  {
    forall j | j in s && j != k
      ensures Below(k, j)
    {
      BelowTotal(k, j);
    }
  }

  /** Every non-empty finite set of strings has a least element. */
  lemma {:induction false} LeastExists(s: set<string>)
    requires s != {}
    ensures exists k :: Least(k, s)
    decreases |s|
  {
    var x :| x in s;
    BelowIrreflexive(x);
    if s - {x} == {} {
      assert s == {x};
      assert Least(x, s);
    } else {
      LeastExists(s - {x});
      var m :| Least(m, s - {x});
      BelowTotal(x, m);
      if Below(x, m) {
        forall j | j in s
          ensures !Below(j, x)
        {
          BelowTransitive(j, x, m);
        }
        assert Least(x, s);
      } else {
        assert Least(m, s);
      }
    }
  }

  /** There is at most one least element. */
  lemma LeastUnique(s: set<string>)
    ensures forall k1, k2 | Least(k1, s) && Least(k2, s) :: k1 == k2
  {
    forall k1, k2 | Least(k1, s) && Least(k2, s)
      ensures k1 == k2
    {
      BelowTotal(k1, k2);
    }
  }

  /** The keys of `s` in ascending order, each exactly once. */
  function SortedKeys(s: set<string>): (r: seq<string>)
    ensures forall k :: k in r <==> k in s
    ensures forall i, j | 0 <= i < j < |r| :: Below(r[i], r[j])
    decreases |s|
  {
    if s == {} then []
    else
      LeastExists(s);
      LeastUnique(s);
      var k :| Least(k, s);
      LeastIsBelowOthers(k, s);
      [k] + SortedKeys(s - {k})
  }
}
