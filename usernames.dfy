/**
  Usernames and the order the availability query sorts them by.

  `reserve` asks the database for the caregivers available on a date
  "ORDER BY A.Username ASC" and takes the first row. This module gives
  that order (ordinal, character by character) and the least element of
  a non-empty set of usernames under it.
 */
module Usernames {

  /** `a` sorts no later than `b`: a prefix comes first, otherwise the first
      differing character decides. */
  predicate LexLe(a: string, b: string)
    decreases |a|
  {
    |a| == 0 || (|b| > 0 && (a[0] < b[0] || (a[0] == b[0] && LexLe(a[1..], b[1..]))))
  }

  lemma {:induction false} LexLeReflexive(a: string)
    ensures LexLe(a, a)
  {
    if |a| > 0 {
      LexLeReflexive(a[1..]);
    }
  }

  lemma {:induction false} LexLeTotal(a: string, b: string)
    ensures LexLe(a, b) || LexLe(b, a)
    decreases |a|
  {
    if |a| > 0 && |b| > 0 && a[0] == b[0] {
      LexLeTotal(a[1..], b[1..]);
    }
  }

  lemma {:induction false} LexLeAntisymmetric(a: string, b: string)
    requires LexLe(a, b) && LexLe(b, a)
    ensures a == b
    decreases |a|
  {
    if |a| > 0 {
      LexLeAntisymmetric(a[1..], b[1..]);
      assert a == [a[0]] + a[1..];
      assert b == [b[0]] + b[1..];
    }
  }

  lemma {:induction false} LexLeTransitive(a: string, b: string, c: string)
    requires LexLe(a, b) && LexLe(b, c)
    ensures LexLe(a, c)
    decreases |a|
  {
    if |a| > 0 && a[0] == b[0] && b[0] == c[0] {
      LexLeTransitive(a[1..], b[1..], c[1..]);
    }
  }

  /** `c` is the first of `names` in sorted order. */
  predicate IsLeast(c: string, names: set<string>)
  {
    c in names && forall x :: x in names ==> LexLe(c, x)
  }

  /** Every non-empty (finite) set of usernames has a first one. */
  lemma {:induction false} LeastExists(names: set<string>)
    requires names != {}
    ensures exists c :: IsLeast(c, names)
    decreases |names|
  {
    var x :| x in names;
    if names == {x} {
      LexLeReflexive(x);
      assert IsLeast(x, names);
    } else {
      var rest := names - {x};
      LeastExists(rest);
      var m :| IsLeast(m, rest);
      LexLeTotal(x, m);
      if LexLe(x, m) {
        LexLeReflexive(x);
        forall y | y in names
          ensures LexLe(x, y)
        {
          if y != x {
            LexLeTransitive(x, m, y);
          }
        }
        assert IsLeast(x, names);
      } else {
        assert IsLeast(m, names);
      }
    }
  }

  /** The first element is unique, so "the first row" is well defined. */
  lemma LeastUnique(names: set<string>)
    ensures forall c, d :: IsLeast(c, names) && IsLeast(d, names) ==> c == d
  {
    forall c, d | IsLeast(c, names) && IsLeast(d, names)
      ensures c == d
    {
      LexLeAntisymmetric(c, d);
    }
  }

  /** The username the ascending query returns first. */
  function Least(names: set<string>): (c: string)
    requires names != {}
    ensures c in names
    ensures forall x :: x in names ==> LexLe(c, x)
  {
    LeastExists(names);
    LeastUnique(names);
    var c :| IsLeast(c, names);
    c
  }
}
