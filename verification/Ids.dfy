/** Connection ids and their lexicographic order.

The C++ services keep connections in `std::map<std::string, ...>` and sort plans by id, so the
order in which entries are visited is observable (which conflict is reported first, which
connection an out-of-band drift removes). This module fixes that order. */
module Ids {

  datatype Option<+T> = None | Some(value: T)

  /** Lexicographic `<=` on strings, as `std::string` and Python `str` compare. */
  predicate LexLe(a: string, b: string)
  {
    |a| == 0 || (|b| > 0 && (a[0] < b[0] || (a[0] == b[0] && LexLe(a[1..], b[1..]))))
  }

  lemma LexTotal(a: string, b: string)
    ensures LexLe(a, b) || LexLe(b, a)
  {
  }

  lemma {:induction false} LexAntisymmetric(a: string, b: string)
    requires LexLe(a, b) && LexLe(b, a)
    ensures a == b
  {
    if |a| == 0 || |b| == 0 {
    } else {
      LexAntisymmetric(a[1..], b[1..]);
      assert a == [a[0]] + a[1..];
      assert b == [b[0]] + b[1..];
    }
  }

  lemma LexTransitive(a: string, b: string, c: string)
    requires LexLe(a, b) && LexLe(b, c)
    ensures LexLe(a, c)
  {
  }

  ghost predicate IsMin(k: string, s: set<string>)
  {
    k in s && forall j | j in s :: LexLe(k, j)
  }

  lemma MinExists(s: set<string>)
    requires s != {}
    ensures exists k :: IsMin(k, s)
  {
    var x :| x in s;
    if s == {x} {
      LexTotal(x, x);
      assert IsMin(x, s);
    } else {
      var rest := s - {x};
      MinExists(rest);
      var m :| IsMin(m, rest);
      LexTotal(x, m);
      if LexLe(m, x) {
        assert IsMin(m, s);
      } else {
        forall j | j in s ensures LexLe(x, j) {
          LexTotal(x, x);
          if j != x { LexTransitive(x, m, j); }
        }
        assert IsMin(x, s);
      }
    }
  }

  lemma MinUnique(a: string, b: string, s: set<string>)
    requires IsMin(a, s) && IsMin(b, s)
    ensures a == b
  {
    LexAntisymmetric(a, b);
  }

  /** The first key of a `std::map`. */
  function Min(s: set<string>): (k: string)
    requires s != {}
    ensures k in s
  {
    MinExists(s);
    MinsAgree(s);
    var k :| k in s && forall j | j in s :: LexLe(k, j);
    k
  }

  lemma MinsAgree(s: set<string>)
    ensures forall a, b | && a in s && (forall j | j in s :: LexLe(a, j))
                          && b in s && (forall j | j in s :: LexLe(b, j)) :: a == b
  {
    forall a, b | && a in s && (forall j | j in s :: LexLe(a, j))
                  && b in s && (forall j | j in s :: LexLe(b, j))
      ensures a == b
    {
      MinUnique(a, b, s);
    }
  }

  lemma MinIsMin(s: set<string>)
    requires s != {}
    ensures IsMin(Min(s), s)
  {
    MinExists(s);
    MinsAgree(s);
  }

  ghost predicate Sorted(ks: seq<string>)
  {
    forall i, j | 0 <= i < j < |ks| :: LexLe(ks[i], ks[j]) && ks[i] != ks[j]
  }

  /** The keys of a `std::map` in iteration order. */
  function SortedKeys(s: set<string>): seq<string>
    decreases |s|
  {
    if s == {} then []
    else
      var k := Min(s);
      [k] + SortedKeys(s - {k})
  }

  /** Iteration order is ascending and visits every key exactly once. */
  lemma {:induction false} SortedKeysProps(s: set<string>)
    ensures |SortedKeys(s)| == |s|
    ensures forall k :: k in SortedKeys(s) <==> k in s
    ensures Sorted(SortedKeys(s))
    decreases |s|
  {
    if s != {} {
      var k := Min(s);
      MinIsMin(s);
      SortedKeysProps(s - {k});
      var rest := SortedKeys(s - {k});
      assert forall i | 0 <= i < |rest| :: rest[i] in rest;
    }
  }
}
