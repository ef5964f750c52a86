/** Sets of ids enumerated in increasing order, as `sort.Slice` leaves them. */
module Sorting {

  predicate IsMin(m: nat, s: set<nat>) {
    m in s && forall x :: x in s ==> m <= x
  }

  lemma {:induction false} MinExists(s: set<nat>)
    requires s != {}
    ensures exists m :: IsMin(m, s)
  {
    var k :| k in s;
    var r := s - {k};
    if r == {} {
      assert s == {k};
      assert IsMin(k, s);
    } else {
      MinExists(r);
      var n :| IsMin(n, r);
      var m := if n < k then n else k;
      forall x | x in s ensures m <= x {
        assert x == k || x in r;
      }
      assert IsMin(m, s);
    }
  }

  ghost function MinOf(s: set<nat>): (m: nat)
    requires s != {}
    ensures IsMin(m, s)
  {
    MinExists(s);
    var m :| IsMin(m, s);
    m
  }

  predicate IsMax(m: nat, s: set<nat>) {
    m in s && forall x :: x in s ==> x <= m
  }

  lemma {:induction false} MaxExists(s: set<nat>)
    requires s != {}
    ensures exists m :: IsMax(m, s)
  {
    var k :| k in s;
    var r := s - {k};
    if r == {} {
      assert s == {k};
      assert IsMax(k, s);
    } else {
      MaxExists(r);
      var n :| IsMax(n, r);
      var m := if n > k then n else k;
      forall x | x in s ensures x <= m {
        assert x == k || x in r;
      }
      assert IsMax(m, s);
    }
  }

  ghost function MaxOf(s: set<nat>): (m: nat)
    requires s != {}
    ensures IsMax(m, s)
  {
    MaxExists(s);
    var m :| IsMax(m, s);
    m
  }

  ghost function Sorted(s: set<nat>): seq<nat> {
    if s == {} then [] else [MinOf(s)] + Sorted(s - {MinOf(s)})
  }

  lemma {:induction false} SortedElements(s: set<nat>)
    ensures forall x :: x in Sorted(s) <==> x in s
    ensures forall i, j :: 0 <= i < j < |Sorted(s)| ==> Sorted(s)[i] < Sorted(s)[j]
    ensures |Sorted(s)| == |s|
  {
    if s != {} {
      var m := MinOf(s);
      var r := s - {m};
      var rest := Sorted(r);
      SortedElements(r);
      var all := [m] + rest;
      assert Sorted(s) == all;
      forall i | 0 <= i < |rest| ensures m < rest[i] {
        assert rest[i] in r;
      }
      forall x ensures x in all <==> x in s {
        assert x in s <==> x == m || x in r;
      }
      forall i, j | 0 <= i < j < |all| ensures all[i] < all[j] {
        assert all[j] == rest[j - 1];
        assert i > 0 ==> all[i] == rest[i - 1];
      }
    }
  }

  method Sort(s: set<nat>) returns (t: seq<nat>)
    ensures t == Sorted(s)
  {
    t := [];
    var rest := s;
    while rest != {}
      invariant t + Sorted(rest) == Sorted(s)
    {
      MinExists(rest);
      var m :| m in rest && IsMin(m, rest);
      assert m == MinOf(rest);
      assert t + ([m] + Sorted(rest - {m})) == (t + [m]) + Sorted(rest - {m});
      t := t + [m];
      rest := rest - {m};
    }
  }
}
