/** Lists read for what they hold: elements, repetitions and rearrangements. */
module Lists {

  function Elements<T>(s: seq<T>): set<T> {
    set x | x in s
  }

  ghost predicate NoRepeats<T>(s: seq<T>) {
    forall i, j :: 0 <= i < j < |s| ==> s[i] != s[j]
  }

  /** The elements of a list in first-seen order, each once. */
  function Distinct<T(==)>(s: seq<T>): seq<T> {
    if s == [] then []
    else
      var front, last := Distinct(s[..|s| - 1]), s[|s| - 1];
      if last in front then front else front + [last]
  }

  lemma {:induction false} DistinctIsTheSet<T>(s: seq<T>)
    ensures NoRepeats(Distinct(s))
    ensures forall x :: x in Distinct(s) <==> x in s
  {
    if s != [] {
      var front, last := s[..|s| - 1], s[|s| - 1];
      DistinctIsTheSet(front);
      assert s == front + [last];
    }
  }

  lemma {:induction false} DistinctOfDistinct<T>(s: seq<T>)
    requires NoRepeats(s)
    ensures Distinct(s) == s
  {
    if s != [] {
      var front, last := s[..|s| - 1], s[|s| - 1];
      DistinctOfDistinct(front);
      assert s == front + [last];
      assert last !in front;
    }
  }

  lemma {:induction false} SetSize<T>(s: seq<T>)
    requires NoRepeats(s)
    ensures |Elements(s)| == |s|
  {
    if s != [] {
      var front, last := s[..|s| - 1], s[|s| - 1];
      SetSize(front);
      assert s == front + [last];
      assert last !in Elements(front) && Elements(s) == Elements(front) + {last};
    }
  }

  lemma {:induction false} SubsetSize<T>(a: set<T>, b: set<T>)
    requires a <= b
    ensures |a| <= |b|
  {
    if a != {} {
      var x :| x in a;
      SubsetSize(a - {x}, b - {x});
    }
  }

  // ---- Rearrangements ---------------------------------------------------

  lemma SameElements<T>(a: seq<T>, b: seq<T>)
    requires multiset(a) == multiset(b)
    ensures forall x :: x in a <==> x in b
  {
    assert forall x :: x in a <==> x in multiset(a);
    assert forall x :: x in b <==> x in multiset(b);
  }

  /** Any element can be read first. */
  lemma MovedToFront<T>(a: seq<T>, x: T) returns (rest: seq<T>)
    requires x in a
    ensures multiset([x] + rest) == multiset(a)
    ensures forall y :: y in rest ==> y in a
  {
    var k :| 0 <= k < |a| && a[k] == x;
    rest := a[..k] + a[k + 1..];
    assert a == a[..k] + [x] + a[k + 1..];
  }

  /** Taking the same element out of two rearrangements leaves two rearrangements. */
  lemma WithoutOne<T>(front: seq<T>, x: T, b: seq<T>) returns (k: nat)
    requires multiset(front + [x]) == multiset(b)
    ensures k < |b| && b[k] == x && multiset(front) == multiset(b[..k] + b[k + 1..])
    ensures b == b[..k] + [x] + b[k + 1..]
  {
    assert x in multiset(b);
    k :| 0 <= k < |b| && b[k] == x;
    assert b == b[..k] + [x] + b[k + 1..];
    assert multiset(b) == multiset(b[..k] + b[k + 1..]) + multiset{x};
    assert multiset(front) == multiset(front + [x]) - multiset{x};
    assert multiset(b[..k] + b[k + 1..]) == multiset(b) - multiset{x};
  }
}
