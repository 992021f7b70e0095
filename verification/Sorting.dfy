/** Python's `sorted`: of a set, by any strict order, and of a list, stably, by any weak order. */
module Sorting {

  ghost predicate StrictOrder<T(!new)>(before: (T, T) -> bool) {
    && (forall x :: !before(x, x))
    && (forall x, y :: before(x, y) || before(y, x) || x == y)
    && (forall x, y, z :: before(x, y) && before(y, z) ==> before(x, z))
  }

  predicate Sorted<T>(s: seq<T>, before: (T, T) -> bool) {
    forall i, j :: 0 <= i < j < |s| ==> before(s[i], s[j])
  }

  /** Position of `x` in a sorted list that does not hold it. */
  method Position<T(!new)>(s: seq<T>, before: (T, T) -> bool, x: T) returns (k: nat)
    requires StrictOrder(before) && Sorted(s, before) && x !in s
    ensures k <= |s|
    ensures forall i :: 0 <= i < k ==> before(s[i], x)
    ensures forall i :: k <= i < |s| ==> before(x, s[i])
  {
    k := 0;
    while k < |s| && before(s[k], x)
      invariant k <= |s|
      invariant forall i :: 0 <= i < k ==> before(s[i], x)
    {
      k := k + 1;
    }
    forall i | k <= i < |s| ensures before(x, s[i]) {
      assert s[k] in s && before(x, s[k]);
      assert k < i ==> before(s[k], s[i]);
    }
  }

  lemma InsertedAt<T>(s: seq<T>, before: (T, T) -> bool, k: nat, x: T)
    requires Sorted(s, before) && k <= |s|
    requires forall i :: 0 <= i < k ==> before(s[i], x)
    requires forall i :: k <= i < |s| ==> before(x, s[i])
    ensures Sorted(s[..k] + [x] + s[k..], before)
    ensures forall y :: y in s[..k] + [x] + s[k..] <==> y in s || y == x
  {
    assert s == s[..k] + s[k..];
  }

  method SortSet<T(==,!new)>(keys: set<T>, before: (T, T) -> bool) returns (r: seq<T>)
    requires StrictOrder(before)
    ensures Sorted(r, before)
    ensures forall x :: x in r <==> x in keys
  {
    r := [];
    var left := keys;
    assert Sorted(r, before);
    hide Sorted, StrictOrder;
    while left != {}
      invariant left <= keys && Sorted(r, before)
      invariant forall x :: x in r <==> x in keys - left
      decreases left
    {
      assert (forall x :: x !in left) ==> left == {};
      var x :| x in left;
      var k := Position(r, before, x);
      InsertedAt(r, before, k, x);
      r := r[..k] + [x] + r[k..];
      left := left - {x};
    }
  }

  lemma SortedIsDistinct<T(!new)>(s: seq<T>, before: (T, T) -> bool, i: nat, j: nat)
    requires StrictOrder(before) && Sorted(s, before) && i < j < |s|
    ensures s[i] != s[j]
  {
    assert before(s[i], s[j]);
  }

  /** Two sorted lists with the same members have the same last one. */
  lemma LastIsLast<T(!new)>(a: seq<T>, b: seq<T>, before: (T, T) -> bool)
    requires StrictOrder(before) && Sorted(a, before) && Sorted(b, before) && a != [] && b != []
    requires forall x :: x in a <==> x in b
    ensures a[|a| - 1] == b[|b| - 1]
  {
    var x, y := a[|a| - 1], b[|b| - 1];
    assert x in b && y in a;
    var i :| 0 <= i < |b| && b[i] == x;
    var j :| 0 <= j < |a| && a[j] == y;
    assert i < |b| - 1 ==> before(x, y);
    assert j < |a| - 1 ==> before(y, x);
  }

  lemma InitMembers<T(!new)>(a: seq<T>, before: (T, T) -> bool)
    requires StrictOrder(before) && Sorted(a, before) && a != []
    ensures Sorted(a[..|a| - 1], before)
    ensures forall x :: x in a[..|a| - 1] <==> x in a && x != a[|a| - 1]
  {
    var init, last := a[..|a| - 1], a[|a| - 1];
    assert a == init + [last];
    forall i | 0 <= i < |init| ensures init[i] != last {
      SortedIsDistinct(a, before, i, |a| - 1);
    }
  }

  /** A set has only one sorted list. */
  lemma {:induction false} SortedIsUnique<T(!new)>(a: seq<T>, b: seq<T>, before: (T, T) -> bool)
    requires StrictOrder(before) && Sorted(a, before) && Sorted(b, before)
    requires forall x :: x in a <==> x in b
    ensures a == b
    decreases |a|
  {
    hide Sorted, StrictOrder;
    if a != [] || b != [] {
      assert a != [] ==> a[0] in b;
      assert b != [] ==> b[0] in a;
      LastIsLast(a, b, before);
      InitMembers(a, before);
      InitMembers(b, before);
      var initA, initB := a[..|a| - 1], b[..|b| - 1];
      assert forall x :: x in initA <==> x in a && x != a[|a| - 1];
      assert forall x :: x in initB <==> x in b && x != b[|b| - 1];
      SortedIsUnique(initA, initB, before);
      assert a == a[..|a| - 1] + [a[|a| - 1]] && b == b[..|b| - 1] + [b[|b| - 1]];
    }
  }

  // ---------- Lists ----------

  ghost predicate WeakOrder<T(!new)>(before: (T, T) -> bool) {
    && (forall x, y :: before(x, y) ==> !before(y, x))
    && (forall x, y, z :: !before(y, x) && !before(z, y) ==> !before(z, x))
  }

  /** No element comes before its predecessor. */
  predicate InOrder<T>(s: seq<T>, before: (T, T) -> bool) {
    |s| <= 1 || (InOrder(s[..|s| - 1], before) && !before(s[|s| - 1], s[|s| - 2]))
  }

  /** An element put behind all those that it does not precede. */
  function Placed<T>(s: seq<T>, before: (T, T) -> bool, e: T): seq<T> {
    if s == [] || !before(e, s[|s| - 1]) then s + [e]
    else Placed(s[..|s| - 1], before, e) + [s[|s| - 1]]
  }

  /** The stable sort. */
  function Arranged<T>(s: seq<T>, before: (T, T) -> bool): seq<T> {
    if s == [] then [] else Placed(Arranged(s[..|s| - 1], before), before, s[|s| - 1])
  }

  lemma {:induction false} PlacedKeeps<T>(s: seq<T>, before: (T, T) -> bool, e: T)
    ensures multiset(Placed(s, before, e)) == multiset(s) + multiset{e}
  {
    if s != [] {
      assert s == s[..|s| - 1] + [s[|s| - 1]];
      PlacedKeeps(s[..|s| - 1], before, e);
    }
  }

  lemma {:induction false} ArrangedKeeps<T>(s: seq<T>, before: (T, T) -> bool)
    ensures multiset(Arranged(s, before)) == multiset(s)
  {
    hide Placed;
    if s != [] {
      var init, last := s[..|s| - 1], s[|s| - 1];
      ArrangedKeeps(init, before);
      PlacedKeeps(Arranged(init, before), before, last);
      assert s == init + [last];
    }
  }

  /** An element that comes before none of the first part finds its place in the second. */
  lemma {:induction false} PlacedAbove<T>(a: seq<T>, b: seq<T>, before: (T, T) -> bool, e: T)
    requires forall x :: x in a ==> !before(e, x)
    ensures Placed(a + b, before, e) == a + Placed(b, before, e)
  {
    if b == [] {
      assert a + b == a;
      assert a != [] ==> a[|a| - 1] in a;
    } else if before(e, b[|b| - 1]) {
      var init, last := b[..|b| - 1], b[|b| - 1];
      PlacedAbove(a, init, before, e);
      PlacedBefore(a + b, a + init, before, e, last);
      PlacedBefore(b, init, before, e, last);
    }
  }

  lemma PlacedBefore<T>(s: seq<T>, init: seq<T>, before: (T, T) -> bool, e: T, last: T)
    requires s == init + [last] && before(e, last)
    ensures Placed(s, before, e) == Placed(init, before, e) + [last]
  {
    assert s[..|s| - 1] == init;
  }

  /** One that comes before all of the second part finds it in the first. */
  lemma {:induction false} PlacedBelow<T>(a: seq<T>, b: seq<T>, before: (T, T) -> bool, e: T)
    requires forall x :: x in b ==> before(e, x)
    ensures Placed(a + b, before, e) == Placed(a, before, e) + b
  {
    hide Placed;
    if b == [] {
      assert a + b == a;
    } else {
      var init, last := b[..|b| - 1], b[|b| - 1];
      assert last in b;
      PlacedBelow(a, init, before, e);
      PlacedBefore(a + b, a + init, before, e, last);
      assert b == init + [last];
    }
  }

  lemma InOrderMore<T>(s: seq<T>, before: (T, T) -> bool, e: T)
    requires InOrder(s, before) && (s != [] ==> !before(e, s[|s| - 1]))
    ensures InOrder(s + [e], before)
  {
    var t := s + [e];
    assert t[..|t| - 1] == s && t[|t| - 1] == e;
    assert s != [] ==> t[|t| - 2] == s[|s| - 1];
  }

  lemma {:induction false} PlacedInOrder<T(!new)>(s: seq<T>, before: (T, T) -> bool, e: T)
    requires WeakOrder(before) && InOrder(s, before)
    ensures InOrder(Placed(s, before, e), before) && |Placed(s, before, e)| == |s| + 1
    ensures Placed(s, before, e)[|s|] == e || (s != [] && Placed(s, before, e)[|s|] == s[|s| - 1])
  {
    if s == [] || !before(e, s[|s| - 1]) {
      InOrderMore(s, before, e);
    } else {
      var init, last := s[..|s| - 1], s[|s| - 1];
      PlacedInOrder(init, before, e);
      InOrderMore(Placed(init, before, e), before, last);
    }
  }

  lemma {:induction false} ArrangedInOrder<T(!new)>(s: seq<T>, before: (T, T) -> bool)
    requires WeakOrder(before)
    ensures InOrder(Arranged(s, before), before)
  {
    if s != [] {
      ArrangedInOrder(s[..|s| - 1], before);
      PlacedInOrder(Arranged(s[..|s| - 1], before), before, s[|s| - 1]);
    }
  }

  lemma {:induction false} InOrderAt<T(!new)>(s: seq<T>, before: (T, T) -> bool, i: nat, j: nat)
    requires WeakOrder(before) && InOrder(s, before) && i < j < |s|
    ensures !before(s[j], s[i])
    decreases |s|
  {
    var init := s[..|s| - 1];
    if j < |init| {
      InOrderAt(init, before, i, j);
    } else if i < j - 1 {
      InOrderAt(init, before, i, j - 1);
      assert !before(init[j - 1], init[i]);
    }
  }
}
