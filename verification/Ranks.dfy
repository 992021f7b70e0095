/** Tie-averaging ranks (`_rank_values`) and the counting definition that they equal. */
module Ranks {

  // ---------- The counting definition ----------

  function Below(s: seq<real>, x: real): nat {
    if s == [] then 0 else Below(s[..|s| - 1], x) + if s[|s| - 1] < x then 1 else 0
  }

  function Equal(s: seq<real>, x: real): nat {
    if s == [] then 0 else Equal(s[..|s| - 1], x) + if s[|s| - 1] == x then 1 else 0
  }

  /** The mean of the places that the values equal to `x` take when the list is sorted. */
  function RankOf(s: seq<real>, x: real): real {
    Below(s, x) as real + (Equal(s, x) + 1) as real / 2.0
  }

  // ---------- Counting and rearranging ----------

  lemma {:induction false} CountsAppend(a: seq<real>, b: seq<real>, x: real)
    ensures Below(a + b, x) == Below(a, x) + Below(b, x) && Equal(a + b, x) == Equal(a, x) + Equal(b, x)
  {
    if b == [] {
      assert a + b == a;
    } else {
      CountsAppend(a, b[..|b| - 1], x);
      assert (a + b)[..|a + b| - 1] == a + b[..|b| - 1];
    }
  }

  lemma CountsInsert(a: seq<real>, v: real, b: seq<real>, x: real)
    ensures Below(a + [v] + b, x) == Below(a + b, x) + (if v < x then 1 else 0)
    ensures Equal(a + [v] + b, x) == Equal(a + b, x) + (if v == x then 1 else 0)
  {
    CountsAppend(a, [v], x);
    CountsAppend(a + [v], b, x);
    CountsAppend(a, b, x);
    assert [v][..0] == [];
  }

  lemma WithoutOne(t: seq<real>, j: nat, x: real) returns (u: seq<real>)
    requires j < |t|
    ensures multiset(u) == multiset(t) - multiset{t[j]}
    ensures Below(t, x) == Below(u, x) + (if t[j] < x then 1 else 0)
    ensures Equal(t, x) == Equal(u, x) + (if t[j] == x then 1 else 0)
  {
    u := t[..j] + t[j + 1..];
    assert t == t[..j] + [t[j]] + t[j + 1..];
    CountsInsert(t[..j], t[j], t[j + 1..], x);
  }

  lemma WithoutLast(s: seq<real>)
    requires s != []
    ensures multiset(s[..|s| - 1]) == multiset(s) - multiset{s[|s| - 1]}
  {
    assert s == s[..|s| - 1] + [s[|s| - 1]];
  }

  lemma SameBagEmpty(t: seq<real>)
    requires multiset(t) == multiset([])
    ensures t == []
  {
    assert |multiset(t)| == |t|;
  }

  /** Counting does not depend on the order. */
  lemma {:induction false} CountsRearrange(s: seq<real>, t: seq<real>, x: real)
    requires multiset(s) == multiset(t)
    ensures Below(s, x) == Below(t, x) && Equal(s, x) == Equal(t, x)
  {
    if s == [] {
      SameBagEmpty(t);
    } else {
      var v := s[|s| - 1];
      WithoutLast(s);
      assert v in multiset(t);
      var j :| 0 <= j < |t| && t[j] == v;
      var u := WithoutOne(t, j, x);
      CountsRearrange(s[..|s| - 1], u, x);
    }
  }

  /** Ranks follow a rearrangement of the list. */
  lemma RanksFollowRearrangement(s: seq<real>, t: seq<real>, x: real)
    requires multiset(s) == multiset(t)
    ensures RankOf(s, x) == RankOf(t, x)
  {
    CountsRearrange(s, t, x);
  }

  lemma {:induction false} CountsBetween(s: seq<real>, x: real, y: real)
    requires x < y
    ensures Below(s, y) >= Below(s, x) + Equal(s, x)
  {
    if s != [] {
      CountsBetween(s[..|s| - 1], x, y);
    }
  }

  lemma {:induction false} EqualToMember(s: seq<real>, i: nat)
    requires i < |s|
    ensures Equal(s, s[i]) >= 1
  {
    if i < |s| - 1 {
      EqualToMember(s[..|s| - 1], i);
    }
  }

  /** Ranks order the list as its values do, ties included. */
  lemma RanksPreserveOrder(s: seq<real>, i: nat, j: nat)
    requires i < |s| && j < |s|
    ensures s[i] < s[j] <==> RankOf(s, s[i]) < RankOf(s, s[j])
  {
    EqualToMember(s, i);
    EqualToMember(s, j);
    if s[i] < s[j] {
      CountsBetween(s, s[i], s[j]);
    } else if s[j] < s[i] {
      CountsBetween(s, s[j], s[i]);
    }
  }

  // ---------- The sum ----------

  function RankSum(s: seq<real>, t: seq<real>): real {
    if t == [] then 0.0 else RankSum(s, t[..|t| - 1]) + RankOf(s, t[|t| - 1])
  }

  /** One more value `v` in the counted list raises the rank of the larger values by one and of the
      equal ones by one half, as often as `v`'s own rank says the opposite. */
  lemma {:induction false} RankSumGrows(s: seq<real>, t: seq<real>, v: real)
    ensures RankSum(s + [v], t) == RankSum(s, t) + (|t| - Below(t, v)) as real - Equal(t, v) as real / 2.0
  {
    if t != [] {
      RankSumGrows(s, t[..|t| - 1], v);
      assert (s + [v])[..|s|] == s;
    }
  }

  /** The ranks of a list of `n` values sum to n(n + 1) / 2, with or without ties. */
  lemma {:induction false} RanksSum(s: seq<real>)
    ensures RankSum(s, s) == (|s| * (|s| + 1)) as real / 2.0
  {
    if s != [] {
      var init, v := s[..|s| - 1], s[|s| - 1];
      assert s == init + [v];
      RanksSum(init);
      RankSumGrows(init, init, v);
      OneMoreRank(init, v);
      Triangle(|init|);
    }
  }

  lemma OneMoreRank(s: seq<real>, v: real)
    ensures RankSum(s + [v], s + [v])
            == RankSum(s + [v], s) + Below(s, v) as real + (Equal(s, v) + 2) as real / 2.0
  {
    assert (s + [v])[..|s|] == s;
  }

  lemma Triangle(n: nat)
    ensures ((n + 1) * (n + 2)) as real == (n * (n + 1)) as real + 2.0 * (n + 1) as real
  {
    assert (n + 1) * (n + 2) == n * (n + 1) + 2 * (n + 1);
  }

  // ---------- The algorithm ----------

  predicate Ascending(sorted: seq<real>) {
    forall j, k :: 0 <= j < k < |sorted| ==> sorted[j] <= sorted[k]
  }

  /** Number of leading entries of a sorted list that do not exceed `v`. */
  method InsertionPoint(sorted: seq<real>, v: real) returns (j: nat)
    requires Ascending(sorted)
    ensures j <= |sorted|
    ensures forall k :: 0 <= k < j ==> sorted[k] <= v
    ensures forall k :: j <= k < |sorted| ==> v < sorted[k]
  {
    j := |sorted|;
    while j > 0 && v < sorted[j - 1]
      invariant j <= |sorted|
      invariant forall k :: j <= k < |sorted| ==> v < sorted[k]
    {
      j := j - 1;
    }
  }

  function Inserted<T>(s: seq<T>, j: nat, x: T): (r: seq<T>)
    requires j <= |s|
    ensures |r| == |s| + 1 && r[j] == x
    ensures forall k :: 0 <= k < j ==> r[k] == s[k]
    ensures forall k :: j <= k < |s| ==> r[k + 1] == s[k]
  {
    s[..j] + [x] + s[j..]
  }

  lemma InsertedBag(s: seq<real>, j: nat, x: real)
    requires j <= |s|
    ensures multiset(Inserted(s, j, x)) == multiset(s) + multiset{x}
  {
    assert s == s[..j] + s[j..];
  }

  /** Each entry of the sorted list comes from its place in the original one, and each place is
      used. */
  ghost predicate Indexed(values: seq<real>, order: seq<nat>, sorted: seq<real>) {
    && |order| == |sorted| == |values|
    && (forall k :: 0 <= k < |order| ==> order[k] < |values| && values[order[k]] == sorted[k])
    && (forall i :: 0 <= i < |values| ==> i in order)
  }

  lemma IndexedInsert(values: seq<real>, order: seq<nat>, sorted: seq<real>, j: nat, v: real)
    requires Indexed(values, order, sorted) && j <= |order|
    ensures Indexed(values + [v], Inserted(order, j, |values|), Inserted(sorted, j, v))
  {
    var order', values' := Inserted(order, j, |values|), values + [v];
    forall i | 0 <= i < |values'| ensures i in order' {
      if i < |values| {
        assert i in order;
        var k :| 0 <= k < |order| && order[k] == i;
        assert order'[if k < j then k else k + 1] == i;
      } else {
        assert order'[j] == i;
      }
    }
    assert forall k :: 0 <= k < |order'| ==> k < j || k == j || order'[k] == order[k - 1];
  }

  /** `sorted(enumerate(values), key=value)`, as the list of indices and that of values. */
  method SortedByValue(values: seq<real>) returns (order: seq<nat>, sorted: seq<real>)
    ensures Ascending(sorted) && Indexed(values, order, sorted) && multiset(sorted) == multiset(values)
  {
    order, sorted := [], [];
    assert Ascending(sorted) && Indexed([], order, sorted);
    hide Ascending, Indexed, Inserted;
    for i := 0 to |values|
      invariant Ascending(sorted) && Indexed(values[..i], order, sorted) && multiset(sorted) == multiset(values[..i])
    {
      var j := InsertionPoint(sorted, values[i]);
      IndexedInsert(values[..i], order, sorted, j, values[i]);
      InsertedBag(sorted, j, values[i]);
      assert values[..i + 1] == values[..i] + [values[i]];
      AscendingInsert(sorted, j, values[i]);
      order, sorted := Inserted(order, j, i), Inserted(sorted, j, values[i]);
    }
    assert values[..|values|] == values;
  }

  lemma AscendingInsert(sorted: seq<real>, j: nat, v: real)
    requires Ascending(sorted) && j <= |sorted|
    requires forall k :: 0 <= k < j ==> sorted[k] <= v
    requires forall k :: j <= k < |sorted| ==> v < sorted[k]
    ensures Ascending(Inserted(sorted, j, v))
  {
    var r := Inserted(sorted, j, v);
    assert forall k :: 0 <= k < |r| ==> k < j || k == j || r[k] == sorted[k - 1];
  }

  lemma {:induction false} CountsOutside(s: seq<real>, x: real, below: bool)
    requires forall k :: 0 <= k < |s| ==> if below then s[k] < x else x < s[k]
    ensures Below(s, x) == (if below then |s| else 0) && Equal(s, x) == 0
  {
    if s != [] {
      CountsOutside(s[..|s| - 1], x, below);
    }
  }

  lemma {:induction false} CountsWithin(s: seq<real>, x: real)
    requires forall k :: 0 <= k < |s| ==> s[k] == x
    ensures Below(s, x) == 0 && Equal(s, x) == |s|
  {
    if s != [] {
      CountsWithin(s[..|s| - 1], x);
    }
  }

  /** In a sorted list a maximal block of equal values sits at the places that the counts say. */
  lemma BlockRank(values: seq<real>, sorted: seq<real>, i: nat, j: nat)
    requires multiset(sorted) == multiset(values) && i <= j < |sorted|
    requires forall k :: 0 <= k < i ==> sorted[k] < sorted[i]
    requires forall k :: i <= k <= j ==> sorted[k] == sorted[i]
    requires forall k :: j < k < |sorted| ==> sorted[i] < sorted[k]
    ensures RankOf(values, sorted[i]) == (i + j + 2) as real / 2.0
  {
    var x := sorted[i];
    CountsRearrange(values, sorted, x);
    var a, b, c := sorted[..i], sorted[i..j + 1], sorted[j + 1..];
    assert sorted == a + b + c;
    hide Below, Equal;
    CountsOutside(a, x, true);
    CountsWithin(b, x);
    CountsOutside(c, x, false);
    CountsAppend(a, b, x);
    CountsAppend(a + b, c, x);
  }

  method BlockEnd(sorted: seq<real>, i: nat) returns (j: nat)
    requires i < |sorted|
    requires forall m, k :: 0 <= m < k < |sorted| ==> sorted[m] <= sorted[k]
    ensures i <= j < |sorted|
    ensures forall k :: i <= k <= j ==> sorted[k] == sorted[i]
    ensures forall k :: j < k < |sorted| ==> sorted[i] < sorted[k]
  {
    j := i;
    while j + 1 < |sorted| && sorted[j + 1] == sorted[i]
      invariant i <= j < |sorted|
      invariant forall k :: i <= k <= j ==> sorted[k] == sorted[i]
    {
      j := j + 1;
    }
  }

  /** One block of equal values gets the mean of its places. */
  method AssignBlock(ranks: array<real>, order: seq<nat>, i: nat, j: nat, average: real)
    requires i <= j < |order| && forall k :: 0 <= k < |order| ==> order[k] < ranks.Length
    modifies ranks
    ensures forall k :: i <= k <= j ==> ranks[order[k]] == average
    ensures forall m :: 0 <= m < ranks.Length && m !in order[i..j + 1] ==> ranks[m] == old(ranks[m])
  {
    for k := i to j + 1
      invariant forall m :: i <= m < k ==> ranks[order[m]] == average
      invariant forall m :: 0 <= m < ranks.Length && m !in order[i..j + 1] ==> ranks[m] == old(ranks[m])
    {
      assert order[k] in order[i..j + 1] by {
        assert order[i..j + 1][k - i] == order[k];
      }
      ranks[order[k]] := average;
    }
  }

  method RankValues(values: seq<real>) returns (ranks: array<real>)
    ensures ranks.Length == |values|
    ensures forall i :: 0 <= i < |values| ==> ranks[i] == RankOf(values, values[i])
  {
    var order, sorted := SortedByValue(values);
    ranks := new real[|values|](_ => 0.0);
    var i := 0;
    while i < |order|
      invariant i <= |order|
      invariant forall k :: 0 <= k < i ==> ranks[order[k]] == RankOf(values, sorted[k])
      invariant forall k, m :: 0 <= k < i <= m < |order| ==> sorted[k] < sorted[m]
    {
      var j := BlockEnd(sorted, i);
      BlockRank(values, sorted, i, j);
      AssignBlock(ranks, order, i, j, (i + j + 2) as real / 2.0);
      forall k | 0 <= k < i ensures order[k] !in order[i..j + 1] {
        forall m | i <= m <= j ensures order[m] != order[k] {
          assert values[order[m]] == sorted[m] && values[order[k]] == sorted[k];
        }
      }
      i := j + 1;
    }
    forall x | 0 <= x < |values| ensures ranks[x] == RankOf(values, values[x]) {
      assert x in order;
    }
  }
}
