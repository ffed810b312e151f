/** Sums over sets of row ids, and the two facts every report rests on: a disjoint union adds up,
    and so do the groups of a GROUP BY, in whatever order they are listed. */
module Sums {
  import opened Prelude

  function Sum(ids: set<nat>, value: nat -> int): int
    decreases |ids|
  {
    if ids == {} then 0
    else
      var m := Min(ids);
      value(m) + Sum(ids - {m}, value)
  }

  lemma {:induction false} SumSplit(ids: set<nat>, k: nat, value: nat -> int)
    requires k in ids
    ensures Sum(ids, value) == value(k) + Sum(ids - {k}, value)
    decreases |ids|
  {
    var m := Min(ids);
    assert Sum(ids, value) == value(m) + Sum(ids - {m}, value);
    if m != k {
      SumSplit(ids - {m}, k, value);
      SumSplit(ids - {k}, m, value);
      assert (ids - {m}) - {k} == (ids - {k}) - {m};
    }
  }

  lemma {:induction false} SumUnion(a: set<nat>, b: set<nat>, value: nat -> int)
    requires a !! b
    ensures Sum(a + b, value) == Sum(a, value) + Sum(b, value)
    decreases |a|
  {
    if a == {} {
      assert a + b == b;
    } else {
      var k :| k in a;
      SumSplit(a, k, value);
      SumSplit(a + b, k, value);
      assert (a + b) - {k} == (a - {k}) + b;
      SumUnion(a - {k}, b, value);
    }
  }

  lemma {:induction false} SumMonotone(ids: set<nat>, low: nat -> int, high: nat -> int)
    requires forall id :: id in ids ==> low(id) <= high(id)
    ensures Sum(ids, low) <= Sum(ids, high)
    ensures Sum(ids, low) == Sum(ids, high) <==> forall id :: id in ids ==> low(id) == high(id)
    decreases |ids|
  {
    if ids != {} {
      var k :| k in ids;
      SumSplit(ids, k, low);
      SumSplit(ids, k, high);
      SumMonotone(ids - {k}, low, high);
      assert forall id :: id in ids <==> id == k || id in ids - {k};
    }
  }

  lemma {:induction false} SumAgrees(ids: set<nat>, f: nat -> int, g: nat -> int)
    requires forall id :: id in ids ==> f(id) == g(id)
    ensures Sum(ids, f) == Sum(ids, g)
  {
    SumMonotone(ids, f, g);
  }

  // ------------------------------------------------------------------------
  // Groups
  // ------------------------------------------------------------------------

  function Group<K(==)>(ids: set<nat>, key: nat -> K, k: K): set<nat> {
    set id | id in ids && key(id) == k
  }

  /** A listing of the groups of a query: each key once, and every row's key among them. */
  ghost predicate Lists<K(!new)>(ids: set<nat>, key: nat -> K, keys: seq<K>) {
    && (forall i, j :: 0 <= i < j < |keys| ==> keys[i] != keys[j])
    && (forall id :: id in ids ==> key(id) in keys)
  }

  function SumOfGroups<K(==)>(ids: set<nat>, key: nat -> K, keys: seq<K>, value: nat -> int): int {
    if keys == [] then 0
    else
      SumOfGroups(ids, key, keys[..|keys| - 1], value) + Sum(Group(ids, key, keys[|keys| - 1]), value)
  }

  /** The groups of any listing partition the rows, so their sums add up to the whole. */
  lemma {:induction false} GroupsAddUp<K(!new)>(ids: set<nat>, key: nat -> K, keys: seq<K>, value: nat -> int)
    requires Lists(ids, key, keys)
    ensures SumOfGroups(ids, key, keys, value) == Sum(ids, value)
    decreases |keys|
  {
    if keys == [] {
      assert forall id :: id in ids ==> key(id) in keys;
      assert ids == {};
    } else {
      var init, last := keys[..|keys| - 1], keys[|keys| - 1];
      assert keys == init + [last];
      var mine := Group(ids, key, last);
      var rest := ids - mine;
      assert Lists(rest, key, init) by {
        forall id | id in rest ensures key(id) in init {
          assert key(id) in keys && key(id) != last;
        }
      }
      GroupsAddUp(rest, key, init, value);
      SameGroups(ids, rest, key, init, last, value);
      SumUnion(rest, mine, value);
      assert rest + mine == ids;
    }
  }

  lemma {:induction false} SameGroups<K(!new)>(ids: set<nat>, rest: set<nat>, key: nat -> K, keys: seq<K>,
                                                last: K, value: nat -> int)
    requires rest == ids - Group(ids, key, last) && last !in keys
    ensures SumOfGroups(ids, key, keys, value) == SumOfGroups(rest, key, keys, value)
    decreases |keys|
  {
    if keys != [] {
      var k := keys[|keys| - 1];
      assert k in keys && k != last;
      assert Group(ids, key, k) == Group(rest, key, k);
      assert forall x :: x in keys[..|keys| - 1] ==> x in keys;
      SameGroups(ids, rest, key, keys[..|keys| - 1], last, value);
    }
  }
}
