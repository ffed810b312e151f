/** The category tree: the upward walk that vets a new parent, and the proof that it admits
    exactly the changes that leave the tree a forest. */
module Categories {
  import opened Prelude

  /** Each category's parent. */
  type Tree = map<nat, Option<nat>>

  function ParentOf(tree: Tree, id: nat): Option<nat> {
    if id in tree then tree[id] else None
  }

  /** The category n steps up, if the chain is that long. */
  function Up(tree: Tree, from: Option<nat>, n: nat): Option<nat> {
    if n == 0 then from
    else match Up(tree, from, n - 1)
      case None => None
      case Some(id) => ParentOf(tree, id)
  }

  /** The chain upwards from here comes to an end. */
  ghost predicate Grounded(tree: Tree, id: nat) {
    exists n: nat :: Up(tree, Some(id), n).None?
  }

  ghost predicate Forest(tree: Tree) {
    forall id :: id in tree ==> Grounded(tree, id)
  }

  /** No category is its own ancestor. */
  ghost predicate Acyclic(tree: Tree) {
    forall id, n: nat :: id in tree && 0 < n ==> Up(tree, Some(id), n) != Some(id)
  }

  /** The foreign key: every parent is on file. */
  predicate ParentsExist(tree: Tree) {
    forall id :: id in tree && tree[id].Some? ==> tree[id].value in tree
  }

  // ------------------------------------------------------------------------
  // Walking up
  // ------------------------------------------------------------------------

  lemma {:induction false} UpAdds(tree: Tree, from: Option<nat>, a: nat, b: nat)
    ensures Up(tree, from, a + b) == Up(tree, Up(tree, from, a), b)
    decreases b
  {
    if b > 0 {
      UpAdds(tree, from, a, b - 1);
    }
  }

  lemma {:induction false} NoneStays(tree: Tree, n: nat)
    ensures Up(tree, None, n).None?
  {
    if n > 0 {
      NoneStays(tree, n - 1);
    }
  }

  lemma ShorterIsLonger(tree: Tree, from: Option<nat>, a: nat, b: nat)
    requires a <= b && Up(tree, from, b).Some?
    ensures Up(tree, from, a).Some?
  {
    UpAdds(tree, from, a, b - a);
    NoneStays(tree, b - a);
  }

  /** A chain that meets itself never ends. */
  lemma {:induction false} LoopNeverEnds(tree: Tree, from: Option<nat>, a: nat, b: nat, n: nat)
    requires a < b && Up(tree, from, b).Some? && Up(tree, from, a) == Up(tree, from, b)
    ensures Up(tree, from, n).Some?
    decreases n
  {
    if n <= b {
      ShorterIsLonger(tree, from, n, b);
    } else {
      LoopNeverEnds(tree, from, a, b, n - (b - a));
      UpAdds(tree, from, b, n - b);
      UpAdds(tree, from, a, n - b);
      assert a + (n - b) == n - (b - a);
    }
  }

  /** Two trees that differ at one category only have the same chain up to it. */
  lemma {:induction false} SameChain(tree: Tree, other: Tree, id: nat, from: Option<nat>, n: nat)
    requires forall x :: x != id ==> ParentOf(tree, x) == ParentOf(other, x)
    requires forall k :: 0 <= k < n ==> Up(tree, from, k) != Some(id)
    ensures Up(other, from, n) == Up(tree, from, n)
    decreases n
  {
    if n > 0 {
      SameChain(tree, other, id, from, n - 1);
      assert Up(tree, from, n - 1) != Some(id);
    }
  }

  /** x lies on the chain upwards from a category, fewer than n steps away. */
  ghost predicate Met(tree: Tree, id: nat, x: nat, n: nat) {
    exists k: nat :: k < n && Up(tree, Some(id), k) == Some(x)
  }

  lemma MetLater(tree: Tree, id: nat, n: nat)
    ensures forall x: nat :: Met(tree, id, x, n) ==> Met(tree, id, x, n + 1)
    ensures Up(tree, Some(id), n).Some? ==> Met(tree, id, Up(tree, Some(id), n).value, n + 1)
  {
    forall x: nat | Met(tree, id, x, n) ensures Met(tree, id, x, n + 1) {
      var k: nat :| k < n && Up(tree, Some(id), k) == Some(x);
      assert k < n + 1;
    }
  }

  /** A chain that meets a category again is not grounded. */
  lemma MetAgain(tree: Tree, id: nat, x: nat, n: nat)
    requires Met(tree, id, x, n) && Up(tree, Some(id), n) == Some(x)
    ensures !Grounded(tree, id)
  {
    var k: nat :| k < n && Up(tree, Some(id), k) == Some(x);
    LoopIsNotGrounded(tree, id, k, n);
  }

  // ------------------------------------------------------------------------
  // The validator
  // ------------------------------------------------------------------------

  /** validate on an update: accepted exactly when, re-parented, the category's chain upwards
      would come to an end. The walk stops because every step adds an unseen category, whatever
      state the table is in: a chain already looping, or a parent that is gone. */
  method Validate(tree: Tree, id: nat, parent: Option<nat>) returns (r: Result<Option<nat>, Refusal>)
    ensures r == Success(parent) || r == Failure(Invalid)
    ensures r.Success? <==> (parent.Some? ==> parent.value in tree) && Grounded(tree[id := parent], id)
  {
    ghost var wanted := tree[id := parent];
    assert Up(wanted, Some(id), 1) == parent by {
      assert Up(wanted, Some(id), 0) == Some(id);
    }
    if parent.None? {
      return Success(parent);
    }
    if parent.value !in tree {
      return Failure(Invalid);
    }
    if parent.value == id {
      LoopIsNotGrounded(wanted, id, 0, 1);
      return Failure(Invalid);
    }
    var seen := {id};
    var cursor := parent;
    ghost var steps: nat := 1;
    MetLater(wanted, id, 0);
    while cursor.Some?
      invariant steps >= 1 && cursor == Up(wanted, Some(id), steps)
      invariant id in seen
      invariant forall x :: x in seen ==> Met(wanted, id, x, steps)
      decreases |tree.Keys - seen|, if cursor.Some? then 1 else 0
    {
      if cursor.value in seen {
        MetAgain(wanted, id, cursor.value, steps);
        return Failure(Invalid);
      }
      MetLater(wanted, id, steps);
      ghost var before := tree.Keys - seen;
      seen := seen + {cursor.value};
      assert tree.Keys - seen == before - {cursor.value};
      assert cursor.value in tree ==> cursor.value in before;
      cursor := ParentOf(tree, cursor.value);
      steps := steps + 1;
    }
    assert Grounded(wanted, id);
    return Success(parent);
  }

  lemma LoopIsNotGrounded(tree: Tree, id: nat, a: nat, b: nat)
    requires a < b && Up(tree, Some(id), b).Some? && Up(tree, Some(id), a) == Up(tree, Some(id), b)
    ensures !Grounded(tree, id)
  {
    forall n: nat ensures Up(tree, Some(id), n).Some? {
      LoopNeverEnds(tree, Some(id), a, b, n);
    }
  }

  // ------------------------------------------------------------------------
  // Forests
  // ------------------------------------------------------------------------

  /** A chain that reaches a grounded category is grounded. */
  lemma ReachesGround(tree: Tree, x: nat, k: nat, id: nat)
    requires Up(tree, Some(x), k) == Some(id) && Grounded(tree, id)
    ensures Grounded(tree, x)
  {
    var n: nat :| Up(tree, Some(id), n).None?;
    UpAdds(tree, Some(x), k, n);
    assert Up(tree, Some(x), k + n).None?;
  }

  /** Re-parenting one category of a forest leaves a forest exactly when that category's own
      chain ends: the walk from the proposed parent is all that needs checking. */
  lemma ReparentKeepsForestIff(tree: Tree, id: nat, parent: Option<nat>)
    requires Forest(tree) && id in tree
    ensures Forest(tree[id := parent]) <==> Grounded(tree[id := parent], id)
  {
    var wanted := tree[id := parent];
    if Grounded(wanted, id) {
      forall x | x in wanted ensures Grounded(wanted, x) {
        var n: nat :| Up(tree, Some(x), n).None?;
        ChainSurvives(tree, wanted, id, x, n);
      }
    }
  }

  lemma {:induction false} ChainSurvives(tree: Tree, wanted: Tree, id: nat, x: nat, n: nat)
    requires forall y :: y != id ==> ParentOf(tree, y) == ParentOf(wanted, y)
    requires Grounded(wanted, id) && Up(tree, Some(x), n).None?
    ensures Grounded(wanted, x)
  {
    if k: nat :| k < n && Up(tree, Some(x), k) == Some(id) {
      var first := FirstMeeting(tree, Some(x), id, k);
      SameChain(tree, wanted, id, Some(x), first);
      ReachesGround(wanted, x, first, id);
    } else {
      SameChain(tree, wanted, id, Some(x), n);
      assert Up(wanted, Some(x), n).None?;
    }
  }

  lemma {:induction false} FirstMeeting(tree: Tree, from: Option<nat>, id: nat, k: nat) returns (first: nat)
    requires Up(tree, from, k) == Some(id)
    ensures first <= k && Up(tree, from, first) == Some(id)
    ensures forall j :: 0 <= j < first ==> Up(tree, from, j) != Some(id)
    decreases k
  {
    if j: nat :| j < k && Up(tree, from, j) == Some(id) {
      first := FirstMeeting(tree, from, id, j);
    } else {
      first := k;
    }
  }

  /** A forest is the same thing as a table without loops. */
  lemma ForestIsAcyclic(tree: Tree)
    requires ParentsExist(tree)
    ensures Forest(tree) <==> Acyclic(tree)
  {
    if Forest(tree) {
      forall id, n: nat | id in tree && 0 < n ensures Up(tree, Some(id), n) != Some(id) {
        if Up(tree, Some(id), n) == Some(id) {
          LoopIsNotGrounded(tree, id, 0, n);
          assert false;
        }
      }
    }
    if Acyclic(tree) {
      forall id | id in tree ensures Grounded(tree, id) {
        ChainEnds(tree, id);
      }
    }
  }

  /** Without loops, a chain is no longer than the table. */
  lemma ChainEnds(tree: Tree, id: nat)
    requires ParentsExist(tree) && Acyclic(tree) && id in tree
    ensures Grounded(tree, id)
  {
    var visited := Visit(tree, id, |tree|);
    if Up(tree, Some(id), |tree|).Some? {
      assert |visited| == |tree| + 1;
      SubsetSize(visited, tree.Keys);
      assert false;
    }
  }

  /** The categories met in n steps: all different, all on file. */
  lemma {:induction false} Visit(tree: Tree, id: nat, n: nat) returns (visited: set<nat>)
    requires ParentsExist(tree) && Acyclic(tree) && id in tree
    ensures Up(tree, Some(id), n).Some? ==>
      && |visited| == n + 1
      && visited <= tree.Keys
      && (forall x :: x in visited ==> Met(tree, id, x, n + 1))
    decreases n
  {
    if n == 0 {
      visited := {id};
      MetLater(tree, id, 0);
    } else {
      visited := Visit(tree, id, n - 1);
      if Up(tree, Some(id), n).Some? {
        var last := Up(tree, Some(id), n).value;
        ShorterIsLonger(tree, Some(id), n - 1, n);
        LastIsNew(tree, id, n, visited);
        MetLater(tree, id, n);
        visited := visited + {last};
      }
    }
  }

  lemma LastIsNew(tree: Tree, id: nat, n: nat, visited: set<nat>)
    requires ParentsExist(tree) && Acyclic(tree) && visited <= tree.Keys
    requires 0 < n && Up(tree, Some(id), n).Some? && Up(tree, Some(id), n - 1).Some?
    requires forall x :: x in visited ==> Met(tree, id, x, n)
    ensures Up(tree, Some(id), n).value !in visited && Up(tree, Some(id), n).value in tree
  {
    var last := Up(tree, Some(id), n).value;
    assert ParentOf(tree, Up(tree, Some(id), n - 1).value) == Some(last);
    assert last in tree;
    forall k: nat | k < n ensures Up(tree, Some(id), k) != Some(last) {
      UpAdds(tree, Some(id), k, n - k);
    }
  }

  // ------------------------------------------------------------------------
  // Runs
  // ------------------------------------------------------------------------

  datatype Change = Create(id: nat, parent: Option<nat>) | Update(id: nat, parent: Option<nat>) | Delete(id: nat)

  /** Deleting a category makes its children roots. */
  function Deleted(tree: Tree, id: nat): Tree {
    map x | x in tree && x != id :: if tree[x] == Some(id) then None else tree[x]
  }

  /** One request; a refusal changes nothing. A new category takes an unused id, so nothing can
      be below it yet and only its parent's existence is checked. */
  ghost function Changed(tree: Tree, change: Change): Tree {
    match change
    case Create(id, parent) =>
      if id !in tree && (parent.Some? ==> parent.value in tree) then tree[id := parent] else tree
    case Update(id, parent) =>
      if id in tree && (parent.Some? ==> parent.value in tree) && Grounded(tree[id := parent], id)
      then tree[id := parent] else tree
    case Delete(id) => Deleted(tree, id)
  }

  lemma CreateKeepsForest(tree: Tree, id: nat, parent: Option<nat>)
    requires ParentsExist(tree) && Forest(tree) && id !in tree && (parent.Some? ==> parent.value in tree)
    ensures Forest(tree[id := parent])
  {
    var wanted := tree[id := parent];
    forall x | x in tree ensures Grounded(wanted, x) {
      var n: nat :| Up(tree, Some(x), n).None?;
      forall k: nat | k <= n ensures Up(tree, Some(x), k).Some? ==> Up(tree, Some(x), k).value in tree {
        StaysOnFile(tree, x, k);
      }
      SameChain(tree, wanted, id, Some(x), n);
      assert Up(wanted, Some(x), n).None?;
    }
    assert Up(wanted, Some(id), 0) == Some(id) && Up(wanted, Some(id), 1) == parent;
    if parent.Some? {
      ReachesGround(wanted, id, 1, parent.value);
    } else {
      assert Up(wanted, Some(id), 1).None?;
    }
  }

  lemma {:induction false} StaysOnFile(tree: Tree, x: nat, k: nat)
    requires ParentsExist(tree) && x in tree
    ensures Up(tree, Some(x), k).Some? ==> Up(tree, Some(x), k).value in tree
  {
    if k > 0 {
      StaysOnFile(tree, x, k - 1);
    }
  }

  /** Cutting a category out shortens chains; it makes none longer. */
  lemma {:induction false} DeleteShortens(tree: Tree, id: nat, x: nat, n: nat)
    requires x != id
    ensures var cut := Up(Deleted(tree, id), Some(x), n);
      cut.None? || (cut == Up(tree, Some(x), n) && cut.value != id)
  {
    if n > 0 {
      DeleteShortens(tree, id, x, n - 1);
    }
  }

  /** Every create, update and delete, and so every run of them, keeps the tree a forest. */
  lemma ChangeKeepsForest(tree: Tree, change: Change)
    requires ParentsExist(tree) && Forest(tree)
    ensures ParentsExist(Changed(tree, change)) && Forest(Changed(tree, change))
  {
    match change
    case Create(id, parent) =>
      if id !in tree && (parent.Some? ==> parent.value in tree) {
        CreateKeepsForest(tree, id, parent);
      }
    case Update(id, parent) =>
      if id in tree {
        ReparentKeepsForestIff(tree, id, parent);
      }
    case Delete(id) =>
      var cut := Deleted(tree, id);
      forall x | x in cut ensures Grounded(cut, x) {
        var n: nat :| Up(tree, Some(x), n).None?;
        DeleteShortens(tree, id, x, n);
        assert Up(cut, Some(x), n).None?;
      }
  }

  /** The category rows, and the requests on them. */
  class CategoryTable {
    var tree: Tree

    /** POST: refused exactly for a parent that is not on file; otherwise the new row stands under
        it, no other row moves, and a forest stays one. */
    method CreateCategory(id: nat, parent: Option<nat>) returns (refused: Option<Refusal>)
      requires id !in tree
      modifies this
      ensures refused.Some? <==> parent.Some? && parent.value !in old(tree)
      ensures refused.Some? ==> tree == old(tree)
      ensures refused.None? ==>
        && tree.Keys == old(tree).Keys + {id} && tree[id] == parent
        && (forall x :: x in old(tree) ==> tree[x] == old(tree)[x])
      ensures old(ParentsExist(tree) && Forest(tree)) ==> ParentsExist(tree) && Forest(tree)
      ensures tree == Changed(old(tree), Create(id, parent))
    {
      if ParentsExist(tree) && Forest(tree) {
        ChangeKeepsForest(tree, Create(id, parent));
      }
      if parent.Some? && parent.value !in tree {
        return Some(Invalid);
      }
      tree := tree[id := parent];
      return None;
    }

    /** PUT: validate, then save. In a forest, refused exactly when the result would not be one. */
    method UpdateCategory(id: nat, parent: Option<nat>) returns (refused: Option<Refusal>)
      modifies this
      ensures tree == Changed(old(tree), Update(id, parent))
      ensures refused.None? <==>
        && id in old(tree) && (parent.Some? ==> parent.value in old(tree))
        && Grounded(old(tree)[id := parent], id)
      ensures refused.None? ==> id in tree && tree[id] == parent
      ensures refused.Some? ==> tree == old(tree)
      ensures forall x :: x in old(tree) && x != id ==> x in tree && tree[x] == old(tree)[x]
      ensures old(ParentsExist(tree) && Forest(tree)) ==> ParentsExist(tree) && Forest(tree)
      ensures old(Forest(tree)) && id in old(tree) && (parent.Some? ==> parent.value in old(tree)) ==>
        (refused.None? <==> Forest(old(tree)[id := parent]))
    {
      if ParentsExist(tree) && Forest(tree) {
        ChangeKeepsForest(tree, Update(id, parent));
      }
      if Forest(tree) && id in tree {
        ReparentKeepsForestIff(tree, id, parent);
      }
      if id !in tree {
        return Some(NotFound);
      }
      var checked := Validate(tree, id, parent);
      if checked.Failure? {
        return Some(checked.error);
      }
      tree := tree[id := checked.value];
      return None;
    }

    /** DELETE: the row is gone, its children are roots, no other row moves, and a forest stays
        one. */
    method DeleteCategory(id: nat) returns (refused: Option<Refusal>)
      modifies this
      ensures refused.Some? <==> id !in old(tree)
      ensures id !in tree && tree.Keys == old(tree).Keys - {id}
      ensures refused.None? ==> forall x :: x in tree ==> tree[x] != Some(id)
      ensures refused.None? ==> forall x :: x in tree && old(tree)[x] == Some(id) ==> tree[x].None?
      ensures forall x :: x in tree && old(tree)[x] != Some(id) ==> tree[x] == old(tree)[x]
      ensures old(ParentsExist(tree) && Forest(tree)) ==> ParentsExist(tree) && Forest(tree)
      ensures refused.None? ==> tree == Changed(old(tree), Delete(id))
    {
      if ParentsExist(tree) && Forest(tree) {
        ChangeKeepsForest(tree, Delete(id));
      }
      if id !in tree {
        return Some(NotFound);
      }
      tree := Deleted(tree, id);
      return None;
    }
  }

  ghost function ChangedAll(tree: Tree, changes: seq<Change>): Tree {
    if changes == [] then tree
    else Changed(ChangedAll(tree, changes[..|changes| - 1]), changes[|changes| - 1])
  }

  /** No run of category requests ever puts a loop in the tree. */
  lemma {:induction false} TreeStaysAcyclic(tree: Tree, changes: seq<Change>)
    requires ParentsExist(tree) && Forest(tree)
    ensures var end := ChangedAll(tree, changes);
      ParentsExist(end) && Forest(end) && Acyclic(end)
    decreases |changes|
  {
    if changes != [] {
      TreeStaysAcyclic(tree, changes[..|changes| - 1]);
      ChangeKeepsForest(ChangedAll(tree, changes[..|changes| - 1]), changes[|changes| - 1]);
    }
    ForestIsAcyclic(ChangedAll(tree, changes));
  }
}
