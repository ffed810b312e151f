/** Any number of re-parentings in flight at once. The walk reads the table in one step and the save
    writes the row in a later one, with no lock between them; exactly when the tree survives. */
module CategoryRaces {
  import opened Prelude
  import opened Categories

  datatype Phase = Pending | Cleared | Over

  /** A PUT that would put a category under a parent. */
  datatype Mover = Mover(id: nat, parent: Option<nat>, phase: Phase)

  datatype World = World(tree: Tree, movers: seq<Mover>)

  /** What validate answers on the table as it is. */
  ghost predicate Accepted(tree: Tree, m: Mover) {
    m.id in tree && (m.parent.Some? ==> m.parent.value in tree) && Grounded(tree[m.id := m.parent], m.id)
  }

  /** The next step of one mover: its walk, or its save. */
  ghost function Stepped(w: World, k: nat): World
    requires k < |w.movers|
  {
    var m := w.movers[k];
    match m.phase
    case Pending => w.(movers := w.movers[k := m.(phase := if Accepted(w.tree, m) then Cleared else Over)])
    case Cleared => World(w.tree[m.id := m.parent], w.movers[k := m.(phase := Over)])
    case Over => w
  }

  ghost function Run(w: World, schedule: seq<nat>): World {
    if schedule == [] then w
    else
      var mid := Run(w, schedule[..|schedule| - 1]);
      var k := schedule[|schedule| - 1];
      if k < |mid.movers| then Stepped(mid, k) else mid
  }

  predicate Opening(w: World) {
    forall k :: 0 <= k < |w.movers| ==> w.movers[k].phase == Pending
  }

  // ------------------------------------------------------------------------
  // Plans
  // ------------------------------------------------------------------------

  /** A save in the order saves are made, and how many saves its walk had seen. */
  datatype Save = Save(mover: nat, seen: nat)

  /** The table after the saves of a plan. */
  function Applied(o: World, plan: seq<Save>): Tree {
    if plan == [] then o.tree
    else
      var before := Applied(o, plan[..|plan| - 1]);
      var k := plan[|plan| - 1].mover;
      if k < |o.movers| then before[o.movers[k].id := o.movers[k].parent] else before
  }

  /** Every mover saves at most once, and was accepted by a walk of the table as an earlier or the
      same number of saves had left it. */
  ghost predicate Admissible(o: World, plan: seq<Save>) {
    && (forall i, j :: 0 <= i < j < |plan| ==> plan[i].mover != plan[j].mover)
    && (forall i :: 0 <= i < |plan| ==>
          && plan[i].mover < |o.movers| && plan[i].seen <= i
          && Accepted(Applied(o, plan[..plan[i].seen]), o.movers[plan[i].mover]))
  }

  lemma RunSnoc(w: World, schedule: seq<nat>, k: nat)
    ensures var mid := Run(w, schedule);
      Run(w, schedule + [k]) == if k < |mid.movers| then Stepped(mid, k) else mid
  {
    assert (schedule + [k])[..|schedule|] == schedule;
  }

  // ------------------------------------------------------------------------
  // Every schedule follows a plan
  // ------------------------------------------------------------------------

  /** A plan whose saves are those made so far, with the walks that are past their check. */
  ghost predicate Follows(o: World, w: World, plan: seq<Save>, seen: seq<nat>) {
    && |w.movers| == |o.movers| == |seen|
    && Admissible(o, plan) && w.tree == Applied(o, plan)
    && (forall k :: 0 <= k < |o.movers| ==> w.movers[k] == o.movers[k].(phase := w.movers[k].phase))
    && (forall i :: 0 <= i < |plan| ==> w.movers[plan[i].mover].phase == Over)
    && (forall k :: 0 <= k < |o.movers| && w.movers[k].phase == Cleared ==>
          seen[k] <= |plan| && Accepted(Applied(o, plan[..seen[k]]), o.movers[k]))
  }

  lemma AcceptedIgnoresPhase(tree: Tree, m: Mover, phase: Phase)
    ensures Accepted(tree, m.(phase := phase)) <==> Accepted(tree, m)
  {
  }

  lemma WalkFollows(o: World, w: World, k: nat, plan: seq<Save>, seen: seq<nat>)
    requires Follows(o, w, plan, seen) && k < |w.movers| && w.movers[k].phase == Pending
    ensures Follows(o, Stepped(w, k), plan, seen[k := |plan|])
  {
    AcceptedIgnoresPhase(w.tree, o.movers[k], w.movers[k].phase);
    assert plan[..|plan|] == plan;
  }

  lemma SamePrefixes(plan: seq<Save>, next: Save)
    ensures forall n :: 0 <= n <= |plan| ==> (plan + [next])[..n] == plan[..n]
    ensures (plan + [next])[..|plan|] == plan
  {
  }

  lemma PlanExtended(o: World, plan: seq<Save>, next: Save)
    requires Admissible(o, plan) && next.mover < |o.movers| && next.seen <= |plan|
    requires forall i :: 0 <= i < |plan| ==> plan[i].mover != next.mover
    requires Accepted(Applied(o, plan[..next.seen]), o.movers[next.mover])
    ensures Admissible(o, plan + [next])
    ensures Applied(o, plan + [next]) == Applied(o, plan)[o.movers[next.mover].id := o.movers[next.mover].parent]
    ensures forall n :: 0 <= n <= |plan| ==> (plan + [next])[..n] == plan[..n]
  {
    var longer := plan + [next];
    SamePrefixes(plan, next);
    forall i | 0 <= i < |longer|
      ensures longer[i].mover < |o.movers| && longer[i].seen <= i
      ensures Accepted(Applied(o, longer[..longer[i].seen]), o.movers[longer[i].mover])
    {
      if i < |plan| {
        assert longer[i] == plan[i];
      }
    }
  }

  lemma SaveFollows(o: World, w: World, k: nat, plan: seq<Save>, seen: seq<nat>)
    requires Follows(o, w, plan, seen) && k < |w.movers| && w.movers[k].phase == Cleared
    ensures Follows(o, Stepped(w, k), plan + [Save(k, seen[k])], seen)
  {
    PlanExtended(o, plan, Save(k, seen[k]));
  }

  lemma {:induction false} RunFollowsPlan(o: World, schedule: seq<nat>) returns (plan: seq<Save>, seen: seq<nat>)
    requires Opening(o)
    ensures Follows(o, Run(o, schedule), plan, seen)
    decreases |schedule|
  {
    if schedule == [] {
      plan, seen := [], seq(|o.movers|, i => 0);
    } else {
      plan, seen := RunFollowsPlan(o, schedule[..|schedule| - 1]);
      var mid := Run(o, schedule[..|schedule| - 1]);
      var k := schedule[|schedule| - 1];
      if k < |mid.movers| && mid.movers[k].phase == Pending {
        WalkFollows(o, mid, k, plan, seen);
        seen := seen[k := |plan|];
      } else if k < |mid.movers| && mid.movers[k].phase == Cleared {
        SaveFollows(o, mid, k, plan, seen);
        plan := plan + [Save(k, seen[k])];
      }
    }
  }

  // ------------------------------------------------------------------------
  // Every plan has a schedule
  // ------------------------------------------------------------------------

  /** Before save t of a plan, with the walks of its first m movers made as far as they are due. */
  function DuePhase(plan: seq<Save>, t: nat, m: nat, i: nat): Phase
    requires i < |plan|
  {
    if i < t then Over
    else if plan[i].seen < t || (plan[i].seen == t && i < m) then Cleared
    else Pending
  }

  ghost predicate OnPlan(o: World, w: World, plan: seq<Save>, t: nat, m: nat)
    requires Admissible(o, plan) && t <= |plan|
  {
    && |w.movers| == |o.movers| && w.tree == Applied(o, plan[..t])
    && (forall i :: 0 <= i < |plan| ==>
          w.movers[plan[i].mover] == o.movers[plan[i].mover].(phase := DuePhase(plan, t, m, i)))
  }

  /** One more mover makes its walk if it is due. */
  lemma NextWalk(o: World, w: World, plan: seq<Save>, t: nat, m: nat, before: seq<nat>)
    returns (schedule: seq<nat>, after: World)
    requires Admissible(o, plan) && t <= |plan| && m < |plan| && OnPlan(o, w, plan, t, m) && w == Run(o, before)
    ensures OnPlan(o, after, plan, t, m + 1) && after == Run(o, schedule)
  {
    if t <= m && plan[m].seen == t {
      schedule, after := before + [plan[m].mover], Stepped(w, plan[m].mover);
      RunSnoc(o, before, plan[m].mover);
      WalkOnPlan(o, w, plan, t, m);
    } else {
      schedule, after := before, w;
      NotDue(plan, t, m);
    }
  }

  lemma NotDue(plan: seq<Save>, t: nat, m: nat)
    requires m < |plan| && (m < t || plan[m].seen != t)
    ensures forall i :: 0 <= i < |plan| ==> DuePhase(plan, t, m, i) == DuePhase(plan, t, m + 1, i)
  {
  }

  lemma WalkOnPlan(o: World, w: World, plan: seq<Save>, t: nat, m: nat)
    requires Admissible(o, plan) && t <= m < |plan| && OnPlan(o, w, plan, t, m) && plan[m].seen == t
    ensures OnPlan(o, Stepped(w, plan[m].mover), plan, t, m + 1)
  {
    AcceptedIgnoresPhase(w.tree, o.movers[plan[m].mover], Pending);
    assert w.movers[plan[m].mover] == o.movers[plan[m].mover].(phase := Pending);
  }

  /** Once everybody due has walked, the next save is made. */
  lemma NextSave(o: World, w: World, plan: seq<Save>, t: nat, before: seq<nat>)
    returns (schedule: seq<nat>, after: World)
    requires Admissible(o, plan) && t < |plan| && OnPlan(o, w, plan, t, |plan|) && w == Run(o, before)
    ensures OnPlan(o, after, plan, t + 1, 0) && after == Run(o, schedule)
  {
    schedule, after := before + [plan[t].mover], Stepped(w, plan[t].mover);
    RunSnoc(o, before, plan[t].mover);
    SaveOnPlan(o, w, plan, t);
  }

  lemma SaveOnPlan(o: World, w: World, plan: seq<Save>, t: nat)
    requires Admissible(o, plan) && t < |plan| && OnPlan(o, w, plan, t, |plan|)
    ensures OnPlan(o, Stepped(w, plan[t].mover), plan, t + 1, 0)
  {
    assert w.movers[plan[t].mover] == o.movers[plan[t].mover].(phase := Cleared);
    OneMoreSave(o, plan, t);
    forall i | 0 <= i < |plan| && i != t
      ensures plan[i].mover != plan[t].mover && DuePhase(plan, t, |plan|, i) == DuePhase(plan, t + 1, 0, i)
    {
    }
  }

  lemma OneMoreSave(o: World, plan: seq<Save>, t: nat)
    requires t < |plan| && plan[t].mover < |o.movers|
    ensures Applied(o, plan[..t + 1]) ==
      Applied(o, plan[..t])[o.movers[plan[t].mover].id := o.movers[plan[t].mover].parent]
  {
    assert plan[..t + 1][..t] == plan[..t];
  }

  lemma {:induction false} PlanHasSchedule(o: World, plan: seq<Save>, t: nat, m: nat)
    returns (schedule: seq<nat>, w: World)
    requires Opening(o) && Admissible(o, plan) && t <= |plan| && m <= |plan|
    ensures OnPlan(o, w, plan, t, m) && w == Run(o, schedule)
    decreases t, m
  {
    if m > 0 {
      schedule, w := PlanHasSchedule(o, plan, t, m - 1);
      schedule, w := NextWalk(o, w, plan, t, m - 1, schedule);
    } else if t > 0 {
      schedule, w := PlanHasSchedule(o, plan, t - 1, |plan|);
      schedule, w := NextSave(o, w, plan, t - 1, schedule);
    } else {
      schedule, w := [], o;
    }
  }

  /** The interleavings, told by their saves: every schedule leaves a forest if and only if every
      admissible plan does. */
  lemma EveryScheduleForestIff(o: World)
    requires Opening(o)
    ensures (forall schedule: seq<nat> :: Forest(Run(o, schedule).tree))
      <==> forall plan: seq<Save> :: Admissible(o, plan) ==> Forest(Applied(o, plan))
  {
    if plan: seq<Save> :| Admissible(o, plan) && !Forest(Applied(o, plan)) {
      PlanReached(o, plan);
    } else {
      forall schedule: seq<nat> ensures Forest(Run(o, schedule).tree) {
        var plan, seen := RunFollowsPlan(o, schedule);
      }
    }
  }

  lemma PlanReached(o: World, plan: seq<Save>)
    requires Opening(o) && Admissible(o, plan)
    ensures exists schedule: seq<nat> :: Run(o, schedule).tree == Applied(o, plan)
  {
    var schedule, w := PlanHasSchedule(o, plan, |plan|, 0);
    assert plan[..|plan|] == plan;
    assert Run(o, schedule).tree == Applied(o, plan);
  }

  // ------------------------------------------------------------------------
  // Moves that are each fine on their own
  // ------------------------------------------------------------------------

  /** Every category has one move in flight, which the opening table would accept. */
  ghost predicate EachAccepted(o: World) {
    && (forall k :: 0 <= k < |o.movers| ==> Accepted(o.tree, o.movers[k]))
    && (forall j, k :: 0 <= j < k < |o.movers| ==> o.movers[j].id != o.movers[k].id)
  }

  predicate Moves(o: World, s: set<nat>, id: nat, k: nat) {
    k in s && k < |o.movers| && o.movers[k].id == id
  }

  /** The opening table with some of the moves made. */
  ghost function Moved(o: World, s: set<nat>): Tree {
    map id | id in o.tree :: NewParent(o, s, id)
  }

  ghost function NewParent(o: World, s: set<nat>, id: nat): Option<nat>
    requires id in o.tree
  {
    if k: nat :| Moves(o, s, id, k) then o.movers[k].parent else o.tree[id]
  }

  function MoversOf(plan: seq<Save>): set<nat> {
    set i | 0 <= i < |plan| :: plan[i].mover
  }

  lemma NewParentIs(o: World, s: set<nat>, id: nat, k: nat)
    requires EachAccepted(o) && id in o.tree
    ensures Moves(o, s, id, k) ==> NewParent(o, s, id) == o.movers[k].parent
    ensures (forall j: nat :: !Moves(o, s, id, j)) ==> NewParent(o, s, id) == o.tree[id]
  {
  }

  /** The order of saves on different rows does not matter. */
  lemma {:induction false} AppliedIsMoved(o: World, plan: seq<Save>)
    requires EachAccepted(o) && forall i :: 0 <= i < |plan| ==> plan[i].mover < |o.movers|
    ensures Applied(o, plan) == Moved(o, MoversOf(plan))
    decreases |plan|
  {
    if plan == [] {
      forall id | id in o.tree ensures NewParent(o, {}, id) == o.tree[id] {
        NewParentIs(o, {}, id, 0);
      }
      assert MoversOf(plan) == {};
    } else {
      var init, last := plan[..|plan| - 1], plan[|plan| - 1].mover;
      AppliedIsMoved(o, init);
      assert MoversOf(plan) == MoversOf(init) + {last} by {
        assert plan == init + [plan[|plan| - 1]];
        forall k | k in MoversOf(init) ensures k in MoversOf(plan) {
          var i :| 0 <= i < |init| && init[i].mover == k;
          assert plan[i].mover == k;
        }
      }
      OneMoreMove(o, MoversOf(init), last);
    }
  }

  lemma OneMoreMove(o: World, s: set<nat>, k: nat)
    requires EachAccepted(o) && k < |o.movers|
    ensures Moved(o, s)[o.movers[k].id := o.movers[k].parent] == Moved(o, s + {k})
  {
    var id := o.movers[k].id;
    assert Moves(o, s + {k}, id, k);
    NewParentIs(o, s + {k}, id, k);
    forall x | x in o.tree && x != id ensures NewParent(o, s + {k}, x) == NewParent(o, s, x) {
      assert forall j: nat :: Moves(o, s + {k}, x, j) <==> Moves(o, s, x, j);
      if j: nat :| Moves(o, s, x, j) {
        NewParentIs(o, s, x, j);
        NewParentIs(o, s + {k}, x, j);
      } else {
        NewParentIs(o, s, x, 0);
        NewParentIs(o, s + {k}, x, 0);
      }
    }
  }

  /** Some movers, all of whose walks were made at the start. */
  function Eager(ids: seq<nat>): (plan: seq<Save>)
    ensures |plan| == |ids| && forall i :: 0 <= i < |plan| ==> plan[i] == Save(ids[i], 0)
  {
    seq(|ids|, i requires 0 <= i < |ids| => Save(ids[i], 0))
  }

  lemma EagerIsAdmissible(o: World, s: set<nat>)
    requires EachAccepted(o) && forall k :: k in s ==> k < |o.movers|
    ensures Admissible(o, Eager(SortedIds(s))) && MoversOf(Eager(SortedIds(s))) == s
  {
    var ids := SortedIds(s);
    forall i | 0 <= i < |ids| ensures ids[i] in s {
      assert ids[i] in ids;
    }
    forall k | k in s ensures k in MoversOf(Eager(ids)) {
      assert k in ids;
      var i :| 0 <= i < |ids| && ids[i] == k;
      assert Eager(ids)[i].mover == k;
    }
    forall i | 0 <= i < |ids| ensures Accepted(Applied(o, Eager(ids)[..0]), o.movers[ids[i]]) {
      assert Eager(ids)[..0] == [];
    }
  }

  /** For moves of different categories that the opening table would each accept: every schedule
      leaves a forest if and only if every selection of the moves, made at once on the opening
      table, does. */
  lemma AcceptedMovesIff(o: World)
    requires Opening(o) && EachAccepted(o)
    ensures (forall schedule: seq<nat> :: Forest(Run(o, schedule).tree)) <==> forall s: set<nat> :: Forest(Moved(o, s))
  {
    EveryScheduleForestIff(o);
    if forall s: set<nat> :: Forest(Moved(o, s)) {
      forall plan: seq<Save> | Admissible(o, plan) ensures Forest(Applied(o, plan)) {
        AppliedIsMoved(o, plan);
      }
    } else {
      var s: set<nat> :| !Forest(Moved(o, s));
      var known := set k | k in s && k < |o.movers|;
      assert Moved(o, known) == Moved(o, s) by {
        KnownMoves(o, s, known);
      }
      EagerIsAdmissible(o, known);
      AppliedIsMoved(o, Eager(SortedIds(known)));
    }
  }

  lemma KnownMoves(o: World, s: set<nat>, known: set<nat>)
    requires EachAccepted(o) && known == set k | k in s && k < |o.movers|
    ensures Moved(o, known) == Moved(o, s)
  {
    forall id | id in o.tree ensures NewParent(o, known, id) == NewParent(o, s, id) {
      assert forall k: nat :: Moves(o, known, id, k) <==> Moves(o, s, id, k);
      if k: nat :| Moves(o, s, id, k) {
        NewParentIs(o, s, id, k);
        NewParentIs(o, known, id, k);
      } else {
        NewParentIs(o, s, id, 0);
        NewParentIs(o, known, id, 0);
      }
    }
  }

  // ------------------------------------------------------------------------
  // Two inputs
  // ------------------------------------------------------------------------

  /** Two roots moved under each other at the same moment end above each other. */
  lemma TwoRootsCanLoop(tree: Tree, a: nat, b: nat)
    requires a != b && a in tree && b in tree && tree[a].None? && tree[b].None?
    ensures var o := World(tree, [Mover(a, Some(b), Pending), Mover(b, Some(a), Pending)]);
      Opening(o) && exists schedule: seq<nat> :: !Forest(Run(o, schedule).tree)
  {
    var o := World(tree, [Mover(a, Some(b), Pending), Mover(b, Some(a), Pending)]);
    RootTakesRoot(tree, a, b);
    RootTakesRoot(tree, b, a);
    var first, plan := [Save(0, 0)], [Save(0, 0), Save(1, 0)];
    assert plan[..0] == [] && plan[..1] == first && first[..0] == [];
    assert Admissible(o, plan);
    var end := Applied(o, plan);
    assert Applied(o, first) == tree[a := Some(b)] && plan[|plan| - 1].mover == 1;
    assert end == tree[a := Some(b)][b := Some(a)];
    assert Up(end, Some(a), 0) == Some(a) && Up(end, Some(a), 1) == Some(b) && Up(end, Some(a), 2) == Some(a);
    LoopIsNotGrounded(end, a, 0, 2);
    EveryScheduleForestIff(o);
  }

  lemma RootTakesRoot(tree: Tree, a: nat, b: nat)
    requires a != b && b in tree && tree[b].None?
    ensures Grounded(tree[a := Some(b)], a)
  {
    var wanted := tree[a := Some(b)];
    assert Up(wanted, Some(a), 0) == Some(a) && Up(wanted, Some(a), 1) == Some(b) && Up(wanted, Some(a), 2).None?;
  }

  /** Three categories: 1 under 0, and 2 by itself. */
  function ThreeCategories(): Tree {
    map[0 := None, 1 := Some(0), 2 := None]
  }

  /** 1 goes under 2 and 2 under 0: either way round, a forest. */
  function TwoMoves(): World {
    World(ThreeCategories(), [Mover(1, Some(2), Pending), Mover(2, Some(0), Pending)])
  }

  /** With them, 0 would go under 1: refused on the opening table, where 1 is under 0. */
  function ThreeMoves(): World {
    World(ThreeCategories(), TwoMoves().movers + [Mover(0, Some(1), Pending)])
  }

  lemma ShallowIsForest(tree: Tree)
    requires tree.Keys == {0, 1, 2} && tree[0].None?
    requires tree[2] in {None, Some(0)} && tree[1] in {Some(0), Some(2)}
    ensures Forest(tree)
  {
    forall id | id in tree ensures Grounded(tree, id) {
      assert Up(tree, Some(id), 0) == Some(id);
      assert Up(tree, Some(id), 1) == tree[id];
      assert Up(tree, Some(id), 2).None? || Up(tree, Some(id), 2) == Some(0);
      assert Up(tree, Some(id), 3).None? || Up(tree, Some(id), 3) == Some(0);
      assert Up(tree, Some(id), 4).None?;
    }
  }

  lemma TwoMovesAccepted()
    ensures EachAccepted(TwoMoves())
  {
    var tree := ThreeCategories();
    ShallowIsForest(tree[1 := Some(2)]);
    ShallowIsForest(tree[2 := Some(0)]);
  }

  /** It is not enough to look at the moves the opening table accepts. The two above are safe under
      every schedule; with a third in flight that the opening table refuses, some schedule accepts
      it in between and ends in a loop. */
  lemma RefusedMoveCanSlipIn()
    ensures Opening(TwoMoves()) && EachAccepted(TwoMoves())
    ensures forall schedule: seq<nat> :: Forest(Run(TwoMoves(), schedule).tree)
    ensures !Accepted(ThreeCategories(), Mover(0, Some(1), Pending))
    ensures exists schedule: seq<nat> :: !Forest(Run(ThreeMoves(), schedule).tree)
  {
    TwoMovesAccepted();
    forall s: set<nat> ensures Forest(Moved(TwoMoves(), s)) {
      ShallowIsForest(Moved(TwoMoves(), s));
    }
    AcceptedMovesIff(TwoMoves());
    RefusedAtFirst();
    SlipsIn();
  }

  lemma RefusedAtFirst()
    ensures !Accepted(ThreeCategories(), Mover(0, Some(1), Pending))
  {
    var wanted := ThreeCategories()[0 := Some(1)];
    assert Up(wanted, Some(0), 0) == Some(0) && Up(wanted, Some(0), 1) == Some(1) && Up(wanted, Some(0), 2) == Some(0);
    LoopIsNotGrounded(wanted, 0, 0, 2);
  }

  lemma SlipsIn()
    ensures exists schedule: seq<nat> :: !Forest(Run(ThreeMoves(), schedule).tree)
  {
    var o := ThreeMoves();
    var tree := ThreeCategories();
    var one, two, plan := [Save(0, 0)], [Save(0, 0), Save(2, 1)], [Save(0, 0), Save(2, 1), Save(1, 0)];
    assert one[..0] == [] && two[..1] == one && plan[..0] == [] && plan[..1] == one && plan[..2] == two;
    assert Applied(o, one) == tree[1 := Some(2)] && two[|two| - 1].mover == 2 && plan[|plan| - 1].mover == 1;
    assert Applied(o, two) == tree[1 := Some(2)][0 := Some(1)];
    var end := Applied(o, plan);
    assert end == tree[1 := Some(2)][0 := Some(1)][2 := Some(0)];
    TwoMovesAccepted();
    SlipIsAccepted();
    assert o.movers[0] == TwoMoves().movers[0] && o.movers[1] == TwoMoves().movers[1];
    assert Admissible(o, plan);
    assert Up(end, Some(0), 0) == Some(0) && Up(end, Some(0), 1) == Some(1) && Up(end, Some(0), 2) == Some(2);
    assert Up(end, Some(0), 3) == Some(0);
    LoopIsNotGrounded(end, 0, 0, 3);
    EveryScheduleForestIff(o);
  }

  lemma SlipIsAccepted()
    ensures Accepted(ThreeCategories()[1 := Some(2)], Mover(0, Some(1), Pending))
  {
    var wanted := ThreeCategories()[1 := Some(2)][0 := Some(1)];
    assert Up(wanted, Some(0), 0) == Some(0) && Up(wanted, Some(0), 1) == Some(1) && Up(wanted, Some(0), 2) == Some(2);
    assert Up(wanted, Some(0), 3).None?;
  }
}
