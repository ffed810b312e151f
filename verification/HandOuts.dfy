/** Several orders becoming Ready at once: automatic assignment as interleaved transactions that
    lock the roster and read who is carrying, in either order. */
module HandOuts {
  import opened Prelude
  import opened Orders
  import opened Dispatch

  /** One transaction handing out one order: whether it holds the rider rows, and what it read of
      who is carrying. */
  datatype HandOut = HandOut(order: nat, locked: bool, carrying: Option<set<nat>>, done: bool)

  /** The committed orders and the transactions in flight. lockFirst is the safe order of the two
      steps; eligible_riders reads first. */
  datatype World = World(orders: map<nat, Order>, txns: seq<HandOut>)

  datatype Floor = Floor(geo: Geo, roster: map<nat, Rider>, declines: Declines, lockFirst: bool)

  /** The pick, given what was read of who is carrying. */
  function PickGiven(f: Floor, carrying: set<nat>, id: nat, o: Order): Option<Ranked> {
    var ranked := EligibleGiven(f.geo, f.roster, f.declines, carrying, id, o);
    if ranked == [] then None else Some(ranked[0])
  }

  predicate RosterFree(w: World) {
    forall i :: 0 <= i < |w.txns| ==> !w.txns[i].locked
  }

  /** The next step of transaction i, if it is not waiting for the rider rows. The rows are
      locked together: every transaction locks the same shift. */
  function Stepped(f: Floor, w: World, i: nat, now: Time): Option<World>
    requires i < |w.txns|
  {
    var t := w.txns[i];
    if t.done then None
    else if !t.locked && (f.lockFirst || t.carrying.Some?) then
      if RosterFree(w) then Some(w.(txns := w.txns[i := t.(locked := true)])) else None
    else if t.carrying.None? then Some(w.(txns := w.txns[i := t.(carrying := Some(Carrying(w.orders)))]))
    else
      var finished := w.txns[i := t.(locked := false, done := true)];
      if t.order !in w.orders || w.orders[t.order].status != Ready || w.orders[t.order].rider.Some? then
        Some(w.(txns := finished))
      else match PickGiven(f, t.carrying.value, t.order, w.orders[t.order])
        case None => Some(w.(txns := finished))
        case Some(pick) =>
          var row := Entered(w.orders[t.order], Dispatched, now).(rider := Some(pick.id), offeredKm := pick.km);
          Some(World(w.orders[t.order := row], finished))
  }

  /** Follow a schedule of transaction numbers; a step that cannot be taken is skipped. */
  function Run(f: Floor, w: World, schedule: seq<nat>, now: Time): World {
    if schedule == [] then w
    else
      var mid := Run(f, w, schedule[..|schedule| - 1], now);
      var i := schedule[|schedule| - 1];
      if i < |mid.txns| && Stepped(f, mid, i, now).Some? then Stepped(f, mid, i, now).value else mid
  }

  predicate Carries(orders: map<nat, Order>, id: nat, r: nat) {
    id in orders && orders[id].status == Dispatched && orders[id].rider == Some(r)
  }

  /** Nobody carries two bags. */
  ghost predicate OneBagEach(orders: map<nat, Order>) {
    forall x, y, r: nat :: x in orders && y in orders && Carries(orders, x, r) && Carries(orders, y, r) ==> x == y
  }

  /** At most one transaction holds the rider rows, and what a holder has read is still so. */
  predicate ReadsHold(w: World) {
    && (forall i, j :: 0 <= i < j < |w.txns| ==> !(w.txns[i].locked && w.txns[j].locked))
    && (forall i :: 0 <= i < |w.txns| && !w.txns[i].done && w.txns[i].carrying.Some? ==>
          w.txns[i].locked && w.txns[i].carrying.value == Carrying(w.orders))
  }

  lemma PickedIsFree(f: Floor, carrying: set<nat>, id: nat, o: Order)
    requires PickGiven(f, carrying, id, o).Some?
    ensures PickGiven(f, carrying, id, o).value.id !in carrying
  {
    var ids := ShiftIds(f.roster, f.declines, id) - carrying;
    RankMeaning(f.geo, o, f.roster, ids);
    var s := RankOf(f.geo, o, f.roster, SortedIds(ids));
    assert s[0] in s;
  }

  lemma HandingToFreeRider(orders: map<nat, Order>, id: nat, row: Order, r: nat)
    requires OneBagEach(orders) && id in orders && row.rider == Some(r) && r !in Carrying(orders)
    ensures OneBagEach(orders[id := row])
  {
    var after := orders[id := row];
    forall x, q: nat | x in orders && Carries(orders, x, q) ensures q in Carrying(orders) {
    }
    forall x, y, q: nat | x in after && y in after && Carries(after, x, q) && Carries(after, y, q) ensures x == y {
      assert x != id ==> Carries(orders, x, q);
      assert y != id ==> Carries(orders, y, q);
    }
  }

  lemma StepKeepsReads(f: Floor, w: World, i: nat, now: Time)
    requires f.lockFirst && i < |w.txns| && ReadsHold(w) && OneBagEach(w.orders) && Stepped(f, w, i, now).Some?
    ensures ReadsHold(Stepped(f, w, i, now).value) && OneBagEach(Stepped(f, w, i, now).value.orders)
  {
    var t := w.txns[i];
    if t.locked && t.carrying.Some? && t.order in w.orders {
      var o := w.orders[t.order];
      if o.status == Ready && o.rider.None? && PickGiven(f, t.carrying.value, t.order, o).Some? {
        PickedIsFree(f, t.carrying.value, t.order, o);
        var n := Stepped(f, w, i, now).value;
        HandingToFreeRider(w.orders, t.order, n.orders[t.order], PickGiven(f, t.carrying.value, t.order, o).value.id);
      }
    }
  }

  /** A hand-out writes the row as automatic assignment does, and no other. */
  lemma HandOutWrites(f: Floor, w: World, i: nat, now: Time)
    requires i < |w.txns| && Stepped(f, w, i, now).Some?
    requires w.txns[i].locked && w.txns[i].carrying.Some? && w.txns[i].order in w.orders
    ensures var id, n := w.txns[i].order, Stepped(f, w, i, now).value;
      var o := w.orders[id];
      var pick := PickGiven(f, w.txns[i].carrying.value, id, o);
      if o.status == Ready && o.rider.None? && pick.Some?
      then n.orders == w.orders[id := Edited(o, AutoAssign(pick.value.id, pick.value.km), now).value]
      else n.orders == w.orders
  {
  }

  predicate Starting(w: World) {
    forall i :: 0 <= i < |w.txns| ==> w.txns[i] == HandOut(w.txns[i].order, false, None, false)
  }

  /** Locking the riders before reading who carries is enough: however many orders become Ready at
      once and however their transactions interleave, nobody is handed a second bag. */
  lemma {:induction false} LockThenReadIsSafe(f: Floor, w: World, schedule: seq<nat>, now: Time)
    requires f.lockFirst && Starting(w) && OneBagEach(w.orders)
    ensures ReadsHold(Run(f, w, schedule, now)) && OneBagEach(Run(f, w, schedule, now).orders)
    decreases |schedule|
  {
    if schedule != [] {
      LockThenReadIsSafe(f, w, schedule[..|schedule| - 1], now);
      var mid := Run(f, w, schedule[..|schedule| - 1], now);
      var i := schedule[|schedule| - 1];
      if i < |mid.txns| && Stepped(f, mid, i, now).Some? {
        StepKeepsReads(f, mid, i, now);
      }
    }
  }

  // ------------------------------------------------------------------------
  // Reading first
  // ------------------------------------------------------------------------

  predicate Unassigned(orders: map<nat, Order>, id: nat) {
    id in orders && orders[id].status == Ready && orders[id].rider.None?
  }

  /** Whom a transaction's order would go to if it ran alone on the opening table. */
  function OpeningPick(f: Floor, w: World, i: nat): Option<nat>
    requires i < |w.txns|
  {
    var id := w.txns[i].order;
    if !Unassigned(w.orders, id) then None
    else match PickGiven(f, Carrying(w.orders), id, w.orders[id])
      case None => None
      case Some(pick) => Some(pick.id)
  }

  predicate SharesPick(f: Floor, w: World, i: nat, j: nat)
    requires i < |w.txns| && j < |w.txns|
  {
    w.txns[i].order != w.txns[j].order && OpeningPick(f, w, i).Some? && OpeningPick(f, w, i) == OpeningPick(f, w, j)
  }

  /** No two orders would go to the same rider. */
  predicate PicksDiffer(f: Floor, w: World) {
    forall i, j :: 0 <= i < |w.txns| && 0 <= j < |w.txns| ==> !SharesPick(f, w, i, j)
  }

  lemma RankOrderIsStrict(a: Ranked, b: Ranked)
    requires RanksBefore(LowestFirst, a, b)
    ensures !RanksBefore(LowestFirst, b, a)
  {
  }

  /** Striking out riders other than the pick leaves the pick first; with nobody to pick from,
      nobody comes in. */
  lemma PickStays(f: Floor, few: set<nat>, many: set<nat>, id: nat, o: Order)
    requires few <= many
    ensures PickGiven(f, few, id, o).None? ==> PickGiven(f, many, id, o).None?
    ensures PickGiven(f, few, id, o).Some? && PickGiven(f, few, id, o).value.id !in many ==>
      PickGiven(f, many, id, o) == PickGiven(f, few, id, o)
  {
    var shift := ShiftIds(f.roster, f.declines, id);
    RankMeaning(f.geo, o, f.roster, shift - few);
    RankMeaning(f.geo, o, f.roster, shift - many);
    var wide := RankOf(f.geo, o, f.roster, SortedIds(shift - few));
    var narrow := RankOf(f.geo, o, f.roster, SortedIds(shift - many));
    if narrow != [] {
      assert narrow[0] in narrow;
      assert narrow[0] in wide;
    }
    if wide != [] && wide[0].id !in many {
      assert wide[0] in wide;
      assert wide[0] in narrow;
      FirstIsFirst(wide, narrow);
    }
  }

  lemma FirstIsFirst(wide: seq<Ranked>, narrow: seq<Ranked>)
    requires InRankOrder(LowestFirst, wide) && InRankOrder(LowestFirst, narrow)
    requires wide != [] && wide[0] in narrow && narrow[0] in wide
    ensures narrow[0] == wide[0]
  {
    var k :| 0 <= k < |wide| && wide[k] == narrow[0];
    var m :| 0 <= m < |narrow| && narrow[m] == wide[0];
    if k > 0 && m > 0 {
      RankOrderIsStrict(wide[0], wide[k]);
      assert false;
    }
  }

  /** The row has gone out to the rider its transaction would have picked on the opening table. */
  predicate WentAsOpened(f: Floor, w: World, orders: map<nat, Order>, id: nat) {
    && id in orders && orders[id].status == Dispatched
    && exists i :: 0 <= i < |w.txns| && w.txns[i].order == id && OpeningPick(f, w, i).Some?
                   && orders[id].rider == OpeningPick(f, w, i)
  }

  /** How far a run from w can have got: rows as they were or gone out as opened, and nothing read
      that is not so, nor less than was so at the start. */
  ghost predicate Underway(f: Floor, w: World, n: World) {
    && |n.txns| == |w.txns| && n.orders.Keys == w.orders.Keys
    && (forall i :: 0 <= i < |w.txns| ==> n.txns[i].order == w.txns[i].order)
    && (forall id :: id in w.orders ==>
          n.orders[id] == w.orders[id] || (Unassigned(w.orders, id) && WentAsOpened(f, w, n.orders, id)))
    && (forall i :: 0 <= i < |w.txns| && n.txns[i].carrying.Some? ==>
          Carrying(w.orders) <= n.txns[i].carrying.value <= Carrying(n.orders))
  }

  lemma CarryingGrows(f: Floor, w: World, n: World)
    requires Underway(f, w, n)
    ensures Carrying(w.orders) <= Carrying(n.orders)
  {
    forall r | r in Carrying(w.orders) ensures r in Carrying(n.orders) {
      var id :| id in w.orders && w.orders[id].status == Dispatched && w.orders[id].rider == Some(r);
      assert n.orders[id] == w.orders[id];
    }
  }

  /** With different opening picks, nobody who carries by now was going to get this order. */
  lemma PickIsStillFree(f: Floor, w: World, n: World, i: nat)
    requires PicksDiffer(f, w) && Underway(f, w, n) && i < |w.txns|
    requires Unassigned(n.orders, w.txns[i].order) && OpeningPick(f, w, i).Some?
    ensures OpeningPick(f, w, i).value !in Carrying(n.orders)
  {
    var r, order := OpeningPick(f, w, i).value, w.txns[i].order;
    assert r !in Carrying(w.orders) by {
      PickedIsFree(f, Carrying(w.orders), order, w.orders[order]);
    }
    forall id | id in n.orders && n.orders[id].status == Dispatched ensures n.orders[id].rider != Some(r) {
      if n.orders[id] == w.orders[id] {
        assert w.orders[id].rider.Some? ==> w.orders[id].rider.value in Carrying(w.orders);
      } else {
        var j :| 0 <= j < |w.txns| && w.txns[j].order == id && OpeningPick(f, w, j).Some?
                 && n.orders[id].rider == OpeningPick(f, w, j);
        assert id != order && !SharesPick(f, w, i, j);
      }
    }
  }

  /** The pick a transaction makes is the one it would have made on the opening table. */
  lemma PicksAsOpened(f: Floor, w: World, n: World, i: nat)
    requires PicksDiffer(f, w) && Underway(f, w, n) && i < |w.txns| && n.txns[i].carrying.Some?
    requires Unassigned(n.orders, w.txns[i].order)
    ensures var id := w.txns[i].order;
      var pick := PickGiven(f, n.txns[i].carrying.value, id, n.orders[id]);
      && Unassigned(w.orders, id)
      && OpeningPick(f, w, i) == (if pick.Some? then Some(pick.value.id) else None)
  {
    var id := w.txns[i].order;
    assert n.orders[id] == w.orders[id];
    if OpeningPick(f, w, i).Some? {
      PickIsStillFree(f, w, n, i);
    }
    PickStays(f, Carrying(w.orders), n.txns[i].carrying.value, id, w.orders[id]);
  }

  lemma HandingKeepsUnderway(f: Floor, w: World, n: World, i: nat, row: Order, txns: seq<HandOut>)
    requires Underway(f, w, n) && i < |w.txns| && Unassigned(n.orders, w.txns[i].order)
    requires Unassigned(w.orders, w.txns[i].order) && OpeningPick(f, w, i).Some?
    requires row.status == Dispatched && row.rider == OpeningPick(f, w, i)
    requires txns == n.txns[i := n.txns[i].(locked := false, done := true)]
    ensures Underway(f, w, World(n.orders[w.txns[i].order := row], txns))
  {
    var id := w.txns[i].order;
    var next := n.orders[id := row];
    forall x | x in w.orders
      ensures next[x] == w.orders[x] || (Unassigned(w.orders, x) && WentAsOpened(f, w, next, x))
    {
      if x != id && n.orders[x] != w.orders[x] {
        var j :| 0 <= j < |w.txns| && w.txns[j].order == x && OpeningPick(f, w, j).Some?
                 && n.orders[x].rider == OpeningPick(f, w, j);
        assert next[x].rider == OpeningPick(f, w, j);
      }
    }
    forall r | r in Carrying(n.orders) ensures r in Carrying(next) {
      var x :| x in n.orders && n.orders[x].status == Dispatched && n.orders[x].rider == Some(r);
      assert x != id && next[x] == n.orders[x];
    }
  }

  lemma StepKeepsUnderway(f: Floor, w: World, n: World, i: nat, now: Time)
    requires PicksDiffer(f, w) && Underway(f, w, n) && i < |n.txns| && Stepped(f, n, i, now).Some?
    requires !f.lockFirst
    ensures Underway(f, w, Stepped(f, n, i, now).value)
  {
    var t := n.txns[i];
    CarryingGrows(f, w, n);
    if t.locked && t.carrying.Some? && Unassigned(n.orders, t.order) {
      PicksAsOpened(f, w, n, i);
      var pick := PickGiven(f, t.carrying.value, t.order, n.orders[t.order]);
      if pick.Some? {
        var row := Entered(n.orders[t.order], Dispatched, now)
          .(rider := Some(pick.value.id), offeredKm := pick.value.km);
        HandingKeepsUnderway(f, w, n, i, row, n.txns[i := t.(locked := false, done := true)]);
      }
    }
  }

  lemma {:induction false} RunKeepsUnderway(f: Floor, w: World, schedule: seq<nat>, now: Time)
    requires !f.lockFirst && PicksDiffer(f, w) && Starting(w)
    ensures Underway(f, w, Run(f, w, schedule, now))
    decreases |schedule|
  {
    if schedule != [] {
      RunKeepsUnderway(f, w, schedule[..|schedule| - 1], now);
      var mid := Run(f, w, schedule[..|schedule| - 1], now);
      var i := schedule[|schedule| - 1];
      if i < |mid.txns| && Stepped(f, mid, i, now).Some? {
        StepKeepsUnderway(f, w, mid, i, now);
      }
    }
  }

  /** A rider who got a bag as opened was carrying nothing at the start. */
  lemma OutAsOpened(f: Floor, w: World, n: World, id: nat) returns (i: nat)
    requires Underway(f, w, n) && id in w.orders && n.orders[id] != w.orders[id]
    ensures i < |w.txns| && w.txns[i].order == id && OpeningPick(f, w, i).Some?
    ensures n.orders[id].rider == OpeningPick(f, w, i) && OpeningPick(f, w, i).value !in Carrying(w.orders)
  {
    i :| 0 <= i < |w.txns| && w.txns[i].order == id && OpeningPick(f, w, i).Some?
         && n.orders[id].rider == OpeningPick(f, w, i);
    PickedIsFree(f, Carrying(w.orders), id, w.orders[id]);
  }

  lemma UnderwayIsOneBagEach(f: Floor, w: World, n: World)
    requires PicksDiffer(f, w) && Underway(f, w, n) && OneBagEach(w.orders)
    ensures OneBagEach(n.orders)
  {
    forall id, r: nat | id in n.orders && n.orders[id] == w.orders[id] && Carries(n.orders, id, r)
      ensures Carries(w.orders, id, r) && r in Carrying(w.orders)
    {
    }
    forall x, y, r: nat | x in n.orders && y in n.orders && Carries(n.orders, x, r) && Carries(n.orders, y, r)
      ensures x == y
    {
      if n.orders[x] != w.orders[x] && n.orders[y] != w.orders[y] {
        var i := OutAsOpened(f, w, n, x);
        var j := OutAsOpened(f, w, n, y);
        assert !SharesPick(f, w, i, j);
      } else if n.orders[x] != w.orders[x] {
        var i := OutAsOpened(f, w, n, x);
      } else if n.orders[y] != w.orders[y] {
        var j := OutAsOpened(f, w, n, y);
      }
    }
  }

  /** A transaction that has read who carries locks the riders and hands its order over. */
  lemma LocksAndHandsOver(f: Floor, w: World, i: nat, c: set<nat>, pick: Ranked, now: Time)
    returns (mid: World, end: World)
    requires !f.lockFirst && i < |w.txns| && RosterFree(w)
    requires w.txns[i] == HandOut(w.txns[i].order, false, Some(c), false)
    requires Unassigned(w.orders, w.txns[i].order)
    requires PickGiven(f, c, w.txns[i].order, w.orders[w.txns[i].order]) == Some(pick)
    ensures Stepped(f, w, i, now) == Some(mid) && |mid.txns| == |w.txns|
    ensures Stepped(f, mid, i, now) == Some(end)
    ensures end.orders.Keys == w.orders.Keys && Carries(end.orders, w.txns[i].order, pick.id)
    ensures forall id :: id in w.orders && id != w.txns[i].order ==> end.orders[id] == w.orders[id]
    ensures |end.txns| == |w.txns| && RosterFree(end)
    ensures forall j :: 0 <= j < |w.txns| && j != i ==> end.txns[j] == w.txns[j]
  {
    var id := w.txns[i].order;
    var row := Entered(w.orders[id], Dispatched, now).(rider := Some(pick.id), offeredKm := pick.km);
    mid := w.(txns := w.txns[i := w.txns[i].(locked := true)]);
    end := World(w.orders[id := row], mid.txns[i := mid.txns[i].(locked := false, done := true)]);
  }

  /** Two transactions that have both read before either locked hand their orders to one rider. */
  lemma SharedPickIsHandedTwice(f: Floor, w: World, i: nat, j: nat, now: Time)
    requires !f.lockFirst && Starting(w) && i < |w.txns| && j < |w.txns|
    requires SharesPick(f, w, i, j)
    ensures !OneBagEach(Run(f, w, [i, j] + [i, i] + [j, j], now).orders)
  {
    var x, y := w.txns[i].order, w.txns[j].order;
    var c := Carrying(w.orders);
    var first, second := PickGiven(f, c, x, w.orders[x]).value, PickGiven(f, c, y, w.orders[y]).value;
    var w2 := BothRead(f, w, i, j, now);
    var w3, w4 := LocksAndHandsOver(f, w2, i, c, first, now);
    var w5, w6 := LocksAndHandsOver(f, w4, j, c, second, now);
    RunTwice(f, w, [i, j], i, now, w2, w3, w4);
    RunTwice(f, w, [i, j] + [i, i], j, now, w4, w5, w6);
    BothCarry(w6.orders, x, y, first.id);
  }

  lemma BothCarry(orders: map<nat, Order>, x: nat, y: nat, r: nat)
    requires x != y && Carries(orders, x, r) && Carries(orders, y, r)
    ensures !OneBagEach(orders)
  {
  }

  lemma RunTwice(f: Floor, w: World, schedule: seq<nat>, i: nat, now: Time, before: World, mid: World, end: World)
    requires Run(f, w, schedule, now) == before && i < |before.txns| == |mid.txns|
    requires Stepped(f, before, i, now) == Some(mid) && Stepped(f, mid, i, now) == Some(end)
    ensures Run(f, w, schedule + [i, i], now) == end
  {
    RunSnoc(f, w, schedule, i, now);
    RunSnoc(f, w, schedule + [i], i, now);
    assert schedule + [i] + [i] == schedule + [i, i];
  }

  lemma BothRead(f: Floor, w: World, i: nat, j: nat, now: Time) returns (end: World)
    requires !f.lockFirst && Starting(w) && i < |w.txns| && j < |w.txns| && i != j
    ensures end == Run(f, w, [i, j], now)
    ensures end.orders == w.orders && |end.txns| == |w.txns| && RosterFree(end)
    ensures end.txns[i] == HandOut(w.txns[i].order, false, Some(Carrying(w.orders)), false)
    ensures end.txns[j] == HandOut(w.txns[j].order, false, Some(Carrying(w.orders)), false)
  {
    var mid := OneReads(f, w, i, now);
    end := OneReads(f, mid, j, now);
    RunSnoc(f, w, [], i, now);
    RunSnoc(f, w, [i], j, now);
    assert [] + [i] == [i] && [i] + [j] == [i, j];
  }

  lemma OneReads(f: Floor, w: World, i: nat, now: Time) returns (after: World)
    requires !f.lockFirst && i < |w.txns| && w.txns[i] == HandOut(w.txns[i].order, false, None, false)
    ensures Stepped(f, w, i, now) == Some(after) && after.orders == w.orders && |after.txns| == |w.txns|
    ensures after.txns[i] == HandOut(w.txns[i].order, false, Some(Carrying(w.orders)), false)
    ensures forall j :: 0 <= j < |w.txns| && j != i ==> after.txns[j] == w.txns[j]
  {
    after := w.(txns := w.txns[i := w.txns[i].(carrying := Some(Carrying(w.orders)))]);
  }

  lemma RunSnoc(f: Floor, w: World, schedule: seq<nat>, i: nat, now: Time)
    ensures var mid := Run(f, w, schedule, now);
      Run(f, w, schedule + [i], now) ==
        if i < |mid.txns| && Stepped(f, mid, i, now).Some? then Stepped(f, mid, i, now).value else mid
  {
    assert (schedule + [i])[..|schedule|] == schedule;
  }

  lemma DifferentPicksAreSafe(f: Floor, w: World, schedule: seq<nat>, now: Time)
    requires !f.lockFirst && Starting(w) && OneBagEach(w.orders) && PicksDiffer(f, w)
    ensures OneBagEach(Run(f, w, schedule, now).orders)
  {
    RunKeepsUnderway(f, w, schedule, now);
    UnderwayIsOneBagEach(f, w, Run(f, w, schedule, now));
  }

  /** Exactly when reading before locking is harmless: for any number of orders becoming Ready at
      once, no schedule gives anybody a second bag if and only if no two of the orders would, each
      alone on the opening table, go to the same rider. */
  lemma ReadThenLockIsSafeIff(f: Floor, w: World, now: Time)
    requires !f.lockFirst && Starting(w) && OneBagEach(w.orders)
    ensures (forall schedule: seq<nat> :: OneBagEach(Run(f, w, schedule, now).orders)) <==> PicksDiffer(f, w)
  {
    if PicksDiffer(f, w) {
      forall schedule: seq<nat> ensures OneBagEach(Run(f, w, schedule, now).orders) {
        DifferentPicksAreSafe(f, w, schedule, now);
      }
    } else {
      SharedPickIsUnsafe(f, w, now);
    }
  }

  lemma SharedPickIsUnsafe(f: Floor, w: World, now: Time)
    requires !f.lockFirst && Starting(w) && !PicksDiffer(f, w)
    ensures exists schedule: seq<nat> :: !OneBagEach(Run(f, w, schedule, now).orders)
  {
    var i, j := CollidingPair(f, w);
    SharedPickIsHandedTwice(f, w, i, j, now);
  }

  lemma CollidingPair(f: Floor, w: World) returns (i: nat, j: nat)
    requires !PicksDiffer(f, w)
    ensures i < |w.txns| && j < |w.txns| && SharesPick(f, w, i, j)
  {
    i, j :| 0 <= i < |w.txns| && 0 <= j < |w.txns| && SharesPick(f, w, i, j);
  }

  // ------------------------------------------------------------------------
  // The smallest instance
  // ------------------------------------------------------------------------

  predicate OneRider(f: Floor, rider: Rider) {
    OnShift(rider) && f.roster == map[0 := rider] && f.declines == {}
  }

  predicate Waiting(o: Order) {
    o.status == Ready && o.rider.None? && o.ticket.position.None?
  }

  /** Two orders Ready at once, each with its transaction about to begin. */
  function TwoReady(a: Order, b: Order): World {
    World(map[1 := a, 2 := b], [HandOut(1, false, None, false), HandOut(2, false, None, false)])
  }

  /** With one free rider on shift and two positionless orders Ready, reading before locking hands
      that rider both bags, although the rows are locked at every write. */
  lemma ReadThenLockIsNot(f: Floor, a: Order, b: Order, rider: Rider, now: Time)
    requires !f.lockFirst && OneRider(f, rider) && Waiting(a) && Waiting(b)
    ensures Starting(TwoReady(a, b)) && OneBagEach(TwoReady(a, b).orders)
    ensures !OneBagEach(Run(f, TwoReady(a, b), [0, 1] + [0, 0] + [1, 1], now).orders)
  {
    var w := TwoReady(a, b);
    assert Carrying(w.orders) == {};
    OnlyRiderIsPicked(f, 1, a, rider);
    OnlyRiderIsPicked(f, 2, b, rider);
    SharedPickIsHandedTwice(f, w, 0, 1, now);
  }

  lemma OnlyRiderIsPicked(f: Floor, id: nat, o: Order, rider: Rider)
    requires OneRider(f, rider) && o.ticket.position.None?
    ensures PickGiven(f, {}, id, o) == Some(Ranked(None, 0))
  {
    var ids := ShiftIds(f.roster, f.declines, id) - {};
    RankMeaning(f.geo, o, f.roster, ids);
    var s := RankOf(f.geo, o, f.roster, SortedIds(ids));
    assert Ranked(None, 0) in s;
    assert s[0] in s && s[0].id in ids;
  }
}
