/** Which rider may take which order: the ranking behind automatic assignment, the pull feed,
    and the stalled list, each as its own view writes it. */
module Dispatch {
  import opened Prelude
  import opened Orders

  /** Distance on the ground and the rounding shown for it. */
  datatype Geo = Geo(dist: (Position, Position) -> real, round: real -> real) {
    ghost predicate Valid() {
      && (forall a, b :: 0.0 <= dist(a, b))
      && (forall x, y :: x <= y ==> round(x) <= round(y))
      && (forall x :: -0.005 <= round(x) - x <= 0.005)
    }
  }

  datatype Rider = Rider(delivery: bool, active: bool, available: bool, base: Position, radius: real)

  /** (order, rider) pairs: the rider is not to be given the order again. */
  type Declines = set<(nat, nat)>

  predicate OnShift(r: Rider) {
    r.delivery && r.active && r.available
  }

  /** The order lies inside the rider's own radius, or nobody knows where it is. */
  predicate InRange(geo: Geo, o: Order, r: Rider) {
    o.ticket.position.Some? ==> geo.dist(r.base, o.ticket.position.value) <= r.radius
  }

  /** The distance recorded for a rider: rounded, or None for an order without a position. */
  function Km(geo: Geo, o: Order, r: Rider): Option<real> {
    match o.ticket.position
    case None => None
    case Some(p) => Some(geo.round(geo.dist(r.base, p)))
  }

  /** A rider, or an order, at its recorded distance. */
  datatype Ranked = Ranked(km: Option<real>, id: nat)

  /** The sort key: distance alone, unknown distances last. */
  predicate NoFarther(a: Option<real>, b: Option<real>) {
    match (a, b)
    case (_, None) => true
    case (None, Some(_)) => false
    case (Some(x), Some(y)) => x <= y
  }

  /** A stable insertion from the front, so equal keys keep their order. */
  function InsertRanked(x: Ranked, sorted: seq<Ranked>): seq<Ranked> {
    if sorted == [] then [x]
    else if NoFarther(x.km, sorted[0].km) then [x] + sorted
    else [sorted[0]] + InsertRanked(x, sorted[1..])
  }

  /** list.sort(key=distance). */
  function SortRanked(s: seq<Ranked>): seq<Ranked> {
    if s == [] then [] else InsertRanked(s[0], SortRanked(s[1..]))
  }

  /** The candidates inside their radius, in the order they were given. */
  function WithinRadius(geo: Geo, o: Order, roster: map<nat, Rider>, ids: seq<nat>): seq<Ranked>
    requires forall id :: id in ids ==> id in roster
  {
    if ids == [] then []
    else
      var last := ids[|ids| - 1];
      WithinRadius(geo, o, roster, ids[..|ids| - 1]) +
      if InRange(geo, o, roster[last]) then [Ranked(Km(geo, o, roster[last]), last)] else []
  }

  function RankOf(geo: Geo, o: Order, roster: map<nat, Rider>, ids: seq<nat>): seq<Ranked>
    requires forall id :: id in ids ==> id in roster
  {
    SortRanked(WithinRadius(geo, o, roster, ids))
  }

  /** _rank: drop riders out of radius, sort the rest by rounded distance. An order without a
      position keeps every rider, unsorted, at no distance. */
  method Rank(geo: Geo, o: Order, roster: map<nat, Rider>, ids: seq<nat>) returns (ranked: seq<Ranked>)
    requires forall id :: id in ids ==> id in roster
    ensures ranked == RankOf(geo, o, roster, ids)
  {
    if o.ticket.position.None? {
      ranked := seq(|ids|, i requires 0 <= i < |ids| => Ranked(None, ids[i]));
      UnknownKeepsAll(geo, o, roster, ids, ranked);
      return;
    }
    ranked := [];
    for i := 0 to |ids|
      invariant ranked == WithinRadius(geo, o, roster, ids[..i])
    {
      assert ids[..i + 1][..i] == ids[..i];
      assert ids[i] in ids;
      var rider := roster[ids[i]];
      var distance := geo.dist(rider.base, o.ticket.position.value);
      if distance <= rider.radius {
        ranked := ranked + [Ranked(Some(geo.round(distance)), ids[i])];
      }
    }
    assert ids[..|ids|] == ids;
    ranked := SortRanked(ranked);
  }

  lemma UnknownKeepsAll(geo: Geo, o: Order, roster: map<nat, Rider>, ids: seq<nat>, ranked: seq<Ranked>)
    requires o.ticket.position.None? && forall id :: id in ids ==> id in roster
    requires |ranked| == |ids| && forall i :: 0 <= i < |ids| ==> ranked[i] == Ranked(None, ids[i])
    ensures WithinRadius(geo, o, roster, ids) == ranked && SortRanked(ranked) == ranked
  {
    if ids != [] {
      var n := |ids| - 1;
      UnknownKeepsAll(geo, o, roster, ids[..n], ranked[..n]);
      assert ranked == ranked[..n] + [ranked[n]];
    }
    UnknownSortsToItself(ranked);
  }

  lemma UnknownSortsToItself(ranked: seq<Ranked>)
    requires forall i :: 0 <= i < |ranked| ==> ranked[i].km.None?
    ensures SortRanked(ranked) == ranked
  {
    if ranked != [] {
      UnknownSortsToItself(ranked[1..]);
      assert ranked == [ranked[0]] + ranked[1..];
    }
  }

  // ------------------------------------------------------------------------
  // Who is reachable, who is eligible
  // ------------------------------------------------------------------------

  /** Riders mid-delivery. */
  function Carrying(orders: map<nat, Order>): set<nat> {
    set id | id in orders && orders[id].status == Dispatched && orders[id].rider.Some? :: orders[id].rider.value
  }

  function ShiftIds(roster: map<nat, Rider>, declines: Declines, order: nat): set<nat> {
    set r | r in roster && OnShift(roster[r]) && (order, r) !in declines
  }

  function Reachable(geo: Geo, roster: map<nat, Rider>, declines: Declines, order: nat, o: Order): seq<Ranked> {
    RankOf(geo, o, roster, SortedIds(ShiftIds(roster, declines, order)))
  }

  /** The riders who may be handed the order, given who is known to be carrying. */
  function EligibleGiven(geo: Geo, roster: map<nat, Rider>, declines: Declines, carrying: set<nat>, order: nat,
                         o: Order)
    : seq<Ranked>
  {
    RankOf(geo, o, roster, SortedIds(ShiftIds(roster, declines, order) - carrying))
  }

  function Eligible(geo: Geo, roster: map<nat, Rider>, declines: Declines, orders: map<nat, Order>, order: nat,
                    o: Order)
    : seq<Ranked>
  {
    EligibleGiven(geo, roster, declines, Carrying(orders), order, o)
  }

  /** The rider could take the order at some point. */
  predicate CanReach(geo: Geo, roster: map<nat, Rider>, declines: Declines, order: nat, o: Order, r: nat) {
    r in roster && OnShift(roster[r]) && (order, r) !in declines && InRange(geo, o, roster[r])
  }

  /** How equal distances are told apart: riders by lowest id, a feed's orders by newest. */
  datatype Ties = LowestFirst | NewestFirst {
    predicate Before(a: nat, b: nat) {
      if LowestFirst? then a < b else a > b
    }
  }

  /** a comes before b: nearer by the rounded distance, or as near and first among ties. */
  predicate RanksBefore(ties: Ties, a: Ranked, b: Ranked) {
    if a.km == b.km then ties.Before(a.id, b.id) else NoFarther(a.km, b.km)
  }

  predicate InRankOrder(ties: Ties, s: seq<Ranked>) {
    forall i, j :: 0 <= i < j < |s| ==> RanksBefore(ties, s[i], s[j])
  }

  predicate Names(s: seq<Ranked>, id: nat) {
    exists i :: 0 <= i < |s| && s[i].id == id
  }

  lemma WithinRadiusMeaning(geo: Geo, o: Order, roster: map<nat, Rider>, ids: seq<nat>)
    requires forall id :: id in ids ==> id in roster
    requires forall i, j :: 0 <= i < j < |ids| ==> ids[i] < ids[j]
    ensures var s := WithinRadius(geo, o, roster, ids);
      && (forall x :: x in s <==> x.id in ids && InRange(geo, o, roster[x.id]) && x.km == Km(geo, o, roster[x.id]))
      && (forall i, j :: 0 <= i < j < |s| ==> s[i].id < s[j].id)
  {
    if ids != [] {
      var init, last := ids[..|ids| - 1], ids[|ids| - 1];
      assert ids == init + [last];
      WithinRadiusMeaning(geo, o, roster, init);
      var before := WithinRadius(geo, o, roster, init);
      forall i | 0 <= i < |before| ensures before[i].id < last {
        assert before[i] in before;
      }
    }
  }

  /** Inserting ahead of equal keys keeps rank order when the newcomer comes first among ties. */
  lemma InsertKeepsRankOrder(ties: Ties, x: Ranked, sorted: seq<Ranked>)
    requires InRankOrder(ties, sorted) && forall y :: y in sorted ==> ties.Before(x.id, y.id)
    ensures InRankOrder(ties, InsertRanked(x, sorted))
    ensures forall y :: y in InsertRanked(x, sorted) <==> y == x || y in sorted
  {
    if sorted != [] && !NoFarther(x.km, sorted[0].km) {
      InsertKeepsRankOrder(ties, x, sorted[1..]);
      assert sorted == [sorted[0]] + sorted[1..];
      var rest := InsertRanked(x, sorted[1..]);
      forall k | 0 <= k < |rest| ensures RanksBefore(ties, sorted[0], rest[k]) {
        assert rest[k] in rest;
        if rest[k] != x {
          var j :| 0 <= j < |sorted[1..]| && sorted[1..][j] == rest[k];
          assert sorted[j + 1] == rest[k];
        }
      }
    } else if sorted != [] {
      forall k | 0 <= k < |sorted| ensures RanksBefore(ties, x, sorted[k]) {
        assert sorted[k] in sorted;
        assert k > 0 ==> RanksBefore(ties, sorted[0], sorted[k]);
      }
    }
  }

  lemma SortGivesRankOrder(ties: Ties, s: seq<Ranked>)
    requires forall i, j :: 0 <= i < j < |s| ==> ties.Before(s[i].id, s[j].id)
    ensures InRankOrder(ties, SortRanked(s))
    ensures forall y :: y in SortRanked(s) <==> y in s
  {
    if s != [] {
      var rest := s[1..];
      assert forall i :: 0 <= i < |rest| ==> rest[i] == s[i + 1];
      SortGivesRankOrder(ties, rest);
      forall y | y in SortRanked(rest) ensures ties.Before(s[0].id, y.id) {
        var i :| 0 <= i < |rest| && rest[i] == y;
      }
      InsertKeepsRankOrder(ties, s[0], SortRanked(rest));
      assert s == [s[0]] + rest;
    }
  }

  /** The ranking: exactly the candidates in range, each with its rounded distance, nearest
      first and lowest id first among equals. */
  lemma RankMeaning(geo: Geo, o: Order, roster: map<nat, Rider>, ids: set<nat>)
    requires forall id :: id in ids ==> id in roster
    ensures var s := RankOf(geo, o, roster, SortedIds(ids));
      && InRankOrder(LowestFirst, s)
      && (forall x :: x in s <==> x.id in ids && InRange(geo, o, roster[x.id]) && x.km == Km(geo, o, roster[x.id]))
  {
    WithinRadiusMeaning(geo, o, roster, SortedIds(ids));
    SortGivesRankOrder(LowestFirst, WithinRadius(geo, o, roster, SortedIds(ids)));
  }

  /** reachable_riders names exactly the riders who could take the order at some point. */
  lemma ReachableMeaning(geo: Geo, roster: map<nat, Rider>, declines: Declines, order: nat, o: Order, r: nat)
    ensures Names(Reachable(geo, roster, declines, order, o), r) <==> CanReach(geo, roster, declines, order, o, r)
  {
    var s := Reachable(geo, roster, declines, order, o);
    RankMeaning(geo, o, roster, ShiftIds(roster, declines, order));
    if CanReach(geo, roster, declines, order, o, r) {
      assert Ranked(Km(geo, o, roster[r]), r) in s;
    }
    if i :| 0 <= i < |s| && s[i].id == r {
      assert s[i] in s;
    }
  }

  /** eligible_riders is reachable_riders minus whoever is mid-delivery. */
  lemma EligibleIsReachableNotCarrying(geo: Geo, roster: map<nat, Rider>, declines: Declines,
                                       orders: map<nat, Order>, order: nat, o: Order, r: nat)
    ensures Names(Eligible(geo, roster, declines, orders, order, o), r) <==>
      Names(Reachable(geo, roster, declines, order, o), r) && r !in Carrying(orders)
  {
    var s := Eligible(geo, roster, declines, orders, order, o);
    RankMeaning(geo, o, roster, ShiftIds(roster, declines, order) - Carrying(orders));
    ReachableMeaning(geo, roster, declines, order, o, r);
    if CanReach(geo, roster, declines, order, o, r) && r !in Carrying(orders) {
      assert Ranked(Km(geo, o, roster[r]), r) in s;
    }
    if i :| 0 <= i < |s| && s[i].id == r {
      assert s[i] in s;
    }
  }

  // ------------------------------------------------------------------------
  // The pick
  // ------------------------------------------------------------------------

  /** Whom automatic assignment would choose for a Ready, unassigned order. */
  function Pick(geo: Geo, roster: map<nat, Rider>, declines: Declines, orders: map<nat, Order>, order: nat, o: Order)
    : Option<Ranked>
  {
    var ranked := Eligible(geo, roster, declines, orders, order, o);
    if ranked == [] then None else Some(ranked[0])
  }

  /** Nobody is picked exactly when nobody on shift, undeclined, in range and free exists. */
  lemma NobodyPickedIff(geo: Geo, roster: map<nat, Rider>, declines: Declines, orders: map<nat, Order>, order: nat,
                        o: Order)
    ensures Pick(geo, roster, declines, orders, order, o).None? <==>
      forall r: nat :: CanReach(geo, roster, declines, order, o, r) ==> r in Carrying(orders)
  {
    var s := Eligible(geo, roster, declines, orders, order, o);
    forall r: nat ensures Names(s, r) <==> CanReach(geo, roster, declines, order, o, r) && r !in Carrying(orders) {
      ReachableMeaning(geo, roster, declines, order, o, r);
      EligibleIsReachableNotCarrying(geo, roster, declines, orders, order, o, r);
    }
    if s != [] {
      assert Names(s, s[0].id);
    }
  }

  /** The rider picked is on shift, in range, undeclined and free; no eligible rider ranks
      before them by rounded distance and then id; with no position the lowest id wins. */
  lemma PickIsFirst(geo: Geo, roster: map<nat, Rider>, declines: Declines, orders: map<nat, Order>, order: nat,
                    o: Order, r: nat)
    requires Pick(geo, roster, declines, orders, order, o).Some?
    ensures var pick := Pick(geo, roster, declines, orders, order, o).value;
      && CanReach(geo, roster, declines, order, o, pick.id) && pick.id !in Carrying(orders)
      && pick.km == Km(geo, o, roster[pick.id])
      && (CanReach(geo, roster, declines, order, o, r) && r !in Carrying(orders) && r != pick.id ==>
            RanksBefore(LowestFirst, pick, Ranked(Km(geo, o, roster[r]), r)))
  {
    var s := Eligible(geo, roster, declines, orders, order, o);
    RankMeaning(geo, o, roster, ShiftIds(roster, declines, order) - Carrying(orders));
    assert s[0] in s;
    if CanReach(geo, roster, declines, order, o, r) && r !in Carrying(orders) {
      assert Ranked(Km(geo, o, roster[r]), r) in s;
    }
  }

  /** Who could take an order, in the columns of the roster: an active delivery account that is on
      shift, has not declined it, and has it inside its own radius if it says where it is. */
  lemma CanReachMeaning(geo: Geo, roster: map<nat, Rider>, declines: Declines, order: nat, o: Order, r: nat)
    ensures CanReach(geo, roster, declines, order, o, r) <==>
      && r in roster && roster[r].delivery && roster[r].active && roster[r].available
      && (order, r) !in declines
      && (o.ticket.position.Some? ==> geo.dist(roster[r].base, o.ticket.position.value) <= roster[r].radius)
  {
  }

  /** The distance recorded with the pick is its rounded one, and no other eligible rider's rounded
      distance is less, nor as little with a lower id; without a position it is nobody's, and the
      lowest id is picked. */
  lemma PickByRoundedDistance(geo: Geo, roster: map<nat, Rider>, declines: Declines, orders: map<nat, Order>,
                              order: nat, o: Order, r: nat)
    requires Pick(geo, roster, declines, orders, order, o).Some?
    requires CanReach(geo, roster, declines, order, o, r) && r !in Carrying(orders)
    ensures var pick := Pick(geo, roster, declines, orders, order, o).value;
      && pick.id in roster
      && (match o.ticket.position
          case None => pick.km.None? && pick.id <= r
          case Some(p) =>
            var mine, theirs := geo.round(geo.dist(roster[pick.id].base, p)), geo.round(geo.dist(roster[r].base, p));
            pick.km == Some(mine) && (mine < theirs || (mine == theirs && pick.id <= r)))
  {
    PickIsFirst(geo, roster, declines, orders, order, o, r);
  }

  /** Rounding costs at most ten metres: the true distance of the pick exceeds that of any
      eligible rider by no more than 0.01 km. */
  lemma PickIsNearest(geo: Geo, roster: map<nat, Rider>, declines: Declines, orders: map<nat, Order>, order: nat,
                      o: Order, r: nat)
    requires geo.Valid() && o.ticket.position.Some?
    requires Pick(geo, roster, declines, orders, order, o).Some?
    requires CanReach(geo, roster, declines, order, o, r) && r !in Carrying(orders)
    ensures var pick := Pick(geo, roster, declines, orders, order, o).value.id;
      pick in roster
      && geo.dist(roster[pick].base, o.ticket.position.value) <=
           geo.dist(roster[r].base, o.ticket.position.value) + 0.01
  {
    PickIsFirst(geo, roster, declines, orders, order, o, r);
    var pick := Pick(geo, roster, declines, orders, order, o).value.id;
    var near := geo.dist(roster[pick].base, o.ticket.position.value);
    var far := geo.dist(roster[r].base, o.ticket.position.value);
    assert geo.round(near) <= geo.round(far);
    assert -0.005 <= geo.round(near) - near <= 0.005;
    assert -0.005 <= geo.round(far) - far <= 0.005;
  }
}
