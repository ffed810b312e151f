/** The pull feed, the decline button and the stalled list, each written as its own view
    writes it, and the proof that together they hide no order. */
module Feed {
  import opened Prelude
  import opened Orders
  import opened Dispatch

  function Reversed(s: seq<nat>): (r: seq<nat>)
    ensures |r| == |s| && forall i :: 0 <= i < |r| ==> r[i] == s[|s| - 1 - i]
    ensures forall x :: x in r <==> x in s
  {
    if s == [] then [] else Reversed(s[1..]) + [s[0]]
  }

  /** Ready, unclaimed, and not declined by this rider. */
  predicate Offerable(declines: Declines, orders: map<nat, Order>, id: nat, r: nat) {
    id in orders && orders[id].status == Ready && orders[id].rider.None? && (id, r) !in declines
  }

  function Candidates(declines: Declines, orders: map<nat, Order>, r: nat): seq<nat> {
    Reversed(SortedIds(set id | id in orders && Offerable(declines, orders, id, r)))
  }

  function Offers(geo: Geo, rider: Rider, orders: map<nat, Order>, ids: seq<nat>): seq<Ranked>
    requires forall id :: id in ids ==> id in orders
  {
    if ids == [] then []
    else
      var last := ids[|ids| - 1];
      Offers(geo, rider, orders, ids[..|ids| - 1]) +
      if InRange(geo, orders[last], rider) then [Ranked(Km(geo, orders[last], rider), last)] else []
  }

  function FeedOf(geo: Geo, rider: Rider, r: nat, declines: Declines, orders: map<nat, Order>): seq<Ranked> {
    if !rider.available || r in Carrying(orders) then []
    else SortRanked(Offers(geo, rider, orders, Candidates(declines, orders, r)))
  }

  lemma CarryingMeaning(orders: map<nat, Order>, r: nat)
    ensures r in Carrying(orders) <==>
      exists id :: id in orders && orders[id].rider == Some(r) && orders[id].status == Dispatched
  {
  }

  lemma OffersSnoc(geo: Geo, rider: Rider, orders: map<nat, Order>, ids: seq<nat>, i: nat)
    requires i < |ids| && forall id :: id in ids ==> id in orders
    ensures ids[i] in orders
    ensures forall id :: id in ids[..i] || id in ids[..i + 1] ==> id in orders
    ensures Offers(geo, rider, orders, ids[..i + 1]) == Offers(geo, rider, orders, ids[..i]) +
      if InRange(geo, orders[ids[i]], rider) then [Ranked(Km(geo, orders[ids[i]], rider), ids[i])] else []
  {
    assert ids[i] in ids;
    assert ids[..i + 1][..i] == ids[..i];
  }

  /** _incoming: the orders offered to a rider, with the distance shown for each. */
  method Incoming(geo: Geo, rider: Rider, r: nat, declines: Declines, orders: map<nat, Order>, carrying: bool)
    returns (feed: seq<Ranked>)
    requires carrying <==> exists id :: id in orders && orders[id].rider == Some(r) && orders[id].status == Dispatched
    ensures feed == FeedOf(geo, rider, r, declines, orders)
  {
    CarryingMeaning(orders, r);
    if !rider.available || carrying {
      return [];
    }
    var candidates := Candidates(declines, orders, r);
    var inRange: seq<Ranked> := [];
    for i := 0 to |candidates|
      invariant forall id :: id in candidates[..i] ==> id in orders
      invariant inRange == Offers(geo, rider, orders, candidates[..i])
    {
      OffersSnoc(geo, rider, orders, candidates, i);
      var order := orders[candidates[i]];
      if order.ticket.position.None? {
        inRange := inRange + [Ranked(None, candidates[i])];
        continue;
      }
      var distance := geo.dist(rider.base, order.ticket.position.value);
      var shown := geo.round(distance);
      if distance <= rider.radius {
        inRange := inRange + [Ranked(Some(shown), candidates[i])];
      }
    }
    assert candidates[..|candidates|] == candidates;
    return SortRanked(inRange);
  }

  lemma CandidatesMeaning(declines: Declines, orders: map<nat, Order>, r: nat)
    ensures var s := Candidates(declines, orders, r);
      && (forall id :: id in s <==> Offerable(declines, orders, id, r))
      && (forall i, j :: 0 <= i < j < |s| ==> s[i] > s[j])
  {
  }

  lemma {:induction false} OffersMeaning(geo: Geo, rider: Rider, orders: map<nat, Order>, ids: seq<nat>)
    requires forall id :: id in ids ==> id in orders
    requires forall i, j :: 0 <= i < j < |ids| ==> ids[i] > ids[j]
    ensures var s := Offers(geo, rider, orders, ids);
      && (forall x :: x in s <==>
            x.id in ids && InRange(geo, orders[x.id], rider) && x.km == Km(geo, orders[x.id], rider))
      && (forall i, j :: 0 <= i < j < |s| ==> s[i].id > s[j].id)
  {
    if ids != [] {
      var init, last := ids[..|ids| - 1], ids[|ids| - 1];
      assert ids == init + [last];
      OffersMeaning(geo, rider, orders, init);
      var before := Offers(geo, rider, orders, init);
      forall i | 0 <= i < |before| ensures before[i].id > last {
        assert before[i] in before;
      }
    }
  }

  /** A feed lists exactly what the rider may take, each at its rounded distance: nearest
      first, unknown distances last, newest first among equals. */
  lemma FeedMeaning(geo: Geo, rider: Rider, r: nat, declines: Declines, orders: map<nat, Order>)
    ensures var s := FeedOf(geo, rider, r, declines, orders);
      && InRankOrder(NewestFirst, s)
      && (forall x :: x in s <==>
            && rider.available && r !in Carrying(orders)
            && Offerable(declines, orders, x.id, r) && InRange(geo, orders[x.id], rider)
            && x.km == Km(geo, orders[x.id], rider))
  {
    var ids := Candidates(declines, orders, r);
    CandidatesMeaning(declines, orders, r);
    OffersMeaning(geo, rider, orders, ids);
    SortGivesRankOrder(NewestFirst, Offers(geo, rider, orders, ids));
  }

  /** An order is in an active rider's feed exactly when it is Ready, unclaimed, and automatic
      dispatch would count the rider as eligible for it. */
  lemma FeedAgreesWithDispatch(geo: Geo, roster: map<nat, Rider>, declines: Declines, orders: map<nat, Order>,
                               id: nat, r: nat)
    requires r in roster && roster[r].delivery && roster[r].active
    ensures Names(FeedOf(geo, roster[r], r, declines, orders), id) <==>
      && id in orders && orders[id].status == Ready && orders[id].rider.None?
      && Names(Eligible(geo, roster, declines, orders, id, orders[id]), r)
  {
    var s := FeedOf(geo, roster[r], r, declines, orders);
    FeedMeaning(geo, roster[r], r, declines, orders);
    if id in orders {
      ReachableMeaning(geo, roster, declines, id, orders[id], r);
      EligibleIsReachableNotCarrying(geo, roster, declines, orders, id, orders[id], r);
      if CanReach(geo, roster, declines, id, orders[id], r) && r !in Carrying(orders) && orders[id].status == Ready {
        assert orders[id].rider.None? ==> Ranked(Km(geo, orders[id], roster[r]), id) in s;
      }
    }
    if i :| 0 <= i < |s| && s[i].id == id {
      assert s[i] in s;
    }
  }

  // ------------------------------------------------------------------------
  // Declining
  // ------------------------------------------------------------------------

  /** The reject request: the declines on record afterwards, or the refusal. */
  function Rejected(geo: Geo, roster: map<nat, Rider>, declines: Declines, orders: map<nat, Order>, id: nat, r: nat)
    : Result<Declines, Refusal>
  {
    if id !in orders then Failure(NotFound)
    else if (id, r) in declines then Success(declines)
    else if orders[id].status in TERMINAL then Failure(Conflict)
    else if orders[id].status != Ready then Failure(Conflict)
    else if r !in (set x | x in Reachable(geo, roster, declines, id, orders[id]) :: x.id) then Failure(Conflict)
    else if orders[id].rider == Some(r) then Failure(Conflict)
    else Success(declines + {(id, r)})
  }

  /** A decline that writes a row. */
  predicate Declinable(geo: Geo, roster: map<nat, Rider>, declines: Declines, orders: map<nat, Order>, id: nat, r: nat)
  {
    Rejected(geo, roster, declines, orders, id, r).Success? && (id, r) !in declines
  }

  lemma DeclinableMeaning(geo: Geo, roster: map<nat, Rider>, declines: Declines, orders: map<nat, Order>, id: nat,
                          r: nat)
    ensures Declinable(geo, roster, declines, orders, id, r) <==>
      && id in orders && orders[id].status == Ready && orders[id].rider != Some(r)
      && CanReach(geo, roster, declines, id, orders[id], r)
  {
    if id in orders {
      var s := Reachable(geo, roster, declines, id, orders[id]);
      ReachableMeaning(geo, roster, declines, id, orders[id], r);
      assert r in (set x | x in s :: x.id) <==> Names(s, r) by {
        if Names(s, r) {
          var i :| 0 <= i < |s| && s[i].id == r;
          assert s[i] in s;
        }
      }
    }
  }

  /** Everything in a feed can be declined, once; then it leaves that feed and every other
      rider still sees it. A second tap succeeds and changes nothing. */
  lemma FeedCanBeDeclined(geo: Geo, roster: map<nat, Rider>, declines: Declines, orders: map<nat, Order>, id: nat,
                          r: nat, other: nat)
    requires r in roster && roster[r].delivery && roster[r].active
    requires other in roster && roster[other].delivery && roster[other].active
    requires Names(FeedOf(geo, roster[r], r, declines, orders), id)
    ensures Rejected(geo, roster, declines, orders, id, r) == Success(declines + {(id, r)})
    ensures Rejected(geo, roster, declines + {(id, r)}, orders, id, r) == Success(declines + {(id, r)})
    ensures !Names(FeedOf(geo, roster[r], r, declines + {(id, r)}, orders), id)
    ensures other != r ==>
      (Names(FeedOf(geo, roster[other], other, declines + {(id, r)}, orders), id)
       <==> Names(FeedOf(geo, roster[other], other, declines, orders), id))
  {
    var s := FeedOf(geo, roster[r], r, declines, orders);
    FeedMeaning(geo, roster[r], r, declines, orders);
    var i :| 0 <= i < |s| && s[i].id == id;
    assert s[i] in s;
    DeclinableMeaning(geo, roster, declines, orders, id, r);
    FeedIff(geo, roster, declines + {(id, r)}, orders, id, r);
    FeedIff(geo, roster, declines + {(id, r)}, orders, id, other);
    FeedIff(geo, roster, declines, orders, id, other);
  }

  lemma FeedIff(geo: Geo, roster: map<nat, Rider>, declines: Declines, orders: map<nat, Order>, id: nat, r: nat)
    requires r in roster && roster[r].delivery && roster[r].active
    ensures Names(FeedOf(geo, roster[r], r, declines, orders), id) <==>
      && id in orders && orders[id].status == Ready && orders[id].rider.None?
      && CanReach(geo, roster, declines, id, orders[id], r) && r !in Carrying(orders)
  {
    FeedAgreesWithDispatch(geo, roster, declines, orders, id, r);
    if id in orders {
      ReachableMeaning(geo, roster, declines, id, orders[id], r);
      EligibleIsReachableNotCarrying(geo, roster, declines, orders, id, orders[id], r);
    }
  }

  /** The declinable orders are the visible ones as long as the rider carries nothing. A rider
      mid-delivery sees nothing and can still decline whatever they could reach: then the two
      differ on some order exactly when one is within reach. */
  lemma DeclinableIsVisibleIff(geo: Geo, roster: map<nat, Rider>, declines: Declines, orders: map<nat, Order>, r: nat)
    requires r in roster && roster[r].delivery && roster[r].active
    requires forall id :: id in orders ==> RowOk(orders[id])
    ensures
      (forall id: nat :: Declinable(geo, roster, declines, orders, id, r)
                         <==> Names(FeedOf(geo, roster[r], r, declines, orders), id))
      <==> (r !in Carrying(orders)
            || forall id: nat :: id in orders && orders[id].status == Ready ==>
                                   !CanReach(geo, roster, declines, id, orders[id], r))
  {
    forall id: nat
      ensures Declinable(geo, roster, declines, orders, id, r) <==>
        id in orders && orders[id].status == Ready && CanReach(geo, roster, declines, id, orders[id], r)
      ensures Names(FeedOf(geo, roster[r], r, declines, orders), id) <==>
        Declinable(geo, roster, declines, orders, id, r) && r !in Carrying(orders)
    {
      DeclinableMeaning(geo, roster, declines, orders, id, r);
      FeedIff(geo, roster, declines, orders, id, r);
      if id in orders {
        assert RowOk(orders[id]);
      }
    }
  }

  /** The smallest input on which they differ: a rider carrying one bag, with a second order Ready
      that does not say where it is going. The rider can decline it and is not shown it. */
  lemma CarrierDeclinesUnseen(geo: Geo, rider: Rider, ticket: Ticket, now: Time)
    requires OnShift(rider) && ticket.position.None? && 0 <= ticket.grandTotal
    ensures var ready := Entered(Entered(NewOrder(ticket), Packing, now), Ready, now);
      var bag := Accepted(ready, 0, now).value;
      var orders: map<nat, Order> := map[1 := bag, 2 := ready];
      var roster: map<nat, Rider> := map[0 := rider];
      && (forall id :: id in orders ==> RowOk(orders[id]))
      && Declinable(geo, roster, {}, orders, 2, 0)
      && !Names(FeedOf(geo, rider, 0, {}, orders), 2)
  {
    var ready := Entered(Entered(NewOrder(ticket), Packing, now), Ready, now);
    var bag := Accepted(ready, 0, now).value;
    var orders: map<nat, Order> := map[1 := bag, 2 := ready];
    var roster: map<nat, Rider> := map[0 := rider];
    assert orders[1].status == Dispatched && orders[1].rider == Some(0);
    DeclinableMeaning(geo, roster, {}, orders, 2, 0);
    FeedIff(geo, roster, {}, orders, 2, 0);
  }

  // ------------------------------------------------------------------------
  // The stalled list
  // ------------------------------------------------------------------------

  predicate Late(o: Order, now: Time) {
    o.status !in TERMINAL && now > o.ticket.created + o.ticket.promisedMinutes * MINUTE
  }

  /** _stalled, as a membership test on the orders it is given. */
  predicate Stalled(geo: Geo, roster: map<nat, Rider>, declines: Declines, orders: map<nat, Order>, id: nat, now: Time)
  {
    id in orders && orders[id].status == Ready
    && (Late(orders[id], now) || Reachable(geo, roster, declines, id, orders[id]) == [])
  }

  /** Some rider's feed will show the order as soon as that rider carries nothing, whatever else
      has happened to other orders by then. */
  ghost predicate WillBeShown(geo: Geo, roster: map<nat, Rider>, declines: Declines, id: nat, o: Order) {
    exists r :: r in roster && roster[r].delivery && roster[r].active && ShownOnceFree(geo, roster, declines, id, o, r)
  }

  ghost predicate ShownOnceFree(geo: Geo, roster: map<nat, Rider>, declines: Declines, id: nat, o: Order, r: nat)
    requires r in roster
  {
    forall later: map<nat, Order> :: id in later && later[id] == o && r !in Carrying(later) ==>
      Names(FeedOf(geo, roster[r], r, declines, later), id)
  }

  lemma ShownOnceFreeMeaning(geo: Geo, roster: map<nat, Rider>, declines: Declines, id: nat, o: Order, r: nat)
    requires r in roster && roster[r].delivery && roster[r].active
    requires o.status == Ready && o.rider.None?
    ensures ShownOnceFree(geo, roster, declines, id, o, r) <==> CanReach(geo, roster, declines, id, o, r)
  {
    forall later: map<nat, Order> | id in later && later[id] == o && r !in Carrying(later)
      ensures Names(FeedOf(geo, roster[r], r, declines, later), id) <==> CanReach(geo, roster, declines, id, o, r)
    {
      FeedIff(geo, roster, declines, later, id, r);
    }
    var only: map<nat, Order> := map[id := o];
    assert r !in Carrying(only);
  }

  /** The stalled list, with the promise written out: a Ready order is on it exactly when its
      promised minutes have run out or no rider at all could reach it. */
  lemma StalledMeaning(geo: Geo, roster: map<nat, Rider>, declines: Declines, orders: map<nat, Order>, id: nat,
                       now: Time)
    requires id in orders && orders[id].status == Ready
    ensures var o := orders[id];
      Stalled(geo, roster, declines, orders, id, now) <==>
        || now > o.ticket.created + o.ticket.promisedMinutes * 60_000_000
        || forall r: nat :: !CanReach(geo, roster, declines, id, o, r)
  {
    var s := Reachable(geo, roster, declines, id, orders[id]);
    forall r: nat ensures CanReach(geo, roster, declines, id, orders[id], r) <==> Names(s, r) {
      ReachableMeaning(geo, roster, declines, id, orders[id], r);
    }
    if s != [] {
      assert Names(s, s[0].id);
    }
  }

  /** Nothing is hidden: a Ready order still within its promised minutes is on the stalled list
      exactly when no rider's feed would ever show it, however many bags are put down in the
      meantime; one past them is listed whatever the riders can see. */
  lemma StalledIsExactlyHidden(geo: Geo, roster: map<nat, Rider>, declines: Declines, orders: map<nat, Order>,
                               id: nat, now: Time)
    requires id in orders && RowOk(orders[id]) && orders[id].status == Ready
    ensures var o := orders[id];
      var promised := o.ticket.created + o.ticket.promisedMinutes * 60_000_000;
      && (now <= promised ==>
            (Stalled(geo, roster, declines, orders, id, now) <==> !WillBeShown(geo, roster, declines, id, o)))
      && (now > promised ==> Stalled(geo, roster, declines, orders, id, now))
  {
    var o := orders[id];
    StalledMeaning(geo, roster, declines, orders, id, now);
    forall r | r in roster && roster[r].delivery && roster[r].active
      ensures ShownOnceFree(geo, roster, declines, id, o, r) <==> CanReach(geo, roster, declines, id, o, r)
    {
      ShownOnceFreeMeaning(geo, roster, declines, id, o, r);
    }
    if r: nat :| CanReach(geo, roster, declines, id, o, r) {
      assert ShownOnceFree(geo, roster, declines, id, o, r);
    }
  }
}
