/** What one order contributes to the reports, told from its own columns. */
module ReportEntries {
  import opened Prelude
  import opened Decimals
  import opened Pricing
  import opened Orders
  import opened Sums
  import opened Reports

  /** The store's day begins at half past six in the evening, UTC. */
  lemma LocalMidnight(day: Date, t: Time)
    ensures LocalDay(t) == day <==>
      day * 86_400_000_000 - 19_800_000_000 <= t < (day + 1) * 86_400_000_000 - 19_800_000_000
  {
    SpanIsLocalDays(t, day, day);
  }

  function OneShort(o: Order): nat
    requires o.amountCollected.Some?
  {
    if o.amountCollected.value < o.ticket.grandTotal then 1 else 0
  }

  /** Figures with one order's worth, takings and shortness added. */
  function WithOrder(f: Figures, o: Order): Figures
    requires o.amountCollected.Some?
  {
    Figures(f.orders + 1, f.expected + o.ticket.grandTotal, f.collected + o.amountCollected.value,
            f.shortOrders + OneShort(o))
  }

  lemma SumOne(id: nat, value: nat -> int)
    ensures Sum({id}, value) == value(id)
  {
    SumSplit({id}, id, value);
    assert {id} - {id} == {};
  }

  /** Adding a paid order to the rows of a report adds exactly its total, what was taken for it, and
      itself to the count; and one to the short orders if it was paid short. */
  lemma OneMoreOrder(orders: map<nat, Order>, ids: set<nat>, id: nat)
    requires id in orders && id !in ids && orders[id].amountCollected.Some?
    ensures FiguresOf(orders, ids + {id}) == WithOrder(FiguresOf(orders, ids), orders[id])
  {
    SumWithOne(ids, id, Worth(orders));
    SumWithOne(ids, id, Taken(orders));
    ShortWithOne(orders, ids, id);
  }

  lemma SumWithOne(ids: set<nat>, id: nat, value: nat -> int)
    requires id !in ids
    ensures Sum(ids + {id}, value) == Sum(ids, value) + value(id)
  {
    SumUnion(ids, {id}, value);
    SumOne(id, value);
  }

  lemma ShortWithOne(orders: map<nat, Order>, ids: set<nat>, id: nat)
    requires id !in ids
    ensures |set x | x in ids + {id} && IsShort(orders, x)| ==
      |set x | x in ids && IsShort(orders, x)| + if IsShort(orders, id) then 1 else 0
  {
    var more, fewer := set x | x in ids + {id} && IsShort(orders, x), set x | x in ids && IsShort(orders, x);
    assert more == if IsShort(orders, id) then fewer + {id} else fewer;
    assert id !in fewer;
  }

  /** A report on one order: what it was worth, what was taken, and the difference. */
  lemma OneOrderReport(orders: map<nat, Order>, id: nat)
    requires id in orders && orders[id].amountCollected.Some?
    ensures var o, f := orders[id], FiguresOf(orders, {id});
      && f.orders == 1 && f.expected == o.ticket.grandTotal && f.collected == o.amountCollected.value
      && f.Shortfall() == o.ticket.grandTotal - o.amountCollected.value
      && (f.shortOrders == 1 <==> o.amountCollected.value < o.ticket.grandTotal)
  {
    NothingReported(orders);
    OneMoreOrder(orders, {}, id);
    assert {} + {id} == {id};
    MoneyOfPaise(orders[id].ticket.grandTotal - orders[id].amountCollected.value);
  }

  lemma NothingReported(orders: map<nat, Order>)
    ensures FiguresOf(orders, {}) == Figures(0, 0, 0, 0)
  {
    assert (set id | id in {} && IsShort(orders, id)) == {};
  }

  /** Rows that do not list an order are not changed by it. */
  lemma Unlisted(orders: map<nat, Order>, id: nat, o: Order, ids: set<nat>)
    requires id !in ids
    ensures FiguresOf(orders[id := o], ids) == FiguresOf(orders, ids)
  {
    SumAgrees(ids, Worth(orders[id := o]), Worth(orders));
    SumAgrees(ids, Taken(orders[id := o]), Taken(orders));
    assert (set x | x in ids && IsShort(orders[id := o], x)) == (set x | x in ids && IsShort(orders, x));
  }

  /** Is the order a delivery of the window? */
  predicate DeliveredIn(o: Order, from: Date, to: Date) {
    o.status == Delivered && o.deliveredAt.Some? && from <= LocalDay(o.deliveredAt.value) <= to
  }

  /** One more order on the books: the window's cash report gains exactly its figures if it was
      delivered in the window, and does not change otherwise. */
  lemma CashEntry(orders: map<nat, Order>, id: nat, o: Order, from: Date, to: Date)
    requires id !in orders && RowOk(o)
    ensures var after := orders[id := o];
      var was := FiguresOf(orders, Collected(orders, from, to));
      && (DeliveredIn(o, from, to) ==>
            o.amountCollected.Some? && FiguresOf(after, Collected(after, from, to)) == WithOrder(was, o))
      && (!DeliveredIn(o, from, to) ==> FiguresOf(after, Collected(after, from, to)) == was)
  {
    var after, ids := orders[id := o], Collected(orders, from, to);
    if o.paidAt.Some? {
      SpanIsLocalDays(o.paidAt.value, from, to);
    }
    assert Collected(after, from, to) == if DeliveredIn(o, from, to) then ids + {id} else ids;
    Unlisted(orders, id, o, ids);
    if DeliveredIn(o, from, to) {
      OneMoreOrder(after, ids, id);
    }
  }

  /** One more order on the books: booked revenue gains exactly its total, and the count one, if it
      was placed in the window and neither cancelled nor failed; otherwise neither changes. */
  lemma BookedEntry(orders: map<nat, Order>, id: nat, o: Order, from: Date, to: Date)
    requires id !in orders
    ensures var was, now := HeadlineOf(orders, from, to), HeadlineOf(orders[id := o], from, to);
      now ==
        if from <= LocalDay(o.ticket.created) <= to && o.status !in {Cancelled, Failed}
        then Headline(was.revenue + o.ticket.grandTotal, was.orders + 1)
        else was
  {
    var after, ids := orders[id := o], Counted(orders, from, to);
    SpanIsLocalDays(o.ticket.created, from, to);
    var counts := from <= LocalDay(o.ticket.created) <= to && o.status !in {Cancelled, Failed};
    assert Counted(after, from, to) == if counts then ids + {id} else ids;
    SumAgrees(ids, Worth(after), Worth(orders));
    MoneyOfPaise(Sum(ids, Worth(orders)));
    if counts {
      SumWithOne(ids, id, Worth(after));
      MoneyOfPaise(Sum(ids + {id}, Worth(after)));
    }
  }

  /** An empty book reports nothing. */
  lemma EmptyBook(from: Date, to: Date)
    ensures HeadlineOf(map[], from, to) == Headline(0, 0)
    ensures FiguresOf(map[], Collected(map[], from, to)) == Figures(0, 0, 0, 0)
  {
    assert Counted(map[], from, to) == {} && Collected(map[], from, to) == {};
    MoneyOfPaise(0);
    NothingReported(map[]);
  }

  /** A rider's row lists exactly the orders whose money that rider took; the unattributed row those
      nobody is named for. */
  lemma RiderRowLists(orders: map<nat, Order>, from: Date, to: Date, rider: Option<nat>)
    ensures Group(Collected(orders, from, to), Collector(orders), rider) ==
      set id | id in Collected(orders, from, to) && orders[id].collectedBy == rider
  {
  }
}
