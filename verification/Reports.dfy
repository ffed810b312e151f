/** The money reports: calendar windows in the store's timezone, booked revenue by day, and the
    cash a shift should have in the till. */
module Reports {
  import opened Prelude
  import opened Decimals
  import opened Pricing
  import opened Orders
  import opened Sums

  // ------------------------------------------------------------------------
  // Windows
  // ------------------------------------------------------------------------

  /** A calendar day, counted from the local epoch. */
  type Date = int

  const DAY: int := 24 * 60 * MINUTE
  /** The store's clock runs five and a half hours ahead of UTC. */
  const OFFSET: int := 330 * MINUTE
  const DEFAULT_WINDOW_DAYS: int := 30
  const MAX_WINDOW_DAYS: int := 366

  function LocalDay(t: Time): Date {
    (t + OFFSET) / DAY
  }

  /** span: the moments from midnight on the first day up to midnight after the last. */
  function Span(from: Date, to: Date): (Time, Time) {
    (from * DAY - OFFSET, (to + 1) * DAY - OFFSET)
  }

  predicate InSpan(t: Time, from: Date, to: Date) {
    Span(from, to).0 <= t < Span(from, to).1
  }

  /** A moment is in the range exactly when its local date is in the window: nothing is dropped
      or counted twice at midnight, and the evening is not filed under tomorrow. */
  lemma SpanIsLocalDays(t: Time, from: Date, to: Date)
    ensures InSpan(t, from, to) <==> from <= LocalDay(t) <= to
  {
    DayBounds(t + OFFSET, from, DAY);
    DayBounds(t + OFFSET, to + 1, DAY);
  }

  lemma DayBounds(x: int, d: int, size: int)
    requires 0 < size
    ensures d * size <= x <==> d <= x / size
  {
    assert x == (x / size) * size + x % size;
    if d <= x / size {
      Scaled(d, x / size, size);
    } else {
      Scaled(x / size + 1, d, size);
      assert (x / size + 1) * size == (x / size) * size + size;
    }
  }

  lemma Scaled(a: int, b: int, k: int)
    requires a <= b && 0 <= k
    ensures a * k <= b * k
  {
  }

  function Least(a: int, b: int): int { if a <= b then a else b }
  function Most(a: int, b: int): int { if a <= b then b else a }

  /** read_window: the last thirty days by default, either end may be given, ends given the
      wrong way round are swapped, and a long range keeps its latest part. */
  method ReadWindow(today: Date, wantedFrom: Option<Date>, wantedTo: Option<Date>) returns (from: Date, to: Date)
    ensures from <= to && to - from + 1 <= 367
    ensures var last := if wantedTo.Some? then wantedTo.value else today;
      var first := if wantedFrom.Some? then wantedFrom.value else last - 29;
      to == Most(first, last) && from == Most(Least(first, last), to - 366)
  {
    to := if wantedTo.Some? then wantedTo.value else today;
    from := if wantedFrom.Some? then wantedFrom.value else to - (DEFAULT_WINDOW_DAYS - 1);
    if from > to {
      from, to := to, from;
    }
    if to - from > MAX_WINDOW_DAYS {
      from := to - MAX_WINDOW_DAYS;
    }
  }

  // ------------------------------------------------------------------------
  // The two order sets
  // ------------------------------------------------------------------------

  /** counted_orders: placed in the window, neither cancelled nor failed. */
  function Counted(orders: map<nat, Order>, from: Date, to: Date): set<nat> {
    set id | id in orders && InSpan(orders[id].ticket.created, from, to) && orders[id].status !in {Cancelled, Failed}
  }

  /** collected_orders: paid for in the window, whenever they were placed. */
  function Collected(orders: map<nat, Order>, from: Date, to: Date): set<nat> {
    set id | id in orders && orders[id].paidAt.Some? && InSpan(orders[id].paidAt.value, from, to)
             && orders[id].amountCollected.Some?
  }

  function Worth(orders: map<nat, Order>): nat -> int {
    (id: nat) => if id in orders then orders[id].ticket.grandTotal else 0
  }

  function Taken(orders: map<nat, Order>): nat -> int {
    (id: nat) => if id in orders && orders[id].amountCollected.Some? then orders[id].amountCollected.value else 0
  }

  predicate IsShort(orders: map<nat, Order>, id: nat) {
    id in orders && orders[id].amountCollected.Some? && orders[id].amountCollected.value < orders[id].ticket.grandTotal
  }

  function PlacedOn(orders: map<nat, Order>): nat -> Date {
    (id: nat) => if id in orders then LocalDay(orders[id].ticket.created) else 0
  }

  function PaidOn(orders: map<nat, Order>): nat -> Date {
    (id: nat) => if id in orders && orders[id].paidAt.Some? then LocalDay(orders[id].paidAt.value) else 0
  }

  function Collector(orders: map<nat, Order>): nat -> Option<nat> {
    (id: nat) => if id in orders then orders[id].collectedBy else None
  }

  function One(): nat -> int {
    (id: nat) => 1
  }

  /** Windows that meet at midnight add up, and share no order. */
  lemma AdjacentWindows(orders: map<nat, Order>, from: Date, mid: Date, to: Date)
    requires from <= mid + 1 && mid <= to
    ensures Counted(orders, from, mid) !! Counted(orders, mid + 1, to)
    ensures Counted(orders, from, mid) + Counted(orders, mid + 1, to) == Counted(orders, from, to)
    ensures Collected(orders, from, mid) !! Collected(orders, mid + 1, to)
    ensures Collected(orders, from, mid) + Collected(orders, mid + 1, to) == Collected(orders, from, to)
  {
    forall t: Time
      ensures InSpan(t, from, to) <==> InSpan(t, from, mid) || InSpan(t, mid + 1, to)
      ensures !(InSpan(t, from, mid) && InSpan(t, mid + 1, to))
    {
      SpanIsLocalDays(t, from, to);
      SpanIsLocalDays(t, from, mid);
      SpanIsLocalDays(t, mid + 1, to);
    }
  }

  /** Cash and revenue of adjacent windows add up to those of the whole. */
  lemma AdjacentWindowsAddUp(orders: map<nat, Order>, from: Date, mid: Date, to: Date, value: nat -> int)
    requires from <= mid + 1 && mid <= to
    ensures Sum(Counted(orders, from, mid), value) + Sum(Counted(orders, mid + 1, to), value)
         == Sum(Counted(orders, from, to), value)
    ensures Sum(Collected(orders, from, mid), value) + Sum(Collected(orders, mid + 1, to), value)
         == Sum(Collected(orders, from, to), value)
  {
    AdjacentWindows(orders, from, mid, to);
    SumUnion(Counted(orders, from, mid), Counted(orders, mid + 1, to), value);
    SumUnion(Collected(orders, from, mid), Collected(orders, mid + 1, to), value);
  }

  // ------------------------------------------------------------------------
  // Booked revenue
  // ------------------------------------------------------------------------

  datatype Headline = Headline(revenue: int, orders: nat)

  function HeadlineOf(orders: map<nat, Order>, from: Date, to: Date): Headline {
    var ids := Counted(orders, from, to);
    Headline(Money(Paise(Sum(ids, Worth(orders)))), |ids|)
  }

  /** The summary's two windows: the one asked for and the one it is compared with. */
  method Summary(orders: map<nat, Order>, from: Date, to: Date)
    returns (now: Headline, before: Headline, prevFrom: Date, prevTo: Date)
    requires from <= to
    ensures now == HeadlineOf(orders, from, to) && before == HeadlineOf(orders, prevFrom, prevTo)
    ensures prevTo + 1 == from && prevTo - prevFrom == to - from
    ensures now.revenue + before.revenue == HeadlineOf(orders, prevFrom, to).revenue
  {
    var length := to - from + 1;
    prevTo := from - 1;
    prevFrom := prevTo - (length - 1);
    now := HeadlineOf(orders, from, to);
    before := HeadlineOf(orders, prevFrom, prevTo);
    HeadlinesAddUp(orders, prevFrom, prevTo, to);
  }

  datatype Point = Point(date: Date, revenue: int, orders: nat)

  /** The rows of the GROUP BY day: only days that have an order. */
  function DayRows(orders: map<nat, Order>, from: Date, to: Date): map<Date, Headline> {
    var ids := Counted(orders, from, to);
    map d | d in (set id | id in ids :: PlacedOn(orders)(id)) ::
      Headline(Sum(Group(ids, PlacedOn(orders), d), Worth(orders)), |Group(ids, PlacedOn(orders), d)|)
  }

  /** The revenue series: one row for every day of the window, in order, zero where nothing was
      sold; each row is that day's own headline, and the rows add up to the summary's. */
  method RevenueSeries(orders: map<nat, Order>, from: Date, to: Date) returns (series: seq<Point>)
    requires from <= to
    ensures |series| == to - from + 1
    ensures forall i :: 0 <= i < |series| ==>
      var day := HeadlineOf(orders, from + i, from + i);
      series[i] == Point(from + i, day.revenue, day.orders)
    ensures SeriesRevenue(series) == HeadlineOf(orders, from, to).revenue
    ensures SeriesOrders(series) == HeadlineOf(orders, from, to).orders
  {
    var found := DayRows(orders, from, to);
    series := [];
    var cursor := from;
    while cursor <= to
      invariant from <= cursor <= to + 1 && |series| == cursor - from
      invariant forall i :: 0 <= i < |series| ==>
        var day := HeadlineOf(orders, from + i, from + i);
        series[i] == Point(from + i, day.revenue, day.orders)
    {
      RowOfDay(orders, from, to, cursor);
      series := series +
        [if cursor in found then Point(cursor, Money(Paise(found[cursor].revenue)), found[cursor].orders)
         else Point(cursor, 0, 0)];
      cursor := cursor + 1;
    }
    SeriesAddsUp(orders, from, to, series);
  }

  function SeriesRevenue(series: seq<Point>): int {
    if series == [] then 0 else SeriesRevenue(series[..|series| - 1]) + series[|series| - 1].revenue
  }

  function SeriesOrders(series: seq<Point>): int {
    if series == [] then 0 else SeriesOrders(series[..|series| - 1]) + series[|series| - 1].orders
  }

  /** The group of one day is that day's own window; a day with no row had no orders. */
  lemma RowOfDay(orders: map<nat, Order>, from: Date, to: Date, day: Date)
    requires from <= day <= to
    ensures var found := DayRows(orders, from, to);
      HeadlineOf(orders, day, day) ==
        if day in found then Headline(Money(Paise(found[day].revenue)), found[day].orders) else Headline(0, 0)
  {
    var ids := Counted(orders, from, to);
    forall id | id in orders
      ensures id in Group(ids, PlacedOn(orders), day) <==> id in Counted(orders, day, day)
    {
      SpanIsLocalDays(orders[id].ticket.created, from, to);
      SpanIsLocalDays(orders[id].ticket.created, day, day);
    }
    assert Group(ids, PlacedOn(orders), day) == Counted(orders, day, day);
    MoneyOfPaise(0);
    if day !in DayRows(orders, from, to) {
      assert forall id :: id in ids ==> PlacedOn(orders)(id) != day;
      assert Counted(orders, day, day) == {};
    }
  }

  lemma HeadlinesAddUp(orders: map<nat, Order>, from: Date, mid: Date, to: Date)
    requires from <= mid + 1 && mid <= to
    ensures HeadlineOf(orders, from, to).revenue ==
      HeadlineOf(orders, from, mid).revenue + HeadlineOf(orders, mid + 1, to).revenue
    ensures HeadlineOf(orders, from, to).orders ==
      HeadlineOf(orders, from, mid).orders + HeadlineOf(orders, mid + 1, to).orders
  {
    AdjacentWindows(orders, from, mid, to);
    AdjacentWindowsAddUp(orders, from, mid, to, Worth(orders));
    MoneyOfPaise(Sum(Counted(orders, from, mid), Worth(orders)));
    MoneyOfPaise(Sum(Counted(orders, mid + 1, to), Worth(orders)));
    MoneyOfPaise(Sum(Counted(orders, from, to), Worth(orders)));
  }

  lemma {:induction false} SeriesAddsUp(orders: map<nat, Order>, from: Date, to: Date, series: seq<Point>)
    requires from <= to + 1 && |series| == to - from + 1
    requires forall i :: 0 <= i < |series| ==>
      var day := HeadlineOf(orders, from + i, from + i);
      series[i] == Point(from + i, day.revenue, day.orders)
    ensures SeriesRevenue(series) == HeadlineOf(orders, from, to).revenue
    ensures SeriesOrders(series) == HeadlineOf(orders, from, to).orders
    decreases |series|
  {
    if series == [] {
      MoneyOfPaise(0);
      forall id | id in orders ensures !InSpan(orders[id].ticket.created, from, to) {
        SpanIsLocalDays(orders[id].ticket.created, from, to);
      }
      assert Counted(orders, from, to) == {};
    } else {
      SeriesAddsUp(orders, from, to - 1, series[..|series| - 1]);
      HeadlinesAddUp(orders, from, to - 1, to);
      var last := series[|series| - 1];
      assert last == Point(to, HeadlineOf(orders, to, to).revenue, HeadlineOf(orders, to, to).orders);
    }
  }

  // ------------------------------------------------------------------------
  // Cash reconciliation
  // ------------------------------------------------------------------------

  datatype Figures = Figures(orders: nat, expected: int, collected: int, shortOrders: nat) {
    function Shortfall(): int {
      Money(Paise(expected - collected))
    }
  }

  function FiguresOf(orders: map<nat, Order>, ids: set<nat>): Figures {
    Figures(|ids|, Sum(ids, Worth(orders)), Sum(ids, Taken(orders)), |set id | id in ids && IsShort(orders, id)|)
  }

  /** The rows of a grouped query, added column by column. */
  function AddedRows<K(==)>(orders: map<nat, Order>, ids: set<nat>, key: nat -> K, keys: seq<K>): Figures {
    if keys == [] then Figures(0, 0, 0, 0)
    else
      var before := AddedRows(orders, ids, key, keys[..|keys| - 1]);
      var row := FiguresOf(orders, Group(ids, key, keys[|keys| - 1]));
      Figures(before.orders + row.orders, before.expected + row.expected,
              before.collected + row.collected, before.shortOrders + row.shortOrders)
  }

  function ShortCount(orders: map<nat, Order>): nat -> int {
    (id: nat) => if IsShort(orders, id) then 1 else 0
  }

  lemma {:induction false} CountIsSum(ids: set<nat>)
    ensures Sum(ids, One()) == |ids|
    decreases |ids|
  {
    if ids != {} {
      var k :| k in ids;
      SumSplit(ids, k, One());
      CountIsSum(ids - {k});
    }
  }

  lemma {:induction false} ShortIsSum(orders: map<nat, Order>, ids: set<nat>)
    ensures Sum(ids, ShortCount(orders)) == |set id | id in ids && IsShort(orders, id)|
    decreases |ids|
  {
    var short := set id | id in ids && IsShort(orders, id);
    if ids != {} {
      var k :| k in ids;
      SumSplit(ids, k, ShortCount(orders));
      ShortIsSum(orders, ids - {k});
      var rest := set id | id in ids - {k} && IsShort(orders, id);
      assert short == if IsShort(orders, k) then rest + {k} else rest;
    }
  }

  lemma {:induction false} AddedRowsAreGroupSums<K(!new)>(orders: map<nat, Order>, ids: set<nat>,
                                                           key: nat -> K, keys: seq<K>)
    ensures var all := AddedRows(orders, ids, key, keys);
      && all.orders == SumOfGroups(ids, key, keys, One())
      && all.expected == SumOfGroups(ids, key, keys, Worth(orders))
      && all.collected == SumOfGroups(ids, key, keys, Taken(orders))
      && all.shortOrders == SumOfGroups(ids, key, keys, ShortCount(orders))
    decreases |keys|
  {
    if keys != [] {
      AddedRowsAreGroupSums(orders, ids, key, keys[..|keys| - 1]);
      var group := Group(ids, key, keys[|keys| - 1]);
      CountIsSum(group);
      ShortIsSum(orders, group);
    }
  }

  /** The rows of a grouped cash report, in any order, add up to its totals in every column. */
  lemma RowsAddUp<K(!new)>(orders: map<nat, Order>, ids: set<nat>, key: nat -> K, keys: seq<K>)
    requires Lists(ids, key, keys)
    ensures AddedRows(orders, ids, key, keys) == FiguresOf(orders, ids)
  {
    AddedRowsAreGroupSums(orders, ids, key, keys);
    GroupsAddUp(ids, key, keys, One());
    GroupsAddUp(ids, key, keys, Worth(orders));
    GroupsAddUp(ids, key, keys, Taken(orders));
    GroupsAddUp(ids, key, keys, ShortCount(orders));
    CountIsSum(ids);
    ShortIsSum(orders, ids);
  }

  /** The rider rows, the unattributed one among them, and the day rows each account for every
      rupee of the window's totals; and the days are days of the window. */
  lemma CashReportConserves(orders: map<nat, Order>, from: Date, to: Date, riders: seq<Option<nat>>, days: seq<Date>)
    requires Lists(Collected(orders, from, to), Collector(orders), riders)
    requires Lists(Collected(orders, from, to), PaidOn(orders), days)
    ensures var ids := Collected(orders, from, to);
      && AddedRows(orders, ids, Collector(orders), riders) == FiguresOf(orders, ids)
      && AddedRows(orders, ids, PaidOn(orders), days) == FiguresOf(orders, ids)
      && (forall d :: from <= d <= to ==> Group(ids, PaidOn(orders), d) == Collected(orders, d, d))
      && (forall d :: !(from <= d <= to) ==> Group(ids, PaidOn(orders), d) == {})
  {
    var ids := Collected(orders, from, to);
    RowsAddUp(orders, ids, Collector(orders), riders);
    RowsAddUp(orders, ids, PaidOn(orders), days);
    forall d
      ensures from <= d <= to ==> Group(ids, PaidOn(orders), d) == Collected(orders, d, d)
      ensures !(from <= d <= to) ==> Group(ids, PaidOn(orders), d) == {}
    {
      forall id | id in orders && orders[id].paidAt.Some?
        ensures InSpan(orders[id].paidAt.value, from, to) <==> from <= PaidOn(orders)(id) <= to
        ensures InSpan(orders[id].paidAt.value, d, d) <==> PaidOn(orders)(id) == d
      {
        SpanIsLocalDays(orders[id].paidAt.value, from, to);
        SpanIsLocalDays(orders[id].paidAt.value, d, d);
      }
    }
  }

  /** No row's shortfall is negative, and it is zero exactly when no order of the row was paid
      short: a shortfall is never hidden by an overpayment. */
  lemma ShortfallIsHonest(orders: map<nat, Order>, from: Date, to: Date, ids: set<nat>)
    requires forall id :: id in orders ==> RowOk(orders[id])
    requires ids <= Collected(orders, from, to)
    ensures var row := FiguresOf(orders, ids);
      0 <= row.Shortfall() && (row.Shortfall() == 0 <==> row.shortOrders == 0)
  {
    var row := FiguresOf(orders, ids);
    MoneyOfPaise(row.expected - row.collected);
    forall id | id in ids ensures Taken(orders)(id) <= Worth(orders)(id) {
      assert RowOk(orders[id]);
    }
    SumMonotone(ids, Taken(orders), Worth(orders));
    var short := set id | id in ids && IsShort(orders, id);
    forall id | id in ids ensures id in short <==> Taken(orders)(id) != Worth(orders)(id) {
      assert RowOk(orders[id]);
    }
    assert row.shortOrders == 0 <==> short == {};
    assert short == {} <==> forall id :: id in ids ==> id !in short;
  }

  /** The till holds deliveries and nothing else: a collected order is Delivered, and was
      delivered in the window. */
  lemma CollectedAreDeliveries(orders: map<nat, Order>, from: Date, to: Date)
    requires forall id :: id in orders ==> RowOk(orders[id])
    ensures Collected(orders, from, to) ==
      set id | id in orders && orders[id].status == Delivered && orders[id].deliveredAt.Some?
               && from <= LocalDay(orders[id].deliveredAt.value) <= to
  {
    forall id | id in orders
      ensures id in Collected(orders, from, to) <==>
        orders[id].status == Delivered && orders[id].deliveredAt.Some?
        && from <= LocalDay(orders[id].deliveredAt.value) <= to
    {
      assert RowOk(orders[id]);
      if orders[id].paidAt.Some? {
        SpanIsLocalDays(orders[id].paidAt.value, from, to);
      }
    }
  }
}
