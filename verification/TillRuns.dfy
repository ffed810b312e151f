/** A shift that has been closed stays closed: nothing the shop does later changes what the cash
    report says about a window that has ended. */
module TillRuns {
  import opened Prelude
  import opened Pricing
  import opened Orders
  import opened Baskets
  import opened Checkouts
  import opened Ledger
  import opened Shops
  import opened ShopRuns
  import opened Sums
  import opened Reports

  /** Payments are recorded at the moment they happen. */
  lemma EditsPayNow(o: Order, edits: seq<Edit>, now: Time)
    requires EditsApplied(o, edits, now).Success?
    ensures var n := EditsApplied(o, edits, now).value; n.paidAt == o.paidAt || n.paidAt == Some(now)
    decreases |edits|
  {
    if edits != [] {
      EditPaysNow(o, edits[0], now);
      EditsPayNow(Edited(o, edits[0], now).value, edits[1..], now);
    }
  }

  lemma EditPaysNow(o: Order, e: Edit, now: Time)
    requires Edited(o, e, now).Success?
    ensures var n := Edited(o, e, now).value; n.paidAt == o.paidAt || n.paidAt == Some(now)
  {
  }

  predicate PaidSince(a: map<nat, Order>, b: map<nat, Order>, start: Time) {
    forall id :: id in b && b[id].paidAt.Some? ==>
      (id in a && a[id].paidAt == b[id].paidAt) || start <= b[id].paidAt.value
  }

  lemma PerformPaysNow(cfg: Settings, t: Tables, j: Job, now: Time)
    requires Perform(cfg, t, j, now).Success?
    ensures PaidSince(t.orders, Perform(cfg, t, j, now).value.orders, now)
  {
    match j
    case EditJob(id, edits) => EditsPayNow(t.orders[id], edits, now);
    case _ =>
  }

  lemma {:induction false} RunPaysSince(env: Env, s: Shop, calls: seq<Call>, start: Time)
    requires env.cfg.Sane() && ShopOk(s) && OnTime(calls, start)
    ensures PaidSince(s.tables.orders, Run(env, s, calls).tables.orders, start)
    ensures start <= ClockAfter(calls, start)
    decreases |calls|
  {
    if calls != [] {
      var init, last := calls[..|calls| - 1], calls[|calls| - 1];
      RunPaysSince(env, s, init, start);
      ShopRunIsLedgerRun(env, s, init);
      var mid := Run(env, s, init);
      if Step(env, mid, last.req, last.now).Success? {
        StepIsJob(env, mid, last.req, last.now);
        if JobOf(env, mid, last.req, last.now).Some? {
          PerformPaysNow(env.cfg, mid.tables, JobOf(env, mid, last.req, last.now).value, last.now);
        }
      }
    }
  }

  lemma PaymentStays(a: Order, b: Order)
    requires RowOk(a) && RowOk(b) && Follows(a, b) && a.paidAt.Some?
    ensures b.paidAt == a.paidAt && b.amountCollected == a.amountCollected
    ensures b.collectedBy == a.collectedBy && b.ticket == a.ticket
  {
  }

  ghost predicate SamePayment(before: map<nat, Order>, after: map<nat, Order>, id: nat) {
    && id in before && id in after
    && after[id].paidAt == before[id].paidAt && after[id].amountCollected == before[id].amountCollected
    && after[id].collectedBy == before[id].collectedBy && after[id].ticket == before[id].ticket
  }

  lemma SameRows(before: map<nat, Order>, after: map<nat, Order>, from: Date, to: Date, start: Time)
    requires forall id :: id in before ==> RowOk(before[id])
    requires forall id :: id in after ==> RowOk(after[id])
    requires OrdersFollow(before, after) && PaidSince(before, after, start)
    requires Span(from, to).1 <= start
    ensures Collected(after, from, to) == Collected(before, from, to)
    ensures forall id :: id in Collected(before, from, to) ==> SamePayment(before, after, id)
  {
    forall id | id in before && before[id].paidAt.Some? ensures SamePayment(before, after, id) {
      assert RowOk(before[id]) && RowOk(after[id]);
      PaymentStays(before[id], after[id]);
    }
    forall id ensures id in Collected(after, from, to) <==> id in Collected(before, from, to) {
      if id in before && before[id].paidAt.Some? {
        assert SamePayment(before, after, id);
      }
    }
  }

  lemma SameFigures(before: map<nat, Order>, after: map<nat, Order>, ids: set<nat>)
    requires forall id :: id in ids ==> SamePayment(before, after, id)
    ensures FiguresOf(after, ids) == FiguresOf(before, ids)
    ensures forall id :: id in ids ==>
      Collector(after)(id) == Collector(before)(id) && PaidOn(after)(id) == PaidOn(before)(id)
  {
    SumAgrees(ids, Worth(after), Worth(before));
    SumAgrees(ids, Taken(after), Taken(before));
    assert (set id | id in ids && IsShort(after, id)) == (set id | id in ids && IsShort(before, id));
  }

  /** Once a window has ended, no later run changes which orders its cash report lists, what they
      were worth, what was taken for them, or who took it. */
  lemma ClosedWindowStays(env: Env, s: Shop, calls: seq<Call>, start: Time, from: Date, to: Date)
    requires env.cfg.Sane() && ShopOk(s) && OnTime(calls, start)
    requires Span(from, to).1 <= start
    ensures var before, after := s.tables.orders, Run(env, s, calls).tables.orders;
      && Collected(after, from, to) == Collected(before, from, to)
      && (forall id :: id in Collected(before, from, to) ==>
            id in after && Collector(after)(id) == Collector(before)(id) && PaidOn(after)(id) == PaidOn(before)(id))
      && FiguresOf(after, Collected(after, from, to)) == FiguresOf(before, Collected(before, from, to))
  {
    ShopRunConserves(env, s, calls, 0, 0);
    ShopRunIsLedgerRun(env, s, calls);
    RunPaysSince(env, s, calls, start);
    var before, after := s.tables.orders, Run(env, s, calls).tables.orders;
    SameRows(before, after, from, to, start);
    SameFigures(before, after, Collected(before, from, to));
  }
}
