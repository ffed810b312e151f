/** What holds on every run of the shop: the ledger's laws, the rows' lifecycle, and the end of
    the auto-assign and hand-back loop. */
module ShopRuns {
  import opened Prelude
  import opened Pricing
  import opened Orders
  import opened Baskets
  import opened Checkouts
  import opened Ledger
  import opened Dispatch
  import opened Feed
  import opened Shops

  // ------------------------------------------------------------------------
  // One step keeps the shop sound
  // ------------------------------------------------------------------------

  /** The rider an edit hands the order to. */
  function Taker(e: Edit): Option<nat> {
    match e
    case SetStatus(_, _, _, _) => None
    case Accept(r) => Some(r)
    case Assign(r) => Some(r)
    case AutoAssign(r, _) => Some(r)
  }

  /** A row's rider is the one it had, nobody, or one that an edit named. */
  lemma EditsNameRider(o: Order, edits: seq<Edit>, now: Time, known: set<nat>)
    requires EditsApplied(o, edits, now).Success?
    requires forall e :: e in edits && Taker(e).Some? ==> Taker(e).value in known
    requires o.rider.Some? ==> o.rider.value in known
    ensures var n := EditsApplied(o, edits, now).value; n.rider.Some? ==> n.rider.value in known
    decreases |edits|
  {
    if edits != [] {
      var mid := Edited(o, edits[0], now).value;
      OneEditNamesRider(o, edits[0], now);
      assert edits[0] in edits;
      assert forall e :: e in edits[1..] ==> e in edits;
      EditsNameRider(mid, edits[1..], now, known);
    }
  }

  lemma OneEditNamesRider(o: Order, e: Edit, now: Time)
    requires Edited(o, e, now).Success?
    ensures var n := Edited(o, e, now).value;
      n.rider.None? || n.rider == o.rider || n.rider == Taker(e)
  {
    match e
    case Assign(r) =>
    case _ =>
  }

  predicate TakersIn(j: Job, known: set<nat>) {
    j.EditJob? ==> forall e :: e in j.edits && Taker(e).Some? ==> Taker(e).value in known
  }

  predicate RidersIn(orders: map<nat, Order>, known: set<nat>) {
    forall id :: id in orders && orders[id].rider.Some? ==> orders[id].rider.value in known
  }

  lemma PerformKeepsRiders(cfg: Settings, t: Tables, j: Job, now: Time, known: set<nat>)
    requires Perform(cfg, t, j, now).Success? && TakersIn(j, known) && RidersIn(t.orders, known)
    ensures RidersIn(Perform(cfg, t, j, now).value.orders, known)
  {
    match j
    case EditJob(id, edits) => EditsNameRider(t.orders[id], edits, now, known);
    case _ =>
  }

  /** Which ids a job adds and removes. */
  lemma PerformKeys(cfg: Settings, t: Tables, j: Job, now: Time)
    requires Perform(cfg, t, j, now).Success?
    ensures var after := Perform(cfg, t, j, now).value;
      && after.orders.Keys == t.orders.Keys + (if j.PlaceJob? then {j.id} else {})
      && after.products.Keys <= t.products.Keys + (if j.CreateJob? then {j.product} else {})
  {
    match j
    case PlaceJob(c, id) =>
      var basket := Drafted(cfg, t.products, c).value;
      DraftedLines(cfg, t.products, c);
      TakeTouches(t.products, basket.lines);
    case CancelJob(id, reason) => PutBackReturnsUnits(t.products, t.orders[id].ticket.items);
    case RestockJob(id) => PutBackReturnsUnits(t.products, t.orders[id].ticket.items);
    case _ =>
  }

  lemma AutoPickOnRoster(env: Env, s: Shop, id: nat)
    requires id in s.tables.orders && AutoPick(env, s, id).Some?
    ensures var r := AutoPick(env, s, id).value.id; r in s.roster && (id, r) !in s.declines
  {
    PickIsFirst(env.geo, s.roster, s.declines, s.tables.orders, id, s.tables.orders[id], 0);
  }

  lemma JobTakers(env: Env, s: Shop, req: Request, now: Time)
    requires Step(env, s, req, now).Success? && JobOf(env, s, req, now).Some?
    ensures TakersIn(JobOf(env, s, req, now).value, s.roster.Keys)
  {
    match req
    case PatchStatus(actor, id, target, reason, amount) =>
      if target != Cancelled {
        var moved := Moved(env, s, actor, id, target, reason, amount, now).value;
        if target == Ready && AutoPick(env, moved, id).Some? {
          AutoPickOnRoster(env, moved, id);
        }
      }
    case _ =>
  }

  /** Outside the staff requests nobody joins or leaves, and only orders' declines are added. */
  lemma StepOutline(env: Env, s: Shop, req: Request, now: Time)
    requires Step(env, s, req, now).Success?
    ensures var n := Step(env, s, req, now).value;
      && (forall d :: d in n.declines ==> d in s.declines || (d.1 in s.roster && d.0 in s.tables.orders))
      && (forall d :: d in s.declines && d.1 in n.roster ==> d in n.declines)
      && (forall d :: d in n.declines && d.1 in s.roster ==> d.1 in n.roster)
      && s.nextUser <= n.nextUser && s.nextOrder <= n.nextOrder && s.nextProduct <= n.nextProduct
      && (forall r :: r in n.roster ==> r in s.roster || (r == s.nextUser && n.nextUser == s.nextUser + 1))
      && (forall r :: r in s.roster && r !in n.roster ==> req == RemoveUser(r) && !HasHistory(s.tables.orders, r))
  {
    match req
    case PatchStatus(actor, id, target, reason, amount) =>
      if target != Cancelled {
        assert id in s.tables.orders;
      }
    case RemoveUser(u) =>
    case _ =>
  }

  /** Inserts take the id the sequence hands out. */
  lemma InsertedIds(env: Env, s: Shop, req: Request, now: Time)
    requires Step(env, s, req, now).Success? && JobOf(env, s, req, now).Some?
    ensures var job, n := JobOf(env, s, req, now).value, Step(env, s, req, now).value;
      && (job.PlaceJob? ==> job.id == s.nextOrder && n.nextOrder == s.nextOrder + 1)
      && (job.CreateJob? ==> job.product == s.nextProduct && n.nextProduct == s.nextProduct + 1)
  {
  }

  lemma StepKeepsIds(env: Env, s: Shop, req: Request, now: Time)
    requires ShopOk(s) && Step(env, s, req, now).Success?
    ensures var n := Step(env, s, req, now).value;
      && (forall id :: id in n.tables.orders ==> id < n.nextOrder)
      && (forall id :: id in n.tables.products ==> id < n.nextProduct)
  {
    StepIsJob(env, s, req, now);
    StepOutline(env, s, req, now);
    if JobOf(env, s, req, now).Some? {
      PerformKeys(env.cfg, s.tables, JobOf(env, s, req, now).value, now);
      InsertedIds(env, s, req, now);
    }
  }

  lemma StepKeepsTables(env: Env, s: Shop, req: Request, now: Time)
    requires env.cfg.Sane() && ShopOk(s) && Step(env, s, req, now).Success?
    ensures var n := Step(env, s, req, now).value;
      TablesOk(n.tables) && RidersIn(n.tables.orders, s.roster.Keys) && OrdersFollow(s.tables.orders, n.tables.orders)
  {
    StepIsJob(env, s, req, now);
    assert RidersIn(s.tables.orders, s.roster.Keys);
    var job := JobOf(env, s, req, now);
    if job.Some? {
      PerformKeepsTables(env.cfg, s.tables, job.value, now);
      JobTakers(env, s, req, now);
      PerformKeepsRiders(env.cfg, s.tables, job.value, now, s.roster.Keys);
    }
  }

  /** Every request keeps the shop sound and rewrites no order's record. */
  lemma StepKeepsShop(env: Env, s: Shop, req: Request, now: Time)
    requires env.cfg.Sane() && ShopOk(s) && Step(env, s, req, now).Success?
    ensures ShopOk(Step(env, s, req, now).value)
    ensures OrdersFollow(s.tables.orders, Step(env, s, req, now).value.tables.orders)
  {
    var n := Step(env, s, req, now).value;
    StepKeepsTables(env, s, req, now);
    StepKeepsIds(env, s, req, now);
    StepOutline(env, s, req, now);
    forall id | id in n.tables.orders && n.tables.orders[id].rider.Some?
      ensures n.tables.orders[id].rider.value in n.roster
    {
      var r := n.tables.orders[id].rider.value;
      if req == RemoveUser(r) {
        assert n.tables == s.tables;
        assert HasHistory(s.tables.orders, r);
      }
    }
    forall id, r | (id, r) in n.declines ensures id in n.tables.orders && r in n.roster {
      assert OrdersFollow(s.tables.orders, n.tables.orders);
      assert ((id, r) in s.declines) || ((id, r).1 in s.roster && (id, r).0 in s.tables.orders);
      assert (id, r).1 in n.roster;
    }
  }

  // ------------------------------------------------------------------------
  // Runs
  // ------------------------------------------------------------------------

  datatype Call = Call(req: Request, now: Time)

  function After(env: Env, s: Shop, call: Call): Shop {
    match Step(env, s, call.req, call.now)
    case Failure(_) => s
    case Success(n) => n
  }

  function Run(env: Env, s: Shop, calls: seq<Call>): Shop {
    if calls == [] then s else After(env, Run(env, s, calls[..|calls| - 1]), calls[|calls| - 1])
  }

  /** The jobs a run committed, in order. */
  function History(env: Env, s: Shop, calls: seq<Call>): seq<Entry> {
    if calls == [] then []
    else
      var init, last := calls[..|calls| - 1], calls[|calls| - 1];
      var mid := Run(env, s, init);
      if Step(env, mid, last.req, last.now).Success? && JobOf(env, mid, last.req, last.now).Some? then
        History(env, s, init) + [Entry(JobOf(env, mid, last.req, last.now).value, last.now)]
      else History(env, s, init)
  }

  /** Every run of requests is a run of the jobs they committed, so whatever is proved of ledger
      runs holds of shop runs; and the shop stays sound throughout. */
  lemma {:induction false} ShopRunIsLedgerRun(env: Env, s: Shop, calls: seq<Call>)
    requires env.cfg.Sane() && ShopOk(s)
    ensures var end, log := Run(env, s, calls), History(env, s, calls);
      && ShopOk(end)
      && FreshRun(env.cfg, s.tables, log)
      && RunAll(env.cfg, s.tables, log) == Some(end.tables)
    decreases |calls|
  {
    if calls != [] {
      var init, last := calls[..|calls| - 1], calls[|calls| - 1];
      ShopRunIsLedgerRun(env, s, init);
      var mid := Run(env, s, init);
      if Step(env, mid, last.req, last.now).Success? {
        StepKeepsShop(env, mid, last.req, last.now);
        StepIsJob(env, mid, last.req, last.now);
        var log := History(env, s, calls);
        if JobOf(env, mid, last.req, last.now).Some? {
          assert log[..|log| - 1] == History(env, s, init);
        }
      }
    }
  }

  /** On every run of all requests together: each product's shelf plus bags changes only by the
      catalogue edits, each order's record is only added to, and its goods come back at most
      once. */
  lemma ShopRunConserves(env: Env, s: Shop, calls: seq<Call>, p: nat, id: nat)
    requires env.cfg.Sane() && ShopOk(s)
    ensures var end, log := Run(env, s, calls), History(env, s, calls);
      && RunAll(env.cfg, s.tables, log).Some?
      && Supply(end.tables, p) == Supply(s.tables, p) + NetEdits(env.cfg, s.tables, log, p)
      && 0 <= StockOf(end.tables.products, p)
      && OrdersFollow(s.tables.orders, end.tables.orders)
      && ReturnCount(log, id) <= 1
  {
    var log := History(env, s, calls);
    ShopRunIsLedgerRun(env, s, calls);
    RunConserves(env.cfg, s.tables, log, p);
    GoodsReturnAtMostOnce(env.cfg, s.tables, log, id);
  }

  function ClockAfter(calls: seq<Call>, start: Time): Time {
    if calls == [] then start else calls[|calls| - 1].now
  }

  predicate OnTime(calls: seq<Call>, start: Time) {
    calls == [] ||
    (OnTime(calls[..|calls| - 1], start) && ClockAfter(calls[..|calls| - 1], start) <= calls[|calls| - 1].now)
  }

  /** Packed, dispatched and ended follow one another from placement on, none in the future. */
  predicate InLifecycleOrder(o: Order, now: Time) {
    && o.ticket.created <= now
    && (o.status == Ready ==> o.packedAt.Some? && o.ticket.created <= o.packedAt.value <= now)
    && (o.status == Dispatched ==>
          && o.packedAt.Some? && o.dispatchedAt.Some?
          && o.ticket.created <= o.packedAt.value <= o.dispatchedAt.value <= now)
    && (o.status == Delivered ==>
          && o.packedAt.Some? && o.dispatchedAt.Some? && o.deliveredAt.Some?
          && o.ticket.created <= o.packedAt.value <= o.dispatchedAt.value <= o.deliveredAt.value <= now)
    && (o.status == Failed ==>
          && o.packedAt.Some? && o.dispatchedAt.Some? && o.cancelledAt.Some?
          && o.ticket.created <= o.packedAt.value <= o.dispatchedAt.value <= o.cancelledAt.value <= now)
    && (o.status == Cancelled ==> o.cancelledAt.Some? && o.ticket.created <= o.cancelledAt.value <= now)
  }

  lemma LifecycleOrder(o: Order, now: Time)
    requires RowOk(o) && OnClock(o, now)
    ensures InLifecycleOrder(o, now)
  {
  }

  /** Written once, on every run: no stamp, no payment and no collector is rewritten, and an order
      that has ended stays as it ended, however often anything is asked again. */
  lemma ShopRunWritesOnce(env: Env, s: Shop, calls: seq<Call>, id: nat)
    requires env.cfg.Sane() && ShopOk(s) && id in s.tables.orders
    ensures id in Run(env, s, calls).tables.orders
    ensures var a, b := s.tables.orders[id], Run(env, s, calls).tables.orders[id];
      && b.ticket == a.ticket
      && (a.packedAt.Some? ==> b.packedAt == a.packedAt)
      && (a.dispatchedAt.Some? ==> b.dispatchedAt == a.dispatchedAt)
      && (a.cancelledAt.Some? ==> b.cancelledAt == a.cancelledAt)
      && (a.restockedAt.Some? ==> b.restockedAt == a.restockedAt)
      && (a.deliveredAt.Some? ==>
            && b.deliveredAt == a.deliveredAt && b.paidAt == a.paidAt && b.amountCollected == a.amountCollected
            && b.collectedBy == a.collectedBy && b.wasLate == a.wasLate
            && b.deliveredInMinutes == a.deliveredInMinutes)
      && (a.status in {Delivered, Cancelled, Failed} ==> b.status == a.status && b.rider == a.rider)
  {
    ShopRunConserves(env, s, calls, 0, 0);
    ShopRunIsLedgerRun(env, s, calls);
    assert Follows(s.tables.orders[id], Run(env, s, calls).tables.orders[id]);
    assert RowOk(s.tables.orders[id]);
  }

  /** The lifecycle, on every run under a clock that never goes back: Ready names no rider and
      Dispatched names one, the stamps lie in order, and money is recorded exactly on delivery,
      between nothing and the order's total. */
  lemma {:induction false} ShopRunKeepsLifecycle(env: Env, s: Shop, calls: seq<Call>, start: Time)
    requires env.cfg.Sane() && ShopOk(s) && AllOnClock(s.tables.orders, start) && OnTime(calls, start)
    ensures forall id :: id in Run(env, s, calls).tables.orders ==>
      var o := Run(env, s, calls).tables.orders[id];
      && OnClock(o, ClockAfter(calls, start))
      && InLifecycleOrder(o, ClockAfter(calls, start))
      && (o.status == Ready ==> o.rider.None?)
      && (o.status == Dispatched ==> o.rider.Some?)
      && (o.paidAt.Some? <==> o.status == Delivered)
      && (o.amountCollected.Some? <==> o.status == Delivered)
      && (o.amountCollected.Some? ==> 0 <= o.amountCollected.value <= o.ticket.grandTotal)
    decreases |calls|
  {
    ShopRunIsLedgerRun(env, s, calls);
    if calls != [] {
      var init, last := calls[..|calls| - 1], calls[|calls| - 1];
      ShopRunKeepsLifecycle(env, s, init, start);
      ShopRunIsLedgerRun(env, s, init);
      var mid := Run(env, s, init);
      assert AllOnClock(mid.tables.orders, ClockAfter(init, start));
      if Step(env, mid, last.req, last.now).Success? {
        StepIsJob(env, mid, last.req, last.now);
        if JobOf(env, mid, last.req, last.now).Some? {
          PerformKeepsClock(env.cfg, mid.tables,
                            JobOf(env, mid, last.req, last.now).value, ClockAfter(init, start), last.now);
        }
      }
      assert AllOnClock(Run(env, s, calls).tables.orders, last.now);
    }
    forall id | id in Run(env, s, calls).tables.orders
      ensures RowOk(Run(env, s, calls).tables.orders[id])
      ensures InLifecycleOrder(Run(env, s, calls).tables.orders[id], ClockAfter(calls, start))
    {
      var o := Run(env, s, calls).tables.orders[id];
      assert RowOk(o) && OnClock(o, ClockAfter(calls, start));
      LifecycleOrder(o, ClockAfter(calls, start));
    }
  }

  /** Automatic assignment as one step: it assigns nobody exactly when it is off, the order is not
      an unassigned Ready one, or every rider who could reach it is carrying; otherwise the order
      goes out to a rider who can reach it and carries nothing, at the distance shown for them,
      and no other order changes. */
  lemma AutoAssignOutcome(env: Env, s: Shop, id: nat, now: Time)
    requires id in s.tables.orders && RowOk(s.tables.orders[id])
    ensures var o := s.tables.orders[id];
      AutoAssigned(env, s, id, now) == s <==>
        || !env.autoAssign || o.status != Ready || o.rider.Some?
        || forall r: nat :: CanReach(env.geo, s.roster, s.declines, id, o, r) ==> r in Carrying(s.tables.orders)
    ensures var o, n := s.tables.orders[id], AutoAssigned(env, s, id, now).tables.orders;
      AutoAssigned(env, s, id, now) != s ==>
        && id in n && n[id].status == Dispatched && n[id].rider.Some?
        && CanReach(env.geo, s.roster, s.declines, id, o, n[id].rider.value)
        && n[id].rider.value !in Carrying(s.tables.orders)
        && n[id].offeredKm == Km(env.geo, o, s.roster[n[id].rider.value])
        && (forall other :: other in s.tables.orders && other != id ==>
              other in n && n[other] == s.tables.orders[other])
  {
    var o := s.tables.orders[id];
    NobodyPickedIff(env.geo, s.roster, s.declines, s.tables.orders, id, o);
    if AutoPick(env, s, id).Some? {
      PickIsFirst(env.geo, s.roster, s.declines, s.tables.orders, id, o, 0);
      assert AutoAssigned(env, s, id, now).tables.orders[id].status == Dispatched;
    }
  }

  // ------------------------------------------------------------------------
  // The hand-back loop
  // ------------------------------------------------------------------------

  /** The rider will never be auto-assigned this order: a decline is on record, or the account
      that could have taken it is gone. */
  predicate Barred(s: Shop, id: nat, r: nat) {
    (id, r) in s.declines || (r < s.nextUser && r !in s.roster)
  }

  /** Whom this request auto-assigns the order to. */
  function AutoPicked(env: Env, s: Shop, call: Call, id: nat): Option<nat> {
    match call.req
    case PatchStatus(actor, order, target, reason, amount) =>
      (match Moved(env, s, actor, order, target, reason, amount, call.now)
       case Failure(_) => None
       case Success(moved) =>
         if order == id && target == Ready && id in moved.tables.orders && AutoPick(env, moved, id).Some? then
           Some(AutoPick(env, moved, id).value.id)
         else None)
    case _ => None
  }

  /** The rider who, by this request, hands the order back. */
  function HandedBack(env: Env, s: Shop, call: Call, id: nat): Option<nat> {
    match call.req
    case PatchStatus(actor, order, target, reason, amount) =>
      if actor.Rider? && order == id && target == Ready && Step(env, s, call.req, call.now).Success?
      then Some(actor.id) else None
    case _ => None
  }

  lemma BarredForGood(env: Env, s: Shop, call: Call, id: nat, r: nat)
    requires ShopOk(s) && Barred(s, id, r)
    ensures Barred(After(env, s, call), id, r)
  {
    if Step(env, s, call.req, call.now).Success? {
      StepOutline(env, s, call.req, call.now);
      var n := Step(env, s, call.req, call.now).value;
      if (id, r) in s.declines {
        assert r in s.roster && r < s.nextUser;
        assert (id, r).1 in n.roster ==> (id, r) in n.declines;
      }
    }
  }

  /** Automatic assignment never picks a barred rider, and the pick is not barred afterwards. */
  lemma PickedIsNotBarred(env: Env, s: Shop, call: Call, id: nat)
    requires ShopOk(s) && AutoPicked(env, s, call, id).Some?
    ensures var r := AutoPicked(env, s, call, id).value;
      && !Barred(s, id, r) && !Barred(After(env, s, call), id, r) && r < After(env, s, call).nextUser
  {
    var req := call.req;
    var moved := Moved(env, s, req.actor, req.order, req.target, req.reason, req.amount, call.now).value;
    AutoPickOnRoster(env, moved, id);
  }

  /** A hand-back is by the rider who carried the order, and bars them. */
  lemma HandBackBars(env: Env, s: Shop, call: Call, id: nat)
    requires ShopOk(s) && HandedBack(env, s, call, id).Some?
    ensures var r, n := HandedBack(env, s, call, id).value, After(env, s, call);
      && Barred(n, id, r) && (id, r) in n.declines
      && id in s.tables.orders && s.tables.orders[id].status == Dispatched && s.tables.orders[id].rider == Some(r)
      && id in n.tables.orders
      && (AutoPicked(env, s, call, id).None? ==> n.tables.orders[id].rider.None?)
  {
    var req := call.req;
    var moved := Moved(env, s, req.actor, req.order, req.target, req.reason, req.amount, call.now).value;
    var o := s.tables.orders[id];
    TwoEdits(o, SetStatus(req.actor, Ready, req.reason, Natural(req.amount)), Accept(0), call.now);
    assert RowOk(o);
    assert moved.tables.orders[id].rider.None?;
  }

  /** The rider holding the order by automatic assignment, after one more request: the one just
      picked, or the same as before while the row stays as it was. */
  function NextStint(env: Env, s: Shop, call: Call, id: nat, stint: Option<nat>): Option<nat> {
    var end := After(env, s, call);
    if AutoPicked(env, s, call, id).Some? then AutoPicked(env, s, call, id)
    else if id in s.tables.orders && id in end.tables.orders && end.tables.orders[id] == s.tables.orders[id] then stint
    else None
  }

  /** A round ends when the rider who was auto-assigned the order hands it back. */
  function NextRounds(env: Env, s: Shop, call: Call, id: nat, rounds: seq<nat>, stint: Option<nat>): seq<nat> {
    var back := HandedBack(env, s, call, id);
    if back.Some? && back == stint then rounds + [back.value] else rounds
  }

  function Stint(env: Env, s: Shop, calls: seq<Call>, id: nat): Option<nat> {
    if calls == [] then None
    else
      var init := calls[..|calls| - 1];
      NextStint(env, Run(env, s, init), calls[|calls| - 1], id, Stint(env, s, init, id))
  }

  /** The riders who were auto-assigned the order and then handed it back, round by round. */
  function Rounds(env: Env, s: Shop, calls: seq<Call>, id: nat): seq<nat> {
    if calls == [] then []
    else
      var init := calls[..|calls| - 1];
      NextRounds(env, Run(env, s, init), calls[|calls| - 1], id, Rounds(env, s, init, id), Stint(env, s, init, id))
  }

  predicate Distinct(s: seq<nat>) {
    forall i, j :: 0 <= i < j < |s| ==> s[i] != s[j]
  }

  /** Riders who were ever on file and were not barred from the order at the start. */
  function Willing(start: Shop, end: Shop, id: nat): set<nat> {
    set r | 0 <= r < end.nextUser && !Barred(start, id, r)
  }

  /** The loop dies out: no rider goes through two rounds with one order, each round bars its
      rider for good, and there are no more rounds than willing riders, whatever managers and
      everybody else do in between. */
  lemma RoundsDieOut(env: Env, s: Shop, calls: seq<Call>, id: nat)
    requires env.cfg.Sane() && ShopOk(s)
    ensures Distinct(Rounds(env, s, calls, id))
    ensures forall r :: r in Rounds(env, s, calls, id) ==>
      r in Willing(s, Run(env, s, calls), id) && Barred(Run(env, s, calls), id, r)
    ensures |Rounds(env, s, calls, id)| <= |Willing(s, Run(env, s, calls), id)|
  {
    RoundsInvariant(env, s, calls, id);
    DistinctFits(Rounds(env, s, calls, id), Willing(s, Run(env, s, calls), id));
  }

  /** What holds of a run so far: no rider twice in the rounds, all of them willing at the start
      and barred by now, and the rider holding the order by automatic assignment not among them. */
  ghost predicate RoundsOk(s: Shop, end: Shop, id: nat, rounds: seq<nat>, stint: Option<nat>) {
    && Distinct(rounds)
    && (forall r :: r in rounds ==> r in Willing(s, end, id) && Barred(end, id, r))
    && (stint.Some? ==> stint.value in Willing(s, end, id) && stint.value !in rounds)
    && (forall r :: Barred(s, id, r) ==> Barred(end, id, r))
  }

  lemma {:induction false} RoundsInvariant(env: Env, s: Shop, calls: seq<Call>, id: nat)
    requires env.cfg.Sane() && ShopOk(s)
    ensures RoundsOk(s, Run(env, s, calls), id, Rounds(env, s, calls, id), Stint(env, s, calls, id))
    decreases |calls|
  {
    if calls != [] {
      var init, last := calls[..|calls| - 1], calls[|calls| - 1];
      RoundsInvariant(env, s, init, id);
      ShopRunIsLedgerRun(env, s, init);
      RoundsStep(env, s, Run(env, s, init), last, id, Rounds(env, s, init, id), Stint(env, s, init, id));
    }
  }

  lemma RoundsStep(env: Env, s: Shop, mid: Shop, call: Call, id: nat, rounds: seq<nat>, stint: Option<nat>)
    requires ShopOk(mid) && RoundsOk(s, mid, id, rounds, stint)
    ensures RoundsOk(s, After(env, mid, call), id,
                     NextRounds(env, mid, call, id, rounds, stint), NextStint(env, mid, call, id, stint))
  {
    if HandedBack(env, mid, call, id).Some? {
      HandBackBars(env, mid, call, id);
    }
    if AutoPicked(env, mid, call, id).Some? {
      PickedIsNotBarred(env, mid, call, id);
    }
    RoundsExtended(env, s, mid, call, id, rounds, stint);
    var back := HandedBack(env, mid, call, id);
    if back.Some? && back == stint {
      RoundAdded(s, After(env, mid, call), id, rounds, back.value);
    }
  }

  /** What was so before a request is still so after it. */
  lemma RoundsExtended(env: Env, s: Shop, mid: Shop, call: Call, id: nat, rounds: seq<nat>, stint: Option<nat>)
    requires ShopOk(mid) && RoundsOk(s, mid, id, rounds, stint)
    ensures RoundsOk(s, After(env, mid, call), id, rounds, stint)
  {
    var end := After(env, mid, call);
    forall r | Barred(mid, id, r) ensures Barred(end, id, r) {
      BarredForGood(env, mid, call, id, r);
    }
    if Step(env, mid, call.req, call.now).Success? {
      StepOutline(env, mid, call.req, call.now);
    }
  }

  lemma RoundAdded(s: Shop, end: Shop, id: nat, rounds: seq<nat>, r: nat)
    requires RoundsOk(s, end, id, rounds, Some(r)) && Barred(end, id, r)
    ensures RoundsOk(s, end, id, rounds + [r], None)
  {
  }

  lemma {:induction false} DistinctFits(s: seq<nat>, all: set<nat>)
    requires Distinct(s) && forall x :: x in s ==> x in all
    ensures |s| <= |all|
    decreases |s|
  {
    if s != [] {
      var init, last := s[..|s| - 1], s[|s| - 1];
      assert last in s;
      forall x | x in init ensures x in all - {last} {
        var i :| 0 <= i < |init| && init[i] == x;
        assert s[i] == x && x in s;
      }
      DistinctFits(init, all - {last});
    }
  }

  /** In so many words: a rider with a decline on record for an order is not given it by automatic
      assignment, after any run. */
  lemma DeclinedIsNeverPicked(env: Env, s: Shop, calls: seq<Call>, call: Call, id: nat, r: nat)
    requires env.cfg.Sane() && ShopOk(s) && (id, r) in s.declines
    ensures AutoPicked(env, Run(env, s, calls), call, id) != Some(r)
  {
    NeverPickedAgain(env, s, calls, call, id, r);
  }

  /** Once a rider has declined or handed back an order, no run of requests whatever ends with
      automatic assignment giving it to them again. */
  lemma {:induction false} NeverPickedAgain(env: Env, s: Shop, calls: seq<Call>, call: Call, id: nat, r: nat)
    requires env.cfg.Sane() && ShopOk(s) && Barred(s, id, r)
    ensures AutoPicked(env, Run(env, s, calls), call, id) != Some(r)
  {
    RoundsInvariant(env, s, calls, id);
    ShopRunIsLedgerRun(env, s, calls);
    if AutoPicked(env, Run(env, s, calls), call, id).Some? {
      PickedIsNotBarred(env, Run(env, s, calls), call, id);
    }
  }
}
