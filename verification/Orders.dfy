/** One order row: the state machine, its write-once stamps, the cash record, and the edits
    that the status, accept, assign and automatic-assignment requests make to it. */
module Orders {
  import opened Prelude

  /** Microseconds. */
  type Time = int
  const MINUTE: int := 60_000_000

  datatype Position = Position(latitude: real, longitude: real)

  datatype Status = Placed | Packing | Ready | Dispatched | Delivered | Cancelled | Failed

  /** Where each status may lead. */
  function Next(s: Status): set<Status> {
    match s
    case Placed => {Packing, Cancelled}
    case Packing => {Ready, Cancelled}
    case Ready => {Dispatched, Packing, Cancelled}
    case Dispatched => {Delivered, Ready, Failed}
    case Delivered => {}
    case Cancelled => {}
    case Failed => {}
  }

  const CANCELLABLE: set<Status> := {Placed, Packing, Ready}
  const TERMINAL: set<Status> := {Delivered, Cancelled, Failed}

  /** A line item: what was bought and what it cost, copied at checkout. */
  datatype Item = Item(product: nat, quantity: nat, price: int, mrp: int, lineTotal: int)

  /** The part of an order fixed at checkout. */
  datatype Ticket = Ticket(
    key: string,
    created: Time,
    promisedMinutes: int,
    deliveryType: string,
    position: Option<Position>,
    items: seq<Item>,
    itemsTotal: int,
    deliveryFee: int,
    handlingFee: int,
    grandTotal: int
  )

  datatype Order = Order(
    ticket: Ticket,
    status: Status,
    packedAt: Option<Time>,
    dispatchedAt: Option<Time>,
    deliveredAt: Option<Time>,
    cancelledAt: Option<Time>,
    deliveredInMinutes: Option<int>,
    wasLate: Option<bool>,
    paidAt: Option<Time>,
    amountCollected: Option<int>,
    collectedBy: Option<nat>,
    rider: Option<nat>,
    offeredKm: Option<real>,
    reason: string,
    restockedAt: Option<Time>
  )

  function NewOrder(ticket: Ticket): Order {
    Order(ticket, Placed, None, None, None, None, None, None, None, None, None, None, None, "", None)
  }

  function StampOnce(old_: Option<Time>, now: Time): Option<Time> {
    if old_.None? then Some(now) else old_
  }

  /** Enter a new status, stamping its timestamp if it was never stamped; the first delivery
      also freezes the outcome and records the payment in full. */
  function Entered(o: Order, target: Status, now: Time): Order {
    match target
    case Placed => o.(status := target)
    case Packing => o.(status := target)
    case Ready => o.(status := target, packedAt := StampOnce(o.packedAt, now))
    case Dispatched => o.(status := target, dispatchedAt := StampOnce(o.dispatchedAt, now))
    case Cancelled => o.(status := target, cancelledAt := StampOnce(o.cancelledAt, now))
    case Failed => o.(status := target, cancelledAt := StampOnce(o.cancelledAt, now))
    case Delivered =>
      if o.deliveredAt.Some? then o.(status := target)
      else
        var elapsed := (now - o.ticket.created) / MINUTE;
        o.(status := target,
           deliveredAt := Some(now),
           deliveredInMinutes := Some(elapsed),
           wasLate := Some(elapsed > o.ticket.promisedMinutes),
           paidAt := Some(now),
           amountCollected := Some(o.ticket.grandTotal))
  }

  /** advance_status: a repeat is a no-op, an illegal move is refused. */
  function Advanced(o: Order, target: Status, now: Time): Result<Order, Refusal> {
    if target == o.status then Success(o)
    else if target !in Next(o.status) then Failure(Conflict)
    else Success(Entered(o, target, now))
  }

  // ------------------------------------------------------------------------
  // What each request does to the locked row
  // ------------------------------------------------------------------------

  datatype Actor = Manager | Rider(id: nat)

  const ADMIN_TARGETS: set<Status> := {Packing, Ready, Delivered, Cancelled, Failed}
  const RIDER_TARGETS: set<Status> := {Delivered, Ready, Failed}

  function Targets(actor: Actor): set<Status> {
    if actor.Rider? then RIDER_TARGETS else ADMIN_TARGETS
  }

  datatype Edit =
    | SetStatus(actor: Actor, target: Status, reason: string, amount: Option<nat>)
    | Accept(rider: nat)
    | Assign(rider: nat)
    | AutoAssign(rider: nat, km: Option<real>)

  function Edited(o: Order, e: Edit, now: Time): Result<Order, Refusal> {
    match e
    case SetStatus(actor, target, reason, amount) => StatusSet(o, actor, target, reason, amount, now)
    case Accept(rider) => Accepted(o, rider, now)
    case Assign(rider) => Assigned(o, rider, now)
    case AutoAssign(rider, km) =>
      if o.status != Ready || o.rider.Some? then Failure(Conflict)
      else Success(Entered(o, Dispatched, now).(rider := Some(rider), offeredKm := km))
  }

  /** The status request on the locked row. Cancelling has its own transaction, so it
      is refused here. */
  function StatusSet(o: Order, actor: Actor, target: Status, reason: string, amount: Option<nat>, now: Time)
    : Result<Order, Refusal>
  {
    if target !in Targets(actor) || target == Cancelled then Failure(Forbidden)
    else if actor.Rider? && o.rider != Some(actor.id) then Failure(Forbidden)
    else match Advanced(o, target, now)
      case Failure(e) => Failure(e)
      case Success(moved) => Concluded(moved, actor, target, o.status != Delivered, reason, amount)
  }

  /** The rest of a status request, after the move: a failure needs its reason, a delivery is
      settled if it was only now made, and an order back in the pool lets its rider go. */
  function Concluded(o: Order, actor: Actor, target: Status, justPaid: bool, reason: string, amount: Option<nat>)
    : Result<Order, Refusal>
  {
    if target == Failed then
      if reason == "" then Failure(Invalid) else Success(o.(reason := reason))
    else if target == Delivered && justPaid then Settled(o, actor, amount)
    else if target == Ready then Success(o.(rider := None))
    else Success(o)
  }

  /** Who took the money, and how much of it. */
  function Settled(o: Order, actor: Actor, amount: Option<nat>): Result<Order, Refusal> {
    var taken := if actor.Rider? then o.(collectedBy := Some(actor.id)) else o;
    match amount
    case None => Success(taken)
    case Some(stated) =>
      if stated > o.ticket.grandTotal then Failure(Invalid)
      else Success(taken.(amountCollected := Some(stated)))
  }

  function Accepted(o: Order, rider: nat, now: Time): Result<Order, Refusal> {
    if o.status != Ready then Failure(Conflict)
    else if o.rider.Some? && o.rider != Some(rider) then Failure(Conflict)
    else match Advanced(o, Dispatched, now)
      case Failure(e) => Failure(e)
      case Success(moved) => Success(moved.(rider := Some(rider)))
  }

  /** A manager's hand-over, which walks an order still being picked up to Ready first. */
  function Assigned(o: Order, rider: nat, now: Time): Result<Order, Refusal> {
    if o.status in TERMINAL then Failure(Conflict)
    else
      var packing := if o.status == Placed then Entered(o, Packing, now) else o;
      var ready := if packing.status == Packing then Entered(packing, Ready, now) else packing;
      match Advanced(ready, Dispatched, now)
      case Failure(e) => Failure(e)
      case Success(moved) => Success(moved.(rider := Some(rider)))
  }

  /** cancel_order's effect on the row. */
  function CancelledRow(o: Order, reason: string, now: Time): Result<Order, Refusal> {
    if o.status !in CANCELLABLE then Failure(Conflict)
    else Success(Entered(o, Cancelled, now).(reason := if reason == "" then "Cancelled" else reason))
  }

  /** restock_failed_order's effect on the row. */
  function RestockedRow(o: Order, now: Time): Result<Order, Refusal> {
    if o.status != Failed || o.restockedAt.Some? then Failure(Conflict)
    else Success(o.(restockedAt := Some(now)))
  }

  /** The order no longer holds any stock. */
  predicate Returned(o: Order) {
    o.status == Cancelled || (o.status == Failed && o.restockedAt.Some?)
  }

  // ------------------------------------------------------------------------
  // Invariants of a row
  // ------------------------------------------------------------------------

  /** A rider is named exactly from dispatch on. */
  predicate RiderOk(o: Order) {
    o.rider.Some? <==> o.status in {Dispatched, Delivered, Failed}
  }

  /** Which stamps a status implies. */
  predicate StampsPresent(o: Order) {
    && (o.status == Placed ==> o.packedAt.None?)
    && (o.status in {Ready, Dispatched, Delivered, Failed} ==> o.packedAt.Some?)
    && (o.packedAt.None? ==> o.dispatchedAt.None?)
    && (o.status in {Dispatched, Delivered, Failed} ==> o.dispatchedAt.Some?)
    && (o.deliveredAt.Some? <==> o.status == Delivered)
    && (o.cancelledAt.Some? <==> o.status in {Cancelled, Failed})
    && (o.restockedAt.Some? ==> o.status == Failed)
  }

  /** Money changes hands exactly at delivery, and never more than the order is worth. */
  predicate CashOk(o: Order) {
    && o.paidAt == o.deliveredAt
    && (o.amountCollected.Some? <==> o.status == Delivered)
    && (o.amountCollected.Some? ==> 0 <= o.amountCollected.value <= o.ticket.grandTotal)
    && (o.collectedBy.Some? ==> o.status == Delivered && o.collectedBy == o.rider)
    && (match o.deliveredAt
        case None => o.deliveredInMinutes.None? && o.wasLate.None?
        case Some(at) =>
          && o.deliveredInMinutes == Some((at - o.ticket.created) / MINUTE)
          && o.wasLate == Some((at - o.ticket.created) / MINUTE > o.ticket.promisedMinutes))
    && 0 <= o.ticket.grandTotal
  }

  predicate RowOk(o: Order) {
    RiderOk(o) && StampsPresent(o) && CashOk(o)
  }

  /** The stamps lie on the clock in lifecycle order: created <= packed <= dispatched <= ended. */
  predicate OnClock(o: Order, now: Time) {
    && o.ticket.created <= now
    && (o.packedAt.Some? ==> o.ticket.created <= o.packedAt.value <= now)
    && (o.dispatchedAt.Some? && o.packedAt.Some? ==> o.packedAt.value <= o.dispatchedAt.value)
    && (o.dispatchedAt.Some? ==> o.dispatchedAt.value <= now)
    && (o.deliveredAt.Some? && o.dispatchedAt.Some? ==> o.dispatchedAt.value <= o.deliveredAt.value)
    && (o.deliveredAt.Some? ==> o.deliveredAt.value <= now)
    && (o.cancelledAt.Some? ==> o.ticket.created <= o.cancelledAt.value <= now)
    && (o.cancelledAt.Some? && o.packedAt.Some? ==> o.packedAt.value <= o.cancelledAt.value)
    && (o.cancelledAt.Some? && o.dispatchedAt.Some? ==> o.dispatchedAt.value <= o.cancelledAt.value)
    && (o.restockedAt.Some? ==> o.restockedAt.value <= now)
    && (o.restockedAt.Some? && o.cancelledAt.Some? ==> o.cancelledAt.value <= o.restockedAt.value)
  }

  predicate Kept<T(==)>(before: Option<T>, after: Option<T>) {
    before.Some? ==> after == before
  }

  /** What every later version of a row owes an earlier one: stamps and cash are write-once,
      a finished order stays as it ended, and the goods come back for good. */
  predicate Follows(a: Order, b: Order) {
    && b.ticket == a.ticket
    && Kept(a.packedAt, b.packedAt)
    && Kept(a.dispatchedAt, b.dispatchedAt)
    && Kept(a.deliveredAt, b.deliveredAt)
    && Kept(a.cancelledAt, b.cancelledAt)
    && Kept(a.deliveredInMinutes, b.deliveredInMinutes)
    && Kept(a.wasLate, b.wasLate)
    && Kept(a.paidAt, b.paidAt)
    && Kept(a.amountCollected, b.amountCollected)
    && Kept(a.collectedBy, b.collectedBy)
    && Kept(a.restockedAt, b.restockedAt)
    && (a.status in TERMINAL ==>
          b.status == a.status && b.rider == a.rider && b.amountCollected == a.amountCollected
          && b.collectedBy == a.collectedBy && b.offeredKm == a.offeredKm)
    && (Returned(a) ==> Returned(b))
  }

  lemma FollowsTransitive(a: Order, b: Order, c: Order)
    requires Follows(a, b) && Follows(b, c)
    ensures Follows(a, c)
  {
  }

  /** A legal move keeps the row's invariants, whichever edit asked for it. */
  lemma EnteredKeepsStamps(o: Order, target: Status, now: Time)
    requires RowOk(o) && target in Next(o.status)
    ensures var n := Entered(o, target, now); StampsPresent(n) && CashOk(n)
    ensures OnClock(o, now) ==> OnClock(Entered(o, target, now), now)
    ensures Follows(o, Entered(o, target, now))
  {
  }

  lemma StatusSetKeepsRow(o: Order, actor: Actor, target: Status, reason: string, amount: Option<nat>, now: Time)
    requires RowOk(o) && StatusSet(o, actor, target, reason, amount, now).Success?
    ensures var n := StatusSet(o, actor, target, reason, amount, now).value;
      RowOk(n) && Follows(o, n) && (OnClock(o, now) ==> OnClock(n, now))
  {
    if target != o.status {
      EnteredKeepsStamps(o, target, now);
    }
  }

  lemma AssignedKeepsRow(o: Order, rider: nat, now: Time)
    requires RowOk(o) && Assigned(o, rider, now).Success?
    ensures var n := Assigned(o, rider, now).value;
      RowOk(n) && Follows(o, n) && (OnClock(o, now) ==> OnClock(n, now))
      && n.status == Dispatched && n.rider == Some(rider)
  {
    var packing := if o.status == Placed then Entered(o, Packing, now) else o;
    if o.status == Placed {
      EnteredKeepsStamps(o, Packing, now);
    }
    var ready := if packing.status == Packing then Entered(packing, Ready, now) else packing;
    if packing.status == Packing {
      EnteredKeepsStamps(packing, Ready, now);
      FollowsTransitive(o, packing, ready);
    }
    if ready.status == Ready {
      EnteredKeepsStamps(ready, Dispatched, now);
      FollowsTransitive(o, ready, Entered(ready, Dispatched, now));
    }
  }

  /** Every edit that succeeds keeps every invariant of the row and rewrites no record. */
  lemma EditKeepsRow(o: Order, e: Edit, now: Time)
    requires RowOk(o) && Edited(o, e, now).Success?
    ensures var n := Edited(o, e, now).value;
      RowOk(n) && Follows(o, n) && (OnClock(o, now) ==> OnClock(n, now))
  {
    match e
    case SetStatus(actor, target, reason, amount) => StatusSetKeepsRow(o, actor, target, reason, amount, now);
    case Accept(rider) => EnteredKeepsStamps(o, Dispatched, now);
    case Assign(rider) => AssignedKeepsRow(o, rider, now);
    case AutoAssign(rider, km) => EnteredKeepsStamps(o, Dispatched, now);
  }

  lemma CancelKeepsRow(o: Order, reason: string, now: Time)
    requires RowOk(o) && CancelledRow(o, reason, now).Success?
    ensures var n := CancelledRow(o, reason, now).value;
      RowOk(n) && Follows(o, n) && !Returned(o) && Returned(n) && (OnClock(o, now) ==> OnClock(n, now))
  {
    EnteredKeepsStamps(o, Cancelled, now);
  }

  lemma RestockKeepsRow(o: Order, now: Time)
    requires RowOk(o) && RestockedRow(o, now).Success?
    ensures var n := RestockedRow(o, now).value;
      RowOk(n) && Follows(o, n) && !Returned(o) && Returned(n) && (OnClock(o, now) ==> OnClock(n, now))
  {
  }

  /** An edit leaves the question of whether the goods are back alone: only cancelling and
      restocking answer it. */
  lemma EditKeepsReturned(o: Order, e: Edit, now: Time)
    requires RowOk(o) && Edited(o, e, now).Success?
    ensures Returned(Edited(o, e, now).value) == Returned(o)
  {
    EditKeepsRow(o, e, now);
  }

  /** When a status request is accepted, whatever route it takes through the checks. */
  lemma StatusAcceptedIff(o: Order, actor: Actor, target: Status, reason: string, amount: Option<nat>, now: Time)
    requires RowOk(o)
    ensures StatusSet(o, actor, target, reason, amount, now).Success? <==>
      && (match actor
          case Manager => target in {Packing, Ready, Delivered, Failed}
          case Rider(id) => target in {Ready, Delivered, Failed} && o.rider == Some(id))
      && (target == o.status || target in Next(o.status))
      && (target == Failed ==> reason != "")
      && (target == Delivered && o.paidAt.None? && amount.Some? ==> amount.value <= o.ticket.grandTotal)
  {
  }

  /** The first delivery records who took the money and how much: all of it unless less was
      stated, by the rider who carried it or by nobody in particular; and nothing else moves. */
  lemma DeliveryIsRecorded(o: Order, actor: Actor, reason: string, amount: Option<nat>, now: Time)
    requires RowOk(o) && o.status == Dispatched && StatusSet(o, actor, Delivered, reason, amount, now).Success?
    ensures var n := StatusSet(o, actor, Delivered, reason, amount, now).value;
      && n.status == Delivered && n.deliveredAt == n.paidAt == Some(now)
      && n.amountCollected == Some(if amount.Some? then amount.value else o.ticket.grandTotal)
      && n.collectedBy == (if actor.Rider? then o.rider else None)
      && n.wasLate == Some((now - o.ticket.created) / MINUTE > o.ticket.promisedMinutes)
      && n.rider == o.rider && n.reason == o.reason && n.offeredKm == o.offeredKm && n.packedAt == o.packedAt
      && n.dispatchedAt == o.dispatchedAt && n.restockedAt.None? && n.cancelledAt.None?
  {
  }

  function FirstOf(stamp: Option<Time>, now: Time): Option<Time> {
    Some(if stamp.Some? then stamp.value else now)
  }

  /** The row after an accepted change of status, column by column: a first Ready is stamped, a
      failure keeps the sentence that was sent, a return to the pool names nobody, and whatever is
      not listed is as it was. */
  lemma StatusMoveRecords(o: Order, actor: Actor, target: Status, reason: string, amount: Option<nat>, now: Time)
    requires RowOk(o) && target != o.status && StatusSet(o, actor, target, reason, amount, now).Success?
    ensures var n := StatusSet(o, actor, target, reason, amount, now).value;
      && n.ticket == o.ticket
      && n.status == target
      && n.packedAt == (if target == Ready then FirstOf(o.packedAt, now) else o.packedAt)
      && n.dispatchedAt == o.dispatchedAt
      && n.deliveredAt == n.paidAt == (if target == Delivered then Some(now) else None)
      && n.cancelledAt == (if target == Failed then Some(now) else None)
      && n.rider == (if target == Ready then None else o.rider)
      && n.offeredKm == o.offeredKm
      && n.reason == (if target == Failed then reason else o.reason)
      && n.restockedAt.None?
      && (target != Delivered ==>
            n.amountCollected.None? && n.collectedBy.None? && n.deliveredInMinutes.None? && n.wasLate.None?)
  {
  }

  /** What cancelling writes, and exactly when it may. */
  lemma CancelRecords(o: Order, reason: string, now: Time)
    requires RowOk(o)
    ensures CancelledRow(o, reason, now).Success? <==> o.status in {Placed, Packing, Ready}
    ensures CancelledRow(o, reason, now).Failure? ==> CancelledRow(o, reason, now).error == Conflict
    ensures CancelledRow(o, reason, now).Success? ==>
      CancelledRow(o, reason, now).value ==
        o.(status := Cancelled, cancelledAt := Some(now), reason := if reason == "" then "Cancelled" else reason)
  {
  }

  /** What restocking writes, and exactly when it may. */
  lemma RestockRecords(o: Order, now: Time)
    requires RowOk(o)
    ensures RestockedRow(o, now).Success? <==> o.status == Failed && o.restockedAt.None?
    ensures RestockedRow(o, now).Failure? ==> RestockedRow(o, now).error == Conflict
    ensures RestockedRow(o, now).Success? ==> RestockedRow(o, now).value == o.(restockedAt := Some(now))
  {
  }

  /** What the three ways of handing an order to a rider write, and exactly when they may. */
  lemma HandOverRecords(o: Order, rider: nat, km: Option<real>, now: Time)
    requires RowOk(o)
    ensures var auto := Edited(o, AutoAssign(rider, km), now);
      && (auto.Success? <==> o.status == Ready)
      && (auto.Success? ==>
            auto.value == o.(status := Dispatched, dispatchedAt := FirstOf(o.dispatchedAt, now),
                             rider := Some(rider), offeredKm := km))
    ensures var claim := Edited(o, Accept(rider), now);
      && (claim.Success? <==> o.status == Ready)
      && (claim.Success? ==>
            claim.value == o.(status := Dispatched, dispatchedAt := FirstOf(o.dispatchedAt, now), rider := Some(rider)))
    ensures var given := Edited(o, Assign(rider), now);
      && (given.Success? <==> o.status !in {Delivered, Cancelled, Failed})
      && (given.Success? ==>
            given.value == o.(status := Dispatched, packedAt := FirstOf(o.packedAt, now),
                              dispatchedAt := FirstOf(o.dispatchedAt, now), rider := Some(rider)))
  {
  }

  /** A claim succeeds exactly on a Ready order, a manager's hand-over exactly on a live one; both
      end Dispatched in the named rider's hands, and a bag already out keeps its first stamp. */
  lemma HandOverSucceedsIff(o: Order, rider: nat, now: Time)
    requires RowOk(o)
    ensures Accepted(o, rider, now).Success? <==> o.status == Ready
    ensures Assigned(o, rider, now).Success? <==> o.status !in TERMINAL
    ensures forall n :: n in {Accepted(o, rider, now), Assigned(o, rider, now)} && n.Success? ==>
      && n.value.status == Dispatched && n.value.rider == Some(rider)
      && n.value.dispatchedAt == (if o.dispatchedAt.Some? then o.dispatchedAt else Some(now))
      && n.value.packedAt == (if o.packedAt.Some? then o.packedAt else Some(now))
      && n.value.paidAt.None? && n.value.ticket == o.ticket && n.value.reason == o.reason
  {
  }

  /** Asking again for the status an order already has changes nothing: no stamp, no payment, no
      collector is rewritten. The one exception is a failed delivery, whose reason is replaced
      by the one sent last. */
  lemma RepeatChangesNothingIff(o: Order, actor: Actor, target: Status, reason: string, amount: Option<nat>, now: Time)
    requires RowOk(o) && target == o.status && StatusSet(o, actor, target, reason, amount, now).Success?
    ensures StatusSet(o, actor, target, reason, amount, now).value == o <==> (target != Failed || reason == o.reason)
    ensures StatusSet(o, actor, target, reason, amount, now).value.(reason := o.reason) == o
  {
  }

  // ------------------------------------------------------------------------
  // The stamps, told as history
  // ------------------------------------------------------------------------

  datatype Move = Move(target: Status, at: Time)

  /** Replay accepted moves on an order. */
  function Replayed(o: Order, moves: seq<Move>): Option<Order>
    decreases |moves|
  {
    if moves == [] then Some(o)
    else match Replayed(o, moves[..|moves| - 1])
      case None => None
      case Some(mid) =>
        var last := moves[|moves| - 1];
        match Advanced(mid, last.target, last.at)
        case Failure(_) => None
        case Success(n) => Some(n)
  }

  /** The first moment a history enters one of the given statuses. */
  function FirstEntry(moves: seq<Move>, into: set<Status>): Option<Time> {
    if moves == [] then None
    else if moves[0].target in into then Some(moves[0].at)
    else FirstEntry(moves[1..], into)
  }

  lemma FirstEntrySnoc(moves: seq<Move>, last: Move, into: set<Status>)
    ensures FirstEntry(moves + [last], into) ==
      if FirstEntry(moves, into).Some? then FirstEntry(moves, into)
      else if last.target in into then Some(last.at) else None
  {
    if moves != [] {
      assert (moves + [last])[1..] == moves[1..] + [last];
      FirstEntrySnoc(moves[1..], last, into);
    }
  }

  /** Whatever an order goes through, each stamp is the first moment its status was entered,
      however often the bag was reopened or handed back; and the status is the last one entered. */
  lemma {:induction false} StampsAreFirstEntries(ticket: Ticket, moves: seq<Move>)
    requires 0 <= ticket.grandTotal
    requires Replayed(NewOrder(ticket), moves).Some?
    requires forall m :: m in moves ==> m.target != Placed
    ensures var o := Replayed(NewOrder(ticket), moves).value;
      && o.ticket == ticket
      && o.packedAt == FirstEntry(moves, {Ready})
      && o.dispatchedAt == FirstEntry(moves, {Dispatched})
      && o.deliveredAt == FirstEntry(moves, {Delivered}) == o.paidAt
      && o.cancelledAt == FirstEntry(moves, {Cancelled, Failed})
      && o.status == (if moves == [] then Placed else moves[|moves| - 1].target)
      && (o.status == Ready ==> o.packedAt.Some?)
      && (o.status == Dispatched ==> o.dispatchedAt.Some?)
      && (o.deliveredAt.Some? <==> o.status == Delivered)
      && (o.cancelledAt.Some? <==> o.status in {Cancelled, Failed})
    decreases |moves|
  {
    if moves != [] {
      var init, last := moves[..|moves| - 1], moves[|moves| - 1];
      assert moves == init + [last];
      StampsAreFirstEntries(ticket, init);
      FirstEntrySnoc(init, last, {Ready});
      FirstEntrySnoc(init, last, {Dispatched});
      FirstEntrySnoc(init, last, {Delivered});
      FirstEntrySnoc(init, last, {Cancelled, Failed});
    }
  }
}
