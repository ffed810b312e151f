/** An order as its model class holds it: an instance whose columns are assigned in place, and a
    save that writes only the columns it is told about. */
module OrderModels {
  import opened Prelude
  import opened Orders

  datatype Column =
    | StatusColumn | PackedAt | DispatchedAt | DeliveredAt | CancelledAt
    | DeliveredInMinutes | WasLate | PaidAt | AmountCollected
    | CollectedBy | DeliveryBoy | OfferedDistanceKm | CancellationReason | RestockedAt

  /** save(update_fields=columns): the stored row takes the instance's value in the named columns
      and keeps its own in every other. */
  function Saved(stored: Order, instance: Order, columns: set<Column>): Order {
    Order(
      stored.ticket,
      if StatusColumn in columns then instance.status else stored.status,
      if PackedAt in columns then instance.packedAt else stored.packedAt,
      if DispatchedAt in columns then instance.dispatchedAt else stored.dispatchedAt,
      if DeliveredAt in columns then instance.deliveredAt else stored.deliveredAt,
      if CancelledAt in columns then instance.cancelledAt else stored.cancelledAt,
      if DeliveredInMinutes in columns then instance.deliveredInMinutes else stored.deliveredInMinutes,
      if WasLate in columns then instance.wasLate else stored.wasLate,
      if PaidAt in columns then instance.paidAt else stored.paidAt,
      if AmountCollected in columns then instance.amountCollected else stored.amountCollected,
      if CollectedBy in columns then instance.collectedBy else stored.collectedBy,
      if DeliveryBoy in columns then instance.rider else stored.rider,
      if OfferedDistanceKm in columns then instance.offeredKm else stored.offeredKm,
      if CancellationReason in columns then instance.reason else stored.reason,
      if RestockedAt in columns then instance.restockedAt else stored.restockedAt)
  }

  /** Saving these columns loses nothing the instance changed. */
  predicate Covers(columns: set<Column>, stored: Order, instance: Order) {
    Saved(stored, instance, columns) == instance
  }

  /** Two saves that name different columns do not overwrite each other, whichever comes first; a save
      that names none writes nothing. */
  lemma DisjointSavesCommute(stored: Order, a: Order, b: Order, first: set<Column>, second: set<Column>)
    requires first !! second
    ensures Saved(Saved(stored, a, first), b, second) == Saved(Saved(stored, b, second), a, first)
    ensures Saved(stored, a, {}) == stored
  {
  }

  /** The columns an accepted move to a new status assigns. */
  function Touched(o: Order, target: Status): set<Column> {
    match target
    case Placed => {StatusColumn}
    case Packing => {StatusColumn}
    case Ready => {StatusColumn} + if o.packedAt.None? then {PackedAt} else {}
    case Dispatched => {StatusColumn} + if o.dispatchedAt.None? then {DispatchedAt} else {}
    case Cancelled => {StatusColumn} + if o.cancelledAt.None? then {CancelledAt} else {}
    case Failed => {StatusColumn} + if o.cancelledAt.None? then {CancelledAt} else {}
    case Delivered =>
      {StatusColumn} +
      if o.deliveredAt.None? then {DeliveredAt, DeliveredInMinutes, WasLate, PaidAt, AmountCollected} else {}
  }

  /** Those columns are all a move changes, wherever the row's status column stood. */
  lemma MoveCovers(o: Order, target: Status, now: Time)
    ensures Entered(o.(status := target), target, now) == Entered(o, target, now)
    ensures Touched(o.(status := target), target) == Touched(o, target)
    ensures Covers(Touched(o, target), o, Entered(o, target, now))
    ensures PaidAt in Touched(o, target) <==> target == Delivered && o.deliveredAt.None?
  {
  }

  /** A column list that covers a first change, extended by the columns of a second, covers
      both. */
  lemma CoversMore(first: set<Column>, second: set<Column>, a: Order, b: Order, c: Order)
    requires Covers(first, a, b) && Covers(second, b, c)
    ensures Covers(first + second, a, c)
  {
  }

  class OrderModel {
    const ticket: Ticket
    var status: Status
    var packedAt: Option<Time>
    var dispatchedAt: Option<Time>
    var deliveredAt: Option<Time>
    var cancelledAt: Option<Time>
    var deliveredInMinutes: Option<int>
    var wasLate: Option<bool>
    var paidAt: Option<Time>
    var amountCollected: Option<int>
    var collectedBy: Option<nat>
    var rider: Option<nat>
    var offeredKm: Option<real>
    var reason: string
    var restockedAt: Option<Time>

    /** The instance's columns as a row. */
    function Row(): Order reads this {
      Order(ticket, status, packedAt, dispatchedAt, deliveredAt, cancelledAt, deliveredInMinutes, wasLate,
            paidAt, amountCollected, collectedBy, rider, offeredKm, reason, restockedAt)
    }

    /** An instance read from its row. */
    constructor (row: Order)
      ensures Row() == row
    {
      ticket := row.ticket;
      status := row.status;
      packedAt := row.packedAt;
      dispatchedAt := row.dispatchedAt;
      deliveredAt := row.deliveredAt;
      cancelledAt := row.cancelledAt;
      deliveredInMinutes := row.deliveredInMinutes;
      wasLate := row.wasLate;
      paidAt := row.paidAt;
      amountCollected := row.amountCollected;
      collectedBy := row.collectedBy;
      rider := row.rider;
      offeredKm := row.offeredKm;
      reason := row.reason;
      restockedAt := row.restockedAt;
    }

    /** The stamp of the status just entered, if it was never stamped; the first delivery also
        freezes the outcome and records the payment. Names the columns assigned. */
    method Stamp(now: Time) returns (changed: set<Column>)
      modifies this
      ensures Row() == Entered(old(Row()), old(status), now)
      ensures {StatusColumn} + changed == Touched(old(Row()), old(status))
    {
      if status == Ready && packedAt.None? {
        packedAt := Some(now);
        return {PackedAt};
      }
      if status == Dispatched && dispatchedAt.None? {
        dispatchedAt := Some(now);
        return {DispatchedAt};
      }
      if status in {Cancelled, Failed} && cancelledAt.None? {
        cancelledAt := Some(now);
        return {CancelledAt};
      }
      if status == Delivered && deliveredAt.None? {
        changed := Freeze(now);
        return;
      }
      return {};
    }

    /** The first delivery: the outcome against the promise, and the payment in full. */
    method Freeze(now: Time) returns (changed: set<Column>)
      modifies this
      ensures var elapsed := (now - ticket.created) / MINUTE;
        Row() == old(Row()).(deliveredAt := Some(now), deliveredInMinutes := Some(elapsed),
                             wasLate := Some(elapsed > ticket.promisedMinutes), paidAt := Some(now),
                             amountCollected := Some(ticket.grandTotal))
      ensures changed == {DeliveredAt, DeliveredInMinutes, WasLate, PaidAt, AmountCollected}
    {
      deliveredAt := Some(now);
      var elapsed := (now - ticket.created) / MINUTE;
      deliveredInMinutes := Some(elapsed);
      wasLate := Some(elapsed > ticket.promisedMinutes);
      paidAt := Some(now);
      amountCollected := Some(ticket.grandTotal);
      changed := {DeliveredAt, DeliveredInMinutes, WasLate, PaidAt, AmountCollected};
    }

    /** advance_status: moves in place exactly as the transition table allows, and names every
        column it touched. The payment columns are named exactly when the payment was just
        recorded. */
    method AdvanceStatus(target: Status, now: Time) returns (r: Result<set<Column>, Refusal>)
      modifies this
      ensures match Advanced(old(Row()), target, now)
        case Failure(e) => r == Failure(e) && Row() == old(Row())
        case Success(moved) =>
          && r.Success? && Row() == moved
          && Covers(r.value, old(Row()), moved)
          && (PaidAt in r.value <==> target == Delivered && old(status) != Delivered && old(deliveredAt).None?)
    {
      if target == status {
        return Success({});
      }
      if target !in Next(status) {
        return Failure(Conflict);
      }
      ghost var stored := Row();
      status := target;
      var changed := Stamp(now);
      MoveCovers(stored, target, now);
      return Success({StatusColumn} + changed);
    }

    /** Who a fresh delivery is collected by, and the amount if one was stated. */
    method Settle(actor: Actor, amount: Option<nat>) returns (r: Result<set<Column>, Refusal>)
      modifies this
      ensures match Settled(old(Row()), actor, amount)
        case Failure(e) => r == Failure(e)
        case Success(settled) => r.Success? && Row() == settled && Covers(r.value, old(Row()), settled)
    {
      var changed: set<Column> := {};
      if actor.Rider? {
        collectedBy := Some(actor.id);
        changed := changed + {CollectedBy};
      }
      if amount.Some? {
        if amount.value > ticket.grandTotal {
          return Failure(Invalid);
        }
        amountCollected := Some(amount.value);
        changed := changed + {AmountCollected};
      }
      return Success(changed);
    }

    /** The status request on the locked instance, up to its save: the columns to write, or the
        refusal. */
    method SetStatus(actor: Actor, target: Status, note: string, amount: Option<nat>, now: Time)
      returns (r: Result<set<Column>, Refusal>)
      requires RowOk(Row()) && target in Targets(actor) && target != Cancelled
      modifies this
      ensures match StatusSet(old(Row()), actor, target, note, amount, now)
        case Failure(e) => r == Failure(e)
        case Success(moved) => r.Success? && Row() == moved && Covers(r.value, old(Row()), moved)
    {
      if actor.Rider? && rider != Some(actor.id) {
        return Failure(Forbidden);
      }
      ghost var stored := Row();
      var advanced := AdvanceStatus(target, now);
      if advanced.Failure? {
        return advanced;
      }
      ghost var moved := Row();
      var more := Conclude(actor, target, PaidAt in advanced.value, note, amount);
      if more.Failure? {
        return more;
      }
      CoversMore(advanced.value, more.value, stored, moved, Row());
      return Success(advanced.value + more.value);
    }

    /** The part of a status request that follows the move. */
    method Conclude(actor: Actor, target: Status, justPaid: bool, note: string, amount: Option<nat>)
      returns (r: Result<set<Column>, Refusal>)
      modifies this
      ensures match Concluded(old(Row()), actor, target, justPaid, note, amount)
        case Failure(e) => r == Failure(e)
        case Success(n) => r.Success? && Row() == n && Covers(r.value, old(Row()), n)
    {
      if target == Failed {
        if note == "" {
          return Failure(Invalid);
        }
        reason := note;
        return Success({CancellationReason});
      }
      if target == Delivered && justPaid {
        r := Settle(actor, amount);
        return;
      }
      if target == Ready {
        rider := None;
        return Success({DeliveryBoy});
      }
      return Success({});
    }

    /** A rider's claim, up to its save. */
    method Accept(claimant: nat, now: Time) returns (r: Result<set<Column>, Refusal>)
      modifies this
      ensures match Accepted(old(Row()), claimant, now)
        case Failure(e) => r == Failure(e)
        case Success(moved) => r.Success? && Row() == moved && Covers(r.value, old(Row()), moved)
    {
      if status != Ready {
        return Failure(Conflict);
      }
      if rider.Some? && rider != Some(claimant) {
        return Failure(Conflict);
      }
      ghost var stored := Row();
      var advanced := AdvanceStatus(Dispatched, now);
      if advanced.Failure? {
        return advanced;
      }
      ghost var moved := Row();
      rider := Some(claimant);
      CoversMore(advanced.value, {DeliveryBoy}, stored, moved, Row());
      return Success(advanced.value + {DeliveryBoy});
    }

    /** A manager's hand-over, up to its last save: walks the order to Ready first, saving once on
        the way. Returns the row saved by then and the columns still to write. */
    method Assign(taker: nat, now: Time) returns (r: Result<set<Column>, Refusal>, saved: Order)
      modifies this
      ensures match Assigned(old(Row()), taker, now)
        case Failure(e) => r == Failure(e)
        case Success(moved) => r.Success? && Row() == moved && Covers(r.value, saved, moved)
    {
      saved := Row();
      if status in TERMINAL {
        return Failure(Conflict), saved;
      }
      var changed: set<Column> := {};
      if status == Placed || status == Packing {
        if status == Placed {
          var packing := AdvanceStatus(Packing, now);
          if packing.Failure? {
            return packing, saved;
          }
          saved := Saved(saved, Row(), packing.value);
        }
        var ready := AdvanceStatus(Ready, now);
        if ready.Failure? {
          return ready, saved;
        }
        changed := ready.value;
      }
      ghost var before := Row();
      var advanced := AdvanceStatus(Dispatched, now);
      if advanced.Failure? {
        return advanced, saved;
      }
      ghost var moved := Row();
      CoversMore(changed, advanced.value, saved, before, moved);
      rider := Some(taker);
      CoversMore(changed + advanced.value, {DeliveryBoy}, saved, moved, Row());
      return Success(changed + advanced.value + {DeliveryBoy}), saved;
    }

    /** Cancellation of the locked instance, up to its save. */
    method Cancel(note: string, now: Time) returns (r: Result<set<Column>, Refusal>)
      modifies this
      ensures match CancelledRow(old(Row()), note, now)
        case Failure(e) => r == Failure(e) && Row() == old(Row())
        case Success(moved) => r.Success? && Row() == moved && Covers(r.value, old(Row()), moved)
    {
      if status !in CANCELLABLE {
        return Failure(Conflict);
      }
      ghost var stored := Row();
      var advanced := AdvanceStatus(Cancelled, now);
      ghost var moved := Row();
      reason := if note == "" then "Cancelled" else note;
      CoversMore(advanced.value, {CancellationReason}, stored, moved, Row());
      return Success(advanced.value + {CancellationReason});
    }

    /** The stamp that makes restocking happen once. */
    method MarkRestocked(now: Time) returns (changed: set<Column>)
      requires status == Failed && restockedAt.None?
      modifies this
      ensures RestockedRow(old(Row()), now) == Success(Row())
      ensures Covers(changed, old(Row()), Row())
    {
      restockedAt := Some(now);
      changed := {RestockedAt};
    }

    /** Automatic assignment's writes. */
    method HandTo(taker: nat, km: Option<real>, now: Time) returns (changed: set<Column>)
      requires status == Ready && rider.None?
      modifies this
      ensures Edited(old(Row()), AutoAssign(taker, km), now) == Success(Row())
      ensures Covers(changed, old(Row()), Row())
    {
      ghost var stored := Row();
      var advanced := AdvanceStatus(Dispatched, now);
      ghost var moved := Row();
      rider := Some(taker);
      offeredKm := km;
      CoversMore(advanced.value, {DeliveryBoy, OfferedDistanceKm}, stored, moved, Row());
      changed := advanced.value + {DeliveryBoy, OfferedDistanceKm};
    }
  }
}
