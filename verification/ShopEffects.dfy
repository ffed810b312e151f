/** What each request of the shop answers and changes, and what it leaves alone. */
module ShopEffects {
  import opened Prelude
  import opened Pricing
  import opened Orders
  import opened Baskets
  import opened Checkouts
  import opened Ledger
  import opened JobEffects
  import opened Dispatch
  import opened Feed
  import opened Shops
  import opened ShopRuns

  predicate OnFile(orders: map<nat, Order>, key: string) {
    key != "" && exists id :: id in orders && orders[id].ticket.key == key
  }

  /** Checkout: a key on file is answered with the shop as it is; otherwise the shop becomes what the
      transaction makes of it, under the next order number. */
  lemma PlaceOrderEffect(env: Env, s: Shop, c: Checkout, now: Time)
    ensures OnFile(s.tables.orders, c.key) ==> Step(env, s, PlaceOrder(c), now) == Success(s)
    ensures !OnFile(s.tables.orders, c.key) ==>
      match Perform(env.cfg, s.tables, PlaceJob(c, s.nextOrder), now)
      case Failure(e) => Step(env, s, PlaceOrder(c), now) == Failure(e)
      case Success(t) =>
        Step(env, s, PlaceOrder(c), now) == Success(s.(tables := t, nextOrder := s.nextOrder + 1))
  {
    assert KeyUsed(s.tables.orders, c.key) <==> OnFile(s.tables.orders, c.key);
  }

  /** The requests that are one transaction and nothing else. */
  lemma TransactionEffect(env: Env, s: Shop, id: nat, reason: string, patch: Patch, row: Product, now: Time)
    ensures Step(env, s, CancelOrder(id, reason), now) == Ran(s, Perform(env.cfg, s.tables, CancelJob(id, reason), now))
    ensures Step(env, s, RestockOrder(id), now) == Ran(s, Perform(env.cfg, s.tables, RestockJob(id), now))
    ensures Step(env, s, PatchProduct(id, patch), now) == Ran(s, Perform(env.cfg, s.tables, PatchJob(id, patch), now))
    ensures Step(env, s, DeleteProduct(id), now) == Ran(s, Perform(env.cfg, s.tables, DeleteJob(id), now))
    ensures match Perform(env.cfg, s.tables, CreateJob(s.nextProduct, row), now)
      case Failure(e) => Step(env, s, CreateProduct(row), now) == Failure(e)
      case Success(t) =>
        Step(env, s, CreateProduct(row), now) == Success(s.(tables := t, nextProduct := s.nextProduct + 1))
    ensures forall t: Tables :: Ran(s, Success(t)) == Success(s.(tables := t))
    ensures forall e: Refusal :: Ran(s, Failure(e)) == Failure(e)
  {
  }

  function WithOrder(s: Shop, id: nat, row: Order): Shop {
    s.(tables := Tables(s.tables.products, s.tables.orders[id := row]))
  }

  /** Claim and hand-over: the one order goes out to the named rider, and nothing else changes. */
  lemma HandOverEffect(env: Env, s: Shop, id: nat, r: nat, now: Time)
    requires ShopOk(s)
    ensures var claim := Step(env, s, AcceptOrder(r, id), now);
      if !OnRoster(s, r) then claim == Failure(Forbidden)
      else if id !in s.tables.orders then claim == Failure(NotFound)
      else if s.tables.orders[id].status != Ready then claim == Failure(Conflict)
      else
        var o := s.tables.orders[id];
        claim == Success(WithOrder(s, id, o.(status := Dispatched, dispatchedAt := FirstOf(o.dispatchedAt, now),
                                             rider := Some(r))))
    ensures var given := Step(env, s, AssignOrder(id, r), now);
      if !OnRoster(s, r) then given == Failure(Invalid)
      else if id !in s.tables.orders then given == Failure(NotFound)
      else if s.tables.orders[id].status in {Delivered, Cancelled, Failed} then given == Failure(Conflict)
      else
        var o := s.tables.orders[id];
        given == Success(WithOrder(s, id, o.(status := Dispatched, packedAt := FirstOf(o.packedAt, now),
                                             dispatchedAt := FirstOf(o.dispatchedAt, now), rider := Some(r))))
  {
    EditEffect(env.cfg, s.tables, id, Accept(r), now);
    EditEffect(env.cfg, s.tables, id, Assign(r), now);
    if id in s.tables.orders {
      assert RowOk(s.tables.orders[id]);
      HandOverRecords(s.tables.orders[id], r, None, now);
      HandOverRefusals(s.tables.orders[id], r, now);
    }
  }

  lemma HandOverRefusals(o: Order, r: nat, now: Time)
    requires RowOk(o)
    ensures Edited(o, Accept(r), now).Failure? ==> Edited(o, Accept(r), now).error == Conflict
    ensures Edited(o, Assign(r), now).Failure? ==> Edited(o, Assign(r), now).error == Conflict
  {
  }

  /** Declining: exactly an order on offer, recorded once; a second tap changes nothing. */
  lemma RejectEffect(env: Env, s: Shop, id: nat, r: nat, now: Time)
    requires ShopOk(s)
    ensures var done := Step(env, s, RejectOrder(r, id), now);
      if !OnRoster(s, r) then done == Failure(Forbidden)
      else if id !in s.tables.orders then done == Failure(NotFound)
      else if (id, r) in s.declines then done == Success(s)
      else if s.tables.orders[id].status != Ready then done == Failure(Conflict)
      else if !CanReach(env.geo, s.roster, s.declines, id, s.tables.orders[id], r) then done == Failure(Conflict)
      else done == Success(s.(declines := s.declines + {(id, r)}))
  {
    DeclinableMeaning(env.geo, s.roster, s.declines, s.tables.orders, id, r);
    if id in s.tables.orders {
      assert RowOk(s.tables.orders[id]);
    }
  }

  /** Whom a status request is refused, in the order the refusals are given. */
  function Refusing(s: Shop, actor: Actor, id: nat, target: Status, reason: string, amount: Option<int>)
    : Option<Refusal>
  {
    if actor.Rider? && !OnRoster(s, actor.id) then Some(Forbidden)
    else if amount.Some? && (amount.value < 0 || target != Delivered) then Some(Invalid)
    else if target !in
      (if actor.Rider? then {Delivered, Ready, Failed} else {Packing, Ready, Delivered, Cancelled, Failed})
    then Some(Forbidden)
    else if id !in s.tables.orders then Some(NotFound)
    else
      var o := s.tables.orders[id];
      if actor.Rider? && o.rider != Some(actor.id) then Some(Forbidden)
      else if target == Cancelled then
        if o.status in {Placed, Packing, Ready} then None else Some(Conflict)
      else if target != o.status && target !in Next(o.status) then Some(Conflict)
      else if target == Failed && reason == "" then Some(Invalid)
      else if target == Delivered && o.status != Delivered && amount.Some? && amount.value > o.ticket.grandTotal
      then Some(Invalid)
      else None
  }

  /** The transition table, move by move. */
  lemma LegalMoves(from: Status, to: Status)
    ensures to in Next(from) <==>
      || (from == Placed && to in {Packing, Cancelled})
      || (from == Packing && to in {Ready, Cancelled})
      || (from == Ready && to in {Dispatched, Packing, Cancelled})
      || (from == Dispatched && to in {Delivered, Ready, Failed})
  {
  }

  lemma StatusRefusals(o: Order, actor: Actor, target: Status, reason: string, amount: Option<nat>, now: Time)
    requires RowOk(o) && target in Targets(actor) && target != Cancelled
    ensures var r := StatusSet(o, actor, target, reason, amount, now);
      if actor.Rider? && o.rider != Some(actor.id) then r == Failure(Forbidden)
      else if target != o.status && target !in Next(o.status) then r == Failure(Conflict)
      else if target == Failed && reason == "" then r == Failure(Invalid)
      else if target == Delivered && o.status != Delivered && amount.Some? && amount.value > o.ticket.grandTotal
      then r == Failure(Invalid)
      else r.Success?
  {
  }

  /** Was the request let through to the row? */
  predicate Addressed(s: Shop, actor: Actor, id: nat, target: Status, amount: Option<int>) {
    && (actor.Rider? ==> OnRoster(s, actor.id))
    && (amount.Some? ==> 0 <= amount.value && target == Delivered)
    && target in (if actor.Rider? then {Delivered, Ready, Failed} else {Packing, Ready, Delivered, Cancelled, Failed})
    && id in s.tables.orders
  }

  function Released(s: Shop, actor: Actor, id: nat, target: Status, row: Order): Shop {
    var moved := WithOrder(s, id, row);
    if target == Ready && actor.Rider? then moved.(declines := s.declines + {(id, actor.id)}) else moved
  }

  lemma MoveEffect(env: Env, s: Shop, actor: Actor, id: nat, target: Status, reason: string, amount: Option<int>,
                   now: Time)
    requires Addressed(s, actor, id, target, amount) && target != Cancelled
    ensures var r := Moved(env, s, actor, id, target, reason, amount, now);
      match StatusSet(s.tables.orders[id], actor, target, reason, Natural(amount), now)
      case Failure(e) => r == Failure(e)
      case Success(row) => r == Success(Released(s, actor, id, target, row))
  {
    EditEffect(env.cfg, s.tables, id, SetStatus(actor, target, reason, Natural(amount)), now);
  }

  lemma PatchedEffect(env: Env, s: Shop, actor: Actor, id: nat, target: Status, reason: string, amount: Option<int>,
                      now: Time)
    requires Addressed(s, actor, id, target, amount) && target != Cancelled
    ensures var r := Step(env, s, PatchStatus(actor, id, target, reason, amount), now);
      match StatusSet(s.tables.orders[id], actor, target, reason, Natural(amount), now)
      case Failure(e) => r == Failure(e)
      case Success(row) =>
        var released := Released(s, actor, id, target, row);
        r == Success(if target == Ready then AutoAssigned(env, released, id, now) else released)
  {
    MoveEffect(env, s, actor, id, target, reason, amount, now);
  }

  /** Not let through: refused before any row is looked at, or for want of one. */
  lemma UnaddressedIsRefused(env: Env, s: Shop, actor: Actor, id: nat, target: Status, reason: string,
                             amount: Option<int>, now: Time)
    requires !Addressed(s, actor, id, target, amount)
    ensures var r := Step(env, s, PatchStatus(actor, id, target, reason, amount), now);
      && Refusing(s, actor, id, target, reason, amount).Some?
      && r == Failure(Refusing(s, actor, id, target, reason, amount).value)
  {
  }

  /** A status request for Cancelled is a cancellation. */
  lemma CancelByStatus(env: Env, s: Shop, actor: Actor, id: nat, reason: string, now: Time)
    requires actor.Manager?
    ensures Step(env, s, PatchStatus(actor, id, Cancelled, reason, None), now)
      == Step(env, s, CancelOrder(id, if reason == "" then "Cancelled by store" else reason), now)
  {
  }

  /** The status request: refused exactly as listed; a cancellation is the cancelling transaction; any
      other move changes the one row, records a decline exactly when a rider puts the order back,
      and lets dispatch at it exactly when it is now Ready. */
  lemma StatusEffect(env: Env, s: Shop, actor: Actor, id: nat, target: Status, reason: string, amount: Option<int>,
                     now: Time)
    requires ShopOk(s)
    ensures var r := Step(env, s, PatchStatus(actor, id, target, reason, amount), now);
      match Refusing(s, actor, id, target, reason, amount)
      case Some(e) => r == Failure(e)
      case None =>
        if target == Cancelled then
          r == Step(env, s, CancelOrder(id, if reason == "" then "Cancelled by store" else reason), now) && r.Success?
        else
          var row := StatusSet(s.tables.orders[id], actor, target, reason, Natural(amount), now);
          && row.Success?
          && var released := Released(s, actor, id, target, row.value);
          && r == Success(if target == Ready then AutoAssigned(env, released, id, now) else released)
  {
    if !Addressed(s, actor, id, target, amount) {
      UnaddressedIsRefused(env, s, actor, id, target, reason, amount, now);
    } else if target == Cancelled {
      CancelEffect(env.cfg, s.tables, id, if reason == "" then "Cancelled by store" else reason, now);
    } else {
      PatchedEffect(env, s, actor, id, target, reason, amount, now);
      assert RowOk(s.tables.orders[id]);
      StatusRefusals(s.tables.orders[id], actor, target, reason, Natural(amount), now);
    }
  }

  /** The staff requests: what they write in the roster, and that they leave the orders alone. */
  lemma StaffEffect(env: Env, s: Shop, u: nat, on: bool, row: Rider, now: Time)
    ensures Step(env, s, SetAvailable(u, on), now) ==
      if u in s.roster && s.roster[u].delivery && s.roster[u].active
      then Success(s.(roster := s.roster[u := s.roster[u].(available := on)]))
      else Failure(Forbidden)
    ensures Step(env, s, AddUser(row), now) ==
      Success(s.(roster := s.roster[s.nextUser := row], nextUser := s.nextUser + 1))
    ensures Step(env, s, UpdateUser(u, row), now) ==
      if u in s.roster then Success(s.(roster := s.roster[u := row])) else Failure(NotFound)
    ensures var r := Step(env, s, RemoveUser(u), now);
      if u !in s.roster then r == Failure(NotFound)
      else if id :| id in s.tables.orders && s.tables.orders[id].rider == Some(u)
      then r == Success(s.(roster := s.roster[u := s.roster[u].(active := false, available := false)]))
      else
        && r.Success? && r.value.roster == s.roster - {u} && r.value.tables == s.tables
        && (forall d :: d in r.value.declines <==> d in s.declines && d.1 != u)
  {
  }
}
