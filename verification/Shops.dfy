/** The whole store as a state machine: every request on orders, products and staff, each taken
    as one atomic step. Shows that a shop run is a ledger run, and what dispatch keeps on it. */
module Shops {
  import opened Prelude
  import opened Pricing
  import opened Orders
  import opened Baskets
  import opened Checkouts
  import opened Ledger
  import opened Dispatch
  import opened Feed

  datatype Env = Env(cfg: Settings, geo: Geo, autoAssign: bool)

  /** The committed rows, and the ids the database will hand out next. */
  datatype Shop = Shop(
    tables: Tables,
    roster: map<nat, Rider>,
    declines: Declines,
    nextOrder: nat,
    nextProduct: nat,
    nextUser: nat
  )

  datatype Request =
    | PlaceOrder(c: Checkout)
    | CancelOrder(order: nat, reason: string)
    | RestockOrder(order: nat)
    | PatchStatus(actor: Actor, order: nat, target: Status, reason: string, amount: Option<int>)
    | AcceptOrder(rider: nat, order: nat)
    | AssignOrder(order: nat, rider: nat)
    | RejectOrder(rider: nat, order: nat)
    | PatchProduct(product: nat, patch: Patch)
    | CreateProduct(entry: Product)
    | DeleteProduct(product: nat)
    | SetAvailable(rider: nat, on: bool)
    | AddUser(account: Rider)
    | UpdateUser(user: nat, account: Rider)
    | RemoveUser(user: nat)

  /** A rider's token is honoured only for an active delivery account; a manager's request may
      name only such an account. */
  predicate OnRoster(s: Shop, r: nat) {
    r in s.roster && s.roster[r].delivery && s.roster[r].active
  }

  function Ran(s: Shop, done: Result<Tables, Refusal>): Result<Shop, Refusal> {
    match done
    case Failure(e) => Failure(e)
    case Success(t) => Success(s.(tables := t))
  }

  /** Whom auto_assign hands the order to: nobody when it is switched off, when the order is not
      an unassigned Ready one, or when nobody is eligible. */
  function AutoPick(env: Env, s: Shop, id: nat): Option<Ranked>
    requires id in s.tables.orders
  {
    var o := s.tables.orders[id];
    if !env.autoAssign || o.status != Ready || o.rider.Some? then None
    else Pick(env.geo, s.roster, s.declines, s.tables.orders, id, o)
  }

  function AutoAssigned(env: Env, s: Shop, id: nat, now: Time): Shop
    requires id in s.tables.orders
  {
    match AutoPick(env, s, id)
    case None => s
    case Some(pick) =>
      var row := Entered(s.tables.orders[id], Dispatched, now).(rider := Some(pick.id), offeredKm := pick.km);
      s.(tables := s.tables.(orders := s.tables.orders[id := row]))
  }

  function Natural(amount: Option<int>): Option<nat>
    requires amount.Some? ==> 0 <= amount.value
  {
    match amount
    case None => None
    case Some(n) => Some(n)
  }

  /** The order as the status request leaves it, before dispatch looks at it; a rider who hands
      it back is recorded as having declined it. */
  function Moved(env: Env, s: Shop, actor: Actor, id: nat, target: Status, reason: string, amount: Option<int>,
                 now: Time)
    : Result<Shop, Refusal>
  {
    if actor.Rider? && !OnRoster(s, actor.id) then Failure(Forbidden)
    else if amount.Some? && (amount.value < 0 || target != Delivered) then Failure(Invalid)
    else if target !in Targets(actor) then Failure(Forbidden)
    else if target == Cancelled then
      Ran(s, Perform(env.cfg, s.tables, CancelJob(id, if reason == "" then "Cancelled by store" else reason), now))
    else
      match Ran(s, Perform(env.cfg, s.tables, EditJob(id, [SetStatus(actor, target, reason, Natural(amount))]), now))
      case Failure(e) => Failure(e)
      case Success(moved) =>
        if target == Ready && actor.Rider? then Success(moved.(declines := moved.declines + {(id, actor.id)}))
        else Success(moved)
  }

  function StatusPatched(env: Env, s: Shop, actor: Actor, id: nat, target: Status, reason: string,
                         amount: Option<int>, now: Time)
    : Result<Shop, Refusal>
  {
    match Moved(env, s, actor, id, target, reason, amount, now)
    case Failure(e) => Failure(e)
    case Success(moved) =>
      if target == Ready && id in moved.tables.orders then Success(AutoAssigned(env, moved, id, now))
      else Success(moved)
  }

  predicate HasHistory(orders: map<nat, Order>, user: nat) {
    exists id :: id in orders && orders[id].rider == Some(user)
  }

  /** One request, alone. A refusal changes nothing. */
  function Step(env: Env, s: Shop, req: Request, now: Time): Result<Shop, Refusal> {
    match req
    case PlaceOrder(c) =>
      if KeyUsed(s.tables.orders, c.key) then Success(s)
      else (match Ran(s, Perform(env.cfg, s.tables, PlaceJob(c, s.nextOrder), now))
        case Failure(e) => Failure(e)
        case Success(after) => Success(after.(nextOrder := s.nextOrder + 1)))
    case CancelOrder(id, reason) => Ran(s, Perform(env.cfg, s.tables, CancelJob(id, reason), now))
    case RestockOrder(id) => Ran(s, Perform(env.cfg, s.tables, RestockJob(id), now))
    case PatchStatus(actor, id, target, reason, amount) =>
      StatusPatched(env, s, actor, id, target, reason, amount, now)
    case AcceptOrder(r, id) =>
      if !OnRoster(s, r) then Failure(Forbidden)
      else Ran(s, Perform(env.cfg, s.tables, EditJob(id, [Accept(r)]), now))
    case AssignOrder(id, r) =>
      if !OnRoster(s, r) then Failure(Invalid)
      else Ran(s, Perform(env.cfg, s.tables, EditJob(id, [Assign(r)]), now))
    case RejectOrder(r, id) =>
      if !OnRoster(s, r) then Failure(Forbidden)
      else (match Rejected(env.geo, s.roster, s.declines, s.tables.orders, id, r)
        case Failure(e) => Failure(e)
        case Success(declines) => Success(s.(declines := declines)))
    case PatchProduct(id, patch) => Ran(s, Perform(env.cfg, s.tables, PatchJob(id, patch), now))
    case CreateProduct(row) =>
      (match Ran(s, Perform(env.cfg, s.tables, CreateJob(s.nextProduct, row), now))
       case Failure(e) => Failure(e)
       case Success(after) => Success(after.(nextProduct := s.nextProduct + 1)))
    case DeleteProduct(id) => Ran(s, Perform(env.cfg, s.tables, DeleteJob(id), now))
    case SetAvailable(r, on) =>
      if !OnRoster(s, r) then Failure(Forbidden)
      else Success(s.(roster := s.roster[r := s.roster[r].(available := on)]))
    case AddUser(row) => Success(s.(roster := s.roster[s.nextUser := row], nextUser := s.nextUser + 1))
    case UpdateUser(u, row) =>
      if u !in s.roster then Failure(NotFound) else Success(s.(roster := s.roster[u := row]))
    case RemoveUser(u) =>
      if u !in s.roster then Failure(NotFound)
      else if HasHistory(s.tables.orders, u) then
        Success(s.(roster := s.roster[u := s.roster[u].(active := false, available := false)]))
      else
        Success(s.(roster := s.roster - {u}, declines := set d | d in s.declines && d.1 != u))
  }

  // ------------------------------------------------------------------------
  // A shop step is at most one ledger job
  // ------------------------------------------------------------------------

  /** The transaction on products and orders that a successful request commits, if any. */
  function JobOf(env: Env, s: Shop, req: Request, now: Time): Option<Job> {
    match req
    case PlaceOrder(c) => if KeyUsed(s.tables.orders, c.key) then None else Some(PlaceJob(c, s.nextOrder))
    case CancelOrder(id, reason) => Some(CancelJob(id, reason))
    case RestockOrder(id) => Some(RestockJob(id))
    case PatchStatus(actor, id, target, reason, amount) =>
      if target == Cancelled then Some(CancelJob(id, if reason == "" then "Cancelled by store" else reason))
      else if amount.Some? && amount.value < 0 then None
      else
        var set_ := SetStatus(actor, target, reason, Natural(amount));
        (match Moved(env, s, actor, id, target, reason, amount, now)
         case Failure(_) => None
         case Success(moved) =>
           if target == Ready && id in moved.tables.orders && AutoPick(env, moved, id).Some? then
             var pick := AutoPick(env, moved, id).value;
             Some(EditJob(id, [set_, AutoAssign(pick.id, pick.km)]))
           else Some(EditJob(id, [set_])))
    case AcceptOrder(r, id) => Some(EditJob(id, [Accept(r)]))
    case AssignOrder(id, r) => Some(EditJob(id, [Assign(r)]))
    case PatchProduct(id, patch) => Some(PatchJob(id, patch))
    case CreateProduct(row) => Some(CreateJob(s.nextProduct, row))
    case DeleteProduct(id) => Some(DeleteJob(id))
    case RejectOrder(_, _) => None
    case SetAvailable(_, _) => None
    case AddUser(_) => None
    case UpdateUser(_, _) => None
    case RemoveUser(_) => None
  }

  ghost predicate ShopOk(s: Shop) {
    && TablesOk(s.tables)
    && (forall id :: id in s.tables.orders ==> id < s.nextOrder)
    && (forall id :: id in s.tables.products ==> id < s.nextProduct)
    && (forall r :: r in s.roster ==> r < s.nextUser)
    && (forall id, r :: (id, r) in s.declines ==> id in s.tables.orders && r in s.roster)
    && RidersKnown(s)
  }

  /** Every order's rider is still on file. */
  predicate RidersKnown(s: Shop) {
    forall id :: id in s.tables.orders && s.tables.orders[id].rider.Some? ==>
      s.tables.orders[id].rider.value in s.roster
  }

  lemma TwoEdits(o: Order, first: Edit, second: Edit, now: Time)
    ensures EditsApplied(o, [first], now) == Edited(o, first, now)
    ensures Edited(o, first, now).Success? ==>
      EditsApplied(o, [first, second], now) == Edited(Edited(o, first, now).value, second, now)
  {
    assert [first][1..] == [] && [second][1..] == [] && [first, second][1..] == [second];
    assert forall n :: EditsApplied(n, [second], now) == Edited(n, second, now);
  }

  /** What a status request does to the tables, in ledger terms. */
  lemma StatusIsJob(env: Env, s: Shop, actor: Actor, id: nat, target: Status, reason: string, amount: Option<int>,
                    now: Time)
    requires StatusPatched(env, s, actor, id, target, reason, amount, now).Success?
    ensures var job := JobOf(env, s, PatchStatus(actor, id, target, reason, amount), now);
      job.Some? && Perform(env.cfg, s.tables, job.value, now) ==
        Success(StatusPatched(env, s, actor, id, target, reason, amount, now).value.tables)
  {
    if target != Cancelled {
      var set_ := SetStatus(actor, target, reason, Natural(amount));
      var moved := Moved(env, s, actor, id, target, reason, amount, now).value;
      assert id in s.tables.orders;
      var o := s.tables.orders[id];
      TwoEdits(o, set_, set_, now);
      if target == Ready && AutoPick(env, moved, id).Some? {
        var pick := AutoPick(env, moved, id).value;
        TwoEdits(o, set_, AutoAssign(pick.id, pick.km), now);
        var row := Edited(o, set_, now).value;
        assert moved.tables.orders[id] == row;
        assert s.tables.orders[id := row][id := Edited(row, AutoAssign(pick.id, pick.km), now).value]
            == s.tables.orders[id := Edited(row, AutoAssign(pick.id, pick.km), now).value];
      }
    }
  }

  /** Every request either leaves products and orders alone or commits exactly one ledger job,
      under an id that was free. */
  lemma StepIsJob(env: Env, s: Shop, req: Request, now: Time)
    requires ShopOk(s) && Step(env, s, req, now).Success?
    ensures var after, job := Step(env, s, req, now).value, JobOf(env, s, req, now);
      && (job.None? ==> after.tables == s.tables)
      && (job.Some? ==>
            Fresh(s.tables, job.value) && Perform(env.cfg, s.tables, job.value, now) == Success(after.tables))
  {
    match req
    case PatchStatus(actor, id, target, reason, amount) =>
      StatusIsJob(env, s, actor, id, target, reason, amount, now);
    case _ =>
  }
}
