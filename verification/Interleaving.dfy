/** The same transactions, interleaved. Each takes its row locks one at a time, reads a row
    when it locks it, may wait for another's lock or for the unique idempotency key, keeps its
    writes to itself, and then commits or rolls back. Locks last to the end. */
module Interleaving {
  import opened Prelude
  import opened Pricing
  import opened Orders
  import opened Baskets
  import opened Checkouts
  import opened Ledger

  /** What can be locked: rows, and an entry of the unique key index. */
  datatype Row = OrderRow(id: nat) | ProductRow(id: nat) | RiderRow(id: nat) | KeyRow(key: string)

  function Rank(r: Row): nat {
    match r
    case OrderRow(_) => 0
    case ProductRow(_) => 1
    case RiderRow(_) => 2
    case KeyRow(_) => 3
  }

  /** The order every transaction takes its locks in. */
  predicate Before(a: Row, b: Row) {
    Rank(a) < Rank(b) || (Rank(a) == Rank(b) && !a.KeyRow? && a.id < b.id)
  }

  datatype Outcome = Committed | Replayed(order: nat) | Refused(refusal: Refusal) | RolledBack

  datatype Phase = Start | Locking | Inserting | Prepared | KeyLost | Done(outcome: Outcome)

  /** A call in progress: its job, the rows it has still to lock, those it holds, and its
      private copies of what it read. */
  datatype Txn = Txn(
    job: Job,
    riderRows: seq<nat>,
    phase: Phase,
    now: Time,
    todo: seq<Row>,
    held: set<Row>,
    products: map<nat, Product>,
    order: Option<Order>
  )

  datatype World = World(tables: Tables, txns: map<nat, Txn>, clock: Time, log: seq<Entry>)

  predicate InTransaction(t: Txn) {
    t.phase in {Locking, Inserting, Prepared}
  }

  predicate OnOrderRow(j: Job) {
    j.CancelJob? || j.RestockJob? || j.EditJob?
  }

  /** The private view a transaction computes on. */
  function View(t: Txn): Tables {
    Tables(t.products, if t.order.Some? && OnOrderRow(t.job) then map[t.job.order := t.order.value] else map[])
  }

  function ProductRows(ids: seq<nat>): (rows: seq<Row>)
    ensures |rows| == |ids| && forall i :: 0 <= i < |ids| ==> rows[i] == ProductRow(ids[i])
  {
    seq(|ids|, i requires 0 <= i < |ids| => ProductRow(ids[i]))
  }

  function RiderRows(ids: seq<nat>): (rows: seq<Row>)
    ensures |rows| == |ids| && forall i :: 0 <= i < |ids| ==> rows[i] == RiderRow(ids[i])
  {
    seq(|ids|, i requires 0 <= i < |ids| => RiderRow(ids[i]))
  }

  function ItemIds(o: Order): set<nat> {
    set i | 0 <= i < |o.ticket.items| :: o.ticket.items[i].product
  }

  /** The guard evaluated as soon as the order row is locked. */
  function Guard(o: Order, j: Job, now: Time): Result<Order, Refusal>
    requires OnOrderRow(j)
  {
    match j
    case CancelJob(_, reason) => CancelledRow(o, reason, now)
    case RestockJob(_) => RestockedRow(o, now)
    case EditJob(_, edits) => EditsApplied(o, edits, now)
  }

  function End(t: Txn, outcome: Outcome): Txn {
    t.(phase := Done(outcome), held := {}, todo := [])
  }

  predicate Free(w: World, i: nat, r: Row) {
    forall k :: k in w.txns && k != i ==> r !in w.txns[k].held
  }

  /** The order that carries a key. */
  ghost function KeyOwner(orders: map<nat, Order>, key: string): nat
    requires KeyUsed(orders, key)
    ensures KeyOwner(orders, key) in orders && orders[KeyOwner(orders, key)].ticket.key == key
  {
    var id :| id in orders && orders[id].ticket.key == key;
    id
  }

  /** Before the transaction: the replay lookup, the gates, and the list of rows to lock. */
  ghost function Started(w: World, t: Txn): Txn {
    match t.job
    case PlaceJob(c, id) =>
      if KeyUsed(w.tables.orders, c.key) then End(t, Replayed(KeyOwner(w.tables.orders, c.key)))
      else if !c.shopOpen then End(t, Refused(StoreClosed))
      else if c.position.Some? && c.tooFar then End(t, Refused(OutOfArea))
      else if Requested(c.items) == map[] then End(t, Refused(EmptyBasket))
      else t.(phase := Locking, todo := ProductRows(SortedIds(Requested(c.items).Keys)))
    case CancelJob(id, _) => t.(phase := Locking, todo := [OrderRow(id)])
    case RestockJob(id) => t.(phase := Locking, todo := [OrderRow(id)])
    case EditJob(id, _) => t.(phase := Locking, todo := [OrderRow(id)])
    case PatchJob(id, _) => t.(phase := Locking, todo := [ProductRow(id)])
    case CreateJob(_, _) => End(t, Refused(Invalid))
    case DeleteJob(_) => End(t, Refused(Invalid))
  }

  /** Lock the next row and read it. */
  function Locked(w: World, t: Txn): Txn
    requires t.todo != []
  {
    var row := t.todo[0];
    match row
    case OrderRow(id) =>
      if !OnOrderRow(t.job) then t
      else if id !in w.tables.orders then End(t, Refused(NotFound))
      else
        var o := w.tables.orders[id];
        (match Guard(o, t.job, w.clock)
         case Failure(e) => End(t, Refused(e))
         case Success(_) =>
           t.(now := w.clock, order := Some(o), held := t.held + {row},
              todo := if t.job.EditJob? then RiderRows(t.riderRows) else ProductRows(SortedIds(ItemIds(o)))))
    case ProductRow(id) =>
      if id in w.tables.products then
        t.(products := t.products[id := w.tables.products[id]], held := t.held + {row}, todo := t.todo[1..])
      else if t.job.PatchJob? then End(t, Refused(NotFound))
      else t.(todo := t.todo[1..])
    case RiderRow(_) => t.(held := t.held + {row}, todo := t.todo[1..])
    case KeyRow(_) => t
  }

  /** With every row in hand: decide privately. */
  function Evaluated(cfg: Settings, w: World, t: Txn): Txn {
    var now := if t.order.Some? then t.now else w.clock;
    match Perform(cfg, View(t), t.job, now)
    case Failure(e) => End(t, Refused(e))
    case Success(_) => t.(now := now, phase := if t.job.PlaceJob? then Inserting else Prepared)
  }

  /** The INSERT: the unique index grants the key, or the transaction is lost to its owner. */
  function Inserted(w: World, t: Txn): Txn
    requires t.job.PlaceJob?
  {
    if t.job.c.key == "" then t.(phase := Prepared)
    else if KeyUsed(w.tables.orders, t.job.c.key) then t.(phase := KeyLost, held := {}, todo := [])
    else t.(phase := Prepared, held := t.held + {KeyRow(t.job.c.key)})
  }

  /** The row or key a transaction is waiting for, if it is waiting. */
  function Wants(t: Txn): Option<Row> {
    if t.phase == Locking && t.todo != [] then Some(t.todo[0])
    else if t.phase == Inserting && t.job.PlaceJob? && t.job.c.key != "" then Some(KeyRow(t.job.c.key))
    else None
  }

  predicate Finished(t: Txn) {
    t.phase.Done?
  }

  /** Nothing stands in the way of its next step. */
  predicate Enabled(w: World, i: nat)
    requires i in w.txns
  {
    var t := w.txns[i];
    !Finished(t) && (Wants(t).Some? ==> Free(w, i, Wants(t).value))
  }

  /** The rows a prepared transaction writes, laid over the committed tables. */
  function Overlay(t: Tables, writes: Tables): Tables {
    Tables(t.products + writes.products, t.orders + writes.orders)
  }

  /** The next step of a call that is not blocked. */
  ghost function Stepped(cfg: Settings, w: World, i: nat): World
    requires i in w.txns && Enabled(w, i)
  {
    var t := w.txns[i];
    match t.phase
    case Start => w.(txns := w.txns[i := Started(w, t)])
    case Locking =>
      w.(txns := w.txns[i := if t.todo == [] then Evaluated(cfg, w, t) else Locked(w, t)])
    case Inserting => if t.job.PlaceJob? then w.(txns := w.txns[i := Inserted(w, t)]) else w
    case Prepared =>
      (match Perform(cfg, View(t), t.job, t.now)
       case Failure(e) => w.(txns := w.txns[i := End(t, Refused(e))])
       case Success(writes) =>
         World(Overlay(w.tables, writes), w.txns[i := End(t, Committed)], w.clock, w.log + [Entry(t.job, t.now)]))
    case KeyLost =>
      if !t.job.PlaceJob? then w
      else if KeyUsed(w.tables.orders, t.job.c.key) then
        w.(txns := w.txns[i := End(t, Replayed(KeyOwner(w.tables.orders, t.job.c.key)))])
      else w.(txns := w.txns[i := End(t, Refused(KeyTaken))])
  }

  datatype Action = Go(i: nat) | Abort(i: nat) | Tick(elapsed: nat)

  /** One step of the system: a call proceeds, a transaction rolls back, or time passes. */
  ghost function Act(cfg: Settings, w: World, a: Action): Option<World> {
    match a
    case Go(i) => if i in w.txns && Enabled(w, i) then Some(Stepped(cfg, w, i)) else None
    case Abort(i) =>
      if i in w.txns && InTransaction(w.txns[i]) then
        Some(w.(txns := w.txns[i := End(w.txns[i], RolledBack)])) else None
    case Tick(d) => Some(w.(clock := w.clock + d))
  }

  /** Any schedule at all. */
  ghost function Schedule(cfg: Settings, w: World, actions: seq<Action>): Option<World> {
    if actions == [] then Some(w)
    else match Schedule(cfg, w, actions[..|actions| - 1])
      case None => None
      case Some(mid) => Act(cfg, mid, actions[|actions| - 1])
  }

  // ------------------------------------------------------------------------
  // The invariant
  // ------------------------------------------------------------------------

  predicate RowsAscend(rows: seq<Row>) {
    forall i, j :: 0 <= i < j < |rows| ==> Before(rows[i], rows[j])
  }

  /** Locks are taken in order: what is held comes before what is still to come. */
  ghost predicate LocksInOrder(t: Txn) {
    && RowsAscend(t.todo)
    && (forall i :: 0 <= i < |t.todo| ==> !t.todo[i].KeyRow?)
    && (forall r, i :: r in t.held && 0 <= i < |t.todo| ==> Before(r, t.todo[i]))
    && (forall r :: r in t.held && r.KeyRow? ==> t.phase == Prepared)
    && (forall i, j :: 0 <= i < j < |t.riderRows| ==> t.riderRows[i] < t.riderRows[j])
  }

  /** What was read is locked, and is still what is committed. */
  ghost predicate ReadsHold(tables: Tables, t: Txn) {
    && (forall p :: p in t.products ==>
          ProductRow(p) in t.held && p in tables.products && tables.products[p] == t.products[p])
    && (t.order.Some? && OnOrderRow(t.job) ==>
          && OrderRow(t.job.order) in t.held
          && t.job.order in tables.orders && tables.orders[t.job.order] == t.order.value)
  }

  /** Every row the job will need has been read or is still on the list. */
  ghost predicate Covered(tables: Tables, t: Txn) {
    && (OnOrderRow(t.job) && t.order.None? ==> t.todo == [OrderRow(t.job.order)] && t.held == {})
    && (!OnOrderRow(t.job) ==> t.order.None? && forall i :: 0 <= i < |t.todo| ==> t.todo[i].ProductRow?)
    && (OnOrderRow(t.job) && t.order.Some? ==> Guard(t.order.value, t.job, t.now).Success?)
    && (OnOrderRow(t.job) && t.order.Some? ==> forall i :: 0 <= i < |t.todo| ==> !t.todo[i].OrderRow?)
    && ((t.job.CancelJob? || t.job.RestockJob?) && t.order.Some? ==>
          forall p :: p in ItemIds(t.order.value) && p in tables.products ==>
            p in t.products || ProductRow(p) in t.todo)
  }

  /** Past the decision: the private outcome is a success, and the key is in hand. */
  ghost predicate Decided(cfg: Settings, tables: Tables, t: Txn) {
    && (t.phase in {Inserting, Prepared} ==> t.todo == [] && Perform(cfg, View(t), t.job, t.now).Success?)
    && (t.phase == Inserting ==> t.job.PlaceJob?)
    && (t.phase == Prepared && t.job.PlaceJob? && t.job.c.key != "" ==>
          KeyRow(t.job.c.key) in t.held && !KeyUsed(tables.orders, t.job.c.key))
  }

  /** What a finished or losing call may report. */
  ghost predicate Reports(tables: Tables, t: Txn) {
    && (t.phase == KeyLost ==> t.job.PlaceJob? && KeyUsed(tables.orders, t.job.c.key))
    && (t.phase.Done? && t.phase.outcome.Replayed? ==>
          && t.job.PlaceJob? && t.job.c.key != ""
          && t.phase.outcome.order in tables.orders
          && tables.orders[t.phase.outcome.order].ticket.key == t.job.c.key)
    && (t.job.PlaceJob? ==> (t.job.id in tables.orders <==> t.phase == Done(Committed)))
    && (t.job.PlaceJob? && t.phase == Done(Committed) ==> tables.orders[t.job.id].ticket.key == t.job.c.key)
    && t.phase != Done(Refused(KeyTaken))
  }

  /** The clock reading a transaction works with is at or after everything its row records. */
  predicate ReadsOnClock(t: Txn, clock: Time) {
    InTransaction(t) && t.order.Some? ==> t.now <= clock && OnClock(t.order.value, t.now)
  }

  ghost predicate TxnOk(cfg: Settings, tables: Tables, clock: Time, t: Txn) {
    && (!InTransaction(t) ==> t.held == {} && t.todo == [])
    && (t.phase == Start ==> t.products == map[] && t.order.None?)
    && !t.job.CreateJob? && !t.job.DeleteJob?
    && LocksInOrder(t)
    && (InTransaction(t) ==> ReadsHold(tables, t) && Covered(tables, t) && Decided(cfg, tables, t))
    && (t.phase in {Inserting, Prepared} ==> t.now <= clock)
    && ReadsOnClock(t, clock)
    && Reports(tables, t)
  }

  /** No row is locked twice. */
  ghost predicate Exclusive(txns: map<nat, Txn>) {
    forall i, k :: i in txns && k in txns && i != k ==> txns[i].held !! txns[k].held
  }

  /** Each insert has its own id from the sequence. */
  ghost predicate OwnIds(txns: map<nat, Txn>) {
    forall i, k :: i in txns && k in txns && i != k && txns[i].job.PlaceJob? && txns[k].job.PlaceJob? ==>
      txns[i].job.id != txns[k].job.id
  }

  /** Every order beyond the opening ones was placed by a call that reports it. */
  ghost predicate Attributed(opening: Tables, w: World) {
    forall id :: id in w.tables.orders && id !in opening.orders ==>
      exists i :: i in w.txns && w.txns[i].job.PlaceJob? && w.txns[i].job.id == id
  }

  /** The committed tables are those of the serial run of the log. */
  ghost predicate Serial(cfg: Settings, opening: Tables, w: World) {
    RunAll(cfg, opening, w.log) == Some(w.tables) && FreshRun(cfg, opening, w.log)
  }

  ghost predicate WorldOk(cfg: Settings, opening: Tables, w: World) {
    && cfg.Sane()
    && TablesOk(opening)
    && TablesOk(w.tables)
    && AllOnClock(w.tables.orders, w.clock)
    && Serial(cfg, opening, w)
    && Exclusive(w.txns)
    && OwnIds(w.txns)
    && Attributed(opening, w)
    && (forall i :: i in w.txns ==> TxnOk(cfg, w.tables, w.clock, w.txns[i]))
  }

  /** Any number of calls, none begun. */
  ghost predicate Opening(cfg: Settings, w: World) {
    && cfg.Sane()
    && TablesOk(w.tables)
    && AllOnClock(w.tables.orders, w.clock)
    && w.log == []
    && OwnIds(w.txns)
    && forall i :: i in w.txns ==>
      var t := w.txns[i];
      && t.phase == Start && t.held == {} && t.todo == [] && t.products == map[] && t.order.None?
      && !t.job.CreateJob? && !t.job.DeleteJob?
      && (t.job.PlaceJob? ==> t.job.id !in w.tables.orders)
      && (forall a, b :: 0 <= a < b < |t.riderRows| ==> t.riderRows[a] < t.riderRows[b])
  }

  lemma OpeningIsOk(cfg: Settings, w: World)
    requires Opening(cfg, w)
    ensures WorldOk(cfg, w.tables, w)
  {
  }
}
