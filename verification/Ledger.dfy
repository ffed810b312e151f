/** The committed product and order rows, and what each transaction that touches them does
    when it runs alone: the specification every other form is measured against. */
module Ledger {
  import opened Prelude
  import opened Decimals
  import opened Pricing
  import opened Orders
  import opened Baskets
  import opened Checkouts

  datatype Tables = Tables(products: map<nat, Product>, orders: map<nat, Order>)

  /** The columns a product PATCH names. */
  datatype Patch = Patch(price: Option<int>, mrp: Option<int>, stock: Option<int>, active: Option<bool>)

  datatype Job =
    | PlaceJob(c: Checkout, id: nat)
    | CancelJob(order: nat, reason: string)
    | RestockJob(order: nat)
    | EditJob(order: nat, edits: seq<Edit>)
    | PatchJob(product: nat, patch: Patch)
    | CreateJob(product: nat, row: Product)
    | DeleteJob(product: nat)

  function Or<T>(o: Option<T>, default: T): T {
    if o.Some? then o.value else default
  }

  predicate ProductValid(p: Product) {
    0 <= p.price && 0 <= p.mrp && 0 <= p.stock && !(p.mrp != 0 && p.price != 0 && p.mrp < p.price)
  }

  /** A PATCH writes only the columns it was sent; each is validated as sent, and a set MRP may
      not be below a set price. */
  function Patched(p: Product, patch: Patch): Result<Product, Refusal> {
    var price, mrp := Or(patch.price, p.price), Or(patch.mrp, p.mrp);
    if (patch.price.Some? && price < 0) || (patch.mrp.Some? && mrp < 0)
       || (patch.stock.Some? && patch.stock.value < 0) then Failure(Invalid)
    else if mrp != 0 && price != 0 && mrp < price then Failure(Invalid)
    else Success(Product(price, mrp, Or(patch.stock, p.stock), Or(patch.active, p.active)))
  }

  /** A stock decrement per line, written back as the value computed from the locked row. */
  function Take(products: map<nat, Product>, lines: seq<Line>): map<nat, Product> {
    if lines == [] then products
    else
      var last := lines[|lines| - 1];
      Take(products, lines[..|lines| - 1])[last.id := last.product.(stock := last.product.stock - last.quantity)]
  }

  /** _return_stock: every item's units go back to its product row, if there is one. */
  function PutBack(products: map<nat, Product>, items: seq<Item>): map<nat, Product> {
    if items == [] then products
    else
      var last := items[|items| - 1];
      var before := PutBack(products, items[..|items| - 1]);
      if last.product in before then
        before[last.product := before[last.product].(stock := before[last.product].stock + last.quantity)]
      else before
  }

  /** The unique index on idempotency_key; an absent key (NULL) never collides. */
  predicate KeyUsed(orders: map<nat, Order>, key: string) {
    key != "" && exists id :: id in orders && orders[id].ticket.key == key
  }

  function EditsApplied(o: Order, edits: seq<Edit>, now: Time): Result<Order, Refusal>
    decreases |edits|
  {
    if edits == [] then Success(o)
    else match Edited(o, edits[0], now)
      case Failure(e) => Failure(e)
      case Success(n) => EditsApplied(n, edits[1..], now)
  }

  predicate Ordered(orders: map<nat, Order>, product: nat) {
    exists id :: id in orders &&
      exists i :: 0 <= i < |orders[id].ticket.items| && orders[id].ticket.items[i].product == product
  }

  /** One transaction on its own. A refusal leaves the tables as they were. */
  function Perform(cfg: Settings, t: Tables, j: Job, now: Time): Result<Tables, Refusal> {
    match j
    case PlaceJob(c, id) =>
      (match Drafted(cfg, t.products, c)
       case Failure(e) => Failure(e)
       case Success(basket) =>
         if KeyUsed(t.orders, c.key) then Failure(KeyTaken)
         else Success(Tables(Take(t.products, basket.lines),
                             t.orders[id := NewOrder(TicketFor(cfg, c, basket, now))])))
    case CancelJob(id, reason) =>
      if id !in t.orders then Failure(NotFound)
      else (match CancelledRow(t.orders[id], reason, now)
        case Failure(e) => Failure(e)
        case Success(row) =>
          Success(Tables(PutBack(t.products, row.ticket.items), t.orders[id := row])))
    case RestockJob(id) =>
      if id !in t.orders then Failure(NotFound)
      else (match RestockedRow(t.orders[id], now)
        case Failure(e) => Failure(e)
        case Success(row) =>
          Success(Tables(PutBack(t.products, row.ticket.items), t.orders[id := row])))
    case EditJob(id, edits) =>
      if id !in t.orders then Failure(NotFound)
      else (match EditsApplied(t.orders[id], edits, now)
        case Failure(e) => Failure(e)
        case Success(row) => Success(t.(orders := t.orders[id := row])))
    case PatchJob(id, patch) =>
      if id !in t.products then Failure(NotFound)
      else (match Patched(t.products[id], patch)
        case Failure(e) => Failure(e)
        case Success(row) => Success(t.(products := t.products[id := row])))
    case CreateJob(id, row) =>
      if !ProductValid(row) then Failure(Invalid)
      else Success(t.(products := t.products[id := row]))
    case DeleteJob(id) =>
      if id !in t.products then Failure(NotFound)
      else if Ordered(t.orders, id) then Failure(Conflict)
      else Success(t.(products := t.products - {id}))
  }

  /** The tables after selling a basket. */
  function Sold(cfg: Settings, t: Tables, c: Checkout, id: nat, basket: Basket, now: Time): Tables {
    Tables(Take(t.products, basket.lines), t.orders[id := NewOrder(TicketFor(cfg, c, basket, now))])
  }

  /** The three answers of a placement, once its basket has been drafted. */
  lemma PlaceAnswers(cfg: Settings, t: Tables, c: Checkout, id: nat, now: Time, draft: Result<Basket, Refusal>)
    requires draft == Drafted(cfg, t.products, c)
    ensures Perform(cfg, t, PlaceJob(c, id), now) ==
      if draft.Failure? then Failure(draft.error)
      else if KeyUsed(t.orders, c.key) then Failure(KeyTaken)
      else Success(Sold(cfg, t, c, id, draft.value, now))
  {
  }

  lemma PlacePerforms(cfg: Settings, t: Tables, c: Checkout, id: nat, now: Time, draft: Result<Basket, Refusal>)
    requires draft == Drafted(cfg, t.products, c) && draft.Success? && !KeyUsed(t.orders, c.key)
    ensures Perform(cfg, t, PlaceJob(c, id), now) == Success(Sold(cfg, t, c, id, draft.value, now))
  {
  }

  // ------------------------------------------------------------------------
  // Units on order
  // ------------------------------------------------------------------------

  /** Units of a product an order is holding: none once its goods are back. */
  function Held(o: Order, p: nat): nat {
    if Returned(o) then 0 else Units(o.ticket.items, p)
  }

  /** Units of a product held by all orders together. */
  ghost function OnOrder(orders: map<nat, Order>, p: nat): nat
    decreases |orders|
  {
    if orders == map[] then 0
    else
      var id :| id in orders;
      assert |orders - {id}| < |orders| by { assert orders.Keys == (orders - {id}).Keys + {id}; }
      Held(orders[id], p) + OnOrder(orders - {id}, p)
  }

  lemma {:induction false} OnOrderSplit(orders: map<nat, Order>, k: nat, p: nat)
    requires k in orders
    ensures OnOrder(orders, p) == Held(orders[k], p) + OnOrder(orders - {k}, p)
    decreases |orders|
  {
    var id :| id in orders && OnOrder(orders, p) == Held(orders[id], p) + OnOrder(orders - {id}, p);
    if id != k {
      assert orders.Keys == (orders - {id}).Keys + {id} == (orders - {k}).Keys + {k};
      OnOrderSplit(orders - {id}, k, p);
      OnOrderSplit(orders - {k}, id, p);
      assert (orders - {id}) - {k} == (orders - {k}) - {id};
    }
  }

  lemma OnOrderSet(orders: map<nat, Order>, k: nat, o: Order, p: nat)
    ensures OnOrder(orders[k := o], p) ==
      OnOrder(orders, p) - (if k in orders then Held(orders[k], p) else 0) + Held(o, p)
  {
    OnOrderSplit(orders[k := o], k, p);
    assert orders[k := o] - {k} == orders - {k};
    if k in orders {
      OnOrderSplit(orders, k, p);
    } else {
      assert orders - {k} == orders;
    }
  }

  function StockOf(products: map<nat, Product>, p: nat): int {
    if p in products then products[p].stock else 0
  }

  /** Shelf plus bags: what never changes except by an explicit edit of the catalogue. */
  ghost function Supply(t: Tables, p: nat): int {
    StockOf(t.products, p) + OnOrder(t.orders, p)
  }

  /** What a job's catalogue edit adds to the supply of a product. */
  function StockEdit(t: Tables, j: Job, p: nat): int {
    match j
    case PatchJob(id, patch) =>
      if id == p && id in t.products && patch.stock.Some? then patch.stock.value - t.products[id].stock else 0
    case CreateJob(id, row) => if id == p then row.stock - StockOf(t.products, p) else 0
    case DeleteJob(id) => if id == p then -StockOf(t.products, p) else 0
    case PlaceJob(_, _) => 0
    case CancelJob(_, _) => 0
    case RestockJob(_) => 0
    case EditJob(_, _) => 0
  }

  /** A catalogue row after its line is sold. */
  function Sale(line: Line): Product {
    line.product.(stock := line.product.stock - line.quantity)
  }

  /** Each line's row is sold once, and no other row has moved. */
  ghost predicate AllSold(products: map<nat, Product>, after: map<nat, Product>, lines: seq<Line>) {
    && after.Keys == products.Keys
    && (forall i :: 0 <= i < |lines| ==> lines[i].id in after && after[lines[i].id] == Sale(lines[i]))
    && (forall id :: id in products && id !in LineIds(lines) ==> after[id] == products[id])
  }

  lemma {:induction false} TakeByIndex(products: map<nat, Product>, lines: seq<Line>)
    requires AscendingLines(lines)
    requires forall i :: 0 <= i < |lines| ==> lines[i].id in products && products[lines[i].id] == lines[i].product
    ensures AllSold(products, Take(products, lines), lines)
    decreases |lines|
  {
    if lines != [] {
      var init, last := lines[..|lines| - 1], lines[|lines| - 1];
      TakeByIndex(products, init);
      OneSale(products, Take(products, init), lines);
    }
  }

  lemma OneSale(products: map<nat, Product>, before: map<nat, Product>, lines: seq<Line>)
    requires lines != [] && AscendingLines(lines) && lines[|lines| - 1].id in products
    requires AllSold(products, before, lines[..|lines| - 1])
    ensures AllSold(products, before[lines[|lines| - 1].id := Sale(lines[|lines| - 1])], lines)
  {
    var init, last := lines[..|lines| - 1], lines[|lines| - 1];
    LineIdsSnoc(init, last);
    assert lines == init + [last];
    assert forall i :: 0 <= i < |init| ==> lines[i] == init[i];
  }

  lemma TakeTouches(products: map<nat, Product>, lines: seq<Line>)
    requires AscendingLines(lines)
    requires forall line :: line in lines ==> line.id in products && products[line.id] == line.product
    ensures Take(products, lines).Keys == products.Keys
    ensures forall line :: line in lines ==> Take(products, lines)[line.id] == Sale(line)
    ensures forall id :: id in products && (forall line :: line in lines ==> line.id != id) ==>
      Take(products, lines)[id] == products[id]
  {
    assert forall i :: 0 <= i < |lines| ==> lines[i] in lines;
    TakeByIndex(products, lines);
    forall id | id in LineIds(lines) ensures exists line :: line in lines && line.id == id {
      var i :| 0 <= i < |lines| && lines[i].id == id;
      assert lines[i] in lines;
    }
  }

  /** A sale moves exactly the ordered units from the shelf into the order. */
  lemma TakeMovesUnits(products: map<nat, Product>, lines: seq<Line>, p: nat)
    requires AscendingLines(lines)
    requires forall line :: line in lines ==> line.id in products && products[line.id] == line.product
    ensures StockOf(Take(products, lines), p) + Units(ItemsOf(lines), p) == StockOf(products, p)
  {
    TakeTouches(products, lines);
    UnitsOfLines(lines, p);
    if i :| 0 <= i < |lines| && lines[i].id == p {
      assert lines[i] in lines;
    }
  }

  /** Putting goods back returns exactly the units of the items, product by product. */
  lemma PutBackReturnsUnits(products: map<nat, Product>, items: seq<Item>)
    ensures PutBack(products, items).Keys == products.Keys
    ensures forall id :: id in products ==>
      PutBack(products, items)[id] == products[id].(stock := products[id].stock + Units(items, id))
  {
    if items != [] {
      PutBackReturnsUnits(products, items[..|items| - 1]);
    }
  }

  // ------------------------------------------------------------------------
  // Invariants of the tables
  // ------------------------------------------------------------------------

  predicate ItemsListed(products: map<nat, Product>, o: Order) {
    forall i :: 0 <= i < |o.ticket.items| ==> o.ticket.items[i].product in products
  }

  ghost predicate KeysUnique(orders: map<nat, Order>) {
    forall i, j :: i in orders && j in orders && orders[i].ticket.key == orders[j].ticket.key != "" ==> i == j
  }

  predicate ShelfOk(products: map<nat, Product>) {
    forall id :: id in products ==> 0 <= products[id].stock && 0 <= products[id].price
  }

  predicate RowsOk(products: map<nat, Product>, orders: map<nat, Order>) {
    forall id :: id in orders ==> RowOk(orders[id]) && ItemsListed(products, orders[id])
  }

  ghost predicate TablesOk(t: Tables) {
    ShelfOk(t.products) && RowsOk(t.products, t.orders) && KeysUnique(t.orders)
  }

  /** A job inserts under an id the database sequence has not issued before. */
  predicate Fresh(t: Tables, j: Job) {
    && (j.PlaceJob? ==> j.id !in t.orders)
    && (j.CreateJob? ==> j.product !in t.products)
  }

  /** Every order survives, and its later version owes the earlier one what Follows says. */
  ghost predicate OrdersFollow(a: map<nat, Order>, b: map<nat, Order>) {
    forall id :: id in a ==> id in b && Follows(a[id], b[id])
  }

  lemma EditsKeepRow(o: Order, edits: seq<Edit>, now: Time)
    requires RowOk(o) && EditsApplied(o, edits, now).Success?
    ensures var n := EditsApplied(o, edits, now).value;
      RowOk(n) && Follows(o, n) && Returned(n) == Returned(o) && (OnClock(o, now) ==> OnClock(n, now))
    decreases |edits|
  {
    if edits != [] {
      var mid := Edited(o, edits[0], now).value;
      EditKeepsRow(o, edits[0], now);
      EditKeepsReturned(o, edits[0], now);
      EditsKeepRow(mid, edits[1..], now);
      FollowsTransitive(o, mid, EditsApplied(mid, edits[1..], now).value);
    }
  }

  lemma DraftedRow(cfg: Settings, products: map<nat, Product>, c: Checkout, now: Time)
    requires cfg.Sane() && Drafted(cfg, products, c).Success?
    ensures var o := NewOrder(TicketFor(cfg, c, Drafted(cfg, products, c).value, now));
      RowOk(o) && OnClock(o, now) && ItemsListed(products, o) && !Returned(o)
  {
    var basket := Drafted(cfg, products, c).value;
    DraftedLines(cfg, products, c);
    BillAddsUp(cfg, Paise(ItemsTotal(basket.lines)), basket.deliveryType);
    forall i | 0 <= i < |basket.lines| ensures basket.lines[i].id in products {
      assert basket.lines[i] in basket.lines;
    }
  }

  /** Storing one sound row keeps the order table sound. */
  lemma RowStored(products: map<nat, Product>, orders: map<nat, Order>, id: nat, row: Order, after: map<nat, Product>)
    requires RowsOk(products, orders) && RowOk(row) && ItemsListed(products, row)
    requires products.Keys <= after.Keys
    ensures RowsOk(after, orders[id := row])
  {
    var stored := orders[id := row];
    forall k | k in stored ensures RowOk(stored[k]) && ItemsListed(after, stored[k]) {
      assert k != id ==> ItemsListed(products, orders[k]);
    }
  }

  lemma RowReplaced(orders: map<nat, Order>, id: nat, row: Order)
    requires KeysUnique(orders) && id in orders && Follows(orders[id], row)
    ensures KeysUnique(orders[id := row]) && OrdersFollow(orders, orders[id := row])
  {
    assert row.ticket == orders[id].ticket;
    forall i, j | i in orders && j in orders && orders[id := row][i].ticket.key == orders[id := row][j].ticket.key != ""
      ensures i == j
    {
      assert orders[i].ticket.key == orders[j].ticket.key;
    }
  }

  lemma RowAdded(orders: map<nat, Order>, id: nat, row: Order)
    requires KeysUnique(orders) && id !in orders && !KeyUsed(orders, row.ticket.key)
    ensures KeysUnique(orders[id := row]) && OrdersFollow(orders, orders[id := row])
  {
  }

  lemma TakeKeepsShelf(products: map<nat, Product>, lines: seq<Line>, wanted: map<nat, nat>)
    requires ShelfOk(products) && AscendingLines(lines)
    requires forall line :: line in lines ==> Carries(products, wanted, line)
    ensures ShelfOk(Take(products, lines)) && Take(products, lines).Keys == products.Keys
  {
    TakeTouches(products, lines);
    forall p | p in products
      ensures 0 <= Take(products, lines)[p].stock && 0 <= Take(products, lines)[p].price
    {
      if line :| line in lines && line.id == p {
        assert Carries(products, wanted, line);
      }
    }
  }

  lemma PlaceKeepsTables(cfg: Settings, t: Tables, c: Checkout, id: nat, now: Time)
    requires cfg.Sane() && TablesOk(t) && id !in t.orders
    requires Perform(cfg, t, PlaceJob(c, id), now).Success?
    ensures TablesOk(Perform(cfg, t, PlaceJob(c, id), now).value)
    ensures OrdersFollow(t.orders, Perform(cfg, t, PlaceJob(c, id), now).value.orders)
  {
    var basket := Drafted(cfg, t.products, c).value;
    var row := NewOrder(TicketFor(cfg, c, basket, now));
    DraftedLines(cfg, t.products, c);
    DraftedRow(cfg, t.products, c, now);
    TakeKeepsShelf(t.products, basket.lines, Requested(c.items));
    RowStored(t.products, t.orders, id, row, Take(t.products, basket.lines));
    RowAdded(t.orders, id, row);
  }

  lemma PutBackKeepsTables(t: Tables, id: nat, row: Order)
    requires TablesOk(t) && id in t.orders && RowOk(row) && Follows(t.orders[id], row)
    ensures TablesOk(Tables(PutBack(t.products, row.ticket.items), t.orders[id := row]))
    ensures OrdersFollow(t.orders, t.orders[id := row])
  {
    PutBackReturnsUnits(t.products, row.ticket.items);
    assert ItemsListed(t.products, t.orders[id]);
    RowStored(t.products, t.orders, id, row, PutBack(t.products, row.ticket.items));
    RowReplaced(t.orders, id, row);
  }

  lemma EditKeepsTables(t: Tables, id: nat, edits: seq<Edit>, now: Time)
    requires TablesOk(t) && id in t.orders && EditsApplied(t.orders[id], edits, now).Success?
    ensures var row := EditsApplied(t.orders[id], edits, now).value;
      TablesOk(t.(orders := t.orders[id := row])) && OrdersFollow(t.orders, t.orders[id := row])
  {
    var row := EditsApplied(t.orders[id], edits, now).value;
    EditsKeepRow(t.orders[id], edits, now);
    assert ItemsListed(t.products, t.orders[id]);
    RowStored(t.products, t.orders, id, row, t.products);
    RowReplaced(t.orders, id, row);
  }

  lemma CatalogueKeepsTables(t: Tables, after: map<nat, Product>)
    requires TablesOk(t) && ShelfOk(after)
    requires forall id :: id in t.products && id !in after ==> !Ordered(t.orders, id)
    ensures TablesOk(t.(products := after)) && OrdersFollow(t.orders, t.orders)
  {
    forall o | o in t.orders ensures ItemsListed(after, t.orders[o]) {
      assert ItemsListed(t.products, t.orders[o]);
      forall i | 0 <= i < |t.orders[o].ticket.items| ensures t.orders[o].ticket.items[i].product in after {
        var p := t.orders[o].ticket.items[i].product;
        assert p !in after ==> Ordered(t.orders, p);
      }
    }
  }

  /** Every job that succeeds keeps the tables' invariants and rewrites no order's record. */
  lemma PerformKeepsTables(cfg: Settings, t: Tables, j: Job, now: Time)
    requires cfg.Sane() && TablesOk(t) && Fresh(t, j) && Perform(cfg, t, j, now).Success?
    ensures TablesOk(Perform(cfg, t, j, now).value)
    ensures OrdersFollow(t.orders, Perform(cfg, t, j, now).value.orders)
  {
    match j
    case PlaceJob(c, id) => PlaceKeepsTables(cfg, t, c, id, now);
    case CancelJob(id, reason) =>
      CancelKeepsRow(t.orders[id], reason, now);
      PutBackKeepsTables(t, id, CancelledRow(t.orders[id], reason, now).value);
    case RestockJob(id) =>
      RestockKeepsRow(t.orders[id], now);
      PutBackKeepsTables(t, id, RestockedRow(t.orders[id], now).value);
    case EditJob(id, edits) => EditKeepsTables(t, id, edits, now);
    case PatchJob(id, patch) => CatalogueKeepsTables(t, Perform(cfg, t, j, now).value.products);
    case CreateJob(id, row) => CatalogueKeepsTables(t, t.products[id := row]);
    case DeleteJob(id) => CatalogueKeepsTables(t, t.products - {id});
  }

  /** Conservation: the supply of every product changes by exactly the job's catalogue edit. */
  lemma SupplyConserved(cfg: Settings, t: Tables, j: Job, now: Time, p: nat)
    requires cfg.Sane() && TablesOk(t) && Fresh(t, j) && Perform(cfg, t, j, now).Success?
    ensures Supply(Perform(cfg, t, j, now).value, p) == Supply(t, p) + StockEdit(t, j, p)
  {
    var after := Perform(cfg, t, j, now).value;
    match j
    case PlaceJob(c, id) =>
      var basket := Drafted(cfg, t.products, c).value;
      DraftedLines(cfg, t.products, c);
      TakeMovesUnits(t.products, basket.lines, p);
      OnOrderSet(t.orders, id, after.orders[id], p);
    case CancelJob(id, reason) =>
      CancelKeepsRow(t.orders[id], reason, now);
      GoodsComeBack(t, id, CancelledRow(t.orders[id], reason, now).value, p);
    case RestockJob(id) =>
      RestockKeepsRow(t.orders[id], now);
      GoodsComeBack(t, id, RestockedRow(t.orders[id], now).value, p);
    case EditJob(id, edits) =>
      EditsKeepRow(t.orders[id], edits, now);
      OnOrderSet(t.orders, id, after.orders[id], p);
    case PatchJob(id, patch) =>
    case CreateJob(id, row) =>
    case DeleteJob(id) =>
  }

  lemma GoodsComeBack(t: Tables, id: nat, row: Order, p: nat)
    requires id in t.orders && ItemsListed(t.products, t.orders[id])
    requires row.ticket == t.orders[id].ticket && !Returned(t.orders[id]) && Returned(row)
    ensures Supply(Tables(PutBack(t.products, row.ticket.items), t.orders[id := row]), p) == Supply(t, p)
  {
    PutBackReturnsUnits(t.products, row.ticket.items);
    OnOrderSet(t.orders, id, row, p);
    if p !in t.products {
      NoUnits(row.ticket.items, t.products, p);
    }
  }

  lemma NoUnits(items: seq<Item>, products: map<nat, Product>, p: nat)
    requires p !in products && forall i :: 0 <= i < |items| ==> items[i].product in products
    ensures Units(items, p) == 0
  {
  }

  /** A placed order records what was asked and sold: its key and position, the moment, the tier's
      own promise, the catalogue's prices; and no other order is touched. */
  lemma PlacedOrderRecords(cfg: Settings, t: Tables, c: Checkout, id: nat, now: Time)
    requires Perform(cfg, t, PlaceJob(c, id), now).Success?
    ensures var after := Perform(cfg, t, PlaceJob(c, id), now).value.orders;
      && id in after
      && var o := after[id];
      && o.status == Placed && o.rider.None? && o.paidAt.None? && o.packedAt.None?
      && o.ticket.key == c.key && o.ticket.position == c.position && o.ticket.created == now
      && o.ticket.deliveryType == ResolveTier(cfg, c.deliveryType).key
      && o.ticket.promisedMinutes == ResolveTier(cfg, c.deliveryType).promiseMinutes
      && (forall i :: 0 <= i < |o.ticket.items| ==> AtCataloguePrice(t.products, o.ticket.items[i]))
      && (forall other :: other in t.orders && other != id ==> other in after && after[other] == t.orders[other])
  {
    var draft := Drafted(cfg, t.products, c);
    PlacePerforms(cfg, t, c, id, now, draft);
    DraftedTier(cfg, t.products, c);
    DraftedRows(cfg, t.products, c);
    SoldRecords(cfg, t, c, id, draft.value, now);
    ResolvedTierIsSold(cfg, c.deliveryType);
  }

  lemma DraftedTier(cfg: Settings, products: map<nat, Product>, c: Checkout)
    requires Drafted(cfg, products, c).Success?
    ensures Drafted(cfg, products, c).value.deliveryType == ResolveTier(cfg, c.deliveryType).key
  {
  }

  predicate OnCatalogue(products: map<nat, Product>, lines: seq<Line>) {
    AscendingLines(lines) && forall line :: line in lines ==> line.id in products && line.product == products[line.id]
  }

  lemma DraftedRows(cfg: Settings, products: map<nat, Product>, c: Checkout)
    requires Drafted(cfg, products, c).Success?
    ensures OnCatalogue(products, Drafted(cfg, products, c).value.lines)
  {
    DraftedLines(cfg, products, c);
  }

  lemma SoldRecords(cfg: Settings, t: Tables, c: Checkout, id: nat, basket: Basket, now: Time)
    requires OnCatalogue(t.products, basket.lines)
    ensures var after := Sold(cfg, t, c, id, basket, now).orders;
      && id in after
      && var o := after[id];
      && o.status == Placed && o.rider.None? && o.paidAt.None? && o.packedAt.None?
      && o.ticket.key == c.key && o.ticket.position == c.position && o.ticket.created == now
      && o.ticket.deliveryType == ResolveTier(cfg, basket.deliveryType).key
      && o.ticket.promisedMinutes == ResolveTier(cfg, basket.deliveryType).promiseMinutes
      && (forall i :: 0 <= i < |o.ticket.items| ==> AtCataloguePrice(t.products, o.ticket.items[i]))
      && (forall other :: other in t.orders && other != id ==> other in after && after[other] == t.orders[other])
  {
    forall i | 0 <= i < |basket.lines| ensures AtCataloguePrice(t.products, ItemsOf(basket.lines)[i]) {
      assert basket.lines[i] in basket.lines;
    }
  }

  predicate AtCataloguePrice(products: map<nat, Product>, item: Item) {
    item.product in products && item.price == products[item.product].price && item.mrp == products[item.product].mrp
  }

  /** Of the products, a sale moves the stock and nothing else. */
  lemma SaleMovesStockOnly(cfg: Settings, t: Tables, c: Checkout, id: nat, now: Time, p: nat)
    requires Perform(cfg, t, PlaceJob(c, id), now).Success? && p in t.products
    ensures var after := Perform(cfg, t, PlaceJob(c, id), now).value;
      && p in after.products && id in after.orders
      && after.products[p] == t.products[p].(stock := t.products[p].stock - Units(after.orders[id].ticket.items, p))
  {
    var draft := Drafted(cfg, t.products, c);
    PlacePerforms(cfg, t, c, id, now, draft);
    DraftedRows(cfg, t.products, c);
    RowAfterSale(t.products, draft.value.lines, p);
  }

  lemma RowAfterSale(products: map<nat, Product>, lines: seq<Line>, p: nat)
    requires OnCatalogue(products, lines) && p in products
    ensures var after := Take(products, lines);
      p in after && after[p] == products[p].(stock := products[p].stock - Units(ItemsOf(lines), p))
  {
    TakeTouches(products, lines);
    TakeMovesUnits(products, lines, p);
    if line :| line in lines && line.id == p {
      assert Take(products, lines)[line.id] == Sale(line);
    }
  }

  /** A PATCH writes the columns it was sent and no other, is refused exactly when a sent value is
      negative or the prices it leaves contradict each other, and leaves a valid row valid. */
  lemma PatchMeaning(p: Product, patch: Patch)
    requires ProductValid(p)
    ensures Patched(p, patch).Success? <==>
      ProductValid(Product(Or(patch.price, p.price), Or(patch.mrp, p.mrp),
                           Or(patch.stock, p.stock), Or(patch.active, p.active)))
    ensures Patched(p, patch).Success? ==>
      var n := Patched(p, patch).value;
      && ProductValid(n)
      && n.price == (if patch.price.Some? then patch.price.value else p.price)
      && n.mrp == (if patch.mrp.Some? then patch.mrp.value else p.mrp)
      && n.stock == (if patch.stock.Some? then patch.stock.value else p.stock)
      && n.active == (if patch.active.Some? then patch.active.value else p.active)
  {
  }

  // ------------------------------------------------------------------------
  // Whole runs
  // ------------------------------------------------------------------------

  datatype Entry = Entry(job: Job, now: Time)

  /** The serial run of a log of committed jobs; None if one of them would have been refused. */
  function RunAll(cfg: Settings, t: Tables, log: seq<Entry>): Option<Tables> {
    if log == [] then Some(t)
    else match RunAll(cfg, t, log[..|log| - 1])
      case None => None
      case Some(mid) =>
        var last := log[|log| - 1];
        match Perform(cfg, mid, last.job, last.now)
        case Failure(_) => None
        case Success(after) => Some(after)
  }

  /** Every insert of the log used an id that was free at the time. */
  predicate FreshRun(cfg: Settings, t: Tables, log: seq<Entry>) {
    log == [] ||
    (FreshRun(cfg, t, log[..|log| - 1]) &&
     match RunAll(cfg, t, log[..|log| - 1])
     case None => false
     case Some(mid) => Fresh(mid, log[|log| - 1].job))
  }

  /** Net catalogue edits of a run to one product's stock. */
  function NetEdits(cfg: Settings, t: Tables, log: seq<Entry>, p: nat): int
    requires RunAll(cfg, t, log).Some?
  {
    if log == [] then 0
    else
      var init := log[..|log| - 1];
      NetEdits(cfg, t, init, p) + StockEdit(RunAll(cfg, t, init).value, log[|log| - 1].job, p)
  }

  predicate ReturnsGoods(j: Job, id: nat) {
    (j.CancelJob? || j.RestockJob?) && j.order == id
  }

  /** How often a run put one order's goods back. */
  function ReturnCount(log: seq<Entry>, id: nat): nat {
    if log == [] then 0
    else ReturnCount(log[..|log| - 1], id) + if ReturnsGoods(log[|log| - 1].job, id) then 1 else 0
  }

  lemma OrdersFollowTransitive(a: map<nat, Order>, b: map<nat, Order>, c: map<nat, Order>)
    requires OrdersFollow(a, b) && OrdersFollow(b, c)
    ensures OrdersFollow(a, c)
  {
    forall id | id in a ensures id in c && Follows(a[id], c[id]) {
      FollowsTransitive(a[id], b[id], c[id]);
    }
  }

  /** On every run: the tables stay sound, no order's record is rewritten, no stock goes
      negative, and each product's shelf plus bags equals its opening supply plus the net
      catalogue edits. */
  lemma {:induction false} RunConserves(cfg: Settings, t: Tables, log: seq<Entry>, p: nat)
    requires cfg.Sane() && TablesOk(t) && RunAll(cfg, t, log).Some? && FreshRun(cfg, t, log)
    ensures var end := RunAll(cfg, t, log).value;
      && TablesOk(end)
      && OrdersFollow(t.orders, end.orders)
      && Supply(end, p) == Supply(t, p) + NetEdits(cfg, t, log, p)
      && 0 <= StockOf(end.products, p)
    decreases |log|
  {
    if log != [] {
      var init, last := log[..|log| - 1], log[|log| - 1];
      RunConserves(cfg, t, init, p);
      var mid := RunAll(cfg, t, init).value;
      PerformKeepsTables(cfg, mid, last.job, last.now);
      SupplyConserved(cfg, mid, last.job, last.now, p);
      OrdersFollowTransitive(t.orders, mid.orders, RunAll(cfg, t, log).value.orders);
    }
  }

  function LastTime(log: seq<Entry>, start: Time): Time {
    if log == [] then start else log[|log| - 1].now
  }

  /** The clock of a run never goes back. */
  predicate Timed(log: seq<Entry>, start: Time) {
    log == [] ||
    (Timed(log[..|log| - 1], start) && LastTime(log[..|log| - 1], start) <= log[|log| - 1].now)
  }

  predicate AllOnClock(orders: map<nat, Order>, now: Time) {
    forall id :: id in orders ==> OnClock(orders[id], now)
  }

  lemma OnClockLater(o: Order, now: Time, later: Time)
    requires OnClock(o, now) && now <= later
    ensures OnClock(o, later)
  {
  }

  lemma StoredOnClock(orders: map<nat, Order>, id: nat, row: Order, now: Time, clock: Time)
    requires AllOnClock(orders, clock) && OnClock(row, now) && now <= clock
    ensures AllOnClock(orders[id := row], clock)
  {
    OnClockLater(row, now, clock);
  }

  lemma PlaceDrafts(cfg: Settings, t: Tables, c: Checkout, id: nat, now: Time)
    requires cfg.Sane() && Perform(cfg, t, PlaceJob(c, id), now).Success?
    ensures var after := Perform(cfg, t, PlaceJob(c, id), now).value.orders;
      id in after && OnClock(after[id], now) &&
      forall o :: o in after && o != id ==> o in t.orders && after[o] == t.orders[o]
  {
    DraftedRow(cfg, t.products, c, now);
  }

  lemma PerformKeepsClock(cfg: Settings, t: Tables, j: Job, start: Time, now: Time)
    requires cfg.Sane() && TablesOk(t) && Fresh(t, j) && Perform(cfg, t, j, now).Success?
    requires AllOnClock(t.orders, start) && start <= now
    ensures AllOnClock(Perform(cfg, t, j, now).value.orders, now)
  {
    forall id | id in t.orders ensures OnClock(t.orders[id], now) {
      OnClockLater(t.orders[id], start, now);
    }
    match j
    case PlaceJob(c, id) => PlaceDrafts(cfg, t, c, id, now);
    case CancelJob(id, reason) =>
      CancelKeepsRow(t.orders[id], reason, now);
      StoredOnClock(t.orders, id, CancelledRow(t.orders[id], reason, now).value, now, now);
    case RestockJob(id) =>
      RestockKeepsRow(t.orders[id], now);
      StoredOnClock(t.orders, id, RestockedRow(t.orders[id], now).value, now, now);
    case EditJob(id, edits) =>
      EditsKeepRow(t.orders[id], edits, now);
      StoredOnClock(t.orders, id, EditsApplied(t.orders[id], edits, now).value, now, now);
    case PatchJob(_, _) =>
    case CreateJob(_, _) =>
    case DeleteJob(_) =>
  }

  /** On every run under a clock that never goes back, every order's stamps lie in lifecycle
      order: created, packed, dispatched, then delivered or ended. */
  lemma {:induction false} RunKeepsClock(cfg: Settings, t: Tables, log: seq<Entry>, start: Time)
    requires cfg.Sane() && TablesOk(t) && RunAll(cfg, t, log).Some? && FreshRun(cfg, t, log)
    requires AllOnClock(t.orders, start) && Timed(log, start)
    ensures AllOnClock(RunAll(cfg, t, log).value.orders, LastTime(log, start))
    decreases |log|
  {
    if log != [] {
      var init, last := log[..|log| - 1], log[|log| - 1];
      RunKeepsClock(cfg, t, init, start);
      assert TablesOk(RunAll(cfg, t, init).value) by { RunConserves(cfg, t, init, 0); }
      PerformKeepsClock(cfg, RunAll(cfg, t, init).value, last.job, LastTime(init, start), last.now);
    }
  }

  /** No run puts an order's goods back twice, by any mix of cancelling and restocking; once
      they are back, no later run returns them at all. */
  lemma {:induction false} GoodsReturnAtMostOnce(cfg: Settings, t: Tables, log: seq<Entry>, id: nat)
    requires cfg.Sane() && TablesOk(t) && RunAll(cfg, t, log).Some? && FreshRun(cfg, t, log)
    ensures ReturnCount(log, id) <= 1
    ensures id in t.orders ==>
      var before, after := t.orders[id], RunAll(cfg, t, log).value.orders;
      id in after && ReturnCount(log, id) + (if Returned(before) then 1 else 0) == if Returned(after[id]) then 1 else 0
    ensures id !in t.orders && id in RunAll(cfg, t, log).value.orders ==>
      ReturnCount(log, id) == if Returned(RunAll(cfg, t, log).value.orders[id]) then 1 else 0
    ensures id !in RunAll(cfg, t, log).value.orders ==> ReturnCount(log, id) == 0
    decreases |log|
  {
    if log != [] {
      var init, last := log[..|log| - 1], log[|log| - 1];
      GoodsReturnAtMostOnce(cfg, t, init, id);
      RunConserves(cfg, t, init, 0);
      OneJobReturns(cfg, RunAll(cfg, t, init).value, last.job, last.now, id);
    }
  }

  /** A job returns an order's goods exactly when it is that order's cancel or restock, and
      then they were not back before. */
  lemma OneJobReturns(cfg: Settings, t: Tables, j: Job, now: Time, id: nat)
    requires cfg.Sane() && TablesOk(t) && Fresh(t, j) && Perform(cfg, t, j, now).Success?
    ensures var after := Perform(cfg, t, j, now).value.orders;
      && (id in t.orders ==>
            && id in after
            && (Returned(after[id]) <==> Returned(t.orders[id]) || ReturnsGoods(j, id))
            && (ReturnsGoods(j, id) ==> !Returned(t.orders[id])))
      && (id !in t.orders ==> !ReturnsGoods(j, id) && (id in after ==> !Returned(after[id])))
  {
    match j
    case PlaceJob(c, i) => DraftedRow(cfg, t.products, c, now);
    case CancelJob(i, reason) => CancelKeepsRow(t.orders[i], reason, now);
    case RestockJob(i) => RestockKeepsRow(t.orders[i], now);
    case EditJob(i, edits) => EditsKeepRow(t.orders[i], edits, now);
    case PatchJob(i, patch) =>
    case CreateJob(i, row) =>
    case DeleteJob(i) =>
  }
}
