/** The requests as the views and the checkout run them: step by step on the stored rows, each
    proved to do exactly what the shop's state machine says. */
module Requests {
  import opened Prelude
  import opened Pricing
  import opened Orders
  import opened Baskets
  import opened Checkouts
  import opened Ledger
  import opened Dispatch
  import opened Feed
  import opened Shops
  import opened ShopRuns
  import opened ShopEffects
  import opened OrderModels

  /** The state after a request, and its answer, are the ones the state machine gives. */
  predicate Answered(env: Env, before: Shop, req: Request, now: Time, after: Shop, refused: Option<Refusal>) {
    match Step(env, before, req, now)
    case Failure(e) => refused == Some(e) && after == before
    case Success(n) => refused.None? && after == n
  }

  class Store {
    const env: Env
    var products: map<nat, Product>
    var orders: map<nat, Order>
    var roster: map<nat, Rider>
    var declines: Declines
    var nextOrder: nat
    var nextProduct: nat
    var nextUser: nat

    function State(): Shop reads this {
      Shop(Tables(products, orders), roster, declines, nextOrder, nextProduct, nextUser)
    }

    ghost predicate Valid() reads this {
      env.cfg.Sane() && ShopOk(State())
    }

    // ----------------------------------------------------------------------
    // Checkout
    // ----------------------------------------------------------------------

    /** _return_stock: the rows of the items, read together, added to one item at a time, and
        written back in bulk. */
    method ReturnStock(items: seq<Item>)
      modifies this`products
      ensures products == PutBack(old(products), items)
    {
      var ids := set i | 0 <= i < |items| :: items[i].product;
      var rows: map<nat, Product> := map id | id in products && id in ids :: products[id];
      assert products + rows == products;
      for i := 0 to |items|
        invariant products == old(products)
        invariant rows.Keys == products.Keys * ids
        invariant products + rows == PutBack(products, items[..i])
      {
        var item := items[i];
        ghost var before := products + rows;
        assert items[..i + 1][..i] == items[..i];
        assert item.product in ids;
        if item.product in rows {
          var row := rows[item.product];
          assert before[item.product] == row;
          rows := rows[item.product := row.(stock := row.stock + item.quantity)];
          assert products + rows == before[item.product := row.(stock := row.stock + item.quantity)];
        }
      }
      assert items[..|items|] == items;
      products := products + rows;
    }

    /** The gates of _place_order, up to its INSERT: the basket to sell. */
    method Draft(c: Checkout) returns (r: Result<Basket, Refusal>)
      ensures r == Drafted(env.cfg, products, c)
    {
      if !c.shopOpen {
        return Failure(StoreClosed);
      }
      if c.position.Some? && c.tooFar {
        return Failure(OutOfArea);
      }
      var read := ReadBasket(env.cfg, products, c.items, c.deliveryType);
      if read.Failure? {
        return Failure(read.error);
      }
      var basket := read.value;
      if basket.unavailable != [] {
        return Failure(Unavailable(basket.unavailable));
      }
      if basket.lines == [] {
        return Failure(EmptyBasket);
      }
      if ItemsTotal(basket.lines) < Decimals.Money(env.cfg.minOrder) {
        return Failure(BelowMinimum);
      }
      return Success(basket);
    }

    /** _place_order: one transaction, from the gates to the stock decrement. */
    method PlaceInTransaction(c: Checkout, now: Time) returns (r: Result<nat, Refusal>)
      modifies this`products, this`orders, this`nextOrder
      ensures match Perform(env.cfg, old(State()).tables, PlaceJob(c, old(nextOrder)), now)
        case Failure(e) => r == Failure(e) && State() == old(State())
        case Success(t) =>
          r == Success(old(nextOrder)) && State() == old(State()).(tables := t, nextOrder := old(nextOrder) + 1)
    {
      var draft := Draft(c);
      PlaceAnswers(env.cfg, State().tables, c, nextOrder, now, draft);
      if draft.Failure? {
        return Failure(draft.error);
      }
      var basket := draft.value;
      if KeyUsed(orders, c.key) {
        return Failure(KeyTaken);
      }
      var id := WriteOrder(c, basket, now);
      return Success(id);
    }

    /** The writes: the order with its items, and the stock. */
    method WriteOrder(c: Checkout, basket: Basket, now: Time) returns (id: nat)
      modifies this`products, this`orders, this`nextOrder
      ensures id == old(nextOrder)
      ensures State() ==
        old(State()).(tables := Sold(env.cfg, old(State()).tables, c, id, basket, now), nextOrder := id + 1)
    {
      id := nextOrder;
      nextOrder := nextOrder + 1;
      orders := orders[id := NewOrder(TicketFor(env.cfg, c, basket, now))];
      Sell(basket.lines);
    }

    /** The stock decrement, line by line on the rows as they were locked. */
    method Sell(lines: seq<Line>)
      modifies this`products
      ensures products == Take(old(products), lines)
    {
      for i := 0 to |lines|
        invariant products == Take(old(products), lines[..i])
      {
        var line := lines[i];
        assert lines[..i + 1][..i] == lines[..i];
        products := products[line.id := line.product.(stock := line.product.stock - line.quantity)];
      }
      assert lines[..|lines|] == lines;
    }

    /** place_order: a key already on file is answered with its order; otherwise the transaction
        runs, and reports that it created the order it returns. */
    method PlaceOrder(c: Checkout, now: Time) returns (refused: Option<Refusal>, order: nat, created: bool)
      requires Valid()
      modifies this
      ensures Valid()
      ensures Answered(env, old(State()), Request.PlaceOrder(c), now, State(), refused)
      ensures refused.None? ==> order in orders && orders[order].ticket.key == c.key
      ensures refused.None? ==> (created <==> order !in old(orders)) && (!created ==> c.key != "")
    {
      order, created := 0, false;
      ghost var before := State();
      if KeyUsed(orders, c.key) {
        order :| order in orders && orders[order].ticket.key == c.key;
        return None, order, false;
      }
      var placed := PlaceInTransaction(c, now);
      assert placed.Success? ==> ShopOk(State()) by {
        if placed.Success? {
          StepKeepsShop(env, before, Request.PlaceOrder(c), now);
        }
      }
      if placed.Failure? {
        return Some(placed.error), order, created;
      }
      return None, placed.value, true;
    }

    /** cancel_order: the row under its lock, then the goods. */
    method CancelInTransaction(id: nat, reason: string, now: Time) returns (refused: Option<Refusal>)
      requires id in orders
      modifies this`orders, this`products
      ensures match Perform(env.cfg, old(State()).tables, CancelJob(id, reason), now)
        case Failure(e) => refused == Some(e) && State() == old(State())
        case Success(t) => refused.None? && State() == old(State()).(tables := t)
    {
      var locked := new OrderModel(orders[id]);
      var changed := locked.Cancel(reason, now);
      if changed.Failure? {
        return Some(changed.error);
      }
      orders := orders[id := Saved(orders[id], locked.Row(), changed.value)];
      ReturnStock(locked.ticket.items);
      return None;
    }

    method CancelOrder(id: nat, reason: string, now: Time) returns (refused: Option<Refusal>)
      requires Valid()
      modifies this
      ensures Valid()
      ensures Answered(env, old(State()), Request.CancelOrder(id, reason), now, State(), refused)
    {
      if id !in orders {
        return Some(NotFound);
      }
      ghost var before := State();
      refused := CancelInTransaction(id, reason, now);
      if refused.None? {
        StepKeepsShop(env, before, Request.CancelOrder(id, reason), now);
      }
    }

    /** restock_failed_order: the goods first, then the stamp that makes it happen once. */
    method RestockInTransaction(id: nat, now: Time) returns (refused: Option<Refusal>)
      requires id in orders
      modifies this`orders, this`products
      ensures match Perform(env.cfg, old(State()).tables, RestockJob(id), now)
        case Failure(e) => refused == Some(e) && State() == old(State())
        case Success(t) => refused.None? && State() == old(State()).(tables := t)
    {
      var locked := new OrderModel(orders[id]);
      if locked.status != Failed {
        return Some(Conflict);
      }
      if locked.restockedAt.Some? {
        return Some(Conflict);
      }
      ReturnStock(locked.ticket.items);
      var changed := locked.MarkRestocked(now);
      orders := orders[id := Saved(orders[id], locked.Row(), changed)];
      return None;
    }

    method RestockOrder(id: nat, now: Time) returns (refused: Option<Refusal>)
      requires Valid()
      modifies this
      ensures Valid()
      ensures Answered(env, old(State()), Request.RestockOrder(id), now, State(), refused)
    {
      if id !in orders {
        return Some(NotFound);
      }
      ghost var before := State();
      refused := RestockInTransaction(id, now);
      if refused.None? {
        StepKeepsShop(env, before, Request.RestockOrder(id), now);
      }
    }

    // ----------------------------------------------------------------------
    // Products
    // ----------------------------------------------------------------------

    /** The product PATCH: only the columns that were sent are written. */
    method PatchProduct(id: nat, patch: Patch, now: Time) returns (refused: Option<Refusal>)
      requires Valid()
      modifies this
      ensures Valid()
      ensures Answered(env, old(State()), Request.PatchProduct(id, patch), now, State(), refused)
    {
      if id !in products {
        return Some(NotFound);
      }
      ghost var before := State();
      var product := products[id];
      if Patched(product, patch).Failure? {
        return Some(Patched(product, patch).error);
      }
      if patch.price.Some? {
        product := product.(price := patch.price.value);
      }
      if patch.mrp.Some? {
        product := product.(mrp := patch.mrp.value);
      }
      if patch.stock.Some? {
        product := product.(stock := patch.stock.value);
      }
      if patch.active.Some? {
        product := product.(active := patch.active.value);
      }
      products := products[id := product];
      StepKeepsShop(env, before, Request.PatchProduct(id, patch), now);
      return None;
    }

    /** Product deletion, refused while any order lists the product. */
    method DeleteProduct(id: nat, now: Time) returns (refused: Option<Refusal>)
      requires Valid()
      modifies this
      ensures Valid()
      ensures Answered(env, old(State()), Request.DeleteProduct(id), now, State(), refused)
    {
      if id !in products {
        return Some(NotFound);
      }
      ghost var before := State();
      if Ordered(orders, id) {
        return Some(Conflict);
      }
      products := products - {id};
      StepKeepsShop(env, before, Request.DeleteProduct(id), now);
      return None;
    }

    // ----------------------------------------------------------------------
    // Dispatch
    // ----------------------------------------------------------------------

    /** eligible_riders: who is carrying, who has declined, and the ranked rest of the shift. */
    method EligibleRiders(id: nat) returns (ranked: seq<Ranked>)
      requires id in orders
      ensures ranked == Eligible(env.geo, roster, declines, orders, id, orders[id])
    {
      var carrying := Carrying(orders);
      var declined := set r | r in roster && (id, r) in declines;
      var candidates := SortedIds(set r | r in roster && OnShift(roster[r]));
      var free: seq<nat> := [];
      for i := 0 to |candidates|
        invariant forall r :: r in free <==> r in candidates[..i] && r !in carrying && r !in declined
        invariant Ascending(free)
      {
        assert candidates[..i + 1] == candidates[..i] + [candidates[i]];
        if candidates[i] !in carrying && candidates[i] !in declined {
          forall j | 0 <= j < |free| ensures free[j] < candidates[i] {
            assert free[j] in free;
            var k :| 0 <= k < i && candidates[..i][k] == free[j];
          }
          free := free + [candidates[i]];
        }
      }
      assert candidates[..|candidates|] == candidates;
      var ids := ShiftIds(roster, declines, id) - carrying;
      assert forall r :: r in free <==> r in SortedIds(ids);
      AscendingUnique(free, SortedIds(ids));
      ranked := Rank(env.geo, orders[id], roster, free);
    }

    /** auto_assign: the nearest eligible rider, or nobody. */
    method AutoAssign(id: nat, now: Time)
      requires id in orders
      modifies this`orders
      ensures State() == AutoAssigned(env, old(State()), id, now)
    {
      if !env.autoAssign {
        return;
      }
      var order := new OrderModel(orders[id]);
      if order.status != Ready || order.rider.Some? {
        return;
      }
      var ranked := EligibleRiders(id);
      if ranked == [] {
        return;
      }
      var changed := order.HandTo(ranked[0].id, ranked[0].km, now);
      orders := orders[id := Saved(orders[id], order.Row(), changed)];
    }

    /** The status change on the locked row, and the decline of a rider who hands it back. */
    method MoveOrder(actor: Actor, id: nat, target: Status, reason: string, amount: Option<nat>, now: Time)
      returns (refused: Option<Refusal>)
      requires Valid() && target in Targets(actor) && target != Cancelled
      requires actor.Rider? ==> OnRoster(State(), actor.id)
      requires target != Delivered ==> amount.None?
      modifies this`orders, this`declines
      ensures match Moved(env, old(State()), actor, id, target, reason, amount, now)
        case Failure(e) => refused == Some(e) && State() == old(State())
        case Success(n) => refused.None? && State() == n && id in orders
    {
      if id !in orders {
        return Some(NotFound);
      }
      MoveEffect(env, State(), actor, id, target, reason, amount, now);
      var order := new OrderModel(orders[id]);
      var changed := order.SetStatus(actor, target, reason, amount, now);
      if changed.Failure? {
        return Some(changed.error);
      }
      orders := orders[id := Saved(orders[id], order.Row(), changed.value)];
      if target == Ready && actor.Rider? {
        declines := declines + {(id, actor.id)};
      }
      return None;
    }

    /** The status PATCH: the move, then dispatch in the same transaction when the order is
        Ready. */
    method PatchStatus(actor: Actor, id: nat, target: Status, reason: string, amount: Option<int>, now: Time)
      returns (refused: Option<Refusal>)
      requires Valid()
      modifies this
      ensures Valid()
      ensures Answered(env, old(State()), Request.PatchStatus(actor, id, target, reason, amount), now, State(), refused)
    {
      if actor.Rider? && !(actor.id in roster && roster[actor.id].delivery && roster[actor.id].active) {
        return Some(Forbidden);
      }
      if amount.Some? && (amount.value < 0 || target != Delivered) {
        return Some(Invalid);
      }
      if target !in Targets(actor) {
        return Some(Forbidden);
      }
      if target == Cancelled {
        CancelByStatus(env, State(), actor, id, reason, now);
        refused := CancelOrder(id, if reason == "" then "Cancelled by store" else reason, now);
        return;
      }
      ghost var before := State();
      refused := MoveAndDispatch(actor, id, target, reason, Natural(amount), now);
      if refused.None? {
        StepKeepsShop(env, before, Request.PatchStatus(actor, id, target, reason, amount), now);
      }
    }

    method MoveAndDispatch(actor: Actor, id: nat, target: Status, reason: string, amount: Option<nat>, now: Time)
      returns (refused: Option<Refusal>)
      requires Valid() && target in Targets(actor) && target != Cancelled
      requires actor.Rider? ==> OnRoster(State(), actor.id)
      requires target != Delivered ==> amount.None?
      modifies this`orders, this`declines
      ensures match StatusPatched(env, old(State()), actor, id, target, reason, amount, now)
        case Failure(e) => refused == Some(e) && State() == old(State())
        case Success(n) => refused.None? && State() == n
    {
      refused := MoveOrder(actor, id, target, reason, amount, now);
      if refused.None? && target == Ready {
        AutoAssign(id, now);
      }
    }

    /** A rider's claim on a packed order. */
    method AcceptOrder(r: nat, id: nat, now: Time) returns (refused: Option<Refusal>)
      requires Valid()
      modifies this
      ensures Valid()
      ensures Answered(env, old(State()), Request.AcceptOrder(r, id), now, State(), refused)
    {
      ghost var before := State();
      if !(r in roster && roster[r].delivery && roster[r].active) {
        return Some(Forbidden);
      }
      if id !in orders {
        return Some(NotFound);
      }
      TwoEdits(orders[id], Accept(r), Accept(r), now);
      var order := new OrderModel(orders[id]);
      var changed := order.Accept(r, now);
      if changed.Failure? {
        return Some(changed.error);
      }
      orders := orders[id := Saved(orders[id], order.Row(), changed.value)];
      StepKeepsShop(env, before, Request.AcceptOrder(r, id), now);
      return None;
    }

    /** A manager's hand-over. */
    method AssignOrder(id: nat, r: nat, now: Time) returns (refused: Option<Refusal>)
      requires Valid()
      modifies this
      ensures Valid()
      ensures Answered(env, old(State()), Request.AssignOrder(id, r), now, State(), refused)
    {
      ghost var before := State();
      if !(r in roster && roster[r].delivery && roster[r].active) {
        return Some(Invalid);
      }
      if id !in orders {
        return Some(NotFound);
      }
      TwoEdits(orders[id], Assign(r), Assign(r), now);
      var order := new OrderModel(orders[id]);
      var changed, saved := order.Assign(r, now);
      if changed.Failure? {
        return Some(changed.error);
      }
      orders := orders[id := Saved(saved, order.Row(), changed.value)];
      StepKeepsShop(env, before, Request.AssignOrder(id, r), now);
      return None;
    }

    /** A rider's decline of an order on offer to them. */
    method RejectOrder(r: nat, id: nat, now: Time) returns (refused: Option<Refusal>)
      requires Valid()
      modifies this
      ensures Valid()
      ensures Answered(env, old(State()), Request.RejectOrder(r, id), now, State(), refused)
    {
      ghost var before := State();
      if !(r in roster && roster[r].delivery && roster[r].active) {
        return Some(Forbidden);
      }
      if id !in orders {
        return Some(NotFound);
      }
      if (id, r) in declines {
        return None;
      }
      if orders[id].status in TERMINAL || orders[id].status != Ready {
        return Some(Conflict);
      }
      var reachable := Reachable(env.geo, roster, declines, id, orders[id]);
      if r !in (set x | x in reachable :: x.id) {
        return Some(Conflict);
      }
      if orders[id].rider == Some(r) {
        return Some(Conflict);
      }
      declines := declines + {(id, r)};
      StepKeepsShop(env, before, Request.RejectOrder(r, id), now);
      return None;
    }
  }

  /** A set of ids has one ascending listing. */
  lemma {:induction false} AscendingUnique(a: seq<nat>, b: seq<nat>)
    requires Ascending(a) && Ascending(b)
    requires forall x :: x in a <==> x in b
    ensures a == b
    decreases |a|
  {
    assert |a| > 0 ==> a[0] in b;
    assert |b| > 0 ==> b[0] in a;
    if a != [] && b != [] {
      var m, n := |a| - 1, |b| - 1;
      assert a[m] in b && b[n] in a;
      assert a[m] == b[n];
      assert a == a[..m] + [a[m]] && b == b[..n] + [b[n]];
      forall x ensures x in a[..m] <==> x in b[..n] {
        assert x in a[..m] <==> x in a && x != a[m];
        assert x in b[..n] <==> x in b && x != b[n];
      }
      AscendingUnique(a[..m], b[..n]);
    }
  }
}
