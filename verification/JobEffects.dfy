/** What each transaction does to each row, and exactly when it is refused, written out in the rows'
    own columns. */
module JobEffects {
  import opened Prelude
  import opened Decimals
  import opened Pricing
  import opened Orders
  import opened Baskets
  import opened Checkouts
  import opened Bills
  import opened Ledger

  /** The products after an order's goods have gone back to them: stock and nothing else. */
  predicate GoodsBack(before: map<nat, Product>, after: map<nat, Product>, items: seq<Item>) {
    && after.Keys == before.Keys
    && forall p :: p in before ==> p in after && after[p] == before[p].(stock := before[p].stock + Units(items, p))
  }

  /** Cancelling: an order still in the store, whose row records the moment and the reason and whose
      goods all go back; anything else is refused. */
  lemma CancelEffect(cfg: Settings, t: Tables, id: nat, reason: string, now: Time)
    requires TablesOk(t)
    ensures var r := Perform(cfg, t, CancelJob(id, reason), now);
      if id !in t.orders then r == Failure(NotFound)
      else if t.orders[id].status !in {Placed, Packing, Ready} then r == Failure(Conflict)
      else
        && r.Success?
        && r.value.orders == t.orders[id := t.orders[id].(status := Cancelled, cancelledAt := Some(now),
                                                          reason := if reason == "" then "Cancelled" else reason)]
        && GoodsBack(t.products, r.value.products, t.orders[id].ticket.items)
  {
    if id in t.orders {
      CancelRecords(t.orders[id], reason, now);
      PutBackReturnsUnits(t.products, t.orders[id].ticket.items);
    }
  }

  /** Restocking: a failed order not yet restocked, whose row records the moment and whose goods all
      go back; anything else is refused. */
  lemma RestockEffect(cfg: Settings, t: Tables, id: nat, now: Time)
    requires TablesOk(t)
    ensures var r := Perform(cfg, t, RestockJob(id), now);
      if id !in t.orders then r == Failure(NotFound)
      else if t.orders[id].status != Failed || t.orders[id].restockedAt.Some? then r == Failure(Conflict)
      else
        && r.Success?
        && r.value.orders == t.orders[id := t.orders[id].(restockedAt := Some(now))]
        && GoodsBack(t.products, r.value.products, t.orders[id].ticket.items)
  {
    if id in t.orders {
      RestockRecords(t.orders[id], now);
      PutBackReturnsUnits(t.products, t.orders[id].ticket.items);
    }
  }

  /** A PATCH: the row as it would be, if that is valid; no other row moves. */
  lemma PatchEffect(cfg: Settings, t: Tables, id: nat, patch: Patch, now: Time)
    requires id in t.products ==> ProductValid(t.products[id])
    ensures var r := Perform(cfg, t, PatchJob(id, patch), now);
      if id !in t.products then r == Failure(NotFound)
      else
        var p := t.products[id];
        var row := Product(if patch.price.Some? then patch.price.value else p.price,
                           if patch.mrp.Some? then patch.mrp.value else p.mrp,
                           if patch.stock.Some? then patch.stock.value else p.stock,
                           if patch.active.Some? then patch.active.value else p.active);
        if row.price < 0 || row.mrp < 0 || row.stock < 0 || (0 < row.mrp < row.price) then r == Failure(Invalid)
        else r == Success(Tables(t.products[id := row], t.orders))
  {
    if id in t.products {
      PatchMeaning(t.products[id], patch);
    }
  }

  /** Creation and deletion of a product, each one row. */
  lemma CatalogueEffect(cfg: Settings, t: Tables, id: nat, row: Product, now: Time)
    ensures var r := Perform(cfg, t, CreateJob(id, row), now);
      if row.price < 0 || row.mrp < 0 || row.stock < 0 || (0 < row.mrp < row.price) then r == Failure(Invalid)
      else r == Success(Tables(t.products[id := row], t.orders))
    ensures var r := Perform(cfg, t, DeleteJob(id), now);
      if id !in t.products then r == Failure(NotFound)
      else if o, i :| o in t.orders && 0 <= i < |t.orders[o].ticket.items| && t.orders[o].ticket.items[i].product == id
      then r == Failure(Conflict)
      else r == Success(Tables(t.products - {id}, t.orders))
  {
  }

  /** An edit of one order's row touches no other row. */
  lemma EditEffect(cfg: Settings, t: Tables, id: nat, e: Edit, now: Time)
    ensures var r := Perform(cfg, t, EditJob(id, [e]), now);
      if id !in t.orders then r == Failure(NotFound)
      else match Edited(t.orders[id], e, now)
        case Failure(error) => r == Failure(error)
        case Success(row) => r == Success(Tables(t.products, t.orders[id := row]))
  {
    assert [e][1..] == [];
    if id in t.orders {
      assert EditsApplied(t.orders[id], [e], now) == Edited(t.orders[id], e, now);
    }
  }

  /** Placing: refused as the raw request, the catalogue and the key decide; otherwise one new order,
      billed from the raw request, and exactly the requested units off the shelf. */
  lemma PlaceEffect(cfg: Settings, t: Tables, raw: seq<Wanted>, c: Checkout, id: nat, now: Time)
    requires Acceptable(cfg, raw) && IsMerge(raw, c.items)
    ensures var r := Perform(cfg, t, PlaceJob(c, id), now);
      var short := Short(t.products, raw, Requested(c.items));
      if !c.shopOpen then r == Failure(StoreClosed)
      else if c.position.Some? && c.tooFar then r == Failure(OutOfArea)
      else if short != {} then r.Failure? && r.error.Unavailable? && ShortIds(r.error.shortages) == short
      else if RawCost(t.products, raw) < Money(cfg.minOrder) then r == Failure(BelowMinimum)
      else if c.key != "" && exists x :: x in t.orders && t.orders[x].ticket.key == c.key then r == Failure(KeyTaken)
      else r.Success? && PlacedOrder(cfg, t, raw, c, id, now, r.value)
  {
    var draft := Drafted(cfg, t.products, c);
    DraftFromRequest(cfg, t.products, raw, c);
    if draft.Success? && !KeyUsed(t.orders, c.key) {
      PlacedIs(cfg, t, raw, c, id, now);
    }
  }

  ghost predicate PlacedOrder(cfg: Settings, t: Tables, raw: seq<Wanted>, c: Checkout, id: nat, now: Time,
                              after: Tables)
  {
    && id in after.orders
    && var o := after.orders[id];
    && after.orders == t.orders[id := o]
    && o.status == Placed && o.rider.None? && o.ticket.key == c.key && o.ticket.created == now
    && o.ticket.position == c.position
    && o.ticket.deliveryType == "instant" && o.ticket.promisedMinutes == cfg.promiseMinutes
    && IsBill(cfg, RawCost(t.products, raw), o.ticket.itemsTotal, o.ticket.deliveryFee, o.ticket.handlingFee,
              o.ticket.grandTotal)
    && (forall i :: 0 <= i < |o.ticket.items| ==>
          && AtCataloguePrice(t.products, o.ticket.items[i])
          && o.ticket.items[i].lineTotal == o.ticket.items[i].price * o.ticket.items[i].quantity)
    && (forall p: nat :: Units(o.ticket.items, p) == Total(raw, p))
    && after.products.Keys == t.products.Keys
    && (forall p :: p in t.products ==>
          p in after.products && after.products[p] == t.products[p].(stock := t.products[p].stock - Total(raw, p)))
  }

  lemma PlacedIs(cfg: Settings, t: Tables, raw: seq<Wanted>, c: Checkout, id: nat, now: Time)
    requires Acceptable(cfg, raw) && IsMerge(raw, c.items)
    requires Drafted(cfg, t.products, c).Success? && !KeyUsed(t.orders, c.key)
    ensures Perform(cfg, t, PlaceJob(c, id), now).Success?
    ensures PlacedOrder(cfg, t, raw, c, id, now, Perform(cfg, t, PlaceJob(c, id), now).value)
  {
    var draft := Drafted(cfg, t.products, c);
    PlacePerforms(cfg, t, c, id, now, draft);
    PlacedOrderRecords(cfg, t, c, id, now);
    ResolvedTierIsSold(cfg, c.deliveryType);
    OrderIsBilled(cfg, t.products, raw, c, now);
    forall p: nat ensures Units(ItemsOf(draft.value.lines), p) == Total(raw, p) {
      SoldUnitsAreTheRequest(cfg, t.products, raw, c, p);
    }
    forall p | p in t.products
      ensures var after := Perform(cfg, t, PlaceJob(c, id), now).value.products;
        p in after && after[p] == t.products[p].(stock := t.products[p].stock - Total(raw, p))
    {
      SaleMovesStockOnly(cfg, t, c, id, now, p);
    }
    DraftedRows(cfg, t.products, c);
    TakeTouches(t.products, draft.value.lines);
  }
}
