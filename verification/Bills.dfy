/** What a checkout and a quote answer, told from the raw request, the catalogue and the settings
    alone. */
module Bills {
  import opened Prelude
  import opened Decimals
  import opened Pricing
  import opened Orders
  import opened Baskets
  import opened Checkouts

  /** The shelf can supply everything the request asks of the product. */
  predicate CanSupply(products: map<nat, Product>, raw: seq<Wanted>, p: nat) {
    p in products && products[p].active && Total(raw, p) <= products[p].stock
  }

  /** The catalogue rows that can. */
  function Suppliable(products: map<nat, Product>, raw: seq<Wanted>): map<nat, Product> {
    map p | p in products && CanSupply(products, raw, p) :: products[p]
  }

  /** A merged list asks, id by id, for the raw list's totals. */
  lemma RequestedOfMerge(cfg: Settings, raw: seq<Wanted>, merged: seq<Wanted>)
    requires Acceptable(cfg, raw) && IsMerge(raw, merged)
    ensures forall p: nat :: p in Requested(merged) <==> Asks(raw, p)
    ensures forall p: nat :: p in Requested(merged) ==> Requested(merged)[p] == Total(raw, p)
    ensures Requested(merged) != map[]
    ensures forall i :: 0 <= i < |raw| ==> raw[i].product >= 0 && raw[i].product in Requested(merged)
  {
    MergeIsPositive(cfg, raw, merged);
    RequestedIds(merged);
    RequestedIsExactIff(merged);
    forall i | 0 <= i < |raw| ensures raw[i].product >= 0 && Asks(raw, raw[i].product) {
      assert FieldsOk(cfg, raw[i]);
    }
    assert Asks(raw, raw[0].product);
  }

  /** A product is lacking exactly when the shelf cannot supply it, and the customer is told what it
      could: nothing of an unknown or withdrawn product, otherwise what is left. */
  lemma LackingMeaning(products: map<nat, Product>, raw: seq<Wanted>, p: nat, quantity: nat)
    requires quantity == Total(raw, p)
    ensures Lacking(products, p, quantity).None? <==> CanSupply(products, raw, p)
    ensures var lack := Lacking(products, p, quantity);
      lack.Some? ==>
        && lack.value.product == p
        && (p !in products ==> lack.value.reason == UnknownItem && lack.value.available == 0)
        && (p in products && !products[p].active ==> lack.value.reason == Withdrawn && lack.value.available == 0)
        && (p in products && products[p].active && products[p].stock == 0 ==>
              lack.value.reason == OutOfStock && lack.value.available == 0)
        && (p in products && products[p].active && products[p].stock > 0 ==>
              lack.value.reason == OnlyLeft(products[p].stock) && lack.value.available == products[p].stock)
  {
  }

  /** The lines cost what the suppliable part of the request costs. */
  lemma {:induction false} LinesForCost(products: map<nat, Product>, raw: seq<Wanted>, wanted: map<nat, nat>,
                                        ids: seq<nat>)
    requires forall id :: id in ids ==> id in wanted && wanted[id] == Total(raw, id)
    ensures SumOfLines(LinesFor(products, wanted, ids)) == CostOver(Suppliable(products, raw), raw, ids)
    decreases |ids|
  {
    if ids != [] {
      var init, id := ids[..|ids| - 1], ids[|ids| - 1];
      assert id in ids && forall x :: x in init ==> x in ids;
      LinesForCost(products, raw, wanted, init);
      LackingMeaning(products, raw, id, wanted[id]);
      if CanSupply(products, raw, id) {
        var before := LinesFor(products, wanted, init);
        assert LinesFor(products, wanted, ids) == before + [Line(id, products[id], wanted[id])];
        assert (before + [Line(id, products[id], wanted[id])])[..|before|] == before;
        MoneyOfPaise(products[id].price * wanted[id]);
      }
    }
  }

  lemma RequestCost(cfg: Settings, products: map<nat, Product>, raw: seq<Wanted>, merged: seq<Wanted>)
    requires Acceptable(cfg, raw) && IsMerge(raw, merged)
    ensures var ids := SortedIds(Requested(merged).Keys);
      ItemsTotal(LinesFor(products, Requested(merged), ids)) == RawCost(Suppliable(products, raw), raw)
  {
    var ids := SortedIds(Requested(merged).Keys);
    RequestedOfMerge(cfg, raw, merged);
    LinesForCost(products, raw, Requested(merged), ids);
    CostByProduct(Suppliable(products, raw), raw, ids);
    MoneyOfPaise(SumOfLines(LinesFor(products, Requested(merged), ids)));
  }

  /** The bill for goods of a cost: nothing for no goods; otherwise the goods, the delivery fee below
      the free-delivery line, the handling fee, and their sum. */
  predicate IsBill(cfg: Settings, cost: int, items: int, delivery: int, handling: int, total: int) {
    if cost <= 0 then items == delivery == handling == total == 0
    else
      && items == cost
      && delivery == (if cost >= Money(cfg.freeAbove) then 0 else Money(cfg.deliveryFee))
      && handling == Money(cfg.handlingFee)
      && total == items + delivery + handling
  }

  lemma BasketIsBilled(cfg: Settings, cost: int, basket: Basket)
    requires ItemsTotal(basket.lines) == cost
    ensures var bill := BasketCharges(cfg, basket);
      IsBill(cfg, cost, bill.itemsTotal, bill.deliveryFee, bill.handlingFee, bill.grandTotal)
  {
    MoneyOfPaise(cost);
    ResolvedTierIsSold(cfg, basket.deliveryType);
    BillAddsUp(cfg, Paise(cost), basket.deliveryType);
  }

  /** The requested products that the shelf cannot supply, and those that it can. */
  function Short(products: map<nat, Product>, raw: seq<Wanted>, wanted: map<nat, nat>): set<nat> {
    set p | p in wanted && !CanSupply(products, raw, p)
  }

  function Supplied(products: map<nat, Product>, raw: seq<Wanted>, wanted: map<nat, nat>): set<nat> {
    set p | p in wanted && CanSupply(products, raw, p)
  }

  /** Which of the requested products are reported short. */
  lemma ShortagesAre(products: map<nat, Product>, raw: seq<Wanted>, wanted: map<nat, nat>)
    requires forall p :: p in wanted ==> wanted[p] == Total(raw, p)
    ensures var ids := SortedIds(wanted.Keys);
      && ShortIds(ShortagesFor(products, wanted, ids)) == Short(products, raw, wanted)
      && LineIds(LinesFor(products, wanted, ids)) == Supplied(products, raw, wanted)
      && (ShortagesFor(products, wanted, ids) == [] <==> Short(products, raw, wanted) == {})
  {
    var ids := SortedIds(wanted.Keys);
    LinesAndShortagesPartition(products, wanted, ids);
    forall p | p in wanted ensures Lacking(products, p, wanted[p]).None? <==> CanSupply(products, raw, p) {
      LackingMeaning(products, raw, p, wanted[p]);
    }
    assert (set id | id in ids && Lacking(products, id, wanted[id]).Some?) == Short(products, raw, wanted);
    assert (set id | id in ids && Lacking(products, id, wanted[id]).None?) == Supplied(products, raw, wanted);
    var short := ShortagesFor(products, wanted, ids);
    assert short != [] ==> short[0].product in ShortIds(short);
  }

  /** What is left of a request once it has been merged and read. */
  ghost predicate ReadAs(products: map<nat, Product>, raw: seq<Wanted>, wanted: map<nat, nat>, basket: Basket) {
    && ItemsTotal(basket.lines) == RawCost(Suppliable(products, raw), raw)
    && ShortIds(basket.unavailable) == Short(products, raw, wanted)
    && LineIds(basket.lines) == Supplied(products, raw, wanted)
    && (basket.unavailable == [] <==> Short(products, raw, wanted) == {})
  }

  lemma BasketIs(cfg: Settings, products: map<nat, Product>, merged: seq<Wanted>, key: string, wanted: map<nat, nat>)
    requires wanted == Requested(merged) && wanted != map[]
    ensures var ids := SortedIds(wanted.Keys);
      BasketOf(cfg, products, merged, key) ==
        Success(Basket(LinesFor(products, wanted, ids), ShortagesFor(products, wanted, ids), ResolveTier(cfg, key).key))
  {
  }

  lemma RequestIsRead(cfg: Settings, products: map<nat, Product>, raw: seq<Wanted>, merged: seq<Wanted>, key: string)
    requires Acceptable(cfg, raw) && IsMerge(raw, merged)
    ensures Requested(merged) != map[] && BasketOf(cfg, products, merged, key).Success?
    ensures ReadAs(products, raw, Requested(merged), BasketOf(cfg, products, merged, key).value)
  {
    RequestedOfMerge(cfg, raw, merged);
    BasketIs(cfg, products, merged, key, Requested(merged));
    RequestCost(cfg, products, raw, merged);
    ShortagesAre(products, raw, Requested(merged));
  }

  lemma QuoteOfBasket(cfg: Settings, products: map<nat, Product>, merged: seq<Wanted>, key: string, basket: Basket,
                      cost: int)
    requires BasketOf(cfg, products, merged, key) == Success(basket) && ItemsTotal(basket.lines) == cost
    ensures var quote := Quote(cfg, products, merged, key);
      && quote.Success?
      && var q := quote.value;
      && IsBill(cfg, cost, q.bill.itemsTotal, q.bill.deliveryFee, q.bill.handlingFee, q.bill.grandTotal)
      && q.shortfall == (if cost >= Money(cfg.freeAbove) then 0 else Money(cfg.freeAbove) - cost)
      && (q.meetsMinimum <==> cost >= Money(cfg.minOrder))
      && q.unavailable == basket.unavailable && q.lines == basket.lines
  {
    BasketIsBilled(cfg, cost, basket);
    MoneyOfPaise(cost);
    MoneyOfPaise(Money(cfg.freeAbove) - cost);
  }

  /** The quote, from the raw request: the bill, the shortfall and the minimum are those of what the
      shelf can supply, and what it cannot is reported. */
  lemma QuoteFromRequest(cfg: Settings, products: map<nat, Product>, raw: seq<Wanted>, merged: seq<Wanted>, key: string)
    requires Acceptable(cfg, raw) && IsMerge(raw, merged)
    ensures var cost := RawCost(Suppliable(products, raw), raw);
      var quote := Quote(cfg, products, merged, key);
      && quote.Success?
      && var q := quote.value;
      && IsBill(cfg, cost, q.bill.itemsTotal, q.bill.deliveryFee, q.bill.handlingFee, q.bill.grandTotal)
      && q.shortfall == (if cost >= Money(cfg.freeAbove) then 0 else Money(cfg.freeAbove) - cost)
      && (q.meetsMinimum <==> cost >= Money(cfg.minOrder))
      && ShortIds(q.unavailable) == Short(products, raw, Requested(merged))
      && LineIds(q.lines) == Supplied(products, raw, Requested(merged))
  {
    RequestIsRead(cfg, products, raw, merged, key);
    var basket := BasketOf(cfg, products, merged, key).value;
    QuoteOfBasket(cfg, products, merged, key, basket, RawCost(Suppliable(products, raw), raw));
  }

  lemma DraftOfBasket(cfg: Settings, products: map<nat, Product>, c: Checkout, basket: Basket)
    requires BasketOf(cfg, products, c.items, c.deliveryType) == Success(basket)
    ensures var draft := Drafted(cfg, products, c);
      if !c.shopOpen then draft == Failure(StoreClosed)
      else if c.position.Some? && c.tooFar then draft == Failure(OutOfArea)
      else if basket.unavailable != [] then draft == Failure(Unavailable(basket.unavailable))
      else if basket.lines == [] then draft == Failure(EmptyBasket)
      else if ItemsTotal(basket.lines) < Money(cfg.minOrder) then draft == Failure(BelowMinimum)
      else draft == Success(basket)
  {
  }

  /** A checkout, from the raw request: refused when the shop is shut, then for a stated position out
      of area, then for anything the shelf cannot supply, then below the minimum; accepted
      otherwise. */
  lemma DraftFromRequest(cfg: Settings, products: map<nat, Product>, raw: seq<Wanted>, c: Checkout)
    requires Acceptable(cfg, raw) && IsMerge(raw, c.items)
    ensures var draft := Drafted(cfg, products, c);
      if !c.shopOpen then draft == Failure(StoreClosed)
      else if c.position.Some? && c.tooFar then draft == Failure(OutOfArea)
      else if Short(products, raw, Requested(c.items)) != {} then
        && draft.Failure? && draft.error.Unavailable?
        && ShortIds(draft.error.shortages) == Short(products, raw, Requested(c.items))
      else if RawCost(products, raw) < Money(cfg.minOrder) then draft == Failure(BelowMinimum)
      else draft.Success?
  {
    RequestIsRead(cfg, products, raw, c.items, c.deliveryType);
    var basket := BasketOf(cfg, products, c.items, c.deliveryType).value;
    DraftOfBasket(cfg, products, c, basket);
    if Short(products, raw, Requested(c.items)) == {} {
      WholeRequestCost(cfg, products, raw, c.items);
      var p :| p in Requested(c.items);
      assert p !in Short(products, raw, Requested(c.items));
      assert p in LineIds(basket.lines);
    }
  }

  lemma WholeRequestCost(cfg: Settings, products: map<nat, Product>, raw: seq<Wanted>, merged: seq<Wanted>)
    requires Acceptable(cfg, raw) && IsMerge(raw, merged)
    requires Short(products, raw, Requested(merged)) == {}
    ensures RawCost(Suppliable(products, raw), raw) == RawCost(products, raw)
  {
    RequestedOfMerge(cfg, raw, merged);
    forall p | p in Requested(merged) ensures CanSupply(products, raw, p) {
      assert p !in Short(products, raw, Requested(merged));
    }
    SameCost(products, raw, raw);
  }

  /** With everything suppliable, the suppliable part is the whole. */
  lemma {:induction false} SameCost(products: map<nat, Product>, all: seq<Wanted>, raw: seq<Wanted>)
    requires forall i :: 0 <= i < |raw| && raw[i].product >= 0 ==> CanSupply(products, all, raw[i].product)
    ensures RawCost(Suppliable(products, all), raw) == RawCost(products, raw)
    decreases |raw|
  {
    if raw != [] {
      var init, last := raw[..|raw| - 1], raw[|raw| - 1];
      assert forall i :: 0 <= i < |init| ==> init[i] == raw[i];
      assert last.product >= 0 ==> CanSupply(products, all, last.product);
      SameCost(products, all, init);
    }
  }

  /** A placed order carries the bill of its raw request, and each line costs its own goods. */
  lemma OrderIsBilled(cfg: Settings, products: map<nat, Product>, raw: seq<Wanted>, c: Checkout, now: Time)
    requires Acceptable(cfg, raw) && IsMerge(raw, c.items) && Drafted(cfg, products, c).Success?
    ensures var t := TicketFor(cfg, c, Drafted(cfg, products, c).value, now);
      && IsBill(cfg, RawCost(products, raw), t.itemsTotal, t.deliveryFee, t.handlingFee, t.grandTotal)
      && (forall i :: 0 <= i < |t.items| ==> t.items[i].lineTotal == t.items[i].price * t.items[i].quantity)
  {
    var basket := Drafted(cfg, products, c).value;
    LinesCostTheRequest(cfg, products, raw, c);
    MoneyOfPaise(SumOfLines(basket.lines));
    BasketIsBilled(cfg, RawCost(products, raw), basket);
    forall i | 0 <= i < |basket.lines|
      ensures basket.lines[i].LineTotal() == basket.lines[i].product.price * basket.lines[i].quantity
    {
      MoneyOfPaise(basket.lines[i].product.price * basket.lines[i].quantity);
    }
  }
}
