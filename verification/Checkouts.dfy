/** Pricing a basket into an order, and quoting one. The bill is derived from the catalogue
    and the requested quantities alone. */
module Checkouts {
  import opened Prelude
  import opened Decimals
  import opened Pricing
  import opened Orders
  import opened Baskets

  /** A validated checkout body. Whether the shop is open, and whether a stated position lies
      beyond the delivery radius, are verdicts handed in. */
  datatype Checkout = Checkout(
    shopOpen: bool,
    tooFar: bool,
    position: Option<Position>,
    items: seq<Wanted>,
    deliveryType: string,
    key: string
  )

  function SumOfLines(lines: seq<Line>): int {
    if lines == [] then 0 else SumOfLines(lines[..|lines| - 1]) + lines[|lines| - 1].LineTotal()
  }

  function ItemsTotal(lines: seq<Line>): int {
    Money(Paise(SumOfLines(lines)))
  }

  function BasketCharges(cfg: Settings, basket: Basket): Charges {
    ComputeCharges(cfg, Paise(ItemsTotal(basket.lines)), basket.deliveryType)
  }

  function ItemsOf(lines: seq<Line>): (items: seq<Item>)
    ensures |items| == |lines|
    ensures forall i :: 0 <= i < |items| ==>
      items[i] == Item(lines[i].id, lines[i].quantity, lines[i].product.price, lines[i].product.mrp,
                        lines[i].LineTotal())
  {
    seq(|lines|, i requires 0 <= i < |lines| =>
      Item(lines[i].id, lines[i].quantity, lines[i].product.price, lines[i].product.mrp, lines[i].LineTotal()))
  }

  function TicketFor(cfg: Settings, c: Checkout, basket: Basket, now: Time): Ticket {
    var bill := BasketCharges(cfg, basket);
    var tier := ResolveTier(cfg, basket.deliveryType);
    Ticket(c.key, now, tier.promiseMinutes, tier.key, c.position, ItemsOf(basket.lines),
           bill.itemsTotal, bill.deliveryFee, bill.handlingFee, bill.grandTotal)
  }

  /** _place_order up to its INSERT: the basket that will be sold, or the refusal. */
  function Drafted(cfg: Settings, found: map<nat, Product>, c: Checkout): Result<Basket, Refusal> {
    if !c.shopOpen then Failure(StoreClosed)
    else if c.position.Some? && c.tooFar then Failure(OutOfArea)
    else match BasketOf(cfg, found, c.items, c.deliveryType)
      case Failure(e) => Failure(e)
      case Success(basket) =>
        if basket.unavailable != [] then Failure(Unavailable(basket.unavailable))
        else if basket.lines == [] then Failure(EmptyBasket)
        else if ItemsTotal(basket.lines) < Money(cfg.minOrder) then Failure(BelowMinimum)
        else Success(basket)
  }

  datatype Quoted = Quoted(bill: Charges, shortfall: int, meetsMinimum: bool,
                           unavailable: seq<Shortage>, lines: seq<Line>)

  /** What the cart drawer shows: the same pricing, without touching anything. */
  function Quote(cfg: Settings, found: map<nat, Product>, items: seq<Wanted>, deliveryType: string)
    : Result<Quoted, Refusal>
  {
    match BasketOf(cfg, found, items, deliveryType)
    case Failure(e) => Failure(e)
    case Success(basket) =>
      var total := Paise(ItemsTotal(basket.lines));
      Success(Quoted(BasketCharges(cfg, basket), FreeDeliveryShortfall(cfg, total),
                     Money(total) >= Money(cfg.minOrder), basket.unavailable, basket.lines))
  }

  // ------------------------------------------------------------------------
  // The requested multiset is what is sold
  // ------------------------------------------------------------------------

  predicate Positive(items: seq<Wanted>) {
    forall i :: 0 <= i < |items| ==> 1 <= items[i].product && 1 <= items[i].quantity
  }

  /** The last quantity a list gives for a product. */
  lemma RequestedKeepsLast(items: seq<Wanted>, k: nat)
    requires Positive(items) && k < |items|
    requires forall j :: k < j < |items| ==> items[j].product != items[k].product
    ensures items[k].product in Requested(items) && Requested(items)[items[k].product] == items[k].quantity
  {
    if k < |items| - 1 {
      var init := items[..|items| - 1];
      assert init[k] == items[k];
      RequestedKeepsLast(init, k);
    }
  }

  lemma RequestedIds(items: seq<Wanted>)
    requires Positive(items)
    ensures forall p: nat :: p in Requested(items) <==> Asks(items, p)
  {
    if items != [] {
      var init, last := items[..|items| - 1], items[|items| - 1];
      RequestedIds(init);
      forall p: nat ensures p in Requested(items) <==> Asks(items, p) {
        if Asks(init, p) {
          var i :| 0 <= i < |init| && init[i].product == p;
          assert items[i].product == p;
        }
        if Asks(items, p) && p != last.product {
          var i :| 0 <= i < |items| && items[i].product == p;
          assert init[i].product == p;
        }
        assert items[|items| - 1].product == last.product;
      }
    }
  }

  /** read_basket sees the true requested quantities exactly when no product is repeated:
      a repeated id would keep its last quantity only, which is why lists are merged first. */
  lemma RequestedIsExactIff(items: seq<Wanted>)
    requires Positive(items)
    ensures (forall p: nat :: p in Requested(items) ==> Requested(items)[p] == Total(items, p))
      <==> DistinctProducts(items)
  {
    RequestedIds(items);
    if DistinctProducts(items) {
      forall p: nat | p in Requested(items) ensures Requested(items)[p] == Total(items, p) {
        var k :| 0 <= k < |items| && items[k].product == p;
        RequestedKeepsLast(items, k);
        TotalOfDistinct(items, k);
      }
    } else {
      var i, j :| 0 <= i < j < |items| && items[i].product == items[j].product;
      var p := items[j].product;
      var last := LastIndex(items, p, j);
      RequestedKeepsLast(items, last);
      TotalExceeds(items, i, last);
      assert Requested(items)[p] != Total(items, p);
    }
  }

  /** The last position at which a product occurs. */
  function LastIndex(items: seq<Wanted>, p: int, from: nat): (k: nat)
    requires from < |items| && items[from].product == p
    ensures from <= k < |items| && items[k].product == p
    ensures forall j :: k < j < |items| ==> items[j].product != p
    decreases |items|
  {
    var n := |items| - 1;
    if items[n].product == p then n
    else
      assert items[..n][from] == items[from];
      var k := LastIndex(items[..n], p, from);
      assert forall j :: k < j < n ==> items[j] == items[..n][j];
      k
  }

  lemma TotalExceeds(items: seq<Wanted>, i: nat, k: nat)
    requires Positive(items) && i < k < |items| && items[i].product == items[k].product
    ensures Total(items, items[k].product) > items[k].quantity
  {
    var init, last := items[..|items| - 1], items[|items| - 1];
    var p := items[k].product;
    assert items == init + [last] && init[i] == items[i];
    if k == |items| - 1 {
      TotalPositive(init, i);
    } else {
      assert init[k] == items[k];
      TotalExceeds(init, i, k);
    }
  }

  lemma TotalPositive(items: seq<Wanted>, i: nat)
    requires Positive(items) && i < |items|
    ensures Total(items, items[i].product) > 0
  {
    var init, last := items[..|items| - 1], items[|items| - 1];
    TotalNonNegative(init, items[i].product);
    if i < |items| - 1 {
      assert init[i] == items[i];
      TotalPositive(init, i);
    }
  }

  lemma TotalNonNegative(items: seq<Wanted>, p: int)
    requires Positive(items)
    ensures Total(items, p) >= 0
  {
    if items != [] {
      TotalNonNegative(items[..|items| - 1], p);
    }
  }

  /** Units of a product among an order's items. */
  function Units(items: seq<Item>, p: nat): nat {
    if items == [] then 0
    else Units(items[..|items| - 1], p) + if items[|items| - 1].product == p then items[|items| - 1].quantity else 0
  }

  function SumOfItems(items: seq<Item>): int {
    if items == [] then 0 else SumOfItems(items[..|items| - 1]) + items[|items| - 1].lineTotal
  }

  /** What the raw request costs at catalogue prices, line by raw line. */
  function RawCost(products: map<nat, Product>, raw: seq<Wanted>): int {
    if raw == [] then 0
    else
      var last := raw[|raw| - 1];
      RawCost(products, raw[..|raw| - 1]) +
      if last.product >= 0 && last.product in products then products[last.product].price * last.quantity else 0
  }

  /** The same cost, product by product over a list of ids. */
  function CostOver(products: map<nat, Product>, raw: seq<Wanted>, ids: seq<nat>): int {
    if ids == [] then 0
    else
      var id := ids[|ids| - 1];
      CostOver(products, raw, ids[..|ids| - 1]) + if id in products then products[id].price * Total(raw, id) else 0
  }

  lemma {:induction false} CostOverSnoc(products: map<nat, Product>, raw: seq<Wanted>, last: Wanted, ids: seq<nat>)
    requires Ascending(ids)
    ensures CostOver(products, raw + [last], ids) == CostOver(products, raw, ids) +
      if last.product >= 0 && last.product in ids && last.product in products
      then products[last.product].price * last.quantity else 0
  {
    if ids != [] {
      var init, id := ids[..|ids| - 1], ids[|ids| - 1];
      assert ids == init + [id];
      CostOverSnoc(products, raw, last, init);
      TotalSnoc(raw, last, id);
      if id in products {
        Distribute(products[id].price, Total(raw, id), last.quantity);
      }
      assert id !in init;
    }
  }

  lemma Distribute(k: int, a: int, b: int)
    ensures k * (a + b) == k * a + k * b
  {
  }

  lemma CostOverNothing(products: map<nat, Product>, ids: seq<nat>)
    ensures CostOver(products, [], ids) == 0
  {
  }

  /** Summing by product and summing by raw line agree. */
  lemma CostByProduct(products: map<nat, Product>, raw: seq<Wanted>, ids: seq<nat>)
    requires Ascending(ids)
    requires forall i :: 0 <= i < |raw| ==> raw[i].product >= 0 && raw[i].product in ids
    ensures CostOver(products, raw, ids) == RawCost(products, raw)
  {
    if raw == [] {
      CostOverNothing(products, ids);
    } else {
      var init, last := raw[..|raw| - 1], raw[|raw| - 1];
      assert raw == init + [last];
      assert forall i :: 0 <= i < |init| ==> init[i] == raw[i];
      CostByProduct(products, init, ids);
      CostOverSnoc(products, init, last, ids);
      assert last == raw[|raw| - 1];
    }
  }

  /** With nothing unavailable, the lines are exactly the requested ids in order. */
  lemma AllLines(found: map<nat, Product>, wanted: map<nat, nat>, ids: seq<nat>)
    requires forall id :: id in ids ==> id in wanted
    requires ShortagesFor(found, wanted, ids) == []
    ensures forall id :: id in ids ==> id in found && Lacking(found, id, wanted[id]).None?
    ensures |LinesFor(found, wanted, ids)| == |ids|
    ensures forall i :: 0 <= i < |ids| ==>
      LinesFor(found, wanted, ids)[i] == Line(ids[i], found[ids[i]], wanted[ids[i]])
  {
    if ids != [] {
      var init, id := ids[..|ids| - 1], ids[|ids| - 1];
      assert ids == init + [id];
      AllLines(found, wanted, init);
      assert forall x :: x in ids <==> x in init || x == id;
    }
  }

  lemma LinesCost(products: map<nat, Product>, raw: seq<Wanted>, ids: seq<nat>, lines: seq<Line>)
    requires forall id :: id in ids ==> id in products
    requires |lines| == |ids|
    requires forall i :: 0 <= i < |ids| ==>
      lines[i].id == ids[i] && lines[i].product == products[ids[i]] && lines[i].quantity == Total(raw, ids[i])
    ensures SumOfLines(lines) == CostOver(products, raw, ids)
  {
    if ids != [] {
      var n := |ids| - 1;
      LinesCost(products, raw, ids[..n], lines[..n]);
      MoneyOfPaise(products[ids[n]].price * lines[n].quantity);
    }
  }

  lemma ItemsOfPrefix(lines: seq<Line>)
    requires lines != []
    ensures ItemsOf(lines)[..|lines| - 1] == ItemsOf(lines[..|lines| - 1])
  {
  }

  lemma SumOfItemsIsSumOfLines(lines: seq<Line>)
    ensures SumOfItems(ItemsOf(lines)) == SumOfLines(lines)
  {
    if lines != [] {
      ItemsOfPrefix(lines);
      SumOfItemsIsSumOfLines(lines[..|lines| - 1]);
    }
  }

  lemma UnitsOfLines(lines: seq<Line>, p: nat)
    requires AscendingLines(lines)
    ensures forall i :: 0 <= i < |lines| && lines[i].id == p ==> Units(ItemsOf(lines), p) == lines[i].quantity
    ensures (forall i :: 0 <= i < |lines| ==> lines[i].id != p) ==> Units(ItemsOf(lines), p) == 0
  {
    if lines != [] {
      ItemsOfPrefix(lines);
      UnitsOfLines(lines[..|lines| - 1], p);
    }
  }

  /** What a drafted basket contains: one line per requested id, at the requested quantity. */
  lemma DraftedLines(cfg: Settings, products: map<nat, Product>, c: Checkout)
    requires Drafted(cfg, products, c).Success?
    ensures var wanted := Requested(c.items);
      var lines, ids := Drafted(cfg, products, c).value.lines, SortedIds(wanted.Keys);
      && |lines| == |ids|
      && (forall id :: id in ids ==> id in products)
      && (forall i :: 0 <= i < |ids| ==> lines[i] == Line(ids[i], products[ids[i]], wanted[ids[i]]))
      && AscendingLines(lines)
    ensures forall line :: line in Drafted(cfg, products, c).value.lines ==>
      Carries(products, Requested(c.items), line)
  {
    var wanted := Requested(c.items);
    var ids := SortedIds(wanted.Keys);
    AllLines(products, wanted, ids);
    LinesAreSuppliable(products, wanted, ids);
  }

  /** A checkout sells exactly the requested multiset of units: merged and resolved, the order
      holds each product's total raw quantity. */
  lemma SoldUnitsAreTheRequest(cfg: Settings, products: map<nat, Product>, raw: seq<Wanted>, c: Checkout, p: nat)
    requires Acceptable(cfg, raw) && IsMerge(raw, c.items)
    requires Drafted(cfg, products, c).Success?
    ensures Units(ItemsOf(Drafted(cfg, products, c).value.lines), p) == Total(raw, p)
  {
    MergeIsPositive(cfg, raw, c.items);
    var lines, ids := Drafted(cfg, products, c).value.lines, SortedIds(Requested(c.items).Keys);
    RequestedIds(c.items);
    RequestedIsExactIff(c.items);
    DraftedLines(cfg, products, c);
    UnitsOfLines(lines, p);
    if p in ids {
      var i :| 0 <= i < |ids| && ids[i] == p;
      assert lines[i].id == p;
    } else {
      assert !Asks(raw, p);
      TotalOfAbsent(raw, p);
    }
  }

  /** The lines are priced at what the raw request costs, raw line by raw line. */
  lemma LinesCostTheRequest(cfg: Settings, products: map<nat, Product>, raw: seq<Wanted>, c: Checkout)
    requires Acceptable(cfg, raw) && IsMerge(raw, c.items)
    requires Drafted(cfg, products, c).Success?
    ensures SumOfLines(Drafted(cfg, products, c).value.lines) == RawCost(products, raw)
  {
    MergeIsPositive(cfg, raw, c.items);
    var wanted := Requested(c.items);
    var lines, ids := Drafted(cfg, products, c).value.lines, SortedIds(wanted.Keys);
    RequestedIds(c.items);
    RequestedIsExactIff(c.items);
    DraftedLines(cfg, products, c);
    forall i | 0 <= i < |ids| ensures lines[i].quantity == Total(raw, ids[i]) {
      assert ids[i] in wanted;
    }
    forall i | 0 <= i < |raw| ensures raw[i].product >= 0 && raw[i].product in ids {
      assert FieldsOk(cfg, raw[i]) && Asks(raw, raw[i].product);
    }
    LinesCost(products, raw, ids, lines);
    CostByProduct(products, raw, ids);
  }

  /** A checkout charges for exactly the request: the order's line totals sum to its items
      total, which is the raw request at catalogue prices, and the bill adds up. */
  lemma ChargedForExactlyTheRequest(cfg: Settings, products: map<nat, Product>, raw: seq<Wanted>, c: Checkout,
                                    now: Time)
    requires Acceptable(cfg, raw) && IsMerge(raw, c.items)
    requires Drafted(cfg, products, c).Success?
    requires 0 <= RawCost(products, raw)
    ensures var t := TicketFor(cfg, c, Drafted(cfg, products, c).value, now);
      && t.itemsTotal == RawCost(products, raw) == SumOfItems(t.items)
      && t.grandTotal == t.itemsTotal + t.deliveryFee + t.handlingFee
  {
    var basket := Drafted(cfg, products, c).value;
    LinesCostTheRequest(cfg, products, raw, c);
    SumOfItemsIsSumOfLines(basket.lines);
    MoneyOfPaise(SumOfLines(basket.lines));
    MoneyOfPaise(ItemsTotal(basket.lines));
    BillAddsUp(cfg, Paise(ItemsTotal(basket.lines)), basket.deliveryType);
  }

  lemma MergeIsPositive(cfg: Settings, raw: seq<Wanted>, merged: seq<Wanted>)
    requires Acceptable(cfg, raw) && IsMerge(raw, merged)
    ensures Positive(merged) && Positive(raw)
  {
    assert Positive(raw) by {
      forall i | 0 <= i < |raw| ensures 1 <= raw[i].product && 1 <= raw[i].quantity {
        assert FieldsOk(cfg, raw[i]);
      }
    }
    forall i | 0 <= i < |merged| ensures 1 <= merged[i].product && 1 <= merged[i].quantity {
      assert Asks(merged, merged[i].product);
      var k :| 0 <= k < |raw| && raw[k].product == merged[i].product;
      TotalPositive(raw, k);
      TotalOfDistinct(merged, i);
    }
  }

  /** The quote and the order agree: an open, in-range checkout is accepted exactly when the
      quote shows nothing unavailable and the minimum met, and then bills the quoted numbers. */
  lemma QuoteIsTheBill(cfg: Settings, products: map<nat, Product>, c: Checkout, now: Time)
    requires c.shopOpen && !(c.position.Some? && c.tooFar)
    ensures var quote := Quote(cfg, products, c.items, c.deliveryType);
      var draft := Drafted(cfg, products, c);
      && (draft.Success? <==> quote.Success? && quote.value.unavailable == [] && quote.value.meetsMinimum)
      && (draft.Success? ==>
            var t := TicketFor(cfg, c, draft.value, now);
            quote.value.bill == Charges(t.itemsTotal, t.deliveryFee, t.handlingFee, t.grandTotal)
            && quote.value.lines == draft.value.lines)
  {
    var wanted := Requested(c.items);
    if wanted != map[] {
      var ids := SortedIds(wanted.Keys);
      var lines := LinesFor(products, wanted, ids);
      MoneyOfPaise(SumOfLines(lines));
      MoneyOfPaise(ItemsTotal(lines));
      if ShortagesFor(products, wanted, ids) == [] {
        AllLines(products, wanted, ids);
        var id :| id in wanted.Keys;
        assert id in ids;
      }
    }
  }

  /** Only the requested rows matter: two catalogues that agree on every row a successful draft
      used draft the same basket. */
  lemma DraftIsLocal(cfg: Settings, small: map<nat, Product>, large: map<nat, Product>, c: Checkout)
    requires Drafted(cfg, small, c).Success?
    requires forall id :: id in small ==> id in large && large[id] == small[id]
    ensures Drafted(cfg, large, c) == Drafted(cfg, small, c)
  {
    var wanted := Requested(c.items);
    var ids := SortedIds(wanted.Keys);
    AllLines(small, wanted, ids);
    SameBasket(small, large, wanted, ids);
  }

  lemma SameBasket(small: map<nat, Product>, large: map<nat, Product>, wanted: map<nat, nat>, ids: seq<nat>)
    requires forall id :: id in ids ==> id in wanted && id in small && id in large && large[id] == small[id]
    ensures LinesFor(large, wanted, ids) == LinesFor(small, wanted, ids)
    ensures ShortagesFor(large, wanted, ids) == ShortagesFor(small, wanted, ids)
  {
    if ids != [] {
      SameBasket(small, large, wanted, ids[..|ids| - 1]);
    }
  }
}
