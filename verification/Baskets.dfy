/** From the raw item list of a request to a priced basket: merging duplicates, resolving
    the items against the catalogue, and pricing what is left. */
module Baskets {
  import opened Prelude
  import opened Decimals
  import opened Pricing
  import opened Orders

  datatype Product = Product(price: int, mrp: int, stock: int, active: bool)

  /** One requested line. Quantities and ids are whatever the request carried. */
  datatype Wanted = Wanted(product: int, quantity: int)

  predicate FieldsOk(cfg: Settings, line: Wanted) {
    1 <= line.product && 1 <= line.quantity <= cfg.maxQuantity
  }

  /** How many units of a product a list of lines asks for altogether. */
  function Total(lines: seq<Wanted>, product: int): int {
    if lines == [] then 0
    else
      var last := lines[|lines| - 1];
      Total(lines[..|lines| - 1], product) + if last.product == product then last.quantity else 0
  }

  predicate Asks(lines: seq<Wanted>, product: int) {
    exists i :: 0 <= i < |lines| && lines[i].product == product
  }

  predicate DistinctProducts(lines: seq<Wanted>) {
    forall i, j :: 0 <= i < j < |lines| ==> lines[i].product != lines[j].product
  }

  /** Which item lists the checkout serializer lets through. */
  predicate Acceptable(cfg: Settings, raw: seq<Wanted>) {
    && 0 < |raw| <= cfg.maxItems
    && (forall i :: 0 <= i < |raw| ==> FieldsOk(cfg, raw[i]))
    && (forall i :: 0 <= i < |raw| ==> Total(raw, raw[i].product) <= cfg.maxQuantity)
  }

  /** merged asks for the same multiset of units as raw, one line per product. */
  ghost predicate IsMerge(raw: seq<Wanted>, merged: seq<Wanted>) {
    && DistinctProducts(merged)
    && (forall p :: Asks(merged, p) <==> Asks(raw, p))
    && (forall p :: Total(merged, p) == Total(raw, p))
  }

  lemma TotalSnoc(lines: seq<Wanted>, last: Wanted, p: int)
    ensures Total(lines + [last], p) == Total(lines, p) + if last.product == p then last.quantity else 0
  {
    assert (lines + [last])[..|lines|] == lines;
  }

  lemma TotalOfAbsent(lines: seq<Wanted>, p: int)
    requires !Asks(lines, p)
    ensures Total(lines, p) == 0
  {
    if lines != [] {
      var init, last := lines[..|lines| - 1], lines[|lines| - 1];
      assert forall i :: 0 <= i < |init| ==> init[i] == lines[i];
      assert last == lines[|lines| - 1];
      assert !Asks(init, p);
      TotalOfAbsent(init, p);
    }
  }

  /** In a list with one line per product, the total is that line's quantity. */
  lemma TotalOfDistinct(lines: seq<Wanted>, k: nat)
    requires k < |lines| && DistinctProducts(lines)
    ensures Total(lines, lines[k].product) == lines[k].quantity
  {
    var init, last := lines[..|lines| - 1], lines[|lines| - 1];
    assert lines == init + [last];
    if k == |lines| - 1 {
      assert !Asks(init, last.product);
      TotalOfAbsent(init, last.product);
    } else {
      TotalOfDistinct(init, k);
    }
  }

  /** The lines a merge dictionary stands for, in insertion order. */
  function Entries(keys: seq<int>, merged: map<int, int>): (r: seq<Wanted>)
    requires forall i :: 0 <= i < |keys| ==> keys[i] in merged
    ensures |r| == |keys| && forall i :: 0 <= i < |r| ==> r[i] == Wanted(keys[i], merged[keys[i]])
  {
    seq(|keys|, i requires 0 <= i < |keys| => Wanted(keys[i], merged[keys[i]]))
  }

  /** validate_items: the caps, and one line per product with the true requested quantity. */
  method ValidateItems(cfg: Settings, raw: seq<Wanted>) returns (r: Result<seq<Wanted>, Refusal>)
    ensures r.Success? <==> Acceptable(cfg, raw)
    ensures r.Success? ==> IsMerge(raw, r.value)
    ensures r.Failure? ==> r.error == Invalid
  {
    if |raw| == 0 || |raw| > cfg.maxItems {
      return Failure(Invalid);
    }
    for i := 0 to |raw|
      invariant forall j :: 0 <= j < i ==> FieldsOk(cfg, raw[j])
    {
      if !FieldsOk(cfg, raw[i]) {
        return Failure(Invalid);
      }
    }

    var merged: map<int, int> := map[];
    var keys: seq<int> := [];
    for i := 0 to |raw|
      invariant forall p :: p in merged <==> p in keys
      invariant forall p :: p in merged <==> Asks(raw[..i], p)
      invariant forall p :: p in merged ==> merged[p] == Total(raw[..i], p)
      invariant forall j, k :: 0 <= j < k < |keys| ==> keys[j] != keys[k]
    {
      var line := raw[i];
      var sofar := if line.product in merged then merged[line.product] else 0;
      ghost var before, after := raw[..i], raw[..i + 1];
      assert after == before + [line];
      forall p ensures Total(after, p) == Total(before, p) + if line.product == p then line.quantity else 0 {
        TotalSnoc(before, line, p);
      }
      if line.product !in merged {
        TotalOfAbsent(before, line.product);
        keys := keys + [line.product];
      }
      merged := merged[line.product := sofar + line.quantity];
      forall p ensures p in merged <==> Asks(after, p) {
        assert Asks(before, p) ==> Asks(after, p) by {
          if Asks(before, p) {
            var j :| 0 <= j < |before| && before[j].product == p;
            assert after[j].product == p;
          }
        }
        assert after[i].product == line.product;
        if Asks(after, p) && p != line.product {
          var j :| 0 <= j < |after| && after[j].product == p;
          assert before[j].product == p;
        }
      }
    }
    assert raw[..|raw|] == raw;
    assert forall p :: p in keys ==> p in merged;
    forall i | 0 <= i < |keys| ensures keys[i] in merged {
      var k := keys[i];
      assert k in keys;
    }

    for i := 0 to |keys|
      invariant forall j :: 0 <= j < i ==> merged[keys[j]] <= cfg.maxQuantity
    {
      if merged[keys[i]] > cfg.maxQuantity {
        assert Asks(raw, keys[i]);
        return Failure(Invalid);
      }
    }
    forall i | 0 <= i < |raw| ensures Total(raw, raw[i].product) <= cfg.maxQuantity {
      assert Asks(raw, raw[i].product);
    }
    var lines := Entries(keys, merged);
    MergedEntries(raw, keys, merged, lines);
    return Success(lines);
  }

  lemma MergedEntries(raw: seq<Wanted>, keys: seq<int>, merged: map<int, int>, lines: seq<Wanted>)
    requires forall p :: p in merged <==> p in keys
    requires forall i :: 0 <= i < |keys| ==> keys[i] in merged
    requires forall p :: p in merged <==> Asks(raw, p)
    requires forall p :: p in merged ==> merged[p] == Total(raw, p)
    requires forall j, k :: 0 <= j < k < |keys| ==> keys[j] != keys[k]
    requires |lines| == |keys| && forall i :: 0 <= i < |keys| ==> lines[i] == Wanted(keys[i], merged[keys[i]])
    ensures IsMerge(raw, lines)
  {
    forall p ensures Asks(lines, p) <==> Asks(raw, p) {
      if p in keys {
        var k :| 0 <= k < |keys| && keys[k] == p;
        assert lines[k].product == p;
      }
    }
    forall p ensures Total(lines, p) == Total(raw, p) {
      if Asks(lines, p) {
        var k :| 0 <= k < |lines| && lines[k].product == p;
        TotalOfDistinct(lines, k);
      } else {
        TotalOfAbsent(lines, p);
        TotalOfAbsent(raw, p);
      }
    }
  }

  // ------------------------------------------------------------------------
  // Resolving the items against the catalogue
  // ------------------------------------------------------------------------

  datatype Line = Line(id: nat, product: Product, quantity: nat) {
    function LineTotal(): int {
      Money(Paise(product.price * quantity))
    }
  }

  datatype Basket = Basket(lines: seq<Line>, unavailable: seq<Shortage>, deliveryType: string)

  /** The dictionary read_basket builds: a repeated id keeps its last quantity only. */
  function Requested(items: seq<Wanted>): map<nat, nat> {
    if items == [] then map[]
    else
      var last := items[|items| - 1];
      var before := Requested(items[..|items| - 1]);
      if last.product < 0 || last.quantity < 0 then before
      else before[last.product := last.quantity]
  }

  /** Why a requested quantity cannot be supplied, if it cannot. */
  function Lacking(found: map<nat, Product>, id: nat, quantity: nat): Option<Shortage> {
    if id !in found then Some(Shortage(id, UnknownItem, 0))
    else if !found[id].active then Some(Shortage(id, Withdrawn, 0))
    else if found[id].stock < quantity then
      Some(Shortage(id,
                    if found[id].stock == 0 then OutOfStock else OnlyLeft(found[id].stock),
                    if found[id].stock > 0 then found[id].stock else 0))
    else None
  }

  function LinesFor(found: map<nat, Product>, wanted: map<nat, nat>, ids: seq<nat>): seq<Line>
    requires forall id :: id in ids ==> id in wanted
  {
    if ids == [] then []
    else
      var id := ids[|ids| - 1];
      var before := LinesFor(found, wanted, ids[..|ids| - 1]);
      if Lacking(found, id, wanted[id]).Some? then before
      else before + [Line(id, found[id], wanted[id])]
  }

  function ShortagesFor(found: map<nat, Product>, wanted: map<nat, nat>, ids: seq<nat>): seq<Shortage>
    requires forall id :: id in ids ==> id in wanted
  {
    if ids == [] then []
    else
      var id := ids[|ids| - 1];
      var before := ShortagesFor(found, wanted, ids[..|ids| - 1]);
      match Lacking(found, id, wanted[id])
      case Some(shortage) => before + [shortage]
      case None => before
  }

  function BasketOf(cfg: Settings, found: map<nat, Product>, items: seq<Wanted>, deliveryType: string)
    : Result<Basket, Refusal>
  {
    var wanted := Requested(items);
    if wanted == map[] then Failure(EmptyBasket)
    else
      var ids := SortedIds(wanted.Keys);
      Success(Basket(LinesFor(found, wanted, ids), ShortagesFor(found, wanted, ids),
                     ResolveTier(cfg, deliveryType).key))
  }

  lemma OneMoreId(found: map<nat, Product>, wanted: map<nat, nat>, ids: seq<nat>, i: nat)
    requires i < |ids| && forall id :: id in ids ==> id in wanted
    ensures var lack := Lacking(found, ids[i], wanted[ids[i]]);
      && LinesFor(found, wanted, ids[..i + 1]) ==
           LinesFor(found, wanted, ids[..i]) +
             (if lack.Some? then [] else [Line(ids[i], found[ids[i]], wanted[ids[i]])])
      && ShortagesFor(found, wanted, ids[..i + 1]) ==
           ShortagesFor(found, wanted, ids[..i]) + (if lack.Some? then [lack.value] else [])
  {
    assert ids[..i + 1][..i] == ids[..i];
  }

  /** The loop of read_basket: each requested id becomes a line or a shortage. */
  method ReadLines(found: map<nat, Product>, requested: map<nat, nat>, ids: seq<nat>)
    returns (lines: seq<Line>, unavailable: seq<Shortage>)
    requires forall id :: id in ids ==> id in requested
    ensures lines == LinesFor(found, requested, ids) && unavailable == ShortagesFor(found, requested, ids)
  {
    lines, unavailable := [], [];
    for i := 0 to |ids|
      invariant lines == LinesFor(found, requested, ids[..i])
      invariant unavailable == ShortagesFor(found, requested, ids[..i])
    {
      var id := ids[i];
      var quantity := requested[id];
      OneMoreId(found, requested, ids, i);
      if id !in found {
        unavailable := unavailable + [Shortage(id, UnknownItem, 0)];
        continue;
      }
      var product := found[id];
      if !product.active {
        unavailable := unavailable + [Shortage(id, Withdrawn, 0)];
        continue;
      }
      if product.stock < quantity {
        var reason := if product.stock == 0 then OutOfStock else OnlyLeft(product.stock);
        unavailable := unavailable + [Shortage(id, reason, if product.stock > 0 then product.stock else 0)];
        continue;
      }
      lines := lines + [Line(id, product, quantity)];
    }
    assert ids[..|ids|] == ids;
  }

  /** read_basket, over the rows its query returned. */
  method ReadBasket(cfg: Settings, found: map<nat, Product>, items: seq<Wanted>, deliveryType: string)
    returns (r: Result<Basket, Refusal>)
    ensures r == BasketOf(cfg, found, items, deliveryType)
  {
    var requested := Requested(items);
    if requested == map[] {
      return Failure(EmptyBasket);
    }
    var lines, unavailable := ReadLines(found, requested, SortedIds(requested.Keys));
    return Success(Basket(lines, unavailable, ResolveTier(cfg, deliveryType).key));
  }

  ghost function LineIds(lines: seq<Line>): set<nat> {
    set i | 0 <= i < |lines| :: lines[i].id
  }

  ghost function ShortIds(short: seq<Shortage>): set<nat> {
    set i | 0 <= i < |short| :: short[i].product
  }

  predicate Ascending(ids: seq<nat>) {
    forall i, j :: 0 <= i < j < |ids| ==> ids[i] < ids[j]
  }

  /** The line is its catalogue row and its requested quantity, and the shelf can supply it. */
  predicate Carries(found: map<nat, Product>, wanted: map<nat, nat>, line: Line) {
    && line.id in found && line.id in wanted
    && line.product == found[line.id] && line.quantity == wanted[line.id]
    && line.product.active && line.quantity <= line.product.stock
  }

  /** Every line carries a catalogue row that can supply it, in ascending id order. */
  lemma {:induction false} LinesAreSuppliable(found: map<nat, Product>, wanted: map<nat, nat>, ids: seq<nat>)
    requires forall id :: id in ids ==> id in wanted
    requires Ascending(ids)
    ensures forall line :: line in LinesFor(found, wanted, ids) ==> line.id in ids && Carries(found, wanted, line)
    ensures AscendingLines(LinesFor(found, wanted, ids))
  {
    if ids != [] {
      var init, last := ids[..|ids| - 1], ids[|ids| - 1];
      LinesAreSuppliable(found, wanted, init);
      var before := LinesFor(found, wanted, init);
      if Lacking(found, last, wanted[last]).None? {
        forall i | 0 <= i < |before| ensures before[i].id < last {
          assert before[i] in before;
        }
        var line := Line(last, found[last], wanted[last]);
        assert Carries(found, wanted, line);
        assert forall l :: l in before + [line] <==> l in before || l == line;
      }
    }
  }

  predicate AscendingLines(lines: seq<Line>) {
    forall i, j :: 0 <= i < j < |lines| ==> lines[i].id < lines[j].id
  }

  /** The ids a basket can supply and the ids it cannot partition the requested ids. */
  lemma {:induction false} LinesAndShortagesPartition(found: map<nat, Product>, wanted: map<nat, nat>, ids: seq<nat>)
    requires forall id :: id in ids ==> id in wanted
    requires Ascending(ids)
    ensures LineIds(LinesFor(found, wanted, ids)) == set id | id in ids && Lacking(found, id, wanted[id]).None?
    ensures ShortIds(ShortagesFor(found, wanted, ids)) == set id | id in ids && Lacking(found, id, wanted[id]).Some?
    ensures |LinesFor(found, wanted, ids)| + |ShortagesFor(found, wanted, ids)| == |ids|
  {
    if ids != [] {
      var init, last := ids[..|ids| - 1], ids[|ids| - 1];
      assert ids == init + [last];
      LinesAndShortagesPartition(found, wanted, init);
      var lines, short := LinesFor(found, wanted, init), ShortagesFor(found, wanted, init);
      match Lacking(found, last, wanted[last])
      case Some(lack) => ShortIdsSnoc(short, lack);
      case None => LineIdsSnoc(lines, Line(last, found[last], wanted[last]));
    }
  }

  lemma LineIdsSnoc(lines: seq<Line>, last: Line)
    ensures LineIds(lines + [last]) == LineIds(lines) + {last.id}
  {
    var all := lines + [last];
    assert all[|lines|] == last;
    forall id | id in LineIds(lines) ensures id in LineIds(all) {
      var i :| 0 <= i < |lines| && lines[i].id == id;
      assert all[i].id == id;
    }
  }

  lemma ShortIdsSnoc(short: seq<Shortage>, last: Shortage)
    ensures ShortIds(short + [last]) == ShortIds(short) + {last.product}
  {
    var all := short + [last];
    assert all[|short|] == last;
    forall id | id in ShortIds(short) ensures id in ShortIds(all) {
      var i :| 0 <= i < |short| && short[i].product == id;
      assert all[i].product == id;
    }
  }
}
