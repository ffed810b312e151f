/** What an order costs: delivery tiers, the bill for a basket subtotal, and the
    free-delivery shortfall. Amounts are whole paise. */
module Pricing {
  import opened Prelude
  import opened Decimals

  datatype Settings = Settings(
    deliveryFee: Decimal,
    promiseMinutes: int,
    defaultType: string,
    freeAbove: Decimal,
    handlingFee: Decimal,
    minOrder: Decimal,
    maxItems: nat,
    maxQuantity: nat
  ) {
    /** Fees configured as the amounts they are: nothing is paid back to the customer. */
    predicate Sane() {
      0 <= Money(deliveryFee) && 0 <= Money(handlingFee)
    }
  }

  datatype Tier = Tier(key: string, fee: int, promiseMinutes: int)

  /** Every tier on offer, fastest first. There is one. */
  function DeliveryTiers(cfg: Settings): seq<Tier> {
    [Tier("instant", Money(cfg.deliveryFee), cfg.promiseMinutes)]
  }

  function FindTier(tiers: seq<Tier>, key: string): Option<Tier> {
    if tiers == [] then None
    else if tiers[0].key == key then Some(tiers[0])
    else FindTier(tiers[1..], key)
  }

  function DefaultTier(cfg: Settings): Tier {
    var tiers := DeliveryTiers(cfg);
    match FindTier(tiers, cfg.defaultType)
    case Some(tier) => tier
    case None => tiers[0]
  }

  function ResolveTier(cfg: Settings, key: string): Tier {
    if key == "" then DefaultTier(cfg)
    else match FindTier(DeliveryTiers(cfg), key)
      case Some(tier) => tier
      case None => DefaultTier(cfg)
  }

  /** Whatever was asked for and whatever the default is set to, the tier is one the store
      sells; with a single tier a stale request for a withdrawn one pays the real fee. */
  lemma ResolvedTierIsSold(cfg: Settings, key: string)
    ensures ResolveTier(cfg, key) in DeliveryTiers(cfg)
    ensures ResolveTier(cfg, key) == Tier("instant", Money(cfg.deliveryFee), cfg.promiseMinutes)
    ensures ResolveTier(cfg, ResolveTier(cfg, key).key) == ResolveTier(cfg, key)
  {
    FoundTierIsListed(DeliveryTiers(cfg), key);
    FoundTierIsListed(DeliveryTiers(cfg), cfg.defaultType);
    assert DeliveryTiers(cfg)[1..] == [];
    assert FindTier(DeliveryTiers(cfg), "instant") == Some(DeliveryTiers(cfg)[0]);
  }

  lemma FoundTierIsListed(tiers: seq<Tier>, key: string)
    ensures FindTier(tiers, key).Some? ==>
      FindTier(tiers, key).value in tiers && FindTier(tiers, key).value.key == key
    ensures FindTier(tiers, key).None? ==> forall tier :: tier in tiers ==> tier.key != key
  {
    if tiers != [] {
      FoundTierIsListed(tiers[1..], key);
      assert tiers == [tiers[0]] + tiers[1..];
    }
  }

  datatype Charges = Charges(itemsTotal: int, deliveryFee: int, handlingFee: int, grandTotal: int)

  function Paise(amount: int): Decimal {
    Decimal(amount, 2)
  }

  function ComputeCharges(cfg: Settings, subtotal: Decimal, key: string): Charges {
    var itemsTotal := Money(subtotal);
    var deliveryFee :=
      if itemsTotal >= Money(cfg.freeAbove) then 0 else ResolveTier(cfg, key).fee;
    var handlingFee := Money(cfg.handlingFee);
    if itemsTotal <= 0 then Charges(0, 0, 0, 0)
    else Charges(itemsTotal, deliveryFee, handlingFee,
                 Money(Paise(itemsTotal + deliveryFee + handlingFee)))
  }

  function FreeDeliveryShortfall(cfg: Settings, subtotal: Decimal): int {
    var threshold := Money(cfg.freeAbove);
    var itemsTotal := Money(subtotal);
    if itemsTotal >= threshold then 0 else Money(Paise(threshold - itemsTotal))
  }

  /** The bill adds up exactly, and is nothing at all for an empty basket. */
  lemma BillAddsUp(cfg: Settings, subtotal: Decimal, key: string)
    ensures var bill := ComputeCharges(cfg, subtotal, key);
      && bill.grandTotal == bill.itemsTotal + bill.deliveryFee + bill.handlingFee
      && (Money(subtotal) > 0 ==> bill.itemsTotal == Money(subtotal) && bill.handlingFee == Money(cfg.handlingFee))
      && (Money(subtotal) <= 0 ==> bill == Charges(0, 0, 0, 0))
      && (cfg.Sane() ==> 0 <= bill.itemsTotal <= bill.grandTotal && 0 <= bill.deliveryFee)
  {
    ResolvedTierIsSold(cfg, key);
    var itemsTotal := Money(subtotal);
    MoneyOfPaise(itemsTotal + ResolveTier(cfg, key).fee + Money(cfg.handlingFee));
    MoneyOfPaise(itemsTotal + 0 + Money(cfg.handlingFee));
  }

  /** Adding goods costs their price, less the fee when they carry the basket over the
      free-delivery line. */
  lemma AddingGoods(cfg: Settings, x: Decimal, y: Decimal, key: string)
    requires 0 < Money(x) && AtMost(x, y)
    ensures var line := Money(cfg.freeAbove);
      var saved := if Money(x) < line <= Money(y) then Money(cfg.deliveryFee) else 0;
      ComputeCharges(cfg, y, key).grandTotal ==
        ComputeCharges(cfg, x, key).grandTotal + (Money(y) - Money(x)) - saved
  {
    MoneyMonotone(x, y);
    BillAddsUp(cfg, x, key);
    BillAddsUp(cfg, y, key);
    ResolvedTierIsSold(cfg, key);
  }

  /** A larger basket can cost less: exactly when it crosses the line for under the fee. */
  lemma LargerBasketCheaperIff(cfg: Settings, x: Decimal, y: Decimal, key: string)
    requires 0 < Money(x) && AtMost(x, y)
    ensures ComputeCharges(cfg, y, key).grandTotal < ComputeCharges(cfg, x, key).grandTotal <==>
      Money(x) < Money(cfg.freeAbove) <= Money(y) && Money(y) - Money(x) < Money(cfg.deliveryFee)
  {
    MoneyMonotone(x, y);
    AddingGoods(cfg, x, y, key);
  }

  /** The shortfall is never negative, is zero exactly from the threshold up, and paying it
      in goods buys exactly free delivery. */
  lemma ShortfallBuysFreeDelivery(cfg: Settings, x: Decimal, key: string)
    ensures var gap := FreeDeliveryShortfall(cfg, x);
      && 0 <= gap
      && (gap == 0 <==> Money(x) >= Money(cfg.freeAbove))
      && (0 < Money(x) ==>
            ComputeCharges(cfg, Paise(Money(x) + gap), key).grandTotal ==
            Money(x) + gap + Money(cfg.handlingFee))
  {
    MoneyOfPaise(Money(cfg.freeAbove) - Money(x));
    var topped := Money(x) + FreeDeliveryShortfall(cfg, x);
    MoneyOfPaise(topped);
    BillAddsUp(cfg, Paise(topped), key);
  }

  /** Anything less than the shortfall still pays the delivery fee. */
  lemma ShortfallIsLeast(cfg: Settings, x: Decimal, less: nat, key: string)
    requires 0 < Money(x) && less < FreeDeliveryShortfall(cfg, x)
    ensures ComputeCharges(cfg, Paise(Money(x) + less), key).deliveryFee == Money(cfg.deliveryFee)
  {
    MoneyOfPaise(Money(cfg.freeAbove) - Money(x));
    MoneyOfPaise(Money(x) + less);
    ResolvedTierIsSold(cfg, key);
  }
}
