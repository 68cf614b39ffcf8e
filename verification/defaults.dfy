/**
  The default Acme Widget Co configuration (basket.ts:116-139) and the four
  end-to-end totals the repository's test pins (basket.test.ts:4-9).
 */
module Defaults {
  import opened Results
  import opened Config
  import opened Delivery
  import opened Baskets
  import opened Pricing

  const DefaultProducts: seq<Product> := [
    Product("R01", "Red Widget", 3295),
    Product("G01", "Green Widget", 2495),
    Product("B01", "Blue Widget", 795)
  ]

  const DefaultDeliveryRules: seq<DeliveryRule> := [
    DeliveryRule(9000, 0),
    DeliveryRule(5000, 295),
    DeliveryRule(0, 495)
  ]

  const DefaultOffers: seq<Offer> := [Offer("R01", BuyOneGetSecondHalfPrice)]

  /** The settings the constructor derives from the default configuration. */
  const DefaultSettings: Settings := Settings(
    map["R01" := DefaultProducts[0], "G01" := DefaultProducts[1], "B01" := DefaultProducts[2]],
    DefaultDeliveryRules,
    DefaultOffers)

  /** The default catalog as a map: each code to its product. */
  lemma DefaultProductMap()
    ensures ProductMap(DefaultProducts) == map[
              "R01" := DefaultProducts[0], "G01" := DefaultProducts[1], "B01" := DefaultProducts[2]]
  {
    var ps := DefaultProducts;
    assert ps[..0] == [];
    assert ps[..1][..0] == [];
    assert ps[..2][..1] == ps[..1];
    assert ProductMap(ps[..1]) == map["R01" := ps[0]];
    assert ProductMap(ps[..2]) == map["R01" := ps[0], "G01" := ps[1]];
  }

  /** `createDefaultBasket`: an empty basket over the default settings. */
  function CreateDefaultBasket(): (b: Basket)
    ensures Valid(b) && b.items == [] && b.settings == DefaultSettings
  {
    Basket([], DefaultSettings)
  }

  /** The default basket is exactly what the constructor makes of the default configuration. */
  lemma DefaultBasketIsConstructed()
    ensures CreateDefaultBasket() == NewBasket(BasketConfig(DefaultProducts, DefaultDeliveryRules, DefaultOffers))
  {
    SortKeepsSortedList(DefaultDeliveryRules);
    DefaultProductMap();
  }

  /** The test's loop: add each code in turn, stopping at the first refusal. */
  function AddAll(b: Basket, codes: seq<Code>): (r: Result<Basket, BasketError>)
    ensures r.Success? <==> forall i :: 0 <= i < |codes| ==> codes[i] in b.settings.productMap
    ensures r.Success? ==> r.value.items == b.items + codes && r.value.settings == b.settings
    ensures r.Success? && Valid(b) ==> Valid(r.value)
    decreases |codes|
  {
    if |codes| == 0 then
      assert b.items + codes == b.items;
      Success(b)
    else
      match Add(b, codes[0])
      case Failure(e) => Failure(e)
      case Success(next) =>
        var r := AddAll(next, codes[1..]);
        assert r.Success? ==> r.value.items == b.items + codes by {
          assert codes == [codes[0]] + codes[1..];
        }
        r
  }

  /** Default tiers: free from 90.00, 2.95 from 50.00, 4.95 below (and for negative subtotals). */
  lemma DefaultDeliveryTiers(subtotal: int)
    ensures DeliveryCost(DefaultSettings.deliveryRules, subtotal) ==
            if subtotal >= 9000 then 0 else if subtotal >= 5000 then 295 else 495
  {
    var rules := DefaultSettings.deliveryRules;
    assert rules[0].threshold == 9000 && rules[1].threshold == 5000 && rules[2].threshold == 0;
    var k := FirstMatchIndex(rules, subtotal);
    if subtotal >= 9000 {
      assert k == 0;
    } else if subtotal >= 5000 {
      assert k == 1;
    } else if subtotal >= 0 {
      assert k == 2;
    } else {
      assert k == 3;
    }
  }

  /** After `clear` on a default basket the subtotal is 0 and the delivery 4.95. */
  lemma ClearedDefaultBasket(b: Basket)
    requires b.settings == DefaultSettings
    ensures GetItems(Clear(b)) == [] && Subtotal(Clear(b)) == 0
    ensures DeliveryCharge(Clear(b)) == 495
  {
    ClearEmptiesBasket(b);
    DefaultDeliveryTiers(0);
  }

  /** Only R01 carries the half-price offer. */
  lemma DefaultOfferCodes()
    ensures HasHalfPriceOffer(DefaultOffers, "R01")
    ensures !HasHalfPriceOffer(DefaultOffers, "G01")
    ensures !HasHalfPriceOffer(DefaultOffers, "B01")
  {
    assert DefaultOffers[0] == Offer("R01", BuyOneGetSecondHalfPrice);
  }

  /** What each unit costs under the default configuration. */
  lemma DefaultUnitCharges(k: nat)
    ensures UnitCharge(DefaultSettings, "R01", k) == if k % 2 == 0 then 1647 else 3295
    ensures UnitCharge(DefaultSettings, "G01", k) == 2495
    ensures UnitCharge(DefaultSettings, "B01", k) == 795
  {
    DefaultOfferCodes();
  }

  /** The charge of two items, the second being a second unit when the codes agree. */
  lemma ChargeOfPair(s: Settings, x: Code, y: Code)
    ensures ItemwiseCharge(s, [x, y]) == UnitCharge(s, x, 1) + UnitCharge(s, y, if x == y then 2 else 1)
  {
    ItemwiseAppend(s, [], x);
    assert [] + [x] == [x];
    ItemwiseAppend(s, [x], y);
    assert [x] + [y] == [x, y];
  }

  /** The charge of two units of `x` followed by three units of another code `y`. */
  lemma ChargeOfTwoThenThree(s: Settings, x: Code, y: Code)
    requires x != y
    ensures ItemwiseCharge(s, [x, x, y, y, y]) ==
            UnitCharge(s, x, 1) + UnitCharge(s, x, 2) + UnitCharge(s, y, 1) + UnitCharge(s, y, 2) + UnitCharge(s, y, 3)
  {
    ChargeOfPair(s, x, x);
    ItemwiseAppend(s, [x, x], y);
    assert [x, x] + [y] == [x, x, y];
    assert multiset([x, x])[y] == 0;
    ItemwiseAppend(s, [x, x, y], y);
    assert [x, x, y] + [y] == [x, x, y, y];
    assert multiset([x, x, y])[y] == 1;
    ItemwiseAppend(s, [x, x, y, y], y);
    assert [x, x, y, y] + [y] == [x, x, y, y, y];
    assert multiset([x, x, y, y])[y] == 2;
  }

  /** The test's recipe on a default basket: add every code, then price the result. */
  lemma DefaultScenario(codes: seq<Code>, subtotal: int)
    requires forall i :: 0 <= i < |codes| ==> codes[i] in DefaultSettings.productMap
    requires ItemwiseCharge(DefaultSettings, codes) == subtotal
    ensures var r := AddAll(CreateDefaultBasket(), codes);
            r.Success? && ItemsKnown(r.value) && Subtotal(r.value) == subtotal
            && DeliveryCharge(r.value) == DeliveryCost(DefaultDeliveryRules, subtotal)
  {
    var b := AddAll(CreateDefaultBasket(), codes).value;
    assert b.items == codes;
    SubtotalIsItemwise(b);
  }

  /** [B01, G01]: 795 + 2495 = 3290, delivery 495, total 3785. */
  lemma BlueGreenTotal()
    ensures var r := AddAll(CreateDefaultBasket(), ["B01", "G01"]);
            r.Success? && ItemsKnown(r.value)
            && Subtotal(r.value) == 3290 && DeliveryCharge(r.value) == 495
            && Subtotal(r.value) + DeliveryCharge(r.value) == 3785
  {
    DefaultUnitCharges(1);
    ChargeOfPair(DefaultSettings, "B01", "G01");
    DefaultScenario(["B01", "G01"], 3290);
    DefaultDeliveryTiers(3290);
  }

  /** [R01, R01]: the second red widget at half price, 3295 + 1647 = 4942, delivery 495, total 5437. */
  lemma RedPairTotal()
    ensures var r := AddAll(CreateDefaultBasket(), ["R01", "R01"]);
            r.Success? && ItemsKnown(r.value)
            && Subtotal(r.value) == 4942 && DeliveryCharge(r.value) == 495
            && Subtotal(r.value) + DeliveryCharge(r.value) == 5437
  {
    DefaultUnitCharges(1);
    DefaultUnitCharges(2);
    ChargeOfPair(DefaultSettings, "R01", "R01");
    DefaultScenario(["R01", "R01"], 4942);
    DefaultDeliveryTiers(4942);
  }

  /** [R01, G01]: 3295 + 2495 = 5790, delivery 295, total 6085. */
  lemma RedGreenTotal()
    ensures var r := AddAll(CreateDefaultBasket(), ["R01", "G01"]);
            r.Success? && ItemsKnown(r.value)
            && Subtotal(r.value) == 5790 && DeliveryCharge(r.value) == 295
            && Subtotal(r.value) + DeliveryCharge(r.value) == 6085
  {
    DefaultUnitCharges(1);
    ChargeOfPair(DefaultSettings, "R01", "G01");
    DefaultScenario(["R01", "G01"], 5790);
    DefaultDeliveryTiers(5790);
  }

  /**
    [B01, B01, R01, R01, R01]: two blue at 795, three red at 3295 + 1647 + 3295,
    subtotal 9827, free delivery, total 9827.
   */
  lemma MixedTotal()
    ensures var r := AddAll(CreateDefaultBasket(), ["B01", "B01", "R01", "R01", "R01"]);
            r.Success? && ItemsKnown(r.value)
            && Subtotal(r.value) == 9827 && DeliveryCharge(r.value) == 0
            && Subtotal(r.value) + DeliveryCharge(r.value) == 9827
  {
    DefaultUnitCharges(1);
    DefaultUnitCharges(2);
    DefaultUnitCharges(3);
    ChargeOfTwoThenThree(DefaultSettings, "B01", "R01");
    DefaultScenario(["B01", "B01", "R01", "R01", "R01"], 9827);
    DefaultDeliveryTiers(9827);
  }
}
