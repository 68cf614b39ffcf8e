/**
  The configuration value types of the pricing engine (basket.ts:1-21) and the two
  lookups the basket builds from them: the product map and the offer search.
  Every amount is an integer number of cents.
 */
module Config {
  import opened Results

  type Code = string

  datatype Product = Product(code: Code, name: string, price: int)

  /** "If the subtotal is at least `threshold`, delivery costs `cost`." */
  datatype DeliveryRule = DeliveryRule(threshold: int, cost: int)

  /**
    The kind of a promotional offer. The declared type admits only the
    buy-one-get-second-half-price tag, but the pricing code still tests the tag,
    so any other tag a caller smuggles in is kept as `Unrecognised` and priced
    as no offer at all.
   */
  datatype OfferType = BuyOneGetSecondHalfPrice | Unrecognised(tag: string)

  datatype Offer = Offer(productCode: Code, kind: OfferType)

  datatype BasketConfig = BasketConfig(
    products: seq<Product>,
    deliveryRules: seq<DeliveryRule>,
    offers: seq<Offer>)

  /**
    The map from code to product built by the constructor: every configured code
    is a key, every entry is one of the configured products filed under its own
    code, and when two products share a code the later one wins.
   */
  function ProductMap(products: seq<Product>): (m: map<Code, Product>)
    ensures forall i :: 0 <= i < |products| ==> products[i].code in m
    ensures forall c :: c in m ==> m[c].code == c && m[c] in products
  {
    if |products| == 0 then map[]
    else
      var init := products[..|products| - 1];
      var last := products[|products| - 1];
      ProductMap(init)[last.code := last]
  }

  /** When two products share a code, the map keeps the later one. */
  lemma {:induction false} ProductMapLastWins(products: seq<Product>, i: int)
    requires 0 <= i < |products| && LastWithCode(products, i)
    ensures ProductMap(products)[products[i].code] == products[i]
  {
    var n := |products|;
    if i < n - 1 {
      var init := products[..n - 1];
      assert products[n - 1].code != products[i].code;
      assert LastWithCode(init, i) by {
        forall j | i < j < |init|
          ensures init[j].code != init[i].code
        {
          assert init[j] == products[j];
        }
      }
      ProductMapLastWins(init, i);
    }
  }

  /** No product after index `i` carries the code of `products[i]`. */
  ghost predicate LastWithCode(products: seq<Product>, i: int)
    requires 0 <= i < |products|
  {
    forall j :: i < j < |products| ==> products[j].code != products[i].code
  }

  /**
    Index of the first offer for `code`, or `|offers|` when there is none: the
    position `Array.prototype.find` stops at.
   */
  function FirstOfferIndex(offers: seq<Offer>, code: Code): (k: nat)
    ensures k <= |offers|
    ensures forall j :: 0 <= j < k ==> offers[j].productCode != code
    ensures k < |offers| ==> offers[k].productCode == code
  {
    if |offers| == 0 then 0
    else if offers[0].productCode == code then 0
    else 1 + FirstOfferIndex(offers[1..], code)
  }

  /** The first offer whose product code is `code`, if any. */
  function FindOffer(offers: seq<Offer>, code: Code): (r: Option<Offer>)
    ensures r.None? <==> forall i :: 0 <= i < |offers| ==> offers[i].productCode != code
    ensures r.Some? ==> r.value.productCode == code && r.value in offers
    ensures r.Some? ==> exists k :: 0 <= k < |offers| && r.value == offers[k]
                                  && forall j :: 0 <= j < k ==> offers[j].productCode != code
  {
    var k := FirstOfferIndex(offers, code);
    if k < |offers| then Some(offers[k]) else None
  }

  /**
    Whether `code` is priced under the half-price offer: exactly when the FIRST
    offer naming it has that kind; a later half-price offer for the same code
    is shadowed.
   */
  function HasHalfPriceOffer(offers: seq<Offer>, code: Code): (b: bool)
    ensures b <==> exists k :: 0 <= k < |offers| && offers[k] == Offer(code, BuyOneGetSecondHalfPrice)
                                && forall j :: 0 <= j < k ==> offers[j].productCode != code
  {
    var found := FindOffer(offers, code);
    found.Some? && found.value.kind == BuyOneGetSecondHalfPrice
  }
}
