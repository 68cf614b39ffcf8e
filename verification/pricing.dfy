/**
  Pricing in cents (basket.ts:68-113): the line price of one product under the
  half-price offer, the subtotal over the distinct codes of the basket, and
  the total with delivery.
 */
module Pricing {
  import opened Results
  import opened Config
  import opened Delivery
  import opened Items
  import opened Baskets

  /**
    The price of the `k`-th unit (counting from 1) of a product: under the
    offer every second unit costs half the price, rounded down.
   */
  function UnitPrice(k: nat, price: int, halfPriceOffer: bool): int
  {
    if halfPriceOffer && k % 2 == 0 then price / 2 else price
  }

  /** Reference: `n` units charged one after the other. */
  function UnitByUnit(n: nat, price: int, halfPriceOffer: bool): int
  {
    if n == 0 then 0 else UnitByUnit(n - 1, price, halfPriceOffer) + UnitPrice(n, price, halfPriceOffer)
  }

  /**
    The closed form the engine charges for `count` units (basket.ts:76-84):
    pairs at one full and one half price, a single left over at full price;
    without the offer, `count` times the price. `price / 2` on an `int` is
    `Math.floor(price / 2)` for every sign of `price`.
   */
  function LinePrice(count: nat, price: int, halfPriceOffer: bool): int
  {
    if halfPriceOffer then
      var pairs := count / 2;
      var singles := count % 2;
      var halfPrice := price / 2;
      pairs * (price + halfPrice) + singles * price
    else
      count * price
  }

  /** One more unit adds the price of that unit. */
  lemma LinePriceStep(n: nat, price: int, halfPriceOffer: bool)
    ensures LinePrice(n + 1, price, halfPriceOffer) == LinePrice(n, price, halfPriceOffer) + UnitPrice(n + 1, price, halfPriceOffer)
  {
    if halfPriceOffer {
      var q := n / 2;
      var h := price / 2;
      if n % 2 == 0 {
        assert (n + 1) / 2 == q && (n + 1) % 2 == 1;
      } else {
        assert (n + 1) / 2 == q + 1 && (n + 1) % 2 == 0;
        assert (q + 1) * (price + h) == q * (price + h) + (price + h);
      }
    } else {
      assert (n + 1) * price == n * price + price;
    }
  }

  /** The closed form agrees with charging the units one by one. */
  lemma {:induction false} LinePriceIsUnitByUnit(n: nat, price: int, halfPriceOffer: bool)
    ensures LinePrice(n, price, halfPriceOffer) == UnitByUnit(n, price, halfPriceOffer)
  {
    if n > 0 {
      LinePriceIsUnitByUnit(n - 1, price, halfPriceOffer);
      LinePriceStep(n - 1, price, halfPriceOffer);
    }
  }

  /** The offer takes the rounded-up half price off every second unit, and no more. */
  lemma HalfPriceSaving(n: nat, price: int)
    ensures LinePrice(n, price, false) - LinePrice(n, price, true) == (n / 2) * (price - price / 2)
    ensures price >= 0 ==> LinePrice(n, price, true) <= LinePrice(n, price, false)
  {
    var q := n / 2;
    var r := n % 2;
    var h := price / 2;
    assert n == 2 * q + r;
    assert n * price == q * (2 * price) + r * price;
    assert q * (2 * price) - q * (price + h) == q * (price - h);
    assert price >= 0 ==> price - h >= 0;
    assert price >= 0 ==> q * (price - h) >= 0;
  }

  /**
    The catalog price of `code`. Only catalog codes ever enter a basket
    (`ItemsKnown`), so the 0 for any other code is never charged; it lets the
    sums below be stated without a precondition.
   */
  function PriceOf(s: Settings, code: Code): int
  {
    if code in s.productMap then s.productMap[code].price else 0
  }

  /** The price of the `k`-th unit of `code` under the basket's settings. */
  function UnitCharge(s: Settings, code: Code, k: nat): int
  {
    UnitPrice(k, PriceOf(s, code), HasHalfPriceOffer(s.offers, code))
  }

  /** The line of `code` when `counts` says how many units the basket holds. */
  function LineTotal(s: Settings, counts: multiset<Code>, code: Code): int
  {
    LinePrice(counts[code], PriceOf(s, code), HasHalfPriceOffer(s.offers, code))
  }

  /** The lines of the listed codes, added up in list order. */
  function SumLines(s: Settings, codes: seq<Code>, counts: multiset<Code>): int
  {
    if |codes| == 0 then 0
    else SumLines(s, codes[..|codes| - 1], counts) + LineTotal(s, counts, codes[|codes| - 1])
  }

  /** The subtotal in cents: one line per distinct code in the basket. */
  function Subtotal(b: Basket): int
    requires ItemsKnown(b)
  {
    SumLines(b.settings, Distinct(b.items), multiset(b.items))
  }

  /**
    Reference: every line item charged as it was added, the `k`-th unit of a
    code at that unit's price.
   */
  function ItemwiseCharge(s: Settings, items: seq<Code>): int
  {
    if |items| == 0 then 0
    else
      var init := items[..|items| - 1];
      var last := items[|items| - 1];
      ItemwiseCharge(s, init) + UnitCharge(s, last, multiset(init)[last] + 1)
  }

  /** Appending one item charges it as the next unit of its code. */
  lemma ItemwiseAppend(s: Settings, items: seq<Code>, x: Code)
    ensures ItemwiseCharge(s, items + [x]) == ItemwiseCharge(s, items) + UnitCharge(s, x, multiset(items)[x] + 1)
  {
    assert (items + [x])[..|items|] == items;
  }

  /**
    The body of the subtotal loop (basket.ts:76-84): the line for `count`
    units of `product`, given the first offer found for its code.
   */
  method LineFor(count: nat, product: Product, offer: Option<Offer>) returns (line: int)
    ensures line == LinePrice(count, product.price, offer.Some? && offer.value.kind == BuyOneGetSecondHalfPrice)
  {
    if offer.Some? && offer.value.kind == BuyOneGetSecondHalfPrice {
      var pairs := count / 2;
      var singles := count % 2;
      var halfPrice := product.price / 2;
      line := pairs * (product.price + halfPrice) + singles * product.price;
    } else {
      line := count * product.price;
    }
  }

  /** Looks up the product and its offer, then prices `count` units of `code`. */
  method CodeLine(s: Settings, code: Code, count: nat) returns (line: int)
    requires code in s.productMap
    ensures line == LinePrice(count, PriceOf(s, code), HasHalfPriceOffer(s.offers, code))
  {
    var product := s.productMap[code];
    var offer := FindOffer(s.offers, code);
    line := LineFor(count, product, offer);
  }

  /**
    basket.ts:68-88: a pass over the counts map adding each code's line; the
    product lookup is the non-null one the source asserts, safe because every
    item is a catalog code.
   */
  method CalculateSubtotal(b: Basket) returns (subtotal: int)
    requires ItemsKnown(b)
    ensures subtotal == Subtotal(b)
  {
    var order, counts := ItemCounts(b);
    subtotal := 0;
    for i := 0 to |order|
      invariant subtotal == SumLines(b.settings, order[..i], multiset(b.items))
    {
      var code := order[i];
      assert code in b.items;
      var line := CodeLine(b.settings, code, counts[code]);
      SumLinesSnoc(b.settings, order, i, multiset(b.items));
      subtotal := subtotal + line;
    }
    assert order[..|order|] == order;
  }

  /** Extending the prefix of a list by one code adds that code's line. */
  lemma SumLinesSnoc(s: Settings, codes: seq<Code>, i: nat, counts: multiset<Code>)
    requires i < |codes|
    ensures SumLines(s, codes[..i + 1], counts) == SumLines(s, codes[..i], counts) + LineTotal(s, counts, codes[i])
  {
    assert codes[..i + 1][..i] == codes[..i];
  }

  /** Appending one code to a list adds that code's line. */
  lemma SumLinesAppend(s: Settings, codes: seq<Code>, x: Code, counts: multiset<Code>)
    ensures SumLines(s, codes + [x], counts) == SumLines(s, codes, counts) + LineTotal(s, counts, x)
  {
    assert (codes + [x])[..|codes|] == codes;
  }

  /** Taking one code out of the list takes its line out of the sum. */
  lemma {:induction false} SumLinesRemoveAt(s: Settings, d: seq<Code>, j: int, counts: multiset<Code>)
    requires 0 <= j < |d|
    ensures SumLines(s, d, counts) == SumLines(s, RemoveAt(d, j), counts) + LineTotal(s, counts, d[j])
    decreases |d|
  {
    var init := d[..|d| - 1];
    var last := d[|d| - 1];
    assert d == init + [last];
    SumLinesAppend(s, init, last, counts);
    if j < |d| - 1 {
      SumLinesRemoveAt(s, init, j, counts);
      RemoveAtAppend(init, last, j);
      SumLinesAppend(s, RemoveAt(init, j), last, counts);
    } else {
      RemoveAtLast(init, last);
    }
  }

  /** Two duplicate-free listings of the same codes give the same sum of lines. */
  lemma {:induction false} SumLinesPermutation(s: Settings, d1: seq<Code>, d2: seq<Code>, counts: multiset<Code>)
    requires NoDuplicates(d1) && NoDuplicates(d2)
    requires forall c :: c in d1 <==> c in d2
    ensures SumLines(s, d1, counts) == SumLines(s, d2, counts)
    decreases |d1|
  {
    if |d1| == 0 {
      EmptyIfNoMembers(d2);
    } else {
      var last := |d1| - 1;
      var x := d1[last];
      var j := IndexOf(d2, x);
      RemoveAtMembers(d1, last);
      RemoveAtMembers(d2, j);
      assert RemoveAt(d1, last) == d1[..last];
      SumLinesRemoveAt(s, d2, j, counts);
      SumLinesPermutation(s, d1[..last], RemoveAt(d2, j), counts);
    }
  }

  /** The subtotal depends only on how many units of each code the basket holds. */
  lemma SubtotalIgnoresOrder(b1: Basket, b2: Basket)
    requires b1.settings == b2.settings
    requires multiset(b1.items) == multiset(b2.items)
    requires ItemsKnown(b1) && ItemsKnown(b2)
    ensures Subtotal(b1) == Subtotal(b2)
  {
    var d1 := Distinct(b1.items);
    var d2 := Distinct(b2.items);
    forall c
      ensures c in d1 <==> c in d2
    {
      assert c in b1.items <==> c in multiset(b1.items);
      assert c in b2.items <==> c in multiset(b2.items);
    }
    SumLinesPermutation(b1.settings, d1, d2, multiset(b1.items));
  }

  /** One more unit of `x` adds the price of that unit to its line, if `x` is listed. */
  lemma {:induction false} SumLinesBump(s: Settings, d: seq<Code>, counts: multiset<Code>, x: Code)
    requires NoDuplicates(d)
    ensures SumLines(s, d, counts + multiset{x}) ==
            SumLines(s, d, counts) + (if x in d then UnitCharge(s, x, counts[x] + 1) else 0)
  {
    if |d| > 0 {
      var init := d[..|d| - 1];
      var last := d[|d| - 1];
      assert d == init + [last];
      SumLinesBump(s, init, counts, x);
      if last == x {
        assert x !in init;
        LinePriceStep(counts[x], PriceOf(s, x), HasHalfPriceOffer(s.offers, x));
      } else {
        assert (counts + multiset{x})[last] == counts[last];
      }
    }
  }

  /** A line of one unit costs that unit's price. */
  lemma FirstUnitLine(s: Settings, counts: multiset<Code>, x: Code)
    requires counts[x] == 1
    ensures LineTotal(s, counts, x) == UnitCharge(s, x, 1)
  {
    LinePriceStep(0, PriceOf(s, x), HasHalfPriceOffer(s.offers, x));
  }

  /** Appending an item already present only bumps its line. */
  lemma LinesAppendPresent(s: Settings, init: seq<Code>, x: Code)
    requires x in init
    ensures SumLines(s, Distinct(init + [x]), multiset(init + [x])) ==
            SumLines(s, Distinct(init), multiset(init)) + UnitCharge(s, x, multiset(init)[x] + 1)
  {
    DistinctAppend(init, x);
    assert multiset(init + [x]) == multiset(init) + multiset{x};
    SumLinesBump(s, Distinct(init), multiset(init), x);
  }

  /** Appending a new code adds a one-unit line for it. */
  lemma LinesAppendAbsent(s: Settings, init: seq<Code>, x: Code)
    requires x !in init
    ensures SumLines(s, Distinct(init + [x]), multiset(init + [x])) ==
            SumLines(s, Distinct(init), multiset(init)) + UnitCharge(s, x, multiset(init)[x] + 1)
  {
    var d := Distinct(init);
    var m := multiset(init);
    DistinctAppend(init, x);
    assert multiset(init + [x]) == m + multiset{x};
    assert (d + [x])[..|d|] == d;
    SumLinesBump(s, d, m, x);
    FirstUnitLine(s, m + multiset{x}, x);
  }

  /** The per-code closed form charges exactly what charging item by item does. */
  lemma {:induction false} LinesAreItemwise(s: Settings, items: seq<Code>)
    ensures SumLines(s, Distinct(items), multiset(items)) == ItemwiseCharge(s, items)
  {
    if |items| > 0 {
      var init := items[..|items| - 1];
      var x := items[|items| - 1];
      assert items == init + [x];
      LinesAreItemwise(s, init);
      if x in init {
        LinesAppendPresent(s, init, x);
      } else {
        LinesAppendAbsent(s, init, x);
      }
      ItemwiseAppend(s, init, x);
    }
  }

  /** The subtotal equals the reference item-by-item charge. */
  lemma SubtotalIsItemwise(b: Basket)
    requires ItemsKnown(b)
    ensures Subtotal(b) == ItemwiseCharge(b.settings, b.items)
  {
    LinesAreItemwise(b.settings, b.items);
  }

  /** Adding a unit raises the subtotal by the price of that unit, its position among its code's units decides. */
  lemma AddChargesNextUnit(b: Basket, code: Code)
    requires ItemsKnown(b) && code in b.settings.productMap
    ensures Add(b, code).Success? && ItemsKnown(Add(b, code).value)
    ensures Subtotal(Add(b, code).value) == Subtotal(b) + UnitCharge(b.settings, code, multiset(b.items)[code] + 1)
  {
    var after := Add(b, code).value;
    assert after.items == b.items + [code];
    ItemwiseAppend(b.settings, b.items, code);
    SubtotalIsItemwise(b);
    SubtotalIsItemwise(after);
  }

  /** Removing a unit lowers the subtotal by the price of the code's last-priced unit. */
  lemma RemoveRefundsOneUnit(b: Basket, code: Code)
    requires ItemsKnown(b) && code in b.items
    ensures ItemsKnown(Remove(b, code).0)
    ensures Subtotal(Remove(b, code).0) == Subtotal(b) - UnitCharge(b.settings, code, multiset(b.items)[code])
  {
    var after := Remove(b, code).0;
    var m := multiset(b.items);
    assert code in b.settings.productMap;
    assert code in m;
    var readded := Add(after, code).value;
    AddChargesNextUnit(after, code);
    assert multiset(after.items) == m - multiset{code};
    assert multiset(after.items)[code] + 1 == m[code];
    assert multiset(readded.items) == (m - multiset{code}) + multiset{code};
    MultisetPutBack(m, code);
    SubtotalIgnoresOrder(readded, b);
  }

  /** Taking one unit out and putting it back restores the multiset. */
  lemma MultisetPutBack(m: multiset<Code>, x: Code)
    requires x in m
    ensures (m - multiset{x}) + multiset{x} == m
  {
    var r := (m - multiset{x}) + multiset{x};
    forall c
      ensures r[c] == m[c]
    {
    }
  }

  /** The delivery charge for the current subtotal. */
  function DeliveryCharge(b: Basket): int
    requires ItemsKnown(b)
  {
    DeliveryCost(b.settings.deliveryRules, Subtotal(b))
  }

  /** `getDelivery` in cents (basket.ts:104-107). */
  method GetDelivery(b: Basket) returns (cents: int)
    requires ItemsKnown(b)
    ensures cents == DeliveryCharge(b)
  {
    var subtotal := CalculateSubtotal(b);
    cents := CalculateDelivery(b.settings.deliveryRules, subtotal);
  }

  /** `total` in cents (basket.ts:109-113): subtotal plus the delivery that subtotal earns. */
  method Total(b: Basket) returns (cents: int)
    requires ItemsKnown(b)
    ensures cents == Subtotal(b) + DeliveryCharge(b)
  {
    var subtotal := CalculateSubtotal(b);
    var delivery := CalculateDelivery(b.settings.deliveryRules, subtotal);
    cents := subtotal + delivery;
  }

  /** An emptied basket has no items, costs nothing, and pays the delivery of a zero subtotal. */
  lemma ClearEmptiesBasket(b: Basket)
    ensures GetItems(Clear(b)) == []
    ensures Subtotal(Clear(b)) == 0
    ensures DeliveryCharge(Clear(b)) == DeliveryCost(b.settings.deliveryRules, 0)
  {
  }
}
