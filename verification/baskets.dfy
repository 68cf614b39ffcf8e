/**
  The `Basket` class of basket.ts as a value: its ordered line items and the
  settings its constructor fixes, with the item-management operations
  (basket.ts:23-66). Operations return the next basket instead of mutating.
 */
module Baskets {
  import opened Results
  import opened Config
  import opened Delivery
  import opened Items

  /** What the constructor fixes for the basket's lifetime. */
  datatype Settings = Settings(
    productMap: map<Code, Product>,
    deliveryRules: seq<DeliveryRule>,
    offers: seq<Offer>)

  datatype Basket = Basket(items: seq<Code>, settings: Settings)

  /** `add` throws on a code the catalog does not list. */
  datatype BasketError = UnknownProductCode(code: Code)

  /** Every code listed is a catalog code. */
  ghost predicate Known(s: Settings, codes: seq<Code>) {
    forall c :: c in codes ==> c in s.productMap
  }

  /** Every line item is a catalog code: what makes the subtotal's product lookup safe. */
  ghost predicate ItemsKnown(b: Basket) {
    Known(b.settings, b.items)
  }

  /** The invariant every reachable basket keeps. */
  ghost predicate Valid(b: Basket) {
    ItemsKnown(b) && SortedDesc(b.settings.deliveryRules)
  }

  /** The constructor (basket.ts:29-34). */
  function NewBasket(config: BasketConfig): (b: Basket)
    ensures b.items == []
    ensures forall c :: c in b.settings.productMap <==>
              exists i :: 0 <= i < |config.products| && config.products[i].code == c
    ensures multiset(b.settings.deliveryRules) == multiset(config.deliveryRules)
    ensures b.settings.offers == config.offers
    ensures Valid(b)
  {
    Basket([], Settings(ProductMap(config.products), SortByThresholdDesc(config.deliveryRules), config.offers))
  }

  /** `add`: refuses an unknown code and otherwise appends one unit of it. */
  function Add(b: Basket, code: Code): (r: Result<Basket, BasketError>)
    ensures r.Failure? <==> code !in b.settings.productMap
    ensures r.Failure? ==> r.error == UnknownProductCode(code)
    ensures r.Success? ==> r.value.settings == b.settings && r.value.items == b.items + [code]
    ensures r.Success? ==> multiset(r.value.items) == multiset(b.items) + multiset{code}
    ensures r.Success? && Valid(b) ==> Valid(r.value)
  {
    if code !in b.settings.productMap then Failure(UnknownProductCode(code))
    else Success(b.(items := b.items + [code]))
  }

  /**
    `remove`: drops the first unit of `code` and reports whether there was one;
    with no unit of `code` the basket is returned as it was.
   */
  function Remove(b: Basket, code: Code): (r: (Basket, bool))
    ensures r.1 <==> code in b.items
    ensures r.0.settings == b.settings
    ensures !r.1 ==> r.0 == b
    ensures r.1 ==> exists i :: 0 <= i < |b.items| && b.items[i] == code && code !in b.items[..i]
                                && r.0.items == b.items[..i] + b.items[i + 1..]
    ensures multiset(r.0.items) == multiset(b.items) - multiset{code}
    ensures ItemsKnown(b) ==> ItemsKnown(r.0)
    ensures Valid(b) ==> Valid(r.0)
  {
    var index := IndexOf(b.items, code);
    if index != -1 then
      var items := RemoveAt(b.items, index);
      assert items == b.items[..index] + b.items[index + 1..];
      assert b.items[index] == code && code !in b.items[..index];
      KnownAfterRemoveAt(b.settings, b.items, index);
      (b.(items := items), true)
    else
      assert multiset{code} * multiset(b.items) == multiset{};
      (b, false)
  }

  /** Removing a line item keeps every remaining item a catalog code. */
  lemma KnownAfterRemoveAt(s: Settings, items: seq<Code>, i: int)
    requires 0 <= i < |items|
    ensures Known(s, items) ==> Known(s, RemoveAt(items, i))
  {
    assert forall c :: c in RemoveAt(items, i) ==> c in multiset(items);
  }

  /** `clear`: empties the line items; the settings stay. */
  function Clear(b: Basket): (r: Basket)
    ensures r.items == [] && r.settings == b.settings
    ensures Valid(b) ==> Valid(r)
  {
    b.(items := [])
  }

  /** `getItems`: a copy of the line items, which for an immutable value is the items themselves. */
  function GetItems(b: Basket): (r: seq<Code>)
    ensures r == b.items
  {
    b.items
  }

  /** `counts` maps exactly the codes of `items`, each to its number of units. */
  ghost predicate ExactCounts(counts: map<Code, nat>, items: seq<Code>) {
    (forall c :: c in counts <==> c in items)
    && forall c :: c in counts ==> counts[c] == multiset(items)[c]
  }

  /** One more unit of `code`: its count goes up by one, from 0 when it has none yet. */
  function Bump(counts: map<Code, nat>, code: Code): (r: map<Code, nat>)
    ensures code in r && r[code] == (if code in counts then counts[code] else 0) + 1
    ensures forall c :: c != code ==> (c in r <==> c in counts) && (c in counts ==> r[c] == counts[c])
  {
    counts[code := if code in counts then counts[code] + 1 else 1]
  }

  /** The map the counting loop has built after reading `items`. */
  function CountsOf(items: seq<Code>): map<Code, nat>
  {
    if |items| == 0 then map[] else Bump(CountsOf(items[..|items| - 1]), items[|items| - 1])
  }

  /** The counting loop counts exactly: every item code is a key, mapped to its number of units. */
  lemma {:induction false} CountsOfExact(items: seq<Code>)
    ensures ExactCounts(CountsOf(items), items)
  {
    if |items| > 0 {
      var init := items[..|items| - 1];
      assert items == init + [items[|items| - 1]];
      CountsOfExact(init);
      CountOneMore(init, items[|items| - 1], CountsOf(init));
    }
  }

  /** Counting one more unit of `code` keeps the counts exact. */
  lemma CountOneMore(prefix: seq<Code>, code: Code, counts: map<Code, nat>)
    requires ExactCounts(counts, prefix)
    ensures ExactCounts(Bump(counts, code), prefix + [code])
  {
    var m := multiset(prefix);
    var items := prefix + [code];
    assert multiset(items) == m + multiset{code};
    var previous := if code in counts then counts[code] else 0;
    assert previous == m[code] by {
      assert code in prefix <==> code in m;
    }
    var next := Bump(counts, code);
    forall c
      ensures c in next <==> c in items
      ensures c in next ==> next[c] == multiset(items)[c]
    {
      assert c in items <==> c in prefix || c == code;
    }
  }

  /** Reading one more item extends both the key order and the count map by one step. */
  lemma CountsStep(items: seq<Code>, i: int)
    requires 0 <= i < |items|
    ensures Distinct(items[..i + 1]) == if items[i] in CountsOf(items[..i]) then Distinct(items[..i]) else Distinct(items[..i]) + [items[i]]
    ensures CountsOf(items[..i + 1]) == Bump(CountsOf(items[..i]), items[i])
  {
    assert items[..i + 1] == items[..i] + [items[i]];
    assert items[..i + 1][..i] == items[..i];
    DistinctAppend(items[..i], items[i]);
    CountsOfExact(items[..i]);
  }

  /**
    `getItemCounts` (basket.ts:60-66): one pass over the items building a map
    from code to count; `order` is the map's key order, first appearance first.
   */
  method ItemCounts(b: Basket) returns (order: seq<Code>, counts: map<Code, nat>)
    ensures order == Distinct(b.items)
    ensures forall c :: c in counts <==> c in b.items
    ensures forall c :: c in counts ==> counts[c] == multiset(b.items)[c] && counts[c] >= 1
    ensures CountSum(order, multiset(b.items)) == |b.items|
  {
    order := [];
    counts := map[];
    for i := 0 to |b.items|
      invariant order == Distinct(b.items[..i])
      invariant counts == CountsOf(b.items[..i])
    {
      var code := b.items[i];
      CountsStep(b.items, i);
      if code !in counts {
        order := order + [code];
      }
      counts := Bump(counts, code);
    }
    assert b.items[..|b.items|] == b.items;
    CountsOfExact(b.items);
    CountsSumToLength(b.items);
  }

  /** Adding a unit and removing one of the same code gives back the same counts. */
  lemma AddThenRemoveRestoresCounts(b: Basket, code: Code)
    requires code in b.settings.productMap
    ensures Add(b, code).Success?
    ensures var (after, removed) := Remove(Add(b, code).value, code);
            removed && after.settings == b.settings && multiset(after.items) == multiset(b.items)
  {
  }

  /**
    The round trip restores the counts but not always the order: the first
    unit is the one removed, not the one just appended.
   */
  lemma AddThenRemoveMayReorder(s: Settings)
    requires "B01" in s.productMap
    ensures var b := Basket(["B01", "R01"], s);
            var after := Remove(Add(b, "B01").value, "B01").0;
            after.items == ["R01", "B01"] && after.items != b.items
  {
    var b := Basket(["B01", "R01"], s);
    var added := Add(b, "B01").value;
    assert added.items == ["B01", "R01", "B01"];
    assert IndexOf(added.items, "B01") == 0;
  }
}
