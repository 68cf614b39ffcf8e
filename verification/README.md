# Acme Widget Co basket pricing, modelled in Dafny

This project models the pricing engine of the Acme Widget Co shopping basket,
`src/lib/basket.ts`. A basket is built from a configuration:

- a product catalog, where each product has a code, a name and a price in cents;
- delivery rules, each "from this subtotal on, delivery costs this much";
- promotional offers, of which only "buy one, get the second half price" exists.

The basket keeps an ordered list of product codes. It supports:

- `add`, which rejects unknown codes;
- `remove`, which drops the first unit of a code;
- `clear`, `getItems` and `getItemCounts`.

It prices the basket in three steps:

- Subtotal: one line per distinct code. Under the half-price offer each pair of
  units costs one full price plus half a price, rounded down.
- Delivery: the constructor sorts the rules by threshold, highest first. The
  charge is the cost of the first sorted rule whose threshold the subtotal
  reaches. If no rule is reached, the last rule's cost is charged, or 0 when
  there are no rules.
- Total: the subtotal plus the delivery.

The model also covers the default configuration, `createDefaultBasket`, and the
four end-to-end totals the repository's test file pins.

Everything is in integer cents. The class's in-place mutation is modelled with
immutable values: each operation returns the next basket. A rejected `add`
returns a `Result` failure instead of throwing.

Modules:

- `Results`: `Option` and `Result`.
- `Config`: the configuration types, the product map and the offer lookup.
- `Delivery`: the stable descending sort, tier selection and the delivery loop.
- `Items`: sequence facts about the line items: distinct codes, first
  occurrence, removal at an index.
- `Baskets`: the basket value and its item operations.
- `Pricing`: line prices, the subtotal, delivery and total.
- `Defaults`: the default configuration and the test scenarios.

Each priced operation is tied to an independent reference, and a lemma proves
they agree for all inputs:

- The closed-form line price equals charging the units one by one:
  `Pricing.LinePriceIsUnitByUnit`.
- The per-code subtotal equals charging each item as it was added:
  `Pricing.SubtotalIsItemwise`. It depends only on the unit counts:
  `Pricing.SubtotalIgnoresOrder`.
- Selecting from the sorted rule list equals the "highest reached threshold,
  first listed among equals" reading of the unsorted configuration:
  `Delivery.SortedSelectionIsConfigTier`.

## Model

| member | source | states |
|---|---|---|
| Config.ProductMap | src/lib/basket.ts:30 | every configured code is a key, and every entry is a configured product filed under its own code |
| Config.ProductMapLastWins | src/lib/basket.ts:30 | when two products share a code, the `Map` constructor keeps the later one |
| Config.FirstOfferIndex | src/lib/basket.ts:74 | `find` stops at the first offer naming the code: no earlier offer names it, and the offer found does |
| Config.FindOffer | src/lib/basket.ts:74 | no offer is found exactly when no offer names the code; otherwise the offer found is the first configured offer naming the code |
| Config.HasHalfPriceOffer | src/lib/basket.ts:74-76 | a code is priced under the offer exactly when the first offer naming it is a half-price offer, so a later offer for the same code is shadowed |
| Delivery.Insert | src/lib/basket.ts:32 | inserting a rule yields the same rules plus the new one, with the same head or the new rule in front |
| Delivery.InsertKeepsSorted | src/lib/basket.ts:32 | inserting into a list sorted by descending threshold keeps it sorted |
| Delivery.SortByThresholdDesc | src/lib/basket.ts:32 | the stored rule list is sorted by descending threshold and is a permutation of the configured rules |
| Delivery.SortKeepsSortedList | src/lib/basket.ts:32 | the stable sort leaves an already descending list, such as the default rules, exactly as it was |
| Delivery.FirstMatchIndex | src/lib/basket.ts:91-95 | the loop returns at the first rule whose threshold the subtotal reaches: every rule before it has a higher threshold |
| Delivery.FallbackCost | src/lib/basket.ts:97 | with no rules the fallback is 0; otherwise it is the cost of the last rule |
| Delivery.LowestLast | src/lib/basket.ts:97 | picks a rule of the lowest configured threshold, and among several such the one listed last |
| Delivery.SortedLastIsLowestLast | src/lib/basket.ts:32 | the stable sort ends with the last-listed rule of the lowest configured threshold |
| Delivery.FallbackIsLowest | src/lib/basket.ts:96-97 | when no rule is reached, the fallback charges the cost of a lowest-threshold rule, and among several such the one configured last |
| Delivery.DeliveryCost | src/lib/basket.ts:90-98 | when some rule is reached, the charge is the cost of the first rule reached; when none is, the charge is the fallback |
| Delivery.CalculateDelivery | src/lib/basket.ts:90-98 | the loop with its early return and the fallback after it computes the delivery charge |
| Delivery.HighestReachedTier | src/lib/basket.ts:31-32 | on the sorted list, the charge belongs to a rule with the highest threshold the subtotal reaches |
| Delivery.ThresholdIsInclusive | src/lib/basket.ts:92 | a subtotal exactly at a threshold pays that tier, not the next lower one |
| Delivery.ConfigTier | src/lib/basket.ts:31-32 | reference tier: none exactly when no threshold is reached; otherwise a configured rule the subtotal reaches whose threshold is the highest reached |
| Delivery.SelectedAfterInsert | src/lib/basket.ts:32 | inserting a rule changes the selected tier only when the new rule is reached and has a strictly higher threshold |
| Delivery.SortedSelectionIsConfigTier | src/lib/basket.ts:31-32 | after the stable sort, the first rule reached is exactly the reference tier of the unsorted configuration, ties included |
| Items.Distinct | src/lib/basket.ts:60-66 | the key list of the counts map has no duplicates and holds exactly the codes in the items |
| Items.DistinctFirstAppearanceOrder | src/lib/basket.ts:62-63 | the keys come in order of each code's first appearance among the items |
| Items.IndexOf | src/lib/basket.ts:44 | `indexOf` gives -1 exactly when the code is absent; otherwise the index of its first occurrence |
| Items.RemoveAt | src/lib/basket.ts:46 | `splice(i, 1)` drops exactly the element at `i`: one element shorter, the others in order, the multiset less that element |
| Items.CountsSumToLength | src/lib/basket.ts:60-66 | the counts of the distinct codes add up to the number of items |
| Baskets.NewBasket | src/lib/basket.ts:29-34 | a new basket is empty; it knows exactly the configured codes; it holds a permutation of the configured rules and the offers as given; it is valid |
| Baskets.Add | src/lib/basket.ts:36-41 | an unknown code is rejected with the code in the error, and only an unknown code is; a known code appends one unit and keeps the settings and validity |
| Baskets.Remove | src/lib/basket.ts:43-50 | the result is true exactly when the code was present; the first unit is the one removed; the counts lose one unit of the code; an absent code leaves the basket unchanged |
| Baskets.Clear | src/lib/basket.ts:52-54 | clearing empties the items and keeps the settings and validity |
| Baskets.GetItems | src/lib/basket.ts:56-58 | the items are returned as they are, in the order they were added |
| Baskets.Bump | src/lib/basket.ts:63 | the code's count rises by one, starting from 0 when absent; every other entry is unchanged |
| Baskets.CountsOfExact | src/lib/basket.ts:60-66 | the map the loop builds has exactly the item codes as keys, each mapped to its number of units |
| Baskets.ItemCounts | src/lib/basket.ts:60-66 | keys appear in first-appearance order; a code is a key exactly when it is an item; each count is that code's number of units, at least 1 |
| Baskets.AddThenRemoveRestoresCounts | src/lib/basket.ts:36-50 | adding a known code and then removing it reports success and gives back the same counts |
| Baskets.AddThenRemoveMayReorder | src/lib/basket.ts:43-50 | the round trip does not always restore the order: removing B01 from [B01, R01, B01] leaves [R01, B01] |
| Pricing.LinePriceIsUnitByUnit | src/lib/basket.ts:76-84 | the closed-form line price equals charging the units one at a time, with every second unit at half price under the offer |
| Pricing.HalfPriceSaving | src/lib/basket.ts:78-81 | the offer saves exactly price minus floor(price / 2) per pair, and never raises a line of a non-negative price |
| Pricing.LineFor | src/lib/basket.ts:76-84 | the branch prices the line with pairs and singles when the found offer is the half-price kind, and as count times price otherwise |
| Pricing.CodeLine | src/lib/basket.ts:73-84 | the line for a catalog code uses its catalog price and applies the half price exactly when the first offer naming the code is a half-price offer |
| Pricing.CalculateSubtotal | src/lib/basket.ts:68-88 | the loop over the counts map computes the subtotal of the basket |
| Pricing.SubtotalIgnoresOrder | src/lib/basket.ts:68-88 | two baskets with the same settings and the same unit counts have the same subtotal, whatever the item order |
| Pricing.SubtotalIsItemwise | src/lib/basket.ts:68-88 | the subtotal equals charging each item in turn as the next unit of its code |
| Pricing.AddChargesNextUnit | src/lib/basket.ts:36-41 | adding a known code raises the subtotal by the price of the next unit of that code |
| Pricing.RemoveRefundsOneUnit | src/lib/basket.ts:43-50 | removing a present code lowers the subtotal by the price of that code's last-priced unit |
| Pricing.GetDelivery | src/lib/basket.ts:104-107 | the delivery charge, in cents, is that of the current subtotal |
| Pricing.Total | src/lib/basket.ts:109-113 | the total, in cents, is the subtotal plus the delivery charged on that subtotal |
| Pricing.ClearEmptiesBasket | src/lib/basket.ts:52-54 | an emptied basket lists no items, has subtotal 0 and pays the delivery of a zero subtotal |
| Defaults.CreateDefaultBasket | src/lib/basket.ts:133-139 | the default basket is empty and valid over the default settings |
| Defaults.DefaultBasketIsConstructed | src/lib/basket.ts:116-139 | the default basket is exactly what the constructor builds from the default products, rules and offers |
| Defaults.AddAll | src/lib/basket.test.ts:16-19 | adding the codes in turn succeeds exactly when all are catalog codes; it appends them in order and keeps validity |
| Defaults.DefaultDeliveryTiers | src/lib/basket.ts:123-127 | default delivery is free from 9000 cents, 295 from 5000 and 495 below that, negative subtotals included |
| Defaults.DefaultUnitCharges | src/lib/basket.ts:117-131 | a red widget costs 3295 and every second one 1647; green costs 2495 and blue 795 |
| Defaults.ClearedDefaultBasket | src/lib/basket.ts:52-54 | a cleared default basket lists nothing, has subtotal 0 and pays 495 delivery |
| Defaults.BlueGreenTotal | src/lib/basket.test.ts:5 | B01, G01: subtotal 3290, delivery 495, total 3785 cents |
| Defaults.RedPairTotal | src/lib/basket.test.ts:6 | R01, R01: subtotal 4942, delivery 495, total 5437 cents |
| Defaults.RedGreenTotal | src/lib/basket.test.ts:7 | R01, G01: subtotal 5790, delivery 295, total 6085 cents |
| Defaults.MixedTotal | src/lib/basket.test.ts:8 | B01, B01, R01, R01, R01: subtotal 9827, free delivery, total 9827 cents |

## Left out

- Unit conversion: `getSubtotal`, `getDelivery` and `total` divide by 100 and return floating-point dollars. The model keeps integer cents and leaves the division out. The test's expected dollar figures appear here as cents.
- JavaScript number precision: the model does not reproduce the loss of precision above 2^53 cents.
- Error text: `add` throws an `Error` with a message. The model returns `UnknownProductCode(code)` and leaves the text out.
- The React components (`App.tsx`, `ProductCatalog.tsx`, `ShoppingBasket.tsx`) are not part of this model. They display the basket and call the operations above.
- Fallback for missing or falsy costs: `?.cost || 0` also maps `undefined` and `NaN` to 0. Costs here are integers, so only the empty-list case, which gives 0, is modelled.
- Offer types: the declared offer type admits only the half-price tag. `OfferType.Unrecognised` stands for any other tag a caller forces past the TypeScript types; it prices as no offer, because `calculateSubtotal` compares the tag before applying the offer.
- Pricing.PriceOf: gives 0 for a code outside the catalog, so that line sums need no precondition. The source asserts the lookup non-null instead. `Subtotal`, `CalculateSubtotal`, `GetDelivery` and `Total` require every item to be a catalog code. `Add` guarantees that for every basket built through it, so the 0 is never charged.
- Baskets.GetItems: returns the items themselves, not a fresh copy. With immutable values a copy cannot be told apart.
- Baskets.ItemCounts: returns the keys in insertion order as a separate list beside the counts map, because a Dafny `map` has no order.
- Mutation and aliasing: the class mutates `items` in place. Here each operation returns a new basket, and there is no shared state.
- Delivery ties: when several rules share a threshold, the sort is stable and keeps their configured order. Two lemmas prove the consequences: `Delivery.SortedSelectionIsConfigTier` for the first rule reached, and `Delivery.FallbackIsLowest` for the fallback. The model does not state the full stability property, that any two equal-threshold rules keep their relative order, as one lemma.
