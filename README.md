# Ring boxing club storefront cart, modelled in Dafny

This project models the shopping cart of the storefront's `CartManager` class and the
form validators of its `Validation` object.

The cart holds an ordered list of lines (id, name, price, quantity, category) and an
optional promo code. Adding a product merges it into the first line with the same
name and price, and otherwise appends a line of one. Removal and quantity changes
are guarded by the index and by the bounds [1, 99]. The subtotal and the item count
are sums over the lines. A fixed promo table mixes rates and a flat amount. Shipping
is free for an empty cart and from 5000 on, and costs 300 otherwise. The lines are
persisted under three storage keys, one per category, and are loaded back in the
fixed order equipment, cosmetic, pharma.

Files:

- `wrappers.dfy`: module `Wrappers`, the `Option` type (`None` is `null`/`undefined`).
- `validation.dfy`: module `Validation`. Each regular expression is written out as a
  predicate over the characters. Its accepted strings are then characterised by a lemma.
- `cart_model.dfy`: module `CartModel`. It holds the value-level model: one function per
  operation on the list of lines, the sums, discount, shipping, the badge decision,
  save/load and the key-value store, and the lemmas about them.
- `cart_manager.dfy`: module `CartManagerClass`. It holds the class `CartManager` with
  fields `items`, `promoCode` and `store`. Each method makes the source's in-place update
  and is proved against the `CartModel` function for that operation. Two client
  methods, `CheckoutWalkThrough` and `ReloadWalkThrough`, run examples through the class.

Modelling choices:

- The browser's storage is the field `store: map<string, seq<Item>>`. It holds the
  parsed value under each key. A key is absent when nothing is stored there or when
  the stored text does not parse. In both cases `Storage.get(key, [])` yields `[]`.
- `addItem` receives the identifier that `generateId` produced as a parameter.
- The code does not cap `addItem` at 99: a line at 99 goes to 100
  (`CartModel.AddItemPassesLimit`). The model follows the code.
- `promoCode` has no setter in the source. Callers assign the field directly, and so
  does the model.
- The discount is computed in exact `real` arithmetic with the source's rule. A table
  value below 1 is a rate of the subtotal; any other value is a flat amount.
- `value.length` counts UTF-16 code units. `Validation.Utf16Length` models that, so a
  character outside the Basic Multilingual Plane counts twice.
- The phone pattern's optional characters (`+`, `-`, `(`, `)`) are never digits, nor
  '7' or '8'. So the greedy reading used by `IsValidPhone` is the only one that can
  match, and no backtracking needs modelling.

## Model

| member | source | states |
|---|---|---|
| `CartManagerClass.CartManager.constructor` | js/cart/CartManager.js:10-20 | a new cart has no lines and no promo code |
| `CartManagerClass.CartManager.Init` | js/cart/CartManager.js:25-28 | initialising loads the three partitions into the cart |
| `CartManagerClass.CartManager.LoadFromStorage` | js/cart/CartManager.js:33-39 | the lines become the equipment, cosmetic and pharma partitions concatenated in that order; a missing key contributes nothing |
| `CartManagerClass.CartManager.SaveToStorage` | js/cart/CartManager.js:44-52 | each category's lines are written under its own key, other keys are untouched, and storage then matches the cart |
| `CartManagerClass.CartManager.AddItem` | js/cart/CartManager.js:58-78 | the lines become the merge-or-append result and are saved; the count grows by exactly 1 and the subtotal by the price; unique keys and positive quantities are kept |
| `CartManagerClass.CartManager.RemoveItem` | js/cart/CartManager.js:84-91 | an in-range index removes exactly that line and saves; any other index changes neither lines nor storage; invariants are kept |
| `CartManagerClass.CartManager.UpdateQuantity` | js/cart/CartManager.js:98-105 | the line takes the new quantity only for a quantity in [1, 99] and an in-range index, and then it saves; otherwise nothing changes |
| `CartManagerClass.CartManager.IncreaseQuantity` | js/cart/CartManager.js:111-117 | one more unit only for an in-range line below 99, then save; otherwise nothing changes |
| `CartManagerClass.CartManager.DecreaseQuantity` | js/cart/CartManager.js:123-129 | one unit less only for an in-range line above 1, then save; otherwise nothing changes |
| `CartManagerClass.CartManager.ClearCart` | js/cart/CartManager.js:183-188 | no lines and no promo code, empty partitions written, count 0, badge hidden, and a discount of 0 for every subtotal |
| `CartModel.FindIndex` | js/cart/CartManager.js:59-61 | returns -1 exactly when no line has the name and price, and otherwise the first such line |
| `CartModel.AddItemShape` | js/cart/CartManager.js:58-73 | with the product present: same length, the first matching line gains one unit, all other lines are unchanged; otherwise the old lines followed by one new line of quantity 1 with the given id, name, price and category |
| `CartModel.AddItemKeepsKeysUnique` | js/cart/CartManager.js:59-73 | if no two lines share (name, price) before adding, none do after |
| `CartModel.AddItemCounts` | js/cart/CartManager.js:58-73 | adding raises the total count by exactly 1 and the subtotal by exactly the price |
| `CartModel.AddItemQuantities` | js/cart/CartManager.js:63-70 | adding keeps all quantities at least 1; it keeps them within 99 only when the merged line was below 99 |
| `CartModel.AddItemPassesLimit` | js/cart/CartManager.js:63-64 | a line at 99 reaches 100 when added again (no cap) |
| `CartModel.RemoveAt` | js/cart/CartManager.js:84-91 | an out-of-range index leaves the list unchanged; an in-range one drops exactly that line, keeps the order of the rest, and removes one occurrence from the multiset |
| `CartModel.SetQuantityAt` | js/cart/CartManager.js:98-105 | only the indexed line's quantity changes, to exactly q, and only when 1 ≤ q ≤ 99 and the index is in range |
| `CartModel.IncreaseAt` | js/cart/CartManager.js:111-117 | only the indexed line changes, by +1, only below 99; a changed quantity never exceeds 99 |
| `CartModel.DecreaseAt` | js/cart/CartManager.js:123-129 | only the indexed line changes, by -1, only above 1; a changed quantity never falls below 1 |
| `CartModel.EditsKeepInvariants` | js/cart/CartManager.js:84-129 | removal, set, increase and decrease keep keys unique, quantities positive, and quantities within [1, 99] |
| `CartModel.EditsCount` | js/cart/CartManager.js:84-129 | removal lowers the count by the line's quantity; set changes it by the difference; increase or decrease moves it by one |
| `CartModel.SumAppend` | js/cart/CartManager.js:135-137 | the line sum of a concatenation is the sum of the sums |
| `CartModel.TotalCountAtLeastLines` | js/cart/CartManager.js:176-178 | with quantities at least 1, the count is at least the number of lines, and it is 0 exactly for an empty cart |
| `CartModel.SubtotalNonNegative` | js/cart/CartManager.js:135-137 | with non-negative prices and quantities the subtotal is non-negative |
| `CartModel.DiscountFollowsRules` | js/cart/CartManager.js:144-159 | no code or an unknown code gives 0; WELCOME10, BOXING25 and CHAMPION give 10%, 25% and 15% of the subtotal; FIGHT100 gives 100 whatever the subtotal |
| `CartModel.DiscountBounds` | js/cart/CartManager.js:144-159 | for a non-negative subtotal the discount is non-negative and a rate code never exceeds the subtotal; FIGHT100 can exceed it |
| `CartModel.PromoCodesWellFormed` | js/cart/CartManager.js:147-152 | every code of the table passes the promo-code format validator |
| `CartModel.Shipping` | js/cart/CartManager.js:166-170 | shipping is 0 exactly for a zero subtotal or one of at least 5000, and 300 otherwise |
| `CartModel.BadgeHiddenIffEmpty` | js/cart/CartManager.js:193-205 | with quantities at least 1, the badge is hidden exactly for an empty cart and otherwise shows the count |
| `CartModel.InCategoryMembers` | js/cart/CartManager.js:45-47 | a partition holds exactly the lines of its category |
| `CartModel.InCategoryAppend` | js/cart/CartManager.js:45-47 | partitioning keeps relative order: it distributes over concatenation |
| `CartModel.ReloadDropsUnknown` | js/cart/CartManager.js:44-52 | after save and load, the cart holds exactly the lines whose category is one of the three |
| `CartModel.ReloadCountsCopies` | js/cart/CartManager.js:33-52 | counted with multiplicity, a reload keeps every copy of a line of a known category and no copy of any other line |
| `CartModel.InCategoryCounts` | js/cart/CartManager.js:45-47 | a partition holds every copy of the lines of its category and nothing else |
| `CartModel.ReloadIsGrouped` | js/cart/CartManager.js:38 | a reloaded cart is always grouped equipment, then cosmetic, then pharma |
| `CartModel.ReloadIdentityIffGrouped` | js/cart/CartManager.js:33-52 | save then load gives back the original list exactly when it was already grouped that way |
| `CartModel.SaveAfterReload` | js/cart/CartManager.js:44-52 | saving a reloaded cart writes the same three partitions again |
| `CartModel.ReloadPermutes` | js/cart/CartManager.js:33-52 | with all categories known, save then load is a permutation and keeps count and subtotal |
| `CartModel.ReadAfterWrite` | js/cart/CartManager.js:34-51 | the keys read back what was written, other keys are untouched, and writing twice equals writing once |
| `CartModel.CheckoutExamples` | js/cart/CartManager.js:58-170 | two 5000 bags make one line of 2 with subtotal 10000, BOXING25 takes 2500, and shipping is free; one 500 shampoo ships for 300 |
| `Validation.PromoCodeFormat` | js/utils/validation.js:73-76 | accepted exactly when the length is 4 to 20 and every character is in A–Z or 0–9 |
| `Validation.EmailShapeIff` | js/utils/validation.js:12-15 | accepted exactly when there is no whitespace, there is exactly one '@' with something before it, and a '.' follows the '@' that is neither the first nor the last character after it |
| `Validation.PhoneShape` | js/utils/validation.js:22-25 | an accepted number has exactly 11 digits and starts with 7 or 8 after an optional leading '+'; it has no other '+' and only digits, '+', '-', '(' and ')' |
| `Validation.TrimStart` | js/utils/validation.js:33 | removes exactly the leading whitespace |
| `Validation.TrimEnd` | js/utils/validation.js:33 | removes exactly the trailing whitespace |
| `Validation.RequiredIff` | js/utils/validation.js:32-34 | true exactly when the value is present and holds a non-whitespace character |
| `Validation.LengthBounds` | js/utils/validation.js:42-54 | both length checks hold exactly when min ≤ length ≤ max, never when min > max; for Basic Multilingual Plane text the length is the character count |
| `Validation.Utf16LengthInBasicPlane` | js/utils/validation.js:43 | for Basic Multilingual Plane text the JavaScript length equals the number of characters |
| `Validation.InRangeIff` | js/utils/validation.js:63-66 | true exactly when the value is a number and min ≤ value ≤ max; always false when min > max or for NaN |

Definitions. Each source operation is defined once, by the member below; the rows
above state its properties.

- `addItem` (js/cart/CartManager.js:58-78): `CartModel.AddItemTo`, run in place by
  `CartManagerClass.CartManager.AddItem`.
- `calculateSubtotal` (js/cart/CartManager.js:135-137): `CartModel.Subtotal`, read by
  `CartManagerClass.CartManager.CalculateSubtotal`.
- `calculateDiscount` (js/cart/CartManager.js:144-159): `CartModel.Discount`, read by
  `CartManagerClass.CartManager.CalculateDiscount`.
- `calculateShipping` (js/cart/CartManager.js:166-170): `CartModel.Shipping`, read by
  `CartManagerClass.CartManager.CalculateShipping`.
- `getTotalCount` (js/cart/CartManager.js:176-178): `CartModel.TotalCount`, read by
  `CartManagerClass.CartManager.GetTotalCount`.
- the badge decision of `updateUI` (js/cart/CartManager.js:193-205): `CartModel.BadgeFor`,
  read by `CartManagerClass.CartManager.CountBadge`.
- `saveToStorage` and `loadFromStorage` (js/cart/CartManager.js:33-52): `CartModel.Save`
  and `CartModel.Load`, with the store read and written by `CartModel.ReadSnapshot` and
  `CartModel.WriteSnapshot`.
- `isValidEmail` (js/utils/validation.js:12-15): `Validation.IsValidEmail`.
- `isValidPhone` (js/utils/validation.js:22-25): `Validation.IsValidPhone`.
- `isRequired` (js/utils/validation.js:32-34): `Validation.IsRequired`.
- `hasMinLength` and `hasMaxLength` (js/utils/validation.js:42-54):
  `Validation.HasMinLength` and `Validation.HasMaxLength`.
- `isInRange` (js/utils/validation.js:63-66): `Validation.IsInRange`.
- `isValidPromoCode` (js/utils/validation.js:73-76): `Validation.IsValidPromoCode`.

Two client methods run the class end to end: `CartManagerClass.CheckoutWalkThrough`
(two bags merge into one line, BOXING25 takes a quarter, shipping is free) and
`CartManagerClass.ReloadWalkThrough` (a grouped cart survives a reload unchanged, and
clearing resets the count, the badge and the discount).

## Left out

- DOM work in `updateUI` (finding `.cart-count`, writing its text and style) and the
  toast notifications: only the show/hide decision and the count are modelled
  (`CountBadge`, `BadgeFor`).
- `Storage.set` failures (quota exceeded, storage unavailable) and other tabs writing the
  same keys: every write is taken to succeed.
- JSON serialisation: a line reads back as the record it was written as. Stored values
  that parse but are not arrays of lines are not modelled.
- `parseInt` in `updateQuantity` and `Number(...)`/`isNaN` in `isInRange`: both take
  integers, and `None` stands for NaN in `isInRange`.
- Line indices are integers. A fractional in-range index such as 0.5 passes the range
  guards of `removeItem`, `updateQuantity`, `increaseQuantity` and `decreaseQuantity`; then
  `splice(0.5, 1)` removes line 0, and the other three throw a TypeError on
  `this.items[0.5].quantity`. The model expresses neither behaviour.
- `Validation.IsInRange`: fractional numbers are not modelled, only integers.
- Floating-point rounding in `subtotal * rate`: the discount is exact.
- `Helpers.generateId` (clock and random): the identifier is a parameter of `AddItem`.
- Non-string arguments: `regex.test` coerces them to strings; `isRequired` throws on a
  non-string value; `hasMinLength`/`hasMaxLength` throw on null. The validators take strings.
- Prices and quantities are unbounded integers. JavaScript numbers are exact only up
  to 2^53, which cart totals do not reach.
- `helpers.js`, `storage.js`, `shop.js`, `category.js` and the second cart in `main.js`
  are not part of this model. They are formatting, timers, DOM rendering and a
  duplicate flat cart.
