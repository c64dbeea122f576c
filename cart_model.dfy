/**
 * The value-level model of the cart of js/cart/CartManager.js: line items, the
 * effect of each cart operation on the list of items, the derived totals, the
 * promo-code discount, shipping, the header badge, and the split of the items
 * into the three per-category storage keys. The class in cart_manager.dfy
 * performs these operations in place and is proved against these functions.
 */
module CartModel {
  import opened Wrappers
  import Validation

  /** One cart line. `price` is in roubles; `quantity` is whatever the line holds (the
      code bounds it only in some operations, and loaded data is taken as it is). */
  datatype Item = Item(id: string, name: string, price: int, quantity: int, category: string)

  const Equipment: string := "equipment"
  const Cosmetic: string := "cosmetic"
  const Pharma: string := "pharma"

  /** The storage keys of the three category partitions. */
  const EquipmentKey: string := "ringBoxingCart"
  const CosmeticKey: string := "ringCosmeticCart"
  const PharmaKey: string := "ringPharmaCart"

  const MinQuantity: int := 1
  const MaxQuantity: int := 99
  const ShippingCost: int := 300
  const FreeShippingThreshold: int := 5000

  // ===========================================================================
  // Invariants of a list of items
  // ===========================================================================

  /** Two lines describe the same product when name and price both agree. */
  predicate SameProduct(item: Item, name: string, price: int) {
    item.name == name && item.price == price
  }

  /** No two lines share (name, price). */
  predicate KeysUnique(items: seq<Item>) {
    forall i, j :: 0 <= i < j < |items| ==> !SameProduct(items[j], items[i].name, items[i].price)
  }

  /** Every line holds at least one unit. */
  predicate AllPositive(items: seq<Item>) {
    forall i :: 0 <= i < |items| ==> items[i].quantity >= MinQuantity
  }

  /** Every quantity lies in [1, 99]. */
  predicate AllWithinLimits(items: seq<Item>) {
    forall i :: 0 <= i < |items| ==> MinQuantity <= items[i].quantity <= MaxQuantity
  }

  // ===========================================================================
  // addItem: merge on (name, price), otherwise append
  // ===========================================================================

  /** `Array.prototype.findIndex`: the first line of the product, or -1. */
  function FindIndex(items: seq<Item>, name: string, price: int): (k: int)
    ensures -1 <= k < |items|
    ensures k == -1 <==> forall i :: 0 <= i < |items| ==> !SameProduct(items[i], name, price)
    ensures 0 <= k ==> SameProduct(items[k], name, price)
    ensures 0 <= k ==> forall i :: 0 <= i < k ==> !SameProduct(items[i], name, price)
  {
    if items == [] then -1
    else if SameProduct(items[0], name, price) then 0
    else
      var k := FindIndex(items[1..], name, price);
      assert forall i :: 1 <= i < |items| ==> items[i] == items[1..][i - 1];
      if k == -1 then -1 else k + 1
  }

  /** The items after `addItem` of a product, with `id` the freshly generated identifier. */
  function AddItemTo(items: seq<Item>, name: string, price: int, category: string, id: string): seq<Item> {
    var k := FindIndex(items, name, price);
    if k > -1 then items[k := items[k].(quantity := items[k].quantity + 1)]
    else items + [Item(id, name, price, 1, category)]
  }

  /** With the product present, adding keeps the length, gives the first line of
      that product one more unit and leaves every other line alone; otherwise it
      appends one line of quantity 1 and leaves the earlier lines alone. */
  lemma AddItemShape(items: seq<Item>, name: string, price: int, category: string, id: string)
    ensures var r := AddItemTo(items, name, price, category, id);
      (exists i :: 0 <= i < |items| && SameProduct(items[i], name, price)) ==>
        |r| == |items|
        && (exists k :: 0 <= k < |items| && SameProduct(items[k], name, price)
              && (forall i :: 0 <= i < k ==> !SameProduct(items[i], name, price))
              && r[k] == items[k].(quantity := items[k].quantity + 1)
              && forall i :: 0 <= i < |items| && i != k ==> r[i] == items[i])
    ensures var r := AddItemTo(items, name, price, category, id);
      (forall i :: 0 <= i < |items| ==> !SameProduct(items[i], name, price)) ==>
        |r| == |items| + 1 && r[..|items|] == items && r[|items|] == Item(id, name, price, 1, category)
  {
    var k := FindIndex(items, name, price);
    var r := AddItemTo(items, name, price, category, id);
    if k > -1 {
      assert r == items[k := items[k].(quantity := items[k].quantity + 1)];
      assert SameProduct(items[k], name, price);
    } else {
      assert r == items + [Item(id, name, price, 1, category)];
    }
  }

  /** With (name, price) keys unique, adding keeps them unique, the merged line is
      the only line of that product, and each call adds exactly one unit and one
      unit price. */
  lemma AddItemKeepsKeysUnique(items: seq<Item>, name: string, price: int, category: string, id: string)
    requires KeysUnique(items)
    ensures KeysUnique(AddItemTo(items, name, price, category, id))
  {
    var r := AddItemTo(items, name, price, category, id);
    var k := FindIndex(items, name, price);
    if k == -1 {
      forall i, j | 0 <= i < j < |r| ensures !SameProduct(r[j], r[i].name, r[i].price) {
        if j < |items| {
          assert r[i] == items[i] && r[j] == items[j];
        } else {
          assert r[i] == items[i];
        }
      }
    } else {
      assert forall i :: 0 <= i < |r| ==> r[i].name == items[i].name && r[i].price == items[i].price;
    }
  }

  lemma AddItemCounts(items: seq<Item>, name: string, price: int, category: string, id: string)
    ensures TotalCount(AddItemTo(items, name, price, category, id)) == TotalCount(items) + 1
    ensures Subtotal(AddItemTo(items, name, price, category, id)) == Subtotal(items) + price
  {
    var k := FindIndex(items, name, price);
    if k > -1 {
      var v := items[k].(quantity := items[k].quantity + 1);
      SumUpdate(items, k, v, LineQuantity);
      SumUpdate(items, k, v, LineTotal);
    } else {
      var added := Item(id, name, price, 1, category);
      SumAppend(items, [added], LineQuantity);
      SumAppend(items, [added], LineTotal);
    }
  }

  /** Adding keeps every quantity positive; it keeps quantities within [1, 99] only
      when the line it merges into is below 99, because the code does not cap. */
  lemma AddItemQuantities(items: seq<Item>, name: string, price: int, category: string, id: string)
    ensures AllPositive(items) ==> AllPositive(AddItemTo(items, name, price, category, id))
    ensures AllWithinLimits(items) && (forall i :: 0 <= i < |items| && SameProduct(items[i], name, price) ==> items[i].quantity < MaxQuantity)
      ==> AllWithinLimits(AddItemTo(items, name, price, category, id))
  {
  }

  /** A line at 99 goes to 100 when its product is added once more. */
  lemma AddItemPassesLimit(name: string, price: int, category: string, id: string)
    ensures AddItemTo([Item(id, name, price, MaxQuantity, category)], name, price, category, id)[0].quantity == 100
  {
  }

  // ===========================================================================
  // removeItem, updateQuantity, increaseQuantity, decreaseQuantity
  // ===========================================================================

  /** `removeItem`: `splice(index, 1)` when the index is in range, otherwise nothing. */
  function RemoveAt(items: seq<Item>, index: int): (r: seq<Item>)
    ensures !(0 <= index < |items|) ==> r == items
    ensures 0 <= index < |items| ==>
      |r| == |items| - 1
      && (forall k :: 0 <= k < index ==> r[k] == items[k])
      && (forall k :: index <= k < |r| ==> r[k] == items[k + 1])
    ensures 0 <= index < |items| ==> multiset(r) + multiset{items[index]} == multiset(items)
  {
    if 0 <= index < |items| then
      assert items == items[..index] + [items[index]] + items[index + 1..];
      items[..index] + items[index + 1..]
    else items
  }

  /** `updateQuantity`: the line takes exactly `quantity` when both the index and the
      quantity are in range; no other line ever changes. */
  function SetQuantityAt(items: seq<Item>, index: int, quantity: int): (r: seq<Item>)
    ensures |r| == |items|
    ensures forall k :: 0 <= k < |items| && k != index ==> r[k] == items[k]
    ensures 0 <= index < |items| && MinQuantity <= quantity <= MaxQuantity ==>
      r[index] == items[index].(quantity := quantity)
    ensures !(0 <= index < |items| && MinQuantity <= quantity <= MaxQuantity) ==> r == items
  {
    if MinQuantity <= quantity <= MaxQuantity && 0 <= index < |items| then
      items[index := items[index].(quantity := quantity)]
    else items
  }

  /** `increaseQuantity`: one more unit, refused at 99 or above. */
  function IncreaseAt(items: seq<Item>, index: int): (r: seq<Item>)
    ensures |r| == |items|
    ensures forall k :: 0 <= k < |items| && k != index ==> r[k] == items[k]
    ensures 0 <= index < |items| && items[index].quantity < MaxQuantity ==>
      r[index] == items[index].(quantity := items[index].quantity + 1)
    ensures !(0 <= index < |items| && items[index].quantity < MaxQuantity) ==> r == items
    ensures forall k :: 0 <= k < |r| ==> r[k].quantity == items[k].quantity || r[k].quantity <= MaxQuantity
  {
    if 0 <= index < |items| && items[index].quantity < MaxQuantity then
      items[index := items[index].(quantity := items[index].quantity + 1)]
    else items
  }

  /** `decreaseQuantity`: one unit less, refused at 1 or below. */
  function DecreaseAt(items: seq<Item>, index: int): (r: seq<Item>)
    ensures |r| == |items|
    ensures forall k :: 0 <= k < |items| && k != index ==> r[k] == items[k]
    ensures 0 <= index < |items| && items[index].quantity > MinQuantity ==>
      r[index] == items[index].(quantity := items[index].quantity - 1)
    ensures !(0 <= index < |items| && items[index].quantity > MinQuantity) ==> r == items
    ensures forall k :: 0 <= k < |r| ==> r[k].quantity == items[k].quantity || r[k].quantity >= MinQuantity
  {
    if 0 <= index < |items| && items[index].quantity > MinQuantity then
      items[index := items[index].(quantity := items[index].quantity - 1)]
    else items
  }

  /** Removal and the three quantity operations keep keys unique, keep quantities
      positive and keep them within [1, 99]. */
  lemma EditsKeepInvariants(items: seq<Item>, index: int, quantity: int)
    ensures KeysUnique(items) ==>
      KeysUnique(RemoveAt(items, index)) && KeysUnique(SetQuantityAt(items, index, quantity))
      && KeysUnique(IncreaseAt(items, index)) && KeysUnique(DecreaseAt(items, index))
    ensures AllPositive(items) ==>
      AllPositive(RemoveAt(items, index)) && AllPositive(SetQuantityAt(items, index, quantity))
      && AllPositive(IncreaseAt(items, index)) && AllPositive(DecreaseAt(items, index))
    ensures AllWithinLimits(items) ==>
      AllWithinLimits(RemoveAt(items, index)) && AllWithinLimits(SetQuantityAt(items, index, quantity))
      && AllWithinLimits(IncreaseAt(items, index)) && AllWithinLimits(DecreaseAt(items, index))
  {
    RemoveKeepsInvariants(items, index);
    SingleEditKeepsInvariants(items, SetQuantityAt(items, index, quantity), index);
    SingleEditKeepsInvariants(items, IncreaseAt(items, index), index);
    SingleEditKeepsInvariants(items, DecreaseAt(items, index), index);
  }

  lemma RemoveKeepsInvariants(items: seq<Item>, index: int)
    ensures KeysUnique(items) ==> KeysUnique(RemoveAt(items, index))
    ensures AllPositive(items) ==> AllPositive(RemoveAt(items, index))
    ensures AllWithinLimits(items) ==> AllWithinLimits(RemoveAt(items, index))
  {
    var r := RemoveAt(items, index);
    if 0 <= index < |items| {
      forall i | 0 <= i < |r| ensures r[i] == items[if i < index then i else i + 1] {
      }
      if KeysUnique(items) {
        forall i, j | 0 <= i < j < |r| ensures !SameProduct(r[j], r[i].name, r[i].price) {
          var i' := if i < index then i else i + 1;
          var j' := if j < index then j else j + 1;
          assert r[i] == items[i'] && r[j] == items[j'];
        }
      }
    }
  }

  /** A change to the quantity of one line, to a value within the bounds the
      invariants ask for, keeps them. */
  lemma SingleEditKeepsInvariants(items: seq<Item>, r: seq<Item>, index: int)
    requires |r| == |items|
    requires forall k :: 0 <= k < |items| && k != index ==> r[k] == items[k]
    requires 0 <= index < |items| ==> r[index].name == items[index].name && r[index].price == items[index].price
    requires 0 <= index < |items| && r[index] != items[index] ==>
      items[index].quantity >= MinQuantity ==> MinQuantity <= r[index].quantity
    requires 0 <= index < |items| && r[index] != items[index] ==>
      items[index].quantity <= MaxQuantity ==> r[index].quantity <= MaxQuantity
    ensures KeysUnique(items) ==> KeysUnique(r)
    ensures AllPositive(items) ==> AllPositive(r)
    ensures AllWithinLimits(items) ==> AllWithinLimits(r)
  {
    assert forall k :: 0 <= k < |items| ==> r[k].name == items[k].name && r[k].price == items[k].price;
  }

  /** What each edit does to the item count. */
  lemma EditsCount(items: seq<Item>, index: int, quantity: int)
    ensures 0 <= index < |items| ==> TotalCount(RemoveAt(items, index)) == TotalCount(items) - items[index].quantity
    ensures 0 <= index < |items| && MinQuantity <= quantity <= MaxQuantity ==>
      TotalCount(SetQuantityAt(items, index, quantity)) == TotalCount(items) - items[index].quantity + quantity
    ensures 0 <= index < |items| && items[index].quantity < MaxQuantity ==>
      TotalCount(IncreaseAt(items, index)) == TotalCount(items) + 1
    ensures 0 <= index < |items| && items[index].quantity > MinQuantity ==>
      TotalCount(DecreaseAt(items, index)) == TotalCount(items) - 1
  {
    if 0 <= index < |items| {
      SumRemove(items, index, LineQuantity);
      SumUpdate(items, index, items[index].(quantity := quantity), LineQuantity);
      SumUpdate(items, index, items[index].(quantity := items[index].quantity + 1), LineQuantity);
      SumUpdate(items, index, items[index].(quantity := items[index].quantity - 1), LineQuantity);
    }
  }

  // ===========================================================================
  // calculateSubtotal, getTotalCount: sums over the lines (`reduce`)
  // ===========================================================================

  function SumOf(items: seq<Item>, f: Item -> int): int {
    if items == [] then 0 else f(items[0]) + SumOf(items[1..], f)
  }

  function LineQuantity(item: Item): int { item.quantity }

  function LineTotal(item: Item): int { item.price * item.quantity }

  /** `getTotalCount`: the sum of the quantities. */
  function TotalCount(items: seq<Item>): int { SumOf(items, LineQuantity) }

  /** `calculateSubtotal`: the sum of price times quantity. */
  function Subtotal(items: seq<Item>): int { SumOf(items, LineTotal) }

  lemma {:induction false} SumAppend(xs: seq<Item>, ys: seq<Item>, f: Item -> int)
    ensures SumOf(xs + ys, f) == SumOf(xs, f) + SumOf(ys, f)
  {
    if xs == [] {
      assert xs + ys == ys;
    } else {
      assert (xs + ys)[1..] == xs[1..] + ys;
      SumAppend(xs[1..], ys, f);
    }
  }

  lemma {:induction false} SumUpdate(xs: seq<Item>, i: int, v: Item, f: Item -> int)
    requires 0 <= i < |xs|
    ensures SumOf(xs[i := v], f) == SumOf(xs, f) - f(xs[i]) + f(v)
  {
    if i > 0 {
      assert xs[i := v][1..] == xs[1..][i - 1 := v];
      SumUpdate(xs[1..], i - 1, v, f);
    } else {
      assert xs[i := v][1..] == xs[1..];
    }
  }

  lemma {:induction false} SumRemove(xs: seq<Item>, i: int, f: Item -> int)
    requires 0 <= i < |xs|
    ensures SumOf(xs[..i] + xs[i + 1..], f) == SumOf(xs, f) - f(xs[i])
  {
    var front, back := xs[..i], xs[i + 1..];
    assert xs == front + ([xs[i]] + back);
    SumAppend(front, [xs[i]] + back, f);
    SumAppend(front, back, f);
    assert ([xs[i]] + back)[1..] == back;
  }

  /** With every quantity at least one, the count is at least the number of lines,
      so it is zero exactly when the cart is empty. */
  lemma {:induction false} TotalCountAtLeastLines(items: seq<Item>)
    requires AllPositive(items)
    ensures TotalCount(items) >= |items|
    ensures TotalCount(items) == 0 <==> items == []
  {
    if items != [] {
      assert AllPositive(items[1..]) by {
        forall i | 0 <= i < |items[1..]| ensures items[1..][i].quantity >= MinQuantity {
          assert items[1..][i] == items[i + 1];
        }
      }
      TotalCountAtLeastLines(items[1..]);
    }
  }

  /** With non-negative prices and quantities the subtotal is non-negative. */
  lemma {:induction false} SubtotalNonNegative(items: seq<Item>)
    requires forall i :: 0 <= i < |items| ==> items[i].price >= 0 && items[i].quantity >= 0
    ensures Subtotal(items) >= 0
  {
    if items != [] {
      assert forall i :: 0 <= i < |items[1..]| ==> items[1..][i] == items[i + 1];
      SubtotalNonNegative(items[1..]);
    }
  }

  // ===========================================================================
  // calculateDiscount
  // ===========================================================================

  /** The promo table as the code holds it: a value below 1 is a rate of the
      subtotal, any other value a flat amount. */
  const Promos: map<string, real> := map[
    "WELCOME10" := 0.1,
    "BOXING25" := 0.25,
    "FIGHT100" := 100.0,
    "CHAMPION" := 0.15
  ]

  /** `calculateDiscount`, in exact arithmetic. A missing or empty code gives 0, and
      so does a code the table does not hold. */
  function Discount(promoCode: Option<string>, subtotal: int): real {
    if promoCode.None? || promoCode.value == "" then 0.0
    else if promoCode.value in Promos then
      var rate := Promos[promoCode.value];
      if rate < 1.0 then subtotal as real * rate else rate
    else 0.0
  }

  /** The promotions as they are advertised: a percentage or a flat amount. */
  datatype PromoRule = Percent(percent: nat) | Flat(amount: nat)

  function PromoRuleOf(code: string): Option<PromoRule> {
    match code
    case "WELCOME10" => Some(Percent(10))
    case "BOXING25" => Some(Percent(25))
    case "FIGHT100" => Some(Flat(100))
    case "CHAMPION" => Some(Percent(15))
    case _ => None
  }

  /** The discount the code computes is the advertised one: a percentage of the
      subtotal, a flat amount regardless of the subtotal, or nothing. */
  lemma DiscountFollowsRules(promoCode: Option<string>, subtotal: int)
    ensures Discount(promoCode, subtotal) ==
      if promoCode.None? then 0.0
      else match PromoRuleOf(promoCode.value)
        case None => 0.0
        case Some(Percent(p)) => subtotal as real * p as real / 100.0
        case Some(Flat(a)) => a as real
  {
    if promoCode.Some? {
      var c := promoCode.value;
      assert c in Promos <==> c == "WELCOME10" || c == "BOXING25" || c == "FIGHT100" || c == "CHAMPION";
    }
  }

  /** For a non-negative subtotal the discount is never negative, and a percentage
      code never takes more than the subtotal; the flat code can. */
  lemma DiscountBounds(promoCode: Option<string>, subtotal: int)
    requires subtotal >= 0
    ensures 0.0 <= Discount(promoCode, subtotal)
    ensures promoCode != Some("FIGHT100") ==> Discount(promoCode, subtotal) <= subtotal as real
    ensures Discount(Some("FIGHT100"), 50) > 50.0
  {
    DiscountFollowsRules(promoCode, subtotal);
    DiscountFollowsRules(Some("FIGHT100"), 50);
  }

  /** Every code in the table has the format the promo-code validator accepts. */
  lemma PromoCodesWellFormed(code: string)
    requires code in Promos
    ensures Validation.IsValidPromoCode(code)
  {
    if code == "WELCOME10" {
      LiteralCodeWellFormed("WELCOME10");
    } else if code == "BOXING25" {
      LiteralCodeWellFormed("BOXING25");
    } else if code == "FIGHT100" {
      LiteralCodeWellFormed("FIGHT100");
    } else {
      LiteralCodeWellFormed("CHAMPION");
    }
  }

  /** One code of the table, checked character by character. */
  lemma LiteralCodeWellFormed(code: string)
    requires code == "WELCOME10" || code == "BOXING25" || code == "FIGHT100" || code == "CHAMPION"
    ensures Validation.IsValidPromoCode(code)
  {
    Validation.AllUpperOrDigitIff(code);
  }

  // ===========================================================================
  // calculateShipping and the header badge of updateUI
  // ===========================================================================

  /** `calculateShipping`: free for an empty cart and from the threshold on. */
  function Shipping(subtotal: int): (cost: int)
    ensures cost == 0 || cost == ShippingCost
    ensures cost == 0 <==> subtotal == 0 || subtotal >= FreeShippingThreshold
  {
    if subtotal >= FreeShippingThreshold || subtotal == 0 then 0 else ShippingCost
  }

  /** The badge of the cart link: the count when it is positive, otherwise hidden. */
  datatype Badge = Hidden | Shown(count: int)

  function BadgeFor(count: int): Badge {
    if count > 0 then Shown(count) else Hidden
  }

  /** With every quantity at least one, the badge is hidden exactly for an empty cart. */
  lemma BadgeHiddenIffEmpty(items: seq<Item>)
    requires AllPositive(items)
    ensures BadgeFor(TotalCount(items)) == if items == [] then Hidden else Shown(TotalCount(items))
  {
    TotalCountAtLeastLines(items);
  }

  // ===========================================================================
  // saveToStorage / loadFromStorage
  // ===========================================================================

  /** The contents of the three category keys. */
  datatype Snapshot = Snapshot(equipment: seq<Item>, cosmetic: seq<Item>, pharma: seq<Item>)

  /** `filter(item => item.category === category)`. */
  function InCategory(items: seq<Item>, category: string): (r: seq<Item>)
    ensures |r| <= |items|
    ensures forall i :: 0 <= i < |r| ==> r[i].category == category
  {
    if items == [] then []
    else (if items[0].category == category then [items[0]] else []) + InCategory(items[1..], category)
  }

  /** The filter keeps exactly the items of the category. */
  lemma {:induction false} InCategoryMembers(items: seq<Item>, category: string)
    ensures forall x :: x in InCategory(items, category) <==> x in items && x.category == category
  {
    if items != [] {
      InCategoryMembers(items[1..], category);
      assert items == [items[0]] + items[1..];
    }
  }

  /** The partitions `saveToStorage` writes. */
  function Save(items: seq<Item>): Snapshot {
    Snapshot(InCategory(items, Equipment), InCategory(items, Cosmetic), InCategory(items, Pharma))
  }

  /** The list `loadFromStorage` builds: equipment, then cosmetic, then pharma. */
  function Load(s: Snapshot): seq<Item> {
    s.equipment + s.cosmetic + s.pharma
  }

  predicate IsKnownCategory(category: string) {
    category == Equipment || category == Cosmetic || category == Pharma
  }

  function CategoryRank(category: string): nat {
    if category == Equipment then 0 else if category == Cosmetic then 1 else 2
  }

  predicate AllKnown(items: seq<Item>) {
    forall i :: 0 <= i < |items| ==> IsKnownCategory(items[i].category)
  }

  /** Known categories only, in the order equipment, cosmetic, pharma. */
  predicate Grouped(items: seq<Item>) {
    AllKnown(items)
    && forall i, j :: 0 <= i < j < |items| ==> CategoryRank(items[i].category) <= CategoryRank(items[j].category)
  }

  /** Filtering keeps relative order: it distributes over concatenation. */
  lemma {:induction false} InCategoryAppend(xs: seq<Item>, ys: seq<Item>, category: string)
    ensures InCategory(xs + ys, category) == InCategory(xs, category) + InCategory(ys, category)
  {
    if xs == [] {
      assert xs + ys == ys;
    } else {
      assert (xs + ys)[1..] == xs[1..] + ys;
      InCategoryAppend(xs[1..], ys, category);
    }
  }

  lemma {:induction false} InCategoryOfOne(xs: seq<Item>, category: string)
    requires forall i :: 0 <= i < |xs| ==> xs[i].category == category
    ensures InCategory(xs, category) == xs
  {
    if xs != [] {
      assert forall i :: 0 <= i < |xs[1..]| ==> xs[1..][i] == xs[i + 1];
      InCategoryOfOne(xs[1..], category);
    }
  }

  lemma {:induction false} InCategoryOfOther(xs: seq<Item>, category: string)
    requires forall i :: 0 <= i < |xs| ==> xs[i].category != category
    ensures InCategory(xs, category) == []
  {
    if xs != [] {
      assert forall i :: 0 <= i < |xs[1..]| ==> xs[1..][i] == xs[i + 1];
      InCategoryOfOther(xs[1..], category);
    }
  }

  /** Saving a list that starts with `x` files `x` under its own category, in front. */
  lemma SaveCons(x: Item, rest: seq<Item>, category: string)
    ensures InCategory([x] + rest, category) == (if x.category == category then [x] else []) + InCategory(rest, category)
  {
    assert ([x] + rest)[1..] == rest;
  }

  /** A reloaded cart holds exactly the saved items of the three known categories. */
  lemma ReloadDropsUnknown(items: seq<Item>)
    ensures forall x :: x in Load(Save(items)) <==> x in items && IsKnownCategory(x.category)
  {
    InCategoryMembers(items, Equipment);
    InCategoryMembers(items, Cosmetic);
    InCategoryMembers(items, Pharma);
  }

  /** Counted with multiplicity: a reload keeps every copy of an item of a known
      category and drops every copy of an item of any other category. */
  lemma ReloadCountsCopies(items: seq<Item>)
    ensures forall x :: (multiset(Load(Save(items)))[x]
      == if IsKnownCategory(x.category) then multiset(items)[x] else 0)
  {
    var s := Save(items);
    assert multiset(Load(s)) == multiset(s.equipment) + multiset(s.cosmetic) + multiset(s.pharma);
    InCategoryCounts(items, Equipment);
    InCategoryCounts(items, Cosmetic);
    InCategoryCounts(items, Pharma);
  }

  /** A partition holds every copy of the items of its category and nothing else. */
  lemma {:induction false} InCategoryCounts(items: seq<Item>, category: string)
    ensures forall x :: (multiset(InCategory(items, category))[x]
      == if x.category == category then multiset(items)[x] else 0)
  {
    if items != [] {
      var y, rest := items[0], items[1..];
      assert items == [y] + rest;
      InCategoryCounts(rest, category);
      SaveCons(y, rest, category);
      assert multiset(items) == multiset{y} + multiset(rest);
    }
  }

  /** A reloaded cart is always grouped. */
  lemma ReloadIsGrouped(items: seq<Item>)
    ensures Grouped(Load(Save(items)))
  {
    var s := Save(items);
    var r := Load(s);
    var e, c := |s.equipment|, |s.cosmetic|;
    InCategoryMembers(items, Equipment);
    InCategoryMembers(items, Cosmetic);
    InCategoryMembers(items, Pharma);
    forall i | 0 <= i < |r|
      ensures IsKnownCategory(r[i].category)
      ensures CategoryRank(r[i].category) == if i < e then 0 else if i < e + c then 1 else 2
    {
      if i < e {
        assert r[i] == s.equipment[i] && r[i] in s.equipment;
      } else if i < e + c {
        assert r[i] == s.cosmetic[i - e] && r[i] in s.cosmetic;
      } else {
        assert r[i] == s.pharma[i - e - c] && r[i] in s.pharma;
      }
    }
  }

  /** Reloading what was saved gives the original list back exactly when it was
      already grouped equipment, cosmetic, pharma. */
  lemma ReloadIdentityIffGrouped(items: seq<Item>)
    ensures Load(Save(items)) == items <==> Grouped(items)
  {
    ReloadIsGrouped(items);
    if Grouped(items) {
      GroupedReload(items);
    }
  }

  lemma {:induction false} GroupedReload(items: seq<Item>)
    requires Grouped(items)
    ensures Load(Save(items)) == items
  {
    if items != [] {
      var x, rest := items[0], items[1..];
      assert items == [x] + rest;
      GroupedTail(x, rest);
      GroupedReload(rest);
      if x.category != Equipment {
        InCategoryOfOther(rest, Equipment);
      }
      if x.category == Pharma {
        InCategoryOfOther(rest, Cosmetic);
      }
      ReloadCons(x, rest);
    }
  }

  /** Behind the first item of a grouped list comes a grouped list with no item of an
      earlier category. */
  lemma GroupedTail(x: Item, rest: seq<Item>)
    requires Grouped([x] + rest)
    ensures Grouped(rest) && IsKnownCategory(x.category)
    ensures x.category != Equipment ==> forall i :: 0 <= i < |rest| ==> rest[i].category != Equipment
    ensures x.category == Pharma ==> forall i :: 0 <= i < |rest| ==> rest[i].category != Cosmetic
  {
    var items := [x] + rest;
    assert forall i :: 0 <= i < |rest| ==> rest[i] == items[i + 1];
    assert items[0] == x;
  }

  /** Reloading a list that starts with `x` puts `x` in front, provided no item of an
      earlier category follows it. */
  lemma ReloadCons(x: Item, rest: seq<Item>)
    requires IsKnownCategory(x.category)
    requires x.category != Equipment ==> InCategory(rest, Equipment) == []
    requires x.category == Pharma ==> InCategory(rest, Cosmetic) == []
    ensures Load(Save([x] + rest)) == [x] + Load(Save(rest))
  {
    var e, c, p := InCategory(rest, Equipment), InCategory(rest, Cosmetic), InCategory(rest, Pharma);
    var e', c', p' := InCategory([x] + rest, Equipment), InCategory([x] + rest, Cosmetic), InCategory([x] + rest, Pharma);
    SaveCons(x, rest, Equipment);
    SaveCons(x, rest, Cosmetic);
    SaveCons(x, rest, Pharma);
    if x.category == Equipment {
      PrependFirst(x, e, c, p, e', c', p');
    } else if x.category == Cosmetic {
      PrependSecond(x, c, p, e', c', p');
    } else {
      PrependThird(x, p, e', c', p');
    }
  }

  lemma PrependFirst(x: Item, e: seq<Item>, c: seq<Item>, p: seq<Item>, e': seq<Item>, c': seq<Item>, p': seq<Item>)
    requires e' == [x] + e && c' == c && p' == p
    ensures e' + c' + p' == [x] + (e + c + p)
  {
  }

  lemma PrependSecond(x: Item, c: seq<Item>, p: seq<Item>, e': seq<Item>, c': seq<Item>, p': seq<Item>)
    requires e' == [] && c' == [x] + c && p' == p
    ensures e' + c' + p' == [x] + ([] + c + p)
  {
  }

  lemma PrependThird(x: Item, p: seq<Item>, e': seq<Item>, c': seq<Item>, p': seq<Item>)
    requires e' == [] && c' == [] && p' == [x] + p
    ensures e' + c' + p' == [x] + ([] + [] + p)
  {
  }

  /** Saving a reloaded cart writes the same three partitions again. */
  lemma SaveAfterReload(items: seq<Item>)
    ensures Save(Load(Save(items))) == Save(items)
  {
    var s := Save(items);
    RefilterEquipment(s);
    RefilterCosmetic(s);
    RefilterPharma(s);
  }

  lemma RefilterEquipment(s: Snapshot)
    requires forall i :: 0 <= i < |s.equipment| ==> s.equipment[i].category == Equipment
    requires forall i :: 0 <= i < |s.cosmetic| ==> s.cosmetic[i].category == Cosmetic
    requires forall i :: 0 <= i < |s.pharma| ==> s.pharma[i].category == Pharma
    ensures InCategory(Load(s), Equipment) == s.equipment
  {
    InCategoryOfLoad(s, Equipment);
    InCategoryOfOne(s.equipment, Equipment);
    InCategoryOfOther(s.cosmetic, Equipment);
    InCategoryOfOther(s.pharma, Equipment);
    assert s.equipment + [] + [] == s.equipment;
  }

  lemma RefilterCosmetic(s: Snapshot)
    requires forall i :: 0 <= i < |s.equipment| ==> s.equipment[i].category == Equipment
    requires forall i :: 0 <= i < |s.cosmetic| ==> s.cosmetic[i].category == Cosmetic
    requires forall i :: 0 <= i < |s.pharma| ==> s.pharma[i].category == Pharma
    ensures InCategory(Load(s), Cosmetic) == s.cosmetic
  {
    InCategoryOfLoad(s, Cosmetic);
    InCategoryOfOther(s.equipment, Cosmetic);
    InCategoryOfOne(s.cosmetic, Cosmetic);
    InCategoryOfOther(s.pharma, Cosmetic);
    assert [] + s.cosmetic + [] == s.cosmetic;
  }

  lemma RefilterPharma(s: Snapshot)
    requires forall i :: 0 <= i < |s.equipment| ==> s.equipment[i].category == Equipment
    requires forall i :: 0 <= i < |s.cosmetic| ==> s.cosmetic[i].category == Cosmetic
    requires forall i :: 0 <= i < |s.pharma| ==> s.pharma[i].category == Pharma
    ensures InCategory(Load(s), Pharma) == s.pharma
  {
    InCategoryOfLoad(s, Pharma);
    InCategoryOfOther(s.equipment, Pharma);
    InCategoryOfOther(s.cosmetic, Pharma);
    InCategoryOfOne(s.pharma, Pharma);
    assert [] + [] + s.pharma == s.pharma;
  }

  lemma InCategoryOfLoad(s: Snapshot, category: string)
    ensures InCategory(Load(s), category)
      == InCategory(s.equipment, category) + InCategory(s.cosmetic, category) + InCategory(s.pharma, category)
  {
    InCategoryAppend(s.equipment + s.cosmetic, s.pharma, category);
    InCategoryAppend(s.equipment, s.cosmetic, category);
  }

  /** When every category is known, a reload is a permutation of the items and
      keeps the count and the subtotal. */
  lemma ReloadPermutes(items: seq<Item>)
    requires AllKnown(items)
    ensures multiset(Load(Save(items))) == multiset(items)
    ensures TotalCount(Load(Save(items))) == TotalCount(items)
    ensures Subtotal(Load(Save(items))) == Subtotal(items)
  {
    PartitionMultiset(items);
    PartitionSum(items, LineQuantity);
    PartitionSum(items, LineTotal);
    var s := Save(items);
    SumAppend(s.equipment + s.cosmetic, s.pharma, LineQuantity);
    SumAppend(s.equipment, s.cosmetic, LineQuantity);
    SumAppend(s.equipment + s.cosmetic, s.pharma, LineTotal);
    SumAppend(s.equipment, s.cosmetic, LineTotal);
  }

  lemma {:induction false} PartitionMultiset(items: seq<Item>)
    requires AllKnown(items)
    ensures multiset(Load(Save(items))) == multiset(items)
  {
    if items != [] {
      var rest := items[1..];
      assert items == [items[0]] + rest;
      assert forall i :: 0 <= i < |rest| ==> rest[i] == items[i + 1];
      PartitionMultiset(rest);
    }
  }

  lemma {:induction false} PartitionSum(items: seq<Item>, f: Item -> int)
    requires AllKnown(items)
    ensures SumOf(InCategory(items, Equipment), f) + SumOf(InCategory(items, Cosmetic), f)
      + SumOf(InCategory(items, Pharma), f) == SumOf(items, f)
  {
    if items != [] {
      var x, rest := items[0], items[1..];
      assert forall i :: 0 <= i < |rest| ==> rest[i] == items[i + 1];
      PartitionSum(rest, f);
      forall category ensures SumOf(InCategory(items, category), f)
        == (if x.category == category then f(x) else 0) + SumOf(InCategory(rest, category), f)
      {
        SumAppend(if x.category == category then [x] else [], InCategory(rest, category), f);
      }
    }
  }

  // ===========================================================================
  // The key-value store
  // ===========================================================================

  /** The parsed contents of the browser's storage, key by key. A key is absent when
      nothing is stored under it or what is stored does not parse. */
  type Store = map<string, seq<Item>>

  /** `Storage.get(key, [])`. */
  function ReadKey(store: Store, key: string): seq<Item> {
    if key in store then store[key] else []
  }

  function ReadSnapshot(store: Store): Snapshot {
    Snapshot(ReadKey(store, EquipmentKey), ReadKey(store, CosmeticKey), ReadKey(store, PharmaKey))
  }

  /** Three `Storage.set` calls, one per key. */
  function WriteSnapshot(store: Store, s: Snapshot): Store {
    store[EquipmentKey := s.equipment][CosmeticKey := s.cosmetic][PharmaKey := s.pharma]
  }

  /** Reading the keys back gives what was written; every other key is untouched;
      writing the same snapshot twice is the same as writing it once. */
  lemma ReadAfterWrite(store: Store, s: Snapshot)
    ensures ReadSnapshot(WriteSnapshot(store, s)) == s
    ensures forall key :: key != EquipmentKey && key != CosmeticKey && key != PharmaKey ==>
      (key in WriteSnapshot(store, s) <==> key in store) && ReadKey(WriteSnapshot(store, s), key) == ReadKey(store, key)
    ensures WriteSnapshot(WriteSnapshot(store, s), s) == WriteSnapshot(store, s)
  {
  }

  // ===========================================================================
  // Worked examples
  // ===========================================================================

  /** Two additions of a 5000 punching bag make one line of two; with BOXING25 the
      discount is 2500 and shipping is free at the threshold. One 500 shampoo costs
      300 to ship. */
  lemma CheckoutExamples(id1: string, id2: string)
    ensures var once := AddItemTo([], "Груша", 5000, Equipment, id1);
      var twice := AddItemTo(once, "Груша", 5000, Equipment, id2);
      |twice| == 1 && twice[0].quantity == 2 && Subtotal(twice) == 10000
      && Discount(Some("BOXING25"), Subtotal(twice)) == 2500.0 && Shipping(Subtotal(twice)) == 0
    ensures var shampoo := AddItemTo([], "Шампунь", 500, Cosmetic, id1);
      Subtotal(shampoo) == 500 && Shipping(Subtotal(shampoo)) == 300
  {
    var once := AddItemTo([], "Груша", 5000, Equipment, id1);
    AddItemCounts([], "Груша", 5000, Equipment, id1);
    AddItemCounts(once, "Груша", 5000, Equipment, id2);
    AddItemCounts([], "Шампунь", 500, Cosmetic, id1);
  }
}
