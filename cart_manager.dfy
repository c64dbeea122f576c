/**
 * The `CartManager` class of js/cart/CartManager.js. Its fields are the list of
 * lines, the promo code, and the browser storage the class writes through
 * `Storage`. Each method performs the source's read-modify-write in place and is
 * proved against the value-level functions of CartModel.
 */
module CartManagerClass {
  import opened Wrappers
  import opened CartModel

  class CartManager {
    var items: seq<Item>
    /** Public: the page assigns it directly; `None` is `null`. */
    var promoCode: Option<string>
    /** The parsed contents of the browser's storage, shared with the rest of the page. */
    var store: Store

    /** A new cart is empty and has no promo code; storage is whatever the browser holds. */
    constructor (browserStore: Store)
      ensures items == [] && promoCode == None && store == browserStore
    {
      items := [];
      promoCode := None;
      store := browserStore;
    }

    /** The three category keys hold exactly the current lines, split by category. */
    predicate Synced()
      reads this
    {
      ReadSnapshot(store) == Save(items)
    }

    /** `init`: load from storage; the badge then shows `CountBadge()`. */
    method Init()
      modifies this`items
      ensures items == Load(ReadSnapshot(store))
    {
      LoadFromStorage();
    }

    /** `loadFromStorage`: each key read with default `[]`, concatenated equipment,
        cosmetic, pharma. */
    method LoadFromStorage()
      modifies this`items
      ensures items == Load(ReadSnapshot(store))
    {
      var equipmentCart := ReadKey(store, EquipmentKey);
      var cosmeticCart := ReadKey(store, CosmeticKey);
      var pharmaCart := ReadKey(store, PharmaKey);
      items := equipmentCart + cosmeticCart + pharmaCart;
    }

    /** `saveToStorage`: each category's lines written under its key, every other key
        left alone. */
    method SaveToStorage()
      modifies this`store
      ensures store == WriteSnapshot(old(store), Save(items))
      ensures Synced()
    {
      var equipmentItems := InCategory(items, Equipment);
      var cosmeticItems := InCategory(items, Cosmetic);
      var pharmaItems := InCategory(items, Pharma);
      store := store[EquipmentKey := equipmentItems];
      store := store[CosmeticKey := cosmeticItems];
      store := store[PharmaKey := pharmaItems];
      ReadAfterWrite(old(store), Save(items));
    }

    /** `addItem`: merge into the first line with the same name and price, otherwise
        append a line of one; then save. `id` is the value `generateId` returned. */
    method AddItem(name: string, price: int, category: string, id: string)
      modifies this`items, this`store
      ensures items == AddItemTo(old(items), name, price, category, id)
      ensures store == WriteSnapshot(old(store), Save(items)) && Synced()
      ensures GetTotalCount() == old(GetTotalCount()) + 1
      ensures CalculateSubtotal() == old(CalculateSubtotal()) + price
      ensures old(KeysUnique(items)) ==> KeysUnique(items)
      ensures old(AllPositive(items)) ==> AllPositive(items)
    {
      var existingIndex := FindIndex(items, name, price);
      if existingIndex > -1 {
        items := items[existingIndex := items[existingIndex].(quantity := items[existingIndex].quantity + 1)];
      } else {
        items := items + [Item(id, name, price, 1, category)];
      }
      AddItemCounts(old(items), name, price, category, id);
      if KeysUnique(old(items)) {
        AddItemKeepsKeysUnique(old(items), name, price, category, id);
      }
      AddItemQuantities(old(items), name, price, category, id);
      SaveToStorage();
    }

    /** `removeItem`: delete the line when the index is in range, then save;
        otherwise nothing happens. */
    method RemoveItem(index: int)
      modifies this`items, this`store
      ensures items == RemoveAt(old(items), index)
      ensures store == if 0 <= index < |old(items)| then WriteSnapshot(old(store), Save(items)) else old(store)
      ensures old(Synced()) ==> Synced()
      ensures old(KeysUnique(items)) ==> KeysUnique(items)
      ensures old(AllPositive(items)) ==> AllPositive(items)
      ensures old(AllWithinLimits(items)) ==> AllWithinLimits(items)
    {
      EditsKeepInvariants(items, index, 0);
      if 0 <= index < |items| {
        items := items[..index] + items[index + 1..];
        SaveToStorage();
      }
    }

    /** `updateQuantity`: set the line to exactly `quantity` when it lies in [1, 99]
        and the index is in range, then save; otherwise nothing happens. */
    method UpdateQuantity(index: int, quantity: int)
      modifies this`items, this`store
      ensures items == SetQuantityAt(old(items), index, quantity)
      ensures store == if MinQuantity <= quantity <= MaxQuantity && 0 <= index < |old(items)|
        then WriteSnapshot(old(store), Save(items)) else old(store)
      ensures old(Synced()) ==> Synced()
      ensures old(KeysUnique(items)) ==> KeysUnique(items)
      ensures old(AllPositive(items)) ==> AllPositive(items)
      ensures old(AllWithinLimits(items)) ==> AllWithinLimits(items)
    {
      EditsKeepInvariants(items, index, quantity);
      if MinQuantity <= quantity <= MaxQuantity && 0 <= index < |items| {
        items := items[index := items[index].(quantity := quantity)];
        SaveToStorage();
      }
    }

    /** `increaseQuantity`: one more unit when the line holds fewer than 99. */
    method IncreaseQuantity(index: int)
      modifies this`items, this`store
      ensures items == IncreaseAt(old(items), index)
      ensures store == if 0 <= index < |old(items)| && old(items)[index].quantity < MaxQuantity
        then WriteSnapshot(old(store), Save(items)) else old(store)
      ensures old(Synced()) ==> Synced()
      ensures old(KeysUnique(items)) ==> KeysUnique(items)
      ensures old(AllPositive(items)) ==> AllPositive(items)
      ensures old(AllWithinLimits(items)) ==> AllWithinLimits(items)
    {
      EditsKeepInvariants(items, index, 0);
      if 0 <= index < |items| && items[index].quantity < MaxQuantity {
        items := items[index := items[index].(quantity := items[index].quantity + 1)];
        SaveToStorage();
      }
    }

    /** `decreaseQuantity`: one unit less when the line holds more than 1. */
    method DecreaseQuantity(index: int)
      modifies this`items, this`store
      ensures items == DecreaseAt(old(items), index)
      ensures store == if 0 <= index < |old(items)| && old(items)[index].quantity > MinQuantity
        then WriteSnapshot(old(store), Save(items)) else old(store)
      ensures old(Synced()) ==> Synced()
      ensures old(KeysUnique(items)) ==> KeysUnique(items)
      ensures old(AllPositive(items)) ==> AllPositive(items)
      ensures old(AllWithinLimits(items)) ==> AllWithinLimits(items)
    {
      EditsKeepInvariants(items, index, 0);
      if 0 <= index < |items| && items[index].quantity > MinQuantity {
        items := items[index := items[index].(quantity := items[index].quantity - 1)];
        SaveToStorage();
      }
    }

    /** `calculateSubtotal`. */
    function CalculateSubtotal(): int
      reads this
    {
      Subtotal(items)
    }

    /** `calculateDiscount` under the current promo code. */
    function CalculateDiscount(subtotal: int): real
      reads this
    {
      Discount(promoCode, subtotal)
    }

    /** `calculateShipping`. */
    function CalculateShipping(subtotal: int): int {
      Shipping(subtotal)
    }

    /** `getTotalCount`. */
    function GetTotalCount(): int
      reads this
    {
      TotalCount(items)
    }

    /** The decision `updateUI` takes for the header badge. */
    function CountBadge(): Badge
      reads this
    {
      BadgeFor(GetTotalCount())
    }

    /** `clearCart`: no lines, no promo code, and empty partitions written. */
    method ClearCart()
      modifies this
      ensures items == [] && promoCode == None
      ensures store == WriteSnapshot(old(store), Snapshot([], [], [])) && Synced()
      ensures GetTotalCount() == 0 && CountBadge() == Hidden
      ensures forall subtotal: int :: CalculateDiscount(subtotal) == 0.0
    {
      items := [];
      promoCode := None;
      SaveToStorage();
    }
  }

  /** The checkout walk-through of the cart, run through the class: two bags merge
      into one line and BOXING25 takes a quarter with free shipping. */
  method CheckoutWalkThrough()
  {
    var cart := new CartManager(map[]);
    cart.AddItem("Груша", 5000, Equipment, "id-1");
    cart.AddItem("Груша", 5000, Equipment, "id-2");
    assert |cart.items| == 1 && cart.items[0].quantity == 2;
    assert cart.CalculateSubtotal() == 10000;
    cart.promoCode := Some("BOXING25");
    DiscountFollowsRules(cart.promoCode, 10000);
    assert cart.CalculateDiscount(10000) == 2500.0;
    assert cart.CalculateShipping(10000) == 0;
  }

  /** A cart of one bag and one shampoo survives a reload unchanged; clearing then
      resets the count and the discount. */
  method ReloadWalkThrough()
  {
    var cart := new CartManager(map[]);
    cart.AddItem("Груша", 5000, Equipment, "id-1");
    cart.AddItem("Шампунь", 500, Cosmetic, "id-2");
    var before := cart.items;
    assert |before| == 2 && before[0].category == Equipment && before[1].category == Cosmetic;
    ReloadIdentityIffGrouped(before);
    cart.LoadFromStorage();
    assert cart.items == before;
    cart.promoCode := Some("FIGHT100");
    cart.ClearCart();
    assert cart.GetTotalCount() == 0 && cart.CountBadge() == Hidden;
    assert cart.CalculateDiscount(10000) == 0.0;
  }
}
