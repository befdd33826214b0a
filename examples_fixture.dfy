/** The model's results on a three-product excerpt of the catalog, stated
    and proved. */
module FixtureExamples {
  import opened Types
  import opened Builtins
  import opened Constants
  import AppFilter
  import AppCart
  import GeminiService
  import App

  /** Selecting Beverages shows exactly the cola. */
  lemma BeveragesShowsCola()
    ensures AppFilter.FilteredProducts(Fixture, None, Some(Beverages), "") == [ColaClassic]
  {
    assert Filter(Fixture[2..], (p: Product) => p.category == Beverages) == [];
    assert Filter(Fixture[1..], (p: Product) => p.category == Beverages) == [ColaClassic];
  }

  /** A reply naming the cola and an unknown item selects the cola alone. */
  lemma SmartSearchDropsUnknownName()
    ensures GeminiService.Recommend(Fixture, GeminiService.NameList(["Cola Classic 500ml Pack of 24", "Nonexistent Item"])) ==
            Some([ColaClassic])
  {
    var names := ["Cola Classic 500ml Pack of 24", "Nonexistent Item"];
    assert FreshMilk.name !in names;
    assert CookingOil.name !in names;
    assert Filter(Fixture[2..], (p: Product) => p.name in names) == [];
    assert Filter(Fixture[1..], (p: Product) => p.name in names) == [ColaClassic];
  }

  lemma CountOfOneEntry(item: CartItem)
    ensures AppCart.CartCount([item]) == item.quantity
  {
    assert [item][1..] == [];
    assert Sum([item][1..], AppCart.Quantity) == 0;
  }

  /** A shopping session over any two distinct products: two adds of the
      first, one Quick Add of the second, then the first taken back out with a
      single change of -2, then checkout. */
  method ShoppingSession(milk: Product, cola: Product)
    returns (afterAdds: seq<CartItem>, afterRemove: seq<CartItem>, badge: int, afterCheckout: seq<CartItem>)
    requires milk.id != cola.id && cola.stock > 0
    ensures afterAdds == [CartItem(milk, 2), CartItem(cola, 1)]
    ensures afterRemove == [CartItem(cola, 1)]
    ensures badge == 1
    ensures afterCheckout == []
  {
    var store := new App.Storefront([milk, cola]);
    AppCart.AddTwice([], milk);
    store.AddToCart(milk);
    store.AddToCart(milk);
    assert store.cart == [CartItem(milk, 2)];
    assert !AppCart.HasId(store.cart, cola.id);
    store.QuickAddClick(cola);
    afterAdds := store.cart;
    assert afterAdds == [CartItem(milk, 2), CartItem(cola, 1)];
    AppCart.UpdateAt(afterAdds, milk.id, -2, 0);
    assert afterAdds[..0] == [] && afterAdds[1..] == [CartItem(cola, 1)];
    store.UpdateQuantity(milk.id, -2);
    afterRemove := store.cart;
    assert afterRemove == [CartItem(cola, 1)];
    CountOfOneEntry(CartItem(cola, 1));
    badge := store.CartCount();
    store.Checkout();
    afterCheckout := store.cart;
  }

  /** Three emoji are three characters but six UTF-16 code units, so they
      start a smart search. */
  lemma EmojiQueryRunsSmartSearch()
    ensures |"\U{1F600}\U{1F600}\U{1F600}"| == 3
    ensures AppFilter.ShouldSmartSearch("\U{1F600}\U{1F600}\U{1F600}")
  {
    var e := "\U{1F600}\U{1F600}\U{1F600}";
    assert e[1..][1..][1..] == [];
  }
}
