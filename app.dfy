/** The storefront's top-level view state and its event handlers: filter
    state (category, query, smart results), the cart and the drawer's open
    flag. Each handler applies the corresponding pure transform to the state. */
module App {
  import opened Types
  import AppCart
  import AppFilter
  import GeminiService
  import ProductCard

  class Storefront {
    /** The catalog, fixed for the session. */
    const catalog: seq<Product>
    var selectedCategory: Option<Category>
    var searchQuery: string
    var cart: seq<CartItem>
    var isCartOpen: bool
    var smartResults: Option<seq<Product>>

    /** The cart invariant, and smart results only ever hold catalog products. */
    ghost predicate Valid()
      reads this
    {
      && AppCart.Valid(cart)
      && (smartResults.Some? ==>
            forall i :: 0 <= i < |smartResults.value| ==> smartResults.value[i] in catalog)
    }

    constructor (catalog: seq<Product>)
      ensures Valid()
      ensures this.catalog == catalog
      ensures selectedCategory == None && searchQuery == "" && smartResults == None
      ensures cart == [] && !isCartOpen
    {
      this.catalog := catalog;
      selectedCategory := None;
      searchQuery := "";
      cart := [];
      isCartOpen := false;
      smartResults := None;
    }

    /** The products on display; they are always catalog products. */
    function Displayed(): (r: seq<Product>)
      reads this
      requires Valid()
      ensures forall i :: 0 <= i < |r| ==> r[i] in catalog
    {
      AppFilter.FilteredProducts(catalog, smartResults, selectedCategory, searchQuery)
    }

    /** The navbar badge: the quantity sum, never below the number of entries. */
    function CartCount(): (r: int)
      reads this
      requires Valid()
      ensures r >= |cart|
    {
      AppCart.CartCountAtLeastEntries(cart);
      AppCart.CartCount(cart)
    }

    /** Add to cart; the drawer is not opened. */
    method AddToCart(product: Product)
      requires Valid()
      modifies this
      ensures Valid()
      ensures cart == AppCart.AddToCart(old(cart), product)
      ensures AppCart.CartCount(cart) == AppCart.CartCount(old(cart)) + 1
      ensures isCartOpen == old(isCartOpen) && selectedCategory == old(selectedCategory)
      ensures searchQuery == old(searchQuery) && smartResults == old(smartResults)
    {
      AppCart.AddRaisesCount(cart, product);
      cart := AppCart.AddToCart(cart, product);
    }

    /** A click on a card's Quick Add button, which reaches `AddToCart` only
        when the product has stock. */
    method QuickAddClick(product: Product)
      requires Valid()
      modifies this
      ensures Valid()
      ensures cart == if product.stock > 0 then AppCart.AddToCart(old(cart), product) else old(cart)
      ensures isCartOpen == old(isCartOpen) && selectedCategory == old(selectedCategory)
      ensures searchQuery == old(searchQuery) && smartResults == old(smartResults)
    {
      match ProductCard.QuickAdd(product)
      case Some(p) => AddToCart(p);
      case None =>
    }

    method UpdateQuantity(id: string, delta: int)
      requires Valid()
      modifies this
      ensures Valid()
      ensures cart == AppCart.UpdateQuantity(old(cart), id, delta)
      ensures isCartOpen == old(isCartOpen) && selectedCategory == old(selectedCategory)
      ensures searchQuery == old(searchQuery) && smartResults == old(smartResults)
    {
      AppCart.UpdatePreservesValid(cart, id, delta);
      cart := AppCart.UpdateQuantity(cart, id, delta);
    }

    /** Checkout empties the cart and closes the drawer. */
    method Checkout()
      requires Valid()
      modifies this
      ensures Valid()
      ensures cart == [] && !isCartOpen
      ensures selectedCategory == old(selectedCategory)
      ensures searchQuery == old(searchQuery) && smartResults == old(smartResults)
    {
      cart := [];
      isCartOpen := false;
    }

    method OpenCart()
      requires Valid()
      modifies this
      ensures Valid() && isCartOpen
      ensures cart == old(cart) && selectedCategory == old(selectedCategory)
      ensures searchQuery == old(searchQuery) && smartResults == old(smartResults)
    {
      isCartOpen := true;
    }

    method CloseCart()
      requires Valid()
      modifies this
      ensures Valid() && !isCartOpen
      ensures cart == old(cart) && selectedCategory == old(selectedCategory)
      ensures searchQuery == old(searchQuery) && smartResults == old(smartResults)
    {
      isCartOpen := false;
    }

    /** The navbar's search box reports a new query. */
    method SetSearchQuery(query: string)
      requires Valid()
      modifies this
      ensures Valid() && searchQuery == query
      ensures cart == old(cart) && isCartOpen == old(isCartOpen)
      ensures selectedCategory == old(selectedCategory) && smartResults == old(smartResults)
    {
      searchQuery := query;
    }

    /** The sidebar selects a category, or none. */
    method SelectCategory(category: Option<Category>)
      requires Valid()
      modifies this
      ensures Valid() && selectedCategory == category
      ensures cart == old(cart) && isCartOpen == old(isCartOpen)
      ensures searchQuery == old(searchQuery) && smartResults == old(smartResults)
    {
      selectedCategory := category;
    }

    /** The debounced query has settled: for a query whose JavaScript length
        exceeds five, smart search runs and its result replaces `smartResults`,
        unless the request fails, which leaves them as they were; a shorter
        query clears them. `reply` is what the completion call yields. */
    method SmartSearchSettled(reply: GeminiService.Reply)
      requires Valid()
      modifies this
      ensures Valid()
      ensures smartResults == AppFilter.SettledSmartResults(searchQuery, catalog, old(smartResults), reply)
      ensures !AppFilter.ShouldSmartSearch(searchQuery) ==> smartResults == None
      ensures AppFilter.ShouldSmartSearch(searchQuery) && reply.Failed? ==> smartResults == old(smartResults)
      ensures AppFilter.ShouldSmartSearch(searchQuery) && !reply.Failed? ==>
                smartResults == GeminiService.Recommend(catalog, reply)
      ensures cart == old(cart) && isCartOpen == old(isCartOpen)
      ensures selectedCategory == old(selectedCategory) && searchQuery == old(searchQuery)
    {
      smartResults := AppFilter.SettledSmartResults(searchQuery, catalog, smartResults, reply);
    }

    /** The navbar's home link clears every filter. */
    method HomeClick()
      requires Valid()
      modifies this
      ensures Valid()
      ensures selectedCategory == None && searchQuery == "" && smartResults == None
      ensures Displayed() == catalog
      ensures cart == old(cart) && isCartOpen == old(isCartOpen)
    {
      selectedCategory := None;
      searchQuery := "";
      smartResults := None;
    }

    /** The mobile bar's Home button clears the category and the query but
        leaves `smartResults` as they are. */
    method MobileHomeClick()
      requires Valid()
      modifies this
      ensures Valid()
      ensures selectedCategory == None && searchQuery == "" && smartResults == old(smartResults)
      ensures cart == old(cart) && isCartOpen == old(isCartOpen)
    {
      selectedCategory := None;
      searchQuery := "";
    }
  }
}
