/** The cart transforms that the storefront's cart setters apply to the
    previous cart, the navbar's item count, and the invariant they keep: at
    most one entry per product id, each with a quantity of at least 1. */
module AppCart {
  import opened Types
  import opened Builtins

  predicate HasId(cart: seq<CartItem>, id: string)
  {
    exists i :: 0 <= i < |cart| && cart[i].Id() == id
  }

  ghost predicate DistinctAt(cart: seq<CartItem>, i: int, j: int)
    requires 0 <= i < |cart| && 0 <= j < |cart|
  {
    cart[i].Id() != cart[j].Id()
  }

  /** No two entries share a product id. */
  ghost predicate UniqueIds(cart: seq<CartItem>)
  {
    forall i, j :: 0 <= i < j < |cart| ==> DistinctAt(cart, i, j)
  }

  /** Every entry has a quantity of at least 1. */
  ghost predicate AllPositive(cart: seq<CartItem>)
  {
    forall i :: 0 <= i < |cart| ==> cart[i].quantity >= 1
  }

  ghost predicate Valid(cart: seq<CartItem>)
  {
    UniqueIds(cart) && AllPositive(cart)
  }

  /** Two different positions of a cart with unique ids carry different ids. */
  lemma DistinctIds(cart: seq<CartItem>, i: int, j: int)
    requires UniqueIds(cart) && 0 <= i < |cart| && 0 <= j < |cart| && i != j
    ensures cart[i].Id() != cart[j].Id()
  {
    if i < j { assert DistinctAt(cart, i, j); } else { assert DistinctAt(cart, j, i); }
  }

  /** A cart whose entries carry, position by position, the ids of a cart with
      unique ids has unique ids too. */
  lemma SameIdsUnique(cart: seq<CartItem>, r: seq<CartItem>)
    requires UniqueIds(cart) && |r| == |cart|
    requires forall i :: 0 <= i < |r| ==> r[i].Id() == cart[i].Id()
    ensures UniqueIds(r)
  {
    forall i, j | 0 <= i < j < |r| ensures DistinctAt(r, i, j) {
      DistinctIds(cart, i, j);
    }
  }

  // ---------------------------------------------------------------------------
  // Add to cart
  // ---------------------------------------------------------------------------

  /** One step of the `map` over the cart: the entry with the id gets one more. */
  function Bump(item: CartItem, id: string): CartItem
  {
    if item.Id() == id then item.(quantity := item.quantity + 1) else item
  }

  /** An existing entry for the product's id is incremented in place,
      otherwise the product is appended with quantity 1. */
  function AddToCart(cart: seq<CartItem>, product: Product): (r: seq<CartItem>)
    ensures Valid(cart) ==> Valid(r)
    ensures |r| == if HasId(cart, product.id) then |cart| else |cart| + 1
    ensures HasId(r, product.id)
  {
    if HasId(cart, product.id) then
      var r := seq(|cart|, i requires 0 <= i < |cart| => Bump(cart[i], product.id));
      assert forall i :: 0 <= i < |cart| ==> r[i].Id() == cart[i].Id();
      BumpedValid(cart, r);
      r
    else
      var r := cart + [CartItem(product, 1)];
      assert r[|cart|].Id() == product.id;
      AppendedValid(cart, CartItem(product, 1));
      r
  }

  lemma BumpedValid(cart: seq<CartItem>, r: seq<CartItem>)
    requires |r| == |cart|
    requires forall i :: 0 <= i < |r| ==> r[i].Id() == cart[i].Id() && r[i].quantity >= cart[i].quantity
    ensures Valid(cart) ==> Valid(r)
  {
    if Valid(cart) { SameIdsUnique(cart, r); }
  }

  lemma AppendedValid(cart: seq<CartItem>, x: CartItem)
    requires !HasId(cart, x.Id()) && x.quantity >= 1
    ensures Valid(cart) ==> Valid(cart + [x])
  {
    var r := cart + [x];
    if Valid(cart) {
      forall i, j | 0 <= i < j < |r| ensures DistinctAt(r, i, j) {
        if j < |cart| { DistinctIds(cart, i, j); } else { assert r[i] == cart[i]; }
      }
    }
  }

  /** Adding a product already in the cart raises that entry by one and
      leaves the length and every other entry as they were. */
  lemma AddExisting(cart: seq<CartItem>, product: Product, k: int)
    requires Valid(cart) && 0 <= k < |cart| && cart[k].Id() == product.id
    ensures |AddToCart(cart, product)| == |cart|
    ensures AddToCart(cart, product)[k] == cart[k].(quantity := cart[k].quantity + 1)
    ensures forall j :: 0 <= j < |cart| && j != k ==> AddToCart(cart, product)[j] == cart[j]
  {
    assert HasId(cart, product.id);
    forall j | 0 <= j < |cart| && j != k { DistinctIds(cart, j, k); }
  }

  /** Adding a product not yet in the cart appends exactly one entry, with
      quantity 1, at the end. */
  lemma AddNew(cart: seq<CartItem>, product: Product)
    requires !HasId(cart, product.id)
    ensures AddToCart(cart, product) == cart + [CartItem(product, 1)]
  {
  }

  /** Adding the same new product twice gives one entry of quantity 2. */
  lemma AddTwice(cart: seq<CartItem>, product: Product)
    requires !HasId(cart, product.id)
    ensures AddToCart(AddToCart(cart, product), product) == cart + [CartItem(product, 2)]
  {
    var once := AddToCart(cart, product);
    assert once[|cart|].Id() == product.id;
    var twice := AddToCart(once, product);
    assert |twice| == |cart| + 1;
    forall i | 0 <= i < |cart| ensures twice[i] == cart[i] {
      assert cart[i].Id() != product.id;
    }
  }

  // ---------------------------------------------------------------------------
  // Update quantity
  // ---------------------------------------------------------------------------

  function Max(a: int, b: int): int { if a >= b then a else b }

  /** One step of the `map`: the entry with the id gets `max(0, quantity + delta)`. */
  function Adjust(item: CartItem, id: string, delta: int): CartItem
  {
    if item.Id() == id then item.(quantity := Max(0, item.quantity + delta)) else item
  }

  function AdjustAll(cart: seq<CartItem>, id: string, delta: int): (r: seq<CartItem>)
    ensures |r| == |cart|
    ensures forall i :: 0 <= i < |cart| ==> r[i] == Adjust(cart[i], id, delta)
  {
    seq(|cart|, i requires 0 <= i < |cart| => Adjust(cart[i], id, delta))
  }

  predicate Positive(item: CartItem) { item.quantity > 0 }

  /** The entries with the id are adjusted, then every entry whose quantity
      is not positive is dropped. */
  function UpdateQuantity(cart: seq<CartItem>, id: string, delta: int): (r: seq<CartItem>)
    ensures |r| <= |cart|
    ensures forall i :: 0 <= i < |r| ==> r[i].quantity >= 1
  {
    Filter(AdjustAll(cart, id, delta), Positive)
  }

  /** An id that is not in the cart leaves the cart unchanged. */
  lemma UpdateUnknownId(cart: seq<CartItem>, id: string, delta: int)
    requires Valid(cart) && !HasId(cart, id)
    ensures UpdateQuantity(cart, id, delta) == cart
  {
    var adjusted := AdjustAll(cart, id, delta);
    assert adjusted == cart;
    FilterKeepsAll(cart, Positive);
  }

  lemma AdjustAllConcat(a: seq<CartItem>, b: seq<CartItem>, id: string, delta: int)
    ensures AdjustAll(a + b, id, delta) == AdjustAll(a, id, delta) + AdjustAll(b, id, delta)
  {
  }

  lemma AdjustAllMissing(s: seq<CartItem>, id: string, delta: int)
    requires !HasId(s, id)
    ensures AdjustAll(s, id, delta) == s
  {
  }

  /** With ids unique, the entries before and after position `k` carry other ids. */
  lemma OthersLackId(cart: seq<CartItem>, k: int)
    requires UniqueIds(cart) && 0 <= k < |cart|
    ensures !HasId(cart[..k], cart[k].Id()) && !HasId(cart[k + 1..], cart[k].Id())
  {
    forall i | 0 <= i < |cart| && i != k { DistinctIds(cart, i, k); }
    assert forall i :: 0 <= i < k ==> cart[..k][i] == cart[i];
    assert forall i :: k < i < |cart| ==> cart[k + 1..][i - k - 1] == cart[i];
  }

  /** With ids unique, adjusting the id of entry `k` changes that entry only. */
  lemma AdjustAllAt(cart: seq<CartItem>, id: string, delta: int, k: int)
    requires UniqueIds(cart) && 0 <= k < |cart| && cart[k].Id() == id
    ensures AdjustAll(cart, id, delta) == cart[..k] + [Adjust(cart[k], id, delta)] + cart[k + 1..]
  {
    var pre, post := cart[..k], cart[k + 1..];
    assert cart == pre + [cart[k]] + post;
    OthersLackId(cart, k);
    AdjustAllConcat(pre + [cart[k]], post, id, delta);
    AdjustAllConcat(pre, [cart[k]], id, delta);
    AdjustAllMissing(pre, id, delta);
    AdjustAllMissing(post, id, delta);
  }

  /** Dropping non-positive entries around one entry whose neighbours are all
      positive touches only that entry. */
  lemma FilterPositiveAround(pre: seq<CartItem>, mid: CartItem, post: seq<CartItem>)
    requires AllPositive(pre) && AllPositive(post)
    ensures Filter(pre + [mid] + post, Positive) == pre + (if Positive(mid) then [mid] else []) + post
  {
    FilterConcat(pre + [mid], post, Positive);
    FilterConcat(pre, [mid], Positive);
    FilterKeepsAll(pre, Positive);
    FilterKeepsAll(post, Positive);
    assert Filter([mid], Positive) == if Positive(mid) then [mid] else [];
  }

  lemma PositiveParts(cart: seq<CartItem>, k: int)
    requires 0 <= k < |cart| && AllPositive(cart)
    ensures AllPositive(cart[..k]) && AllPositive(cart[k + 1..])
  {
    assert forall i :: 0 <= i < k ==> cart[..k][i] == cart[i];
    assert forall i :: k < i < |cart| ==> cart[k + 1..][i - k - 1] == cart[i];
  }

  /** A change that leaves a positive quantity rewrites entry `k` in place. */
  lemma UpdateKeeps(cart: seq<CartItem>, id: string, delta: int, k: int)
    requires Valid(cart) && 0 <= k < |cart| && cart[k].Id() == id
    requires cart[k].quantity + delta > 0
    ensures UpdateQuantity(cart, id, delta) ==
            cart[..k] + [cart[k].(quantity := cart[k].quantity + delta)] + cart[k + 1..]
  {
    var mid := Adjust(cart[k], id, delta);
    AdjustAllAt(cart, id, delta, k);
    PositiveParts(cart, k);
    FilterPositiveAround(cart[..k], mid, cart[k + 1..]);
    assert mid == cart[k].(quantity := cart[k].quantity + delta);
  }

  /** A change that leaves no positive quantity drops entry `k`. */
  lemma UpdateDrops(cart: seq<CartItem>, id: string, delta: int, k: int)
    requires Valid(cart) && 0 <= k < |cart| && cart[k].Id() == id
    requires cart[k].quantity + delta <= 0
    ensures UpdateQuantity(cart, id, delta) == cart[..k] + cart[k + 1..]
  {
    var mid := Adjust(cart[k], id, delta);
    AdjustAllAt(cart, id, delta, k);
    PositiveParts(cart, k);
    FilterPositiveAround(cart[..k], mid, cart[k + 1..]);
    assert !Positive(mid);
    assert cart[..k] + [] + cart[k + 1..] == cart[..k] + cart[k + 1..];
  }

  /** The entry at `k` gets `quantity + delta` and keeps its place, or leaves
      the cart when that is not positive; every other entry keeps its place. */
  lemma UpdateAt(cart: seq<CartItem>, id: string, delta: int, k: int)
    requires Valid(cart) && 0 <= k < |cart| && cart[k].Id() == id
    ensures UpdateQuantity(cart, id, delta) ==
            cart[..k] +
            (if cart[k].quantity + delta > 0 then [cart[k].(quantity := cart[k].quantity + delta)] else []) +
            cart[k + 1..]
  {
    if cart[k].quantity + delta > 0 {
      UpdateKeeps(cart, id, delta, k);
    } else {
      UpdateDrops(cart, id, delta, k);
      assert cart[..k] + [] + cart[k + 1..] == cart[..k] + cart[k + 1..];
    }
  }

  /** Replacing an entry by one with the same id and a positive quantity
      keeps the cart valid. */
  lemma ValidAfterReplace(cart: seq<CartItem>, k: int, x: CartItem)
    requires Valid(cart) && 0 <= k < |cart| && x.Id() == cart[k].Id() && x.quantity >= 1
    ensures Valid(cart[..k] + [x] + cart[k + 1..])
  {
    var r := cart[..k] + [x] + cart[k + 1..];
    assert forall i :: 0 <= i < |r| ==> r[i] == if i == k then x else cart[i];
    SameIdsUnique(cart, r);
  }

  /** Removing an entry keeps the cart valid. */
  lemma ValidAfterRemove(cart: seq<CartItem>, k: int)
    requires Valid(cart) && 0 <= k < |cart|
    ensures Valid(cart[..k] + cart[k + 1..])
  {
    var r := cart[..k] + cart[k + 1..];
    assert forall i :: 0 <= i < |r| ==> r[i] == if i < k then cart[i] else cart[i + 1];
    forall i, j | 0 <= i < j < |r| ensures DistinctAt(r, i, j) {
      DistinctIds(cart, if i < k then i else i + 1, if j < k then j else j + 1);
    }
  }

  lemma UpdatePreservesValid(cart: seq<CartItem>, id: string, delta: int)
    requires Valid(cart)
    ensures Valid(UpdateQuantity(cart, id, delta))
  {
    if HasId(cart, id) {
      var k :| 0 <= k < |cart| && cart[k].Id() == id;
      if cart[k].quantity + delta > 0 {
        UpdateKeeps(cart, id, delta, k);
        ValidAfterReplace(cart, k, cart[k].(quantity := cart[k].quantity + delta));
      } else {
        UpdateDrops(cart, id, delta, k);
        ValidAfterRemove(cart, k);
      }
    } else {
      UpdateUnknownId(cart, id, delta);
    }
  }

  /** A delta of 0 changes nothing. */
  lemma UpdateZeroDelta(cart: seq<CartItem>, id: string)
    requires Valid(cart)
    ensures UpdateQuantity(cart, id, 0) == cart
  {
    if HasId(cart, id) {
      var k :| 0 <= k < |cart| && cart[k].Id() == id;
      AdjustAllAt(cart, id, 0, k);
      assert Adjust(cart[k], id, 0) == cart[k];
      assert cart[..k] + [cart[k]] + cart[k + 1..] == cart;
      FilterKeepsAll(cart, Positive);
    } else {
      UpdateUnknownId(cart, id, 0);
    }
  }

  lemma HasIdConcat(a: seq<CartItem>, b: seq<CartItem>, id: string)
    ensures HasId(a + b, id) <==> HasId(a, id) || HasId(b, id)
  {
    if HasId(a + b, id) {
      var i :| 0 <= i < |a + b| && (a + b)[i].Id() == id;
      if i >= |a| { assert b[i - |a|] == (a + b)[i]; }
    }
    if HasId(a, id) {
      var i :| 0 <= i < |a| && a[i].Id() == id;
      assert (a + b)[i] == a[i];
    }
    if HasId(b, id) {
      var i :| 0 <= i < |b| && b[i].Id() == id;
      assert (a + b)[|a| + i] == b[i];
    }
  }

  /** A delta of at least minus the quantity removes the entry entirely. */
  lemma UpdateRemovesEntry(cart: seq<CartItem>, id: string, delta: int, k: int)
    requires Valid(cart) && 0 <= k < |cart| && cart[k].Id() == id
    requires delta <= -cart[k].quantity
    ensures !HasId(UpdateQuantity(cart, id, delta), id)
    ensures |UpdateQuantity(cart, id, delta)| == |cart| - 1
  {
    UpdateDrops(cart, id, delta, k);
    OthersLackId(cart, k);
    HasIdConcat(cart[..k], cart[k + 1..], id);
  }

  /** Adding a product and then requesting a zero change leaves the cart as
      the add left it. */
  lemma AddThenZeroDelta(cart: seq<CartItem>, product: Product)
    requires Valid(cart)
    ensures UpdateQuantity(AddToCart(cart, product), product.id, 0) == AddToCart(cart, product)
  {
    UpdateZeroDelta(AddToCart(cart, product), product.id);
  }

  // ---------------------------------------------------------------------------
  // The navbar's count
  // ---------------------------------------------------------------------------

  function Quantity(item: CartItem): int { item.quantity }

  /** `cart.reduce((acc, item) => acc + item.quantity, 0)`. */
  function CartCount(cart: seq<CartItem>): (r: int)
    ensures r == Sum(cart, Quantity)
  {
    SumReduceIsSum(cart, Quantity, 0);
    SumReduce(cart, Quantity, 0)
  }

  /** In a valid cart the count is at least the number of entries. */
  lemma CartCountAtLeastEntries(cart: seq<CartItem>)
    requires Valid(cart)
    ensures CartCount(cart) >= |cart|
  {
    SumPositive(cart, Quantity);
  }

  lemma SumSplitAt(cart: seq<CartItem>, k: int, x: CartItem)
    requires 0 <= k < |cart|
    ensures Sum(cart[..k] + [x] + cart[k + 1..], Quantity) == Sum(cart, Quantity) - cart[k].quantity + x.quantity
  {
    SumConcat(cart[..k] + [x], cart[k + 1..], Quantity);
    SumConcat(cart[..k], [x], Quantity);
    SumConcat(cart[..k] + [cart[k]], cart[k + 1..], Quantity);
    SumConcat(cart[..k], [cart[k]], Quantity);
    assert cart[..k] + [cart[k]] + cart[k + 1..] == cart;
  }

  /** Every add raises the count by exactly one. */
  lemma AddRaisesCount(cart: seq<CartItem>, product: Product)
    requires Valid(cart)
    ensures CartCount(AddToCart(cart, product)) == CartCount(cart) + 1
  {
    if HasId(cart, product.id) {
      var k :| 0 <= k < |cart| && cart[k].Id() == product.id;
      AddExisting(cart, product, k);
      var x := cart[k].(quantity := cart[k].quantity + 1);
      assert AddToCart(cart, product) == cart[..k] + [x] + cart[k + 1..];
      SumSplitAt(cart, k, x);
    } else {
      SumConcat(cart, [CartItem(product, 1)], Quantity);
    }
  }

  lemma SumRemoveAt(cart: seq<CartItem>, k: int)
    requires 0 <= k < |cart|
    ensures Sum(cart[..k] + cart[k + 1..], Quantity) == Sum(cart, Quantity) - cart[k].quantity
  {
    SumConcat(cart[..k], cart[k + 1..], Quantity);
    SumConcat(cart[..k] + [cart[k]], cart[k + 1..], Quantity);
    SumConcat(cart[..k], [cart[k]], Quantity);
    assert [cart[k]][1..] == [];
    assert cart[..k] + [cart[k]] + cart[k + 1..] == cart;
  }

  /** A quantity change moves the count by the change actually applied. */
  lemma UpdateMovesCount(cart: seq<CartItem>, id: string, delta: int, k: int)
    requires Valid(cart) && 0 <= k < |cart| && cart[k].Id() == id
    ensures CartCount(UpdateQuantity(cart, id, delta)) ==
            CartCount(cart) - cart[k].quantity + Max(0, cart[k].quantity + delta)
  {
    if cart[k].quantity + delta > 0 {
      UpdateKeeps(cart, id, delta, k);
      SumSplitAt(cart, k, cart[k].(quantity := cart[k].quantity + delta));
    } else {
      UpdateDrops(cart, id, delta, k);
      SumRemoveAt(cart, k);
    }
  }
}
