/** The display rules of a product card, all driven by the product's stock:
    the stock label, the tone of the stock badge and whether Quick Add is
    enabled, plus the request a Quick Add click emits. */
module ProductCard {
  import opened Types
  import opened Builtins

  const OutOfStock: string := "Out of Stock"
  const LeftSuffix: string := " left"

  /** The badge text: "Out of Stock", or the stock count followed by " left". */
  function StockLabel(stock: int): (r: string)
    ensures r == OutOfStock <==> stock <= 0
    ensures stock > 0 ==>
              |r| > |LeftSuffix| && r[|r| - |LeftSuffix|..] == LeftSuffix &&
              (forall i :: 0 <= i < |r| - |LeftSuffix| ==> IsDigit(r[i])) &&
              DecimalValue(r[..|r| - |LeftSuffix|]) == stock
    ensures stock > 0 ==> r[0] != '0'
  {
    if stock <= 0 then OutOfStock
    else
      var digits := DecimalString(stock);
      var r := digits + LeftSuffix;
      assert r[..|r| - |LeftSuffix|] == digits;
      assert r[|r| - 1] == 't' != OutOfStock[|OutOfStock| - 1];
      DecimalRoundTrip(stock);
      assert r[0] == digits[0];
      r
  }

  /** The two badge styles. */
  datatype StockTone = Healthy | Low

  /** The badge tone: healthy above 20. */
  function StockToneOf(stock: int): (r: StockTone)
    ensures r == Healthy <==> stock > 20
  {
    if stock > 20 then Healthy else Low
  }

  /** The Quick Add button's `disabled` attribute: disabled exactly when the
      stock label reads "Out of Stock". */
  function QuickAddDisabled(stock: int): (r: bool)
    ensures r <==> StockLabel(stock) == OutOfStock
  {
    stock <= 0
  }

  /** The add-to-cart request a Quick Add click emits: none while the button
      is disabled, otherwise the card's own product, unchanged. */
  function QuickAdd(product: Product): (r: Option<Product>)
    ensures r.Some? <==> product.stock > 0
    ensures r.Some? ==> r.value == product
  {
    if QuickAddDisabled(product.stock) then None else Some(product)
  }

  /** The text and tone shown together never contradict each other, and the
      button is enabled exactly when the label shows a count. */
  lemma CardRulesAgree(stock: int)
    ensures StockToneOf(stock) == Healthy ==> StockLabel(stock) != OutOfStock && !QuickAddDisabled(stock)
    ensures QuickAddDisabled(stock) <==> StockLabel(stock) == OutOfStock
    ensures StockLabel(stock) == OutOfStock ==> StockToneOf(stock) == Low
  {
  }
}
