/** What the cart drawer derives from the cart entries: the subtotal, each
    line's amount, the quantity requests its −/+ controls emit, the header
    count and which parts are shown. */
module CartDrawer {
  import opened Types
  import opened Builtins

  /** The amount shown on one line: unit price times quantity. */
  function LineTotal(item: CartItem): (r: int)
    ensures item.quantity == 0 ==> r == 0
    ensures item.product.price >= 0 && item.quantity >= 1 ==> r >= item.product.price
  {
    item.product.price * item.quantity
  }

  /** `items.reduce((acc, item) => acc + item.price * item.quantity, 0)`:
      the sum of the line totals, 0 for an empty cart. */
  function Subtotal(items: seq<CartItem>): (r: int)
    ensures r == Sum(items, LineTotal)
    ensures items == [] ==> r == 0
  {
    SumReduceIsSum(items, LineTotal, 0);
    SumReduce(items, LineTotal, 0)
  }

  /** The subtotal of a cart split in two is the sum of the two subtotals. */
  lemma SubtotalConcat(a: seq<CartItem>, b: seq<CartItem>)
    ensures Subtotal(a + b) == Subtotal(a) + Subtotal(b)
  {
    SumConcat(a, b, LineTotal);
  }

  /** A quantity change request `(id, delta)` sent to the cart. */
  datatype QuantityRequest = QuantityRequest(id: string, delta: int)

  datatype LineView = LineView(
    id: string, name: string, unit: string, amount: int, quantity: int,
    minus: QuantityRequest, plus: QuantityRequest)

  /** The checkout footer; delivery is free, so the total is the subtotal. */
  datatype Footer = Footer(subtotal: int, total: int)

  /** Nothing is rendered while the drawer is closed. */
  datatype DrawerView =
    | Hidden
    | Shown(headerCount: nat, lines: seq<LineView>, footer: Option<Footer>)

  function Line(item: CartItem): LineView
  {
    LineView(item.product.id, item.product.name, item.product.unit, LineTotal(item), item.quantity,
             QuantityRequest(item.product.id, -1), QuantityRequest(item.product.id, 1))
  }

  function Render(isOpen: bool, items: seq<CartItem>): (v: DrawerView)
    ensures v.Hidden? <==> !isOpen
    ensures v.Shown? ==> v.headerCount == |items| && |v.lines| == |items|
    ensures v.Shown? ==> (v.footer.Some? <==> items != [])
    ensures v.Shown? && v.footer.Some? ==>
              v.footer.value.subtotal == v.footer.value.total == Sum(items, LineTotal)
    ensures v.Shown? ==> forall i :: 0 <= i < |items| ==>
              v.lines[i].amount == items[i].product.price * items[i].quantity &&
              v.lines[i].minus == QuantityRequest(items[i].product.id, -1) &&
              v.lines[i].plus == QuantityRequest(items[i].product.id, 1)
  {
    if !isOpen then Hidden
    else
      var subtotal := Subtotal(items);
      Shown(|items|, seq(|items|, i requires 0 <= i < |items| => Line(items[i])),
            if |items| > 0 then Some(Footer(subtotal, subtotal)) else None)
  }

  function LineAmount(l: LineView): int { l.amount }

  /** The footer's total is the sum of the amounts printed on the lines. */
  lemma TotalIsSumOfLines(items: seq<CartItem>)
    requires items != []
    ensures Render(true, items).footer.Some?
    ensures Render(true, items).footer.value.total == Sum(Render(true, items).lines, LineAmount)
  {
    LinesSum(items, Render(true, items).lines);
  }

  lemma {:induction false} LinesSum(items: seq<CartItem>, lines: seq<LineView>)
    requires |lines| == |items|
    requires forall i :: 0 <= i < |items| ==> lines[i].amount == LineTotal(items[i])
    ensures Sum(lines, LineAmount) == Sum(items, LineTotal)
  {
    if items != [] {
      LinesSum(items[1..], lines[1..]);
    }
  }
}
