/** The cart page: the guards in front of the remove and quantity actions, the
    per-item subtotal and the cart total, and the quantity selector's options. */
module CartPage {
  import opened Storefront
  import Text

  /** `handleRemove(_id)`: dispatches `removeFromCart` only for a present, non-empty id. */
  function HandleRemove(id: Option<string>): (effects: seq<Effect>)
    ensures |effects| <= 1
    ensures DispatchesOf(effects) ==
      if id.Some? && id.value != "" then [RemoveFromCart(id.value)] else []
  {
    if id.Some? && id.value != "" then [Dispatch(RemoveFromCart(id.value))] else []
  }

  /** `handleQuantityChange(item, qty)`: a quantity below 1 is ignored; any other
      quantity is dispatched together with the item's own id. */
  function HandleQuantityChange(item: CartItem, qty: int): (effects: seq<Effect>)
    ensures qty < 1 ==> effects == []
    ensures qty >= 1 ==> DispatchesOf(effects) == [UpdateQuantity(item.id, qty)]
    ensures forall i :: 0 <= i < |effects| ==> effects[i].Dispatch?
  {
    if qty < 1 then [] else [Dispatch(UpdateQuantity(item.id, qty))]
  }

  /** `calculateSubtotal(item)`. */
  function Subtotal(item: CartItem): int {
    item.price * item.quantity
  }

  /** The `total` the page shows: the reduce over the cart, starting from 0. */
  function Total(items: seq<CartItem>): int {
    FoldSum(0, items, Subtotal)
  }

  /** The total is Σ price × quantity over the cart; it is 0 for an empty cart. */
  lemma TotalIsSum(items: seq<CartItem>)
    ensures Total(items) == Sum(items, Subtotal)
    ensures items == [] ==> Total(items) == 0
  {
    FoldSumIsSum(0, items, Subtotal);
  }

  /** The total of a cart split in two is the sum of the totals of the parts. */
  lemma TotalAppend(a: seq<CartItem>, b: seq<CartItem>)
    ensures Total(a + b) == Total(a) + Total(b)
  {
    TotalIsSum(a + b);
    TotalIsSum(a);
    TotalIsSum(b);
    SumAppend(a, b, Subtotal);
  }

  predicate WellFormed(item: CartItem) {
    item.price >= 0 && item.quantity >= 1
  }

  /** With non-negative prices and quantities of at least 1, the total is never below
      the subtotal of any single item, and so never negative. */
  lemma {:induction false} TotalBoundsSubtotals(items: seq<CartItem>)
    requires forall i :: 0 <= i < |items| ==> WellFormed(items[i])
    ensures Sum(items, Subtotal) >= 0
    ensures forall i :: 0 <= i < |items| ==> Sum(items, Subtotal) >= Subtotal(items[i])
  {
    if items != [] {
      TotalBoundsSubtotals(items[1..]);
      assert Subtotal(items[0]) >= 0;
      forall i | 1 <= i < |items| ensures Sum(items, Subtotal) >= Subtotal(items[i]) {
        assert items[i] == items[1..][i - 1];
      }
    }
  }

  /** The options of the quantity selector, `[...Array(10).keys()].map(i => i + 1)`. */
  function QuantityChoices(): (r: seq<int>)
    ensures |r| == 10
  {
    seq(10, i => i + 1)
  }

  /** The selector offers exactly the quantities 1 to 10, in increasing order, and
      the quantity guard lets every one of them through. */
  lemma QuantityChoicesAreOneToTen(item: CartItem)
    ensures forall v :: v in QuantityChoices() <==> 1 <= v <= 10
    ensures forall i, j :: 0 <= i < j < 10 ==> QuantityChoices()[i] < QuantityChoices()[j]
    ensures forall v :: v in QuantityChoices() ==> HandleQuantityChange(item, v) != []
  {
    var r := QuantityChoices();
    forall v | 1 <= v <= 10 ensures v in r {
      assert r[v - 1] == v;
    }
  }

  /** The label of an option: a leading "0" below 10. */
  function QuantityLabel(v: nat): string {
    if v < 10 then "0" + Text.NatToString(v) else Text.NatToString(v)
  }

  /** Every option label is two characters long and reads back as its value. */
  lemma QuantityLabelReadsBack(v: nat)
    requires 1 <= v <= 10
    ensures |QuantityLabel(v)| == 2
    ensures Text.AllDigits(QuantityLabel(v)) && Text.ParseDigits(QuantityLabel(v)) == v
  {
    var s := Text.NatToString(v);
    Text.ParseNatToString(v);
    if v < 10 {
      Text.ParseDigitsLeadingZero(s);
    } else {
      assert s == Text.NatToString(1) + [Text.DigitChar(0)];
    }
  }
}
