/** The checkout page: billing-form validation, the displayed total, and placing an
    order (guards, the item snapshot, the ledger append and the cart clear). */
module CheckoutPage {
  import opened Storefront
  import Text
  import CartPage
  import OrdersPage

  /** The catalogue product fetched for a "buy now" checkout. */
  datatype Product = Product(id: int, title: string, price: int, images: seq<string>)

  /** What the page holds when its handlers run: the cart from the store, the fetched
      product (if any), the `id` and `qty` search parameters, the quantity state and the
      billing form. */
  datatype CheckoutView = CheckoutView(
    cart: seq<CartItem>,
    product: Option<Product>,
    paramId: Option<string>,
    paramQty: Option<string>,
    quantity: int,
    billing: BillingForm)

  /** A search parameter is truthy when present and non-empty. */
  predicate Truthy(param: Option<string>) {
    param.Some? && param.value != ""
  }

  /** `product && paramId && paramQty`. */
  predicate HasBuyNow(v: CheckoutView) {
    v.product.Some? && Truthy(v.paramId) && Truthy(v.paramQty)
  }

  /** `Object.values(billingData)`. */
  function FieldValues(f: BillingForm): seq<string> {
    [f.firstName, f.streetAddress, f.townCity, f.phone, f.email]
  }

  /** `values.every(val => val.trim() !== "")`. */
  predicate EveryNonBlank(values: seq<string>) {
    values == [] || (Text.Trim(values[0]) != "" && EveryNonBlank(values[1..]))
  }

  /** `isFormValid`: every billing value is non-empty after trimming. */
  predicate IsFormValid(f: BillingForm)
    ensures IsFormValid(f) <==>
      && Text.Trim(f.firstName) != "" && Text.Trim(f.streetAddress) != ""
      && Text.Trim(f.townCity) != "" && Text.Trim(f.phone) != "" && Text.Trim(f.email) != ""
  {
    EveryNonBlankIff(FieldValues(f));
    FieldValuesNonBlank(f);
    EveryNonBlank(FieldValues(f))
  }

  lemma FieldValuesNonBlank(f: BillingForm)
    ensures (forall i :: 0 <= i < |FieldValues(f)| ==> Text.Trim(FieldValues(f)[i]) != "") <==>
      && Text.Trim(f.firstName) != "" && Text.Trim(f.streetAddress) != ""
      && Text.Trim(f.townCity) != "" && Text.Trim(f.phone) != "" && Text.Trim(f.email) != ""
  {
    var values := FieldValues(f);
    assert values[0] == f.firstName && values[1] == f.streetAddress && values[2] == f.townCity;
    assert values[3] == f.phone && values[4] == f.email;
  }

  lemma {:induction false} EveryNonBlankIff(values: seq<string>)
    ensures EveryNonBlank(values) <==> forall i :: 0 <= i < |values| ==> Text.Trim(values[i]) != ""
  {
    if values != [] {
      EveryNonBlankIff(values[1..]);
      assert forall i :: 1 <= i < |values| ==> values[i] == values[1..][i - 1];
    }
  }

  /** A form is valid exactly when each of the five fields holds a non-space character. */
  lemma FormValidIffNoBlankField(f: BillingForm)
    ensures IsFormValid(f) <==> forall i :: 0 <= i < 5 ==> !Text.AllSpace(FieldValues(f)[i])
  {
    var values := FieldValues(f);
    assert values[0] == f.firstName && values[1] == f.streetAddress && values[2] == f.townCity;
    assert values[3] == f.phone && values[4] == f.email;
    Text.TrimEmptyIff(f.firstName);
    Text.TrimEmptyIff(f.streetAddress);
    Text.TrimEmptyIff(f.townCity);
    Text.TrimEmptyIff(f.phone);
    Text.TrimEmptyIff(f.email);
  }

  /** The snapshot of the buy-now product: `images[0] ?? ""` for the image. */
  function BuyNowItem(p: Product, quantity: int): (item: OrderItem)
    ensures item.title == p.title && item.price == p.price && item.quantity == quantity
    ensures item.image == if |p.images| > 0 then p.images[0] else ""
  {
    OrderItem(p.title, p.price, quantity, if |p.images| > 0 then p.images[0] else "")
  }

  /** A copy of a cart entry: later cart changes cannot reach it. */
  function SnapshotItem(ci: CartItem): OrderItem {
    OrderItem(ci.title, ci.price, ci.quantity, ci.image)
  }

  /** Copies of all cart entries, in cart order. */
  function Snapshot(cart: seq<CartItem>): (r: seq<OrderItem>)
    ensures |r| == |cart| && forall i :: 0 <= i < |cart| ==> r[i] == SnapshotItem(cart[i])
  {
    seq(|cart|, i requires 0 <= i < |cart| => SnapshotItem(cart[i]))
  }

  /** The items an order gets: the buy-now item first when there is one, then every cart
      entry in cart order. */
  function OrderItems(v: CheckoutView): (items: seq<OrderItem>)
    ensures |items| == (if HasBuyNow(v) then 1 else 0) + |v.cart|
  {
    (if HasBuyNow(v) then [BuyNowItem(v.product.value, v.quantity)] else [])
    + Snapshot(v.cart)
  }

  /** Each cart entry appears, in cart order, after the optional buy-now item, with its
      title, price, quantity and image copied. */
  lemma OrderItemsSnapshotCart(v: CheckoutView, i: int)
    requires 0 <= i < |v.cart|
    ensures var k := if HasBuyNow(v) then 1 else 0;
      && OrderItems(v)[k + i].title == v.cart[i].title
      && OrderItems(v)[k + i].price == v.cart[i].price
      && OrderItems(v)[k + i].quantity == v.cart[i].quantity
      && OrderItems(v)[k + i].image == v.cart[i].image
    ensures HasBuyNow(v) ==> OrderItems(v)[0] == BuyNowItem(v.product.value, v.quantity)
  {
  }

  /** The `total` the page shows. */
  function Total(v: CheckoutView): int {
    if HasBuyNow(v) then
      v.product.value.price * v.quantity + FoldSum(0, v.cart, CartPage.Subtotal)
    else
      FoldSum(0, v.cart, CartPage.Subtotal)
  }

  lemma {:induction false} SnapshotSum(cart: seq<CartItem>)
    ensures Sum(Snapshot(cart), OrdersPage.ItemSubtotal) == Sum(cart, CartPage.Subtotal)
  {
    if cart != [] {
      SnapshotSum(cart[1..]);
      assert Snapshot(cart)[1..] == Snapshot(cart[1..]);
    }
  }

  /** The total shown at checkout is the total the orders page shows for the order
      that placing it would create. */
  lemma TotalIsTotalOfPlacedOrder(v: CheckoutView, id: int, date: string)
    ensures Total(v) == OrdersPage.OrderTotal(Order(id, OrderItems(v), date))
  {
    var snap := Snapshot(v.cart);
    var head := if HasBuyNow(v) then [BuyNowItem(v.product.value, v.quantity)] else [];
    assert OrderItems(v) == head + snap;
    OrdersPage.OrderTotalIsSum(Order(id, OrderItems(v), date));
    SumAppend(head, snap, OrdersPage.ItemSubtotal);
    SnapshotSum(v.cart);
    FoldSumIsSum(0, v.cart, CartPage.Subtotal);
    if HasBuyNow(v) {
      var p := v.product.value;
      assert OrdersPage.ItemSubtotal(head[0]) == p.price * v.quantity;
      assert head[1..] == [];
      assert Sum(head, OrdersPage.ItemSubtotal) == p.price * v.quantity;
      assert Total(v) == p.price * v.quantity + Sum(v.cart, CartPage.Subtotal);
    } else {
      assert head == [];
    }
  }

  /** Without a buy-now product the checkout total is the cart page's total. */
  lemma TotalWithoutBuyNowIsCartTotal(v: CheckoutView)
    requires !HasBuyNow(v)
    ensures Total(v) == CartPage.Total(v.cart)
  {
  }

  /** The text of the error toast when the details request fails. */
  function FailureText(response: Outcome<()>): string {
    match response
    case Ok(_) => ""
    case NotOk(m) => OrDefault(m, "Submission failed.")
    case Throws(m) => OrDefault(m, "Something went wrong.")
  }

  /** The item list `handlePlaceOrder` builds: a push for the buy-now product, then one
      push per cart entry in the `forEach`. */
  method CollectItems(v: CheckoutView) returns (items: seq<OrderItem>)
    ensures items == OrderItems(v)
  {
    items := [];
    if HasBuyNow(v) {
      items := items + [BuyNowItem(v.product.value, v.quantity)];
    }
    ghost var head := items;
    var i := 0;
    while i < |v.cart|
      invariant 0 <= i <= |v.cart|
      invariant |items| == |head| + i
      invariant items[..|head|] == head
      invariant forall j :: 0 <= j < i ==> items[|head| + j] == SnapshotItem(v.cart[j])
    {
      items := items + [SnapshotItem(v.cart[i])];
      i := i + 1;
    }
    assert items == head + Snapshot(v.cart);
  }

  /** `handlePlaceOrder`, with the details response, `Date.now()` and the formatted date
      as inputs. A missing stored user is checked before the form; nothing is stored or
      dispatched unless the details request succeeds. */
  method PlaceOrder(v: CheckoutView, b: Browser, response: Outcome<()>, now: int, date: string)
    modifies b
    ensures b.storedUser == old(b.storedUser)
    ensures old(b.storedUser).None? ==>
      && b.storedOrders == old(b.storedOrders)
      && b.log == old(b.log) + [Toast(Error("You need to login first.")), Navigate("/auth/login")]
    ensures old(b.storedUser).Some? && !IsFormValid(v.billing) ==>
      && b.storedOrders == old(b.storedOrders)
      && b.log == old(b.log) + [Toast(Error("Please fill all billing fields."))]
    ensures old(b.storedUser).Some? && IsFormValid(v.billing) && !response.Ok? ==>
      && b.storedOrders == old(b.storedOrders)
      && b.log == old(b.log) + [Send(PostDetails(v.billing)), Toast(Error(FailureText(response)))]
    ensures old(b.storedUser).Some? && IsFormValid(v.billing) && response.Ok? ==>
      && b.storedOrders == Some(old(b.storedOrders).GetOr([]) + [Order(now, OrderItems(v), date)])
      && b.log == old(b.log) + [Send(PostDetails(v.billing)), Dispatch(ClearCart),
                                Toast(Success("Order placed successfully!")), Navigate("/Pages/Orders")]
  {
    if b.storedUser.None? {
      b.log := b.log + [Toast(Error("You need to login first.")), Navigate("/auth/login")];
      return;
    }
    if !IsFormValid(v.billing) {
      b.log := b.log + [Toast(Error("Please fill all billing fields."))];
      return;
    }
    b.log := b.log + [Send(PostDetails(v.billing))];
    if !response.Ok? {
      b.log := b.log + [Toast(Error(FailureText(response)))];
      return;
    }

    var items := CollectItems(v);
    var newOrder := Order(now, items, date);
    var existing := b.storedOrders.GetOr([]);
    b.storedOrders := Some(existing + [newOrder]);
    b.log := b.log + [Dispatch(ClearCart), Toast(Success("Order placed successfully!")), Navigate("/Pages/Orders")];
  }

  /** Placing an order on a valid form with a stored user and an accepted request adds
      exactly one order, the last one, and leaves every earlier entry as it was. */
  lemma PlacedOrderIsAppended(ledger: seq<Order>, v: CheckoutView, now: int, date: string)
    ensures var after := ledger + [Order(now, OrderItems(v), date)];
      && |after| == |ledger| + 1
      && after[..|ledger|] == ledger
      && after[|ledger|].items == OrderItems(v)
      && OrdersPage.Displayed(after)[0] == after[|ledger|]
  {
    OrdersPage.NewestFirst(ledger, Order(now, OrderItems(v), date));
  }
}
