/** The orders page: it loads the ledger stored under `orders`, clears the cart on
    arrival, shows each order with its total (newest first) and cancels orders by id. */
module OrdersPage {
  import opened Storefront

  /** `calculateSubtotal(price, qty)`. */
  function Subtotal(price: int, qty: int): int {
    price * qty
  }

  function ItemSubtotal(item: OrderItem): int {
    Subtotal(item.price, item.quantity)
  }

  /** The total shown on an order card: the reduce over its items, starting from 0. */
  function OrderTotal(order: Order): int {
    FoldSum(0, order.items, ItemSubtotal)
  }

  /** An order's total is Σ price × quantity over its items, and 0 when it has none. */
  lemma OrderTotalIsSum(order: Order)
    ensures OrderTotal(order) == Sum(order.items, ItemSubtotal)
    ensures order.items == [] ==> OrderTotal(order) == 0
  {
    FoldSumIsSum(0, order.items, ItemSubtotal);
  }

  /** `orders.filter(order => order.id !== id)`. */
  function Cancel(orders: seq<Order>, id: int): (r: seq<Order>)
    ensures |r| <= |orders|
    ensures forall o :: o in r <==> o in orders && o.id != id
  {
    if orders == [] then []
    else (if orders[0].id != id then [orders[0]] else []) + Cancel(orders[1..], id)
  }

  /** Cancelling distributes over concatenation: the orders that remain keep their
      relative order. */
  lemma {:induction false} CancelAppend(a: seq<Order>, b: seq<Order>, id: int)
    ensures Cancel(a + b, id) == Cancel(a, id) + Cancel(b, id)
  {
    if a == [] {
      assert a + b == b;
    } else {
      assert (a + b)[0] == a[0] && (a + b)[1..] == a[1..] + b;
      CancelAppend(a[1..], b, id);
    }
  }

  /** Cancelling an id that no order carries leaves the ledger as it was. */
  lemma {:induction false} CancelAbsent(orders: seq<Order>, id: int)
    requires forall i :: 0 <= i < |orders| ==> orders[i].id != id
    ensures Cancel(orders, id) == orders
  {
    if orders != [] {
      CancelAbsent(orders[1..], id);
    }
  }

  /** Cancelling twice is cancelling once. */
  lemma CancelIdempotent(orders: seq<Order>, id: int)
    ensures Cancel(Cancel(orders, id), id) == Cancel(orders, id)
  {
    var r := Cancel(orders, id);
    forall i | 0 <= i < |r| ensures r[i].id != id {
      assert r[i] in r;
    }
    CancelAbsent(r, id);
  }

  /** The number of ledger entries carrying `id`. */
  function CountId(orders: seq<Order>, id: int): nat {
    if orders == [] then 0 else (if orders[0].id == id then 1 else 0) + CountId(orders[1..], id)
  }

  /** Every entry with that id is removed (not just one), and every other entry is kept
      as many times as it occurred. */
  lemma {:induction false} CancelRemovesExactlyThatId(orders: seq<Order>, id: int)
    ensures |Cancel(orders, id)| == |orders| - CountId(orders, id)
    ensures forall o: Order :: o.id != id ==> multiset(Cancel(orders, id))[o] == multiset(orders)[o]
  {
    if orders != [] {
      CancelRemovesExactlyThatId(orders[1..], id);
      assert orders == [orders[0]] + orders[1..];
      forall o: Order | o.id != id
        ensures multiset(Cancel(orders, id))[o] == multiset(orders)[o]
      {
        assert multiset(orders) == multiset([orders[0]]) + multiset(orders[1..]);
      }
    }
  }

  /** `orders.slice().reverse()`: the display order, newest first. */
  function Displayed(orders: seq<Order>): (r: seq<Order>)
    ensures |r| == |orders|
    ensures forall k :: 0 <= k < |r| ==> r[k] == orders[|orders| - 1 - k]
  {
    if orders == [] then [] else Displayed(orders[1..]) + [orders[0]]
  }

  /** The order appended last is shown first, and reversing the display gives back the
      stored order. */
  lemma NewestFirst(orders: seq<Order>, latest: Order)
    ensures Displayed(orders + [latest])[0] == latest
    ensures Displayed(Displayed(orders)) == orders
  {
  }

  /** The page's state. */
  class OrdersView {
    var orders: seq<Order>

    constructor ()
      ensures orders == []
    {
      orders := [];
    }

    /** The mount effect: take the stored ledger when there is one, then clear the cart. */
    method Mount(b: Browser)
      modifies this, b
      ensures orders == if old(b.storedOrders).Some? then old(b.storedOrders).value else old(orders)
      ensures b.storedOrders == old(b.storedOrders) && b.storedUser == old(b.storedUser)
      ensures b.log == old(b.log) + [Dispatch(ClearCart)]
    {
      if b.storedOrders.Some? {
        orders := b.storedOrders.value;
      }
      b.log := b.log + [Dispatch(ClearCart)];
    }

    /** `cancelOrder(id)`: filter, keep the result and rewrite the stored ledger with it. */
    method CancelOrder(id: int, b: Browser)
      modifies this, b
      ensures orders == Cancel(old(orders), id)
      ensures b.storedOrders == Some(orders) && b.storedUser == old(b.storedUser)
      ensures b.log == old(b.log) + [Toast(Error("Order Canceled"))]
    {
      var updated := Cancel(orders, id);
      orders := updated;
      b.storedOrders := Some(updated);
      b.log := b.log + [Toast(Error("Order Canceled"))];
    }
  }
}
