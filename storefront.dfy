/** Records and effects shared by the client pages: the cart and wishlist entries the
    Redux slices hold, the actions the pages dispatch, the request bodies they send,
    the orders kept under the `orders` key of local storage, and the browser
    environment (local storage plus a log of everything a page did to the outside). */
module Storefront {

  datatype Option<T> = None | Some(value: T) {
    function GetOr(default: T): T {
      match this
      case Some(v) => v
      case None => default
    }
  }

  /** `s || ""` for an optional string: a missing or empty value becomes "". */
  function OrEmpty(s: Option<string>): (r: string)
    ensures s.Some? ==> r == s.value
    ensures s.None? ==> r == ""
  {
    s.GetOr("")
  }

  /** `text || fallback` for a string. */
  function OrDefault(text: string, fallback: string): (r: string)
    ensures r == text || r == fallback
    ensures r == "" ==> text == "" && fallback == ""
  {
    if text != "" then text else fallback
  }

  /** How an awaited request ended: a response with `ok` set and its decoded body, a
      response without `ok` and the `message` of its body ("" when it has none), or an
      exception (a failed fetch or an undecodable body) with its message. */
  datatype Outcome<T> = Ok(body: T) | NotOk(message: string) | Throws(message: string)

  /** A cart entry as the cart slice stores it. `_id` is optional in the slice's type. */
  datatype CartItem = CartItem(
    id: Option<string>, title: string, price: int, image: string, quantity: int, rating: int)

  datatype WishlistItem = WishlistItem(id: string, name: string, price: int, image: string)

  /** The slice actions the pages dispatch. The reducers are not part of this model,
      so an action is only recorded, never interpreted. */
  datatype Action =
    | AddToCart(item: CartItem)
    | RemoveFromCart(removeId: string)
    | UpdateQuantity(updateId: Option<string>, quantity: int)
    | ClearCart
    | AddToWishlist(entry: WishlistItem)
    | RemoveFromWishlist(wishlistId: string)

  datatype Notice = Success(text: string) | Error(text: string)

  /** The five billing fields of the checkout form, in the order `Object.values` lists them. */
  datatype BillingForm = BillingForm(
    firstName: string, streetAddress: string, townCity: string, phone: string, email: string)

  datatype ContactForm = ContactForm(name: string, email: string, phone: string, message: string)

  /** The seven fields of the account form. */
  datatype AccountForm = AccountForm(
    firstName: string, lastName: string, email: string, address: string,
    currentPassword: string, newPassword: string, confirmPassword: string)

  /** The requests the client issues. */
  datatype Request =
    | Get(url: string)
    | PostDetails(billing: BillingForm)
    | PostContact(contact: ContactForm)
    | PatchProfile(userId: Option<string>, form: AccountForm)

  /** Everything a handler does to the world outside its own state. */
  datatype Effect =
    | Dispatch(action: Action)
    | Toast(notice: Notice)
    | Navigate(path: string)
    | Send(request: Request)

  /** The user projection kept under the `user` key of local storage. */
  datatype ProfileUser = ProfileUser(
    id: string, firstName: string, lastName: string, email: string, address: Option<string>)

  datatype OrderItem = OrderItem(title: string, price: int, quantity: int, image: string)

  /** A placed order: `id` is the creation time in milliseconds, `date` its display text. */
  datatype Order = Order(id: int, items: seq<OrderItem>, date: string)

  /** The browser as the pages see it: the two local-storage keys they use (None when the
      key is absent) and the log of effects, oldest first. JSON encoding of the stored
      values is the identity here. */
  class Browser {
    var storedUser: Option<ProfileUser>
    var storedOrders: Option<seq<Order>>
    var log: seq<Effect>

    constructor (user: Option<ProfileUser>, orders: Option<seq<Order>>)
      ensures storedUser == user && storedOrders == orders && log == []
    {
      storedUser, storedOrders, log := user, orders, [];
    }

    /** The dispatches in the log, in order. */
    function Dispatched(): seq<Action>
      reads this
    {
      DispatchesOf(log)
    }
  }

  function DispatchesOf(effects: seq<Effect>): (r: seq<Action>)
    ensures |r| <= |effects|
  {
    if effects == [] then []
    else (if effects[0].Dispatch? then [effects[0].action] else []) + DispatchesOf(effects[1..])
  }

  /** The dispatches of a concatenation are those of each part, so appending a handler's
      effects to the log appends exactly the handler's dispatches. */
  lemma {:induction false} DispatchesOfAppend(a: seq<Effect>, b: seq<Effect>)
    ensures DispatchesOf(a + b) == DispatchesOf(a) + DispatchesOf(b)
  {
    if a != [] {
      assert (a + b)[1..] == a[1..] + b;
      DispatchesOfAppend(a[1..], b);
    } else {
      assert a + b == b;
    }
  }

  /** True when a list of effects sends no request. */
  predicate NoRequest(effects: seq<Effect>) {
    forall i :: 0 <= i < |effects| ==> !effects[i].Send?
  }

  // ---------------------------------------------------------------------------
  // Sums

  /** `xs.reduce((acc, x) => acc + f(x), acc)`: a left fold, as the pages compute totals. */
  function FoldSum<T>(acc: int, xs: seq<T>, f: T -> int): int
    decreases |xs|
  {
    if xs == [] then acc else FoldSum(acc + f(xs[0]), xs[1..], f)
  }

  /** Σ f(x) over `xs`, the reference definition of a total. */
  function Sum<T>(xs: seq<T>, f: T -> int): int {
    if xs == [] then 0 else f(xs[0]) + Sum(xs[1..], f)
  }

  /** The fold the pages run computes the sum, offset by its starting value. */
  lemma {:induction false} FoldSumIsSum<T>(acc: int, xs: seq<T>, f: T -> int)
    ensures FoldSum(acc, xs, f) == acc + Sum(xs, f)
    decreases |xs|
  {
    if xs != [] {
      FoldSumIsSum(acc + f(xs[0]), xs[1..], f);
    }
  }

  lemma {:induction false} SumAppend<T>(a: seq<T>, b: seq<T>, f: T -> int)
    ensures Sum(a + b, f) == Sum(a, f) + Sum(b, f)
  {
    if a != [] {
      assert (a + b)[0] == a[0] && (a + b)[1..] == a[1..] + b;
      SumAppend(a[1..], b, f);
    } else {
      assert a + b == b;
    }
  }
}
