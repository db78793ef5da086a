/** The wishlist page: the product card's add-to-cart and delete handlers, and the
    header count with the empty-list message. */
module WishlistPage {
  import opened Storefront
  import Text

  /** A card's add-to-cart: a falsy id only raises an error; otherwise the entry moves to
      the cart with its id, name as title, price and image, quantity 1 and the
      card's rating or 0. */
  function HandleAddToCart(w: WishlistItem, rating: Option<int>): (effects: seq<Effect>)
    ensures w.id == "" ==> effects == [Toast(Error("Product ID is missing."))]
    ensures w.id != "" ==>
      && DispatchesOf(effects) == [AddToCart(CartItem(Some(w.id), w.name, w.price, w.image, 1, rating.GetOr(0)))]
      && effects[|effects| - 1] == Toast(Success(w.name + " added to cart"))
  {
    if w.id == "" then [Toast(Error("Product ID is missing."))]
    else
      var item := CartItem(Some(w.id), w.name, w.price, w.image, 1, rating.GetOr(0));
      [Dispatch(AddToCart(item)), Toast(Success(w.name + " added to cart"))]
  }

  /** A card's delete button removes exactly that entry's id. */
  function HandleDelete(w: WishlistItem): (effects: seq<Effect>)
    ensures DispatchesOf(effects) == [RemoveFromWishlist(w.id)]
    ensures NoRequest(effects)
    ensures effects[|effects| - 1] == Toast(Success(w.name + " removed from wishlist"))
  {
    [Dispatch(RemoveFromWishlist(w.id)), Toast(Success(w.name + " removed from wishlist"))]
  }

  /** Moving an entry to the cart and deleting it refer to the same id, and the cart
      entry carries the wishlist entry's data back. */
  lemma CartEntryMatchesWishlistEntry(w: WishlistItem, rating: Option<int>)
    requires w.id != ""
    ensures var a := DispatchesOf(HandleAddToCart(w, rating))[0];
      && a.AddToCart? && a.item.id == Some(DispatchesOf(HandleDelete(w))[0].wishlistId)
      && a.item.title == w.name && a.item.price == w.price && a.item.image == w.image
      && a.item.quantity == 1
  {
  }

  /** What the page shows for the wishlist: the heading, and either the empty message or
      one card per entry, in order. */
  datatype Listing = Empty(message: string) | Cards(cards: seq<WishlistItem>)

  function Header(items: seq<WishlistItem>): string {
    "Wishlist (" + Text.NatToString(|items|) + ")"
  }

  function Body(items: seq<WishlistItem>): (l: Listing)
    ensures l.Empty? <==> items == []
  {
    if |items| == 0 then Empty("No items in wishlist.") else Cards(items)
  }

  /** The heading's number is the number of entries, and the cards are exactly the
      entries of a non-empty list. */
  lemma HeaderCountsItems(items: seq<WishlistItem>)
    ensures var h := Header(items);
      && |h| >= 12 && h[..10] == "Wishlist (" && h[|h| - 1] == ')'
      && Text.AllDigits(h[10..|h| - 1]) && Text.ParseDigits(h[10..|h| - 1]) == |items|
    ensures items != [] ==> Body(items) == Cards(items)
  {
    var n := Text.NatToString(|items|);
    var h := Header(items);
    assert h[10..|h| - 1] == n;
    Text.ParseNatToString(|items|);
  }
}
