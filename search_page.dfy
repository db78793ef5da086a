/** The search page: the trimmed `query` parameter, the fetch and its loading and error
    states, the result mapping with its image fallbacks, the no-results condition and
    the result card's handlers. */
module SearchPage {
  import opened Storefront
  import Text
  import CartPage
  import ProductDetails
  import Sales

  /** A catalogue product as the search endpoint returns it. */
  datatype RawProduct = RawProduct(
    id: int, title: string, price: int, rating: int,
    thumbnail: Option<string>, images: Option<seq<string>>)

  /** A result card as corrected: the price is kept as a number. The page as written stores
      the display text instead (see `AsWrittenResultOf`). */
  datatype SearchItem = SearchItem(id: Option<string>, image: string, title: string, price: int, rating: int)

  /** `searchParams.get("query")?.trim() || ""`. */
  function QueryOf(param: Option<string>): (q: string)
    ensures param.None? ==> q == ""
    ensures param.Some? ==> q == Text.Trim(param.value)
  {
    if param.Some? then Text.Trim(param.value) else ""
  }

  /** A query is searched for exactly when the parameter holds a non-space character,
      and what is searched for has no surrounding white space. */
  lemma QueryIsTrimmed(param: Option<string>)
    ensures QueryOf(param) != "" <==> param.Some? && !Text.AllSpace(param.value)
    ensures Text.Trim(QueryOf(param)) == QueryOf(param)
  {
    if param.Some? {
      Text.TrimEmptyIff(param.value);
      Text.TrimIdempotent(param.value);
    }
  }

  /** `item.thumbnail || item.images?.[0] || ""`. */
  function ImageOf(r: RawProduct): (image: string)
    ensures OrEmpty(r.thumbnail) != "" ==> image == r.thumbnail.value
    ensures OrEmpty(r.thumbnail) == "" && r.images.Some? && |r.images.value| > 0 ==>
      image == r.images.value[0]
    ensures OrEmpty(r.thumbnail) == "" && !(r.images.Some? && |r.images.value| > 0) ==> image == ""
  {
    var first := if r.images.Some? && |r.images.value| > 0 then r.images.value[0] else "";
    OrDefault(OrDefault(OrEmpty(r.thumbnail), first), "")
  }

  /** A result card: the id as text, the image fallback, title, price and rating. */
  function ResultOf(r: RawProduct): SearchItem {
    SearchItem(Some(Text.IntToString(r.id)), ImageOf(r), r.title, r.price, r.rating)
  }

  function ResultsOf(products: seq<RawProduct>): (r: seq<SearchItem>)
    ensures |r| == |products|
    ensures forall i :: 0 <= i < |products| ==> r[i] == ResultOf(products[i])
  {
    if products == [] then [] else [ResultOf(products[0])] + ResultsOf(products[1..])
  }

  /** `handleNavigation(item)`: to the details page for a truthy id, an error otherwise. */
  function HandleNavigation(item: SearchItem): (effects: seq<Effect>)
    ensures item.id.Some? && item.id.value != "" ==> effects == [Navigate(ProductDetails.DetailsUrl(item.id.value))]
    ensures !(item.id.Some? && item.id.value != "") ==> effects == [Toast(Error("Product ID not found"))]
  {
    if item.id.Some? && item.id.value != "" then [Navigate(ProductDetails.DetailsUrl(item.id.value))]
    else [Toast(Error("Product ID not found"))]
  }

  /** The cart entry: the card's fields, the id or else the title, quantity 1. */
  function CartItemOf(item: SearchItem): CartItem {
    CartItem(Some(if item.id.Some? then item.id.value else item.title),
      item.title, item.price, item.image, 1, item.rating)
  }

  function WishlistItemOf(item: SearchItem, now: int): WishlistItem {
    WishlistItem(if item.id.Some? then item.id.value else Text.IntToString(now),
      item.title, item.price, item.image)
  }

  function HandleAddToCart(item: SearchItem): (effects: seq<Effect>)
    ensures DispatchesOf(effects) == [AddToCart(CartItemOf(item))]
    ensures NoRequest(effects)
    ensures effects[|effects| - 1] == Toast(Success(item.title + " added to cart"))
  {
    [Dispatch(AddToCart(CartItemOf(item))), Toast(Success(item.title + " added to cart"))]
  }

  function HandleAddToWishlist(item: SearchItem, now: int): (effects: seq<Effect>)
    ensures DispatchesOf(effects) == [AddToWishlist(WishlistItemOf(item, now))]
    ensures NoRequest(effects)
    ensures effects[|effects| - 1] == Toast(Success(item.title + " added to wishlist"))
  {
    [Dispatch(AddToWishlist(WishlistItemOf(item, now))), Toast(Success(item.title + " added to wishlist"))]
  }

  /** A search result goes to the cart with quantity 1, the catalogue id as `_id`, and
      its catalogue price, so the cart's subtotal for it is price × quantity; the
      wishlist gets the same id and price, and the card's link carries that id. */
  lemma ResultKeepsCatalogueData(r: RawProduct, quantity: int, now: int)
    ensures CartItemOf(ResultOf(r)).quantity == 1
    ensures CartItemOf(ResultOf(r)).id == Some(Text.IntToString(r.id))
    ensures WishlistItemOf(ResultOf(r), now).id == Text.IntToString(r.id)
    ensures WishlistItemOf(ResultOf(r), now).price == r.price
    ensures CartPage.Subtotal(CartItemOf(ResultOf(r)).(quantity := quantity)) == r.price * quantity
    ensures Text.GetParam(HandleNavigation(ResultOf(r))[0].path, "id") == Some(Text.IntToString(r.id))
  {
    Text.IntToStringIsPlain(r.id);
    ProductDetails.DetailsUrlReadsBack(Text.IntToString(r.id));
  }

  // ---------------------------------------------------------------------------
  // The fetch

  /** The page's state: `results`, `loading` and `error`. */
  class SearchView {
    var results: seq<SearchItem>
    var loading: bool
    var error: Option<string>

    constructor ()
      ensures results == [] && !loading && error.None?
    {
      results, loading, error := [], false, None;
    }

    /** "No results found." is shown when it is not loading, there is no error, and
        there are no results. */
    predicate NoResults()
      reads this
    {
      !loading && !(error.Some? && error.value != "") && |results| == 0
    }

    /** The search effect for a (trimmed) query, with the outcome of the request as an
        input; `Ok` carries the body's product list. An empty query does nothing. Any
        other query is sent; a response without `ok` fails with the page's own message,
        an exception with its message (or a default), and loading is over either way. */
    method Search(query: string, response: Outcome<seq<RawProduct>>) returns (sent: Option<string>)
      modifies this
      ensures query == "" ==>
        sent.None? && results == old(results) && loading == old(loading) && error == old(error)
      ensures query != "" ==> sent == Some(query) && !loading
      ensures query != "" && response.Ok? ==> results == ResultsOf(response.body) && error.None?
      ensures query != "" && response.NotOk? ==>
        results == old(results) && error == Some("Failed to fetch search results")
      ensures query != "" && response.Throws? ==>
        results == old(results) && error == Some(OrDefault(response.message, "An error occurred"))
    {
      if query == "" {
        return None;
      }
      sent := Some(query);
      loading := true;
      error := None;
      match response {
        case Ok(products) =>
          results := ResultsOf(products);
        case NotOk(_) =>
          error := Some("Failed to fetch search results");
        case Throws(m) =>
          error := Some(OrDefault(m, "An error occurred"));
      }
      loading := false;
    }
  }

  /** A search that succeeds with no products shows "No results found.", and a failed
      one never does. */
  method NoResultsOnlyForEmptySuccess(query: string, response: Outcome<seq<RawProduct>>) returns (shown: bool)
    requires query != ""
    ensures shown <==> response.Ok? && response.body == []
  {
    var page := new SearchView();
    var sent := page.Search(query, response);
    shown := page.NoResults();
  }

  // ---------------------------------------------------------------------------
  // The price as written

  /** A JavaScript number as far as the cart's arithmetic needs it. */
  datatype JsNumber = Finite(value: int) | NaN

  function JsMultiply(a: JsNumber, b: int): JsNumber {
    if a.NaN? then NaN else Finite(a.value * b)
  }

  /** `Number(s)` is NaN for any text containing `$`: no string numeric literal of
      section 7.1.4.1.1 of ECMA-262 contains that character. */
  ghost predicate RejectsDollar(toNumber: string -> JsNumber) {
    forall s: string :: '$' in s ==> toNumber(s) == NaN
  }

  /** The result card as the page builds it: `price` is the text `` `$${item.price}` ``,
      although the card's type declares a number, and the cart entry copies it. */
  datatype AsWrittenItem = AsWrittenItem(id: string, image: string, title: string, price: string, rating: int)

  function AsWrittenResultOf(r: RawProduct): AsWrittenItem {
    AsWrittenItem(Text.IntToString(r.id), ImageOf(r), r.title, Sales.DisplayPrice(r.price), r.rating)
  }

  /** The card as written differs from the corrected card only in its price, which is
      the corrected card's price as displayed. */
  lemma AsWrittenCardDisplaysCorrectedPrice(r: RawProduct)
    ensures AsWrittenResultOf(r).price == Sales.DisplayPrice(ResultOf(r).price)
    ensures ResultOf(r).id == Some(AsWrittenResultOf(r).id)
    ensures AsWrittenResultOf(r).image == ResultOf(r).image && AsWrittenResultOf(r).title == ResultOf(r).title
    ensures AsWrittenResultOf(r).rating == ResultOf(r).rating
  {
  }

  /** The cart page's `price * quantity` for an entry added from a result as written:
      the text price is converted by `Number` before the multiplication. */
  function AsWrittenCartSubtotal(r: RawProduct, quantity: int, toNumber: string -> JsNumber): JsNumber {
    JsMultiply(toNumber(AsWrittenResultOf(r).price), quantity)
  }

  /** As written, every product added to the cart from a search has a NaN subtotal, and
      so makes the cart total NaN. */
  lemma AsWrittenCartSubtotalIsNaN(r: RawProduct, quantity: int, toNumber: string -> JsNumber)
    requires RejectsDollar(toNumber)
    ensures AsWrittenCartSubtotal(r, quantity, toNumber) == NaN
  {
    assert AsWrittenResultOf(r).price[0] == '$';
  }
}
