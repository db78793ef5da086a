/** The flash-sales strip: the mapping from catalogue products to sale cards, the
    `$`-prefixed display price and the strip that turns it back into a number, and the
    card's cart, wishlist and details handlers. */
module Sales {
  import opened Storefront
  import Text
  import ProductDetails

  /** A catalogue product as the endpoint returns it; `id` and `thumbnail` may be absent. */
  datatype RawProduct = RawProduct(
    id: Option<int>, title: string, price: int, rating: int, thumbnail: Option<string>)

  /** A sale card: the price is display text. */
  datatype SaleItem = SaleItem(id: Option<string>, image: string, title: string, price: string, rating: int)

  /** `` `$${price}` ``. */
  function DisplayPrice(price: int): string {
    "$" + Text.IntToString(price)
  }

  /** The card for a catalogue product: the id as text (absent if absent), the thumbnail
      or "", the title, the display price and the rating. */
  function SaleFromRaw(p: RawProduct): (s: SaleItem)
    ensures p.id.None? ==> s.id.None?
    ensures p.id.Some? ==> s.id == Some(Text.IntToString(p.id.value))
    ensures s.image == OrEmpty(p.thumbnail)
    ensures s.title == p.title && s.rating == p.rating
    ensures s.price == DisplayPrice(p.price)
  {
    SaleItem(
      if p.id.Some? then Some(Text.IntToString(p.id.value)) else None,
      OrEmpty(p.thumbnail), p.title, DisplayPrice(p.price), p.rating)
  }

  /** The cards for a response's product list, one per product, in order. */
  function SalesFromRaw(products: seq<RawProduct>): (r: seq<SaleItem>)
    ensures |r| == |products|
    ensures forall i :: 0 <= i < |products| ==> r[i] == SaleFromRaw(products[i])
  {
    if products == [] then [] else [SaleFromRaw(products[0])] + SalesFromRaw(products[1..])
  }

  /** The strip's fetch, with the `products` field of the decoded body as an input
      (None when the fetch throws or the body has no product list, so that the `map`
      throws). Loading ends either way; on failure the cards stay as they were. */
  function AfterFetch(previous: seq<SaleItem>, products: Option<seq<RawProduct>>): (state: (seq<SaleItem>, bool))
    ensures !state.1
    ensures products.None? ==> state.0 == previous
    ensures products.Some? ==> state.0 == SalesFromRaw(products.value)
  {
    (if products.Some? then SalesFromRaw(products.value) else previous, false)
  }

  // ---------------------------------------------------------------------------
  // The price strip

  /** The characters `/[^0-9.-]+/g` keeps. */
  predicate Kept(c: char) {
    Text.IsDigit(c) || c == '.' || c == '-'
  }

  predicate AllKept(s: string) {
    forall i :: 0 <= i < |s| ==> Kept(s[i])
  }

  /** `s.replace(/[^0-9.-]+/g, "")`. */
  function Strip(s: string): string {
    if s == [] then [] else (if Kept(s[0]) then [s[0]] else []) + Strip(s[1..])
  }

  /** The strip keeps only kept characters, and never lengthens its input. */
  lemma {:induction false} StripKeepsOnlyKept(s: string)
    ensures AllKept(Strip(s)) && |Strip(s)| <= |s|
  {
    if s != [] {
      StripKeepsOnlyKept(s[1..]);
    }
  }

  /** The strip works character by character: stripping a concatenation is
      concatenating the strips, so the kept characters keep their order. */
  lemma {:induction false} StripAppend(a: string, b: string)
    ensures Strip(a + b) == Strip(a) + Strip(b)
  {
    if a == [] {
      assert a + b == b;
    } else {
      assert (a + b)[0] == a[0] && (a + b)[1..] == a[1..] + b;
      StripAppend(a[1..], b);
    }
  }

  /** A string of kept characters passes through unchanged, and one without any is
      stripped to "". */
  lemma {:induction false} StripOfKept(s: string)
    ensures AllKept(s) ==> Strip(s) == s
    ensures (forall i :: 0 <= i < |s| ==> !Kept(s[i])) ==> Strip(s) == ""
  {
    if s != [] {
      StripOfKept(s[1..]);
    }
  }

  /** Stripping twice is stripping once. */
  lemma StripIdempotent(s: string)
    ensures Strip(Strip(s)) == Strip(s)
  {
    StripKeepsOnlyKept(s);
    StripOfKept(Strip(s));
  }

  /** The display format and the strip are inverse: stripping `"$" + s` gives back any
      `s` made of digits, `.` and `-`. */
  lemma StripDisplayed(s: string)
    requires AllKept(s)
    ensures Strip("$" + s) == s
  {
    StripAppend("$", s);
    StripOfKept(s);
    assert Strip("$") == "";
  }

  /** The rendered number of a whole price consists of kept characters only. */
  lemma IntToStringKept(i: int)
    ensures AllKept(Text.IntToString(i))
  {
    Text.IntToStringChars(i);
  }

  /** The strip of a display price is the price's text. */
  lemma StripDisplayPrice(price: int)
    ensures Strip(DisplayPrice(price)) == Text.IntToString(price)
  {
    IntToStringKept(price);
    StripDisplayed(Text.IntToString(price));
  }

  // ---------------------------------------------------------------------------
  // The card's handlers

  /** `Number(text)` on the texts this model produces is supplied by the caller: a
      reading that gives back every whole number from its decimal text. */
  ghost predicate ReadsWholeNumbers(toNumber: string -> int) {
    forall i :: toNumber(Text.IntToString(i)) == i
  }

  /** The cart entry `handleAddToCart` builds: the card's fields, the id or else the
      title (only an absent id falls back, as `??` does), quantity 1, and the price
      read back from the stripped display text. */
  function CartItemOf(s: SaleItem, toNumber: string -> int): (item: CartItem)
    ensures item.id == Some(if s.id.Some? then s.id.value else s.title)
    ensures item.title == s.title && item.image == s.image && item.rating == s.rating
    ensures item.quantity == 1 && item.price == toNumber(Strip(s.price))
  {
    CartItem(Some(if s.id.Some? then s.id.value else s.title), s.title,
      toNumber(Strip(s.price)), s.image, 1, s.rating)
  }

  /** `handleAddToCart(item)`: one dispatch and a success toast. */
  function HandleAddToCart(s: SaleItem, toNumber: string -> int): (effects: seq<Effect>)
    ensures DispatchesOf(effects) == [AddToCart(CartItemOf(s, toNumber))]
    ensures effects[|effects| - 1] == Toast(Success(s.title + " added to cart"))
  {
    [Dispatch(AddToCart(CartItemOf(s, toNumber))), Toast(Success(s.title + " added to cart"))]
  }

  /** The wishlist entry `handleAddToWishlist` builds: the id or else the text of the
      current time, the title as name, the read-back price and the image. */
  function WishlistItemOf(s: SaleItem, toNumber: string -> int, now: int): (w: WishlistItem)
    ensures w.id == if s.id.Some? then s.id.value else Text.IntToString(now)
    ensures w.name == s.title && w.image == s.image && w.price == toNumber(Strip(s.price))
  {
    WishlistItem(if s.id.Some? then s.id.value else Text.IntToString(now), s.title,
      toNumber(Strip(s.price)), s.image)
  }

  function HandleAddToWishlist(s: SaleItem, toNumber: string -> int, now: int): (effects: seq<Effect>)
    ensures DispatchesOf(effects) == [AddToWishlist(WishlistItemOf(s, toNumber, now))]
    ensures effects[|effects| - 1] == Toast(Success(s.title + " added to wishlist"))
  {
    [Dispatch(AddToWishlist(WishlistItemOf(s, toNumber, now))), Toast(Success(s.title + " added to wishlist"))]
  }

  /** A product taken to the cart or the wishlist from this strip keeps its catalogue
      price and, when it has one, its catalogue id. */
  lemma CartAndWishlistKeepCatalogueData(p: RawProduct, toNumber: string -> int, now: int)
    requires ReadsWholeNumbers(toNumber)
    ensures CartItemOf(SaleFromRaw(p), toNumber).price == p.price
    ensures WishlistItemOf(SaleFromRaw(p), toNumber, now).price == p.price
    ensures p.id.Some? ==> CartItemOf(SaleFromRaw(p), toNumber).id == Some(Text.IntToString(p.id.value))
    ensures p.id.Some? ==> WishlistItemOf(SaleFromRaw(p), toNumber, now).id == Text.IntToString(p.id.value)
    ensures CartItemOf(SaleFromRaw(p), toNumber).quantity == 1
  {
    StripDisplayPrice(p.price);
  }

  /** `handleNavigation(item)`: to the details page for a card with a truthy id, and an
      error toast otherwise. */
  function HandleNavigation(s: SaleItem): (effects: seq<Effect>)
    ensures |effects| == 1
    ensures s.id.Some? && s.id.value != "" ==> effects == [Navigate(ProductDetails.DetailsUrl(s.id.value))]
    ensures !(s.id.Some? && s.id.value != "") ==> effects == [Toast(Error("Product ID not found"))]
  {
    if s.id.Some? && s.id.value != "" then [Navigate(ProductDetails.DetailsUrl(s.id.value))]
    else [Toast(Error("Product ID not found"))]
  }

  /** The details page reads back, as its `id` search parameter, the catalogue id of the
      product whose card was opened. */
  lemma NavigationCarriesCatalogueId(p: RawProduct)
    requires p.id.Some?
    ensures var e := HandleNavigation(SaleFromRaw(p))[0];
      e.Navigate? && Text.GetParam(e.path, "id") == Some(Text.IntToString(p.id.value))
  {
    Text.IntToStringIsPlain(p.id.value);
    ProductDetails.DetailsUrlReadsBack(Text.IntToString(p.id.value));
  }

  /** The card's five stars: star `i` is filled when `i < rating`. */
  function Stars(rating: int): (filled: seq<bool>)
    ensures |filled| == 5
    ensures forall i :: 0 <= i < 5 ==> (filled[i] <==> i < rating)
  {
    seq(5, i => i < rating)
  }

  function CountFilled(stars: seq<bool>): nat {
    if stars == [] then 0 else (if stars[0] then 1 else 0) + CountFilled(stars[1..])
  }

  /** The number of filled stars is the rating clamped to 0..5. */
  lemma FilledStars(rating: int)
    ensures CountFilled(Stars(rating)) == if rating < 0 then 0 else if rating > 5 then 5 else rating
  {
    var s0 := Stars(rating);
    var s1, s2, s3, s4 := s0[1..], s0[2..], s0[3..], s0[4..];
    assert s0[1..] == s1 && s1[1..] == s2 && s2[1..] == s3 && s3[1..] == s4 && s4[1..] == [];
    assert CountFilled(s4) == if 4 < rating then 1 else 0;
    assert CountFilled(s3) == (if 3 < rating then 1 else 0) + CountFilled(s4);
    assert CountFilled(s2) == (if 2 < rating then 1 else 0) + CountFilled(s3);
    assert CountFilled(s1) == (if 1 < rating then 1 else 0) + CountFilled(s2);
    assert CountFilled(s0) == (if 0 < rating then 1 else 0) + CountFilled(s1);
  }
}
