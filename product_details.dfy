/** The product-details page: the quantity stepper, the fetch of the product named by the
    `id` search parameter and the screen it leads to, the stock label, and the Buy Now
    link to checkout. */
module ProductDetails {
  import opened Storefront
  import Text
  import CheckoutPage

  /** The catalogue product as the page reads it. `stock` and `description` are optional. */
  datatype Product = Product(
    id: string, title: string, price: int, images: seq<string>,
    description: Option<string>, stock: Option<int>)

  /** The minus button: one less, but never below 1. */
  function Decrement(q: int): (r: int)
    ensures r >= 1
    ensures q > 1 ==> r == q - 1
    ensures q <= 1 ==> r == 1
  {
    if q - 1 > 1 then q - 1 else 1
  }

  /** The plus button. */
  function Increment(q: int): int {
    q + 1
  }

  /** Minus undoes plus from any valid quantity. */
  lemma DecrementUndoesIncrement(q: int)
    requires q >= 1
    ensures Decrement(Increment(q)) == q
  {
  }

  datatype Step = Minus | Plus

  /** The quantity after pressing the stepper buttons in the given order. */
  function Press(q: int, steps: seq<Step>): int
    decreases |steps|
  {
    if steps == [] then q
    else Press(if steps[0].Minus? then Decrement(q) else Increment(q), steps[1..])
  }

  /** Starting from a valid quantity, no sequence of presses brings it below 1, and
      the number of plus presses bounds how far it can rise. */
  lemma {:induction false} PressKeepsPositive(q: int, steps: seq<Step>)
    requires q >= 1
    ensures Press(q, steps) >= 1
    ensures Press(q, steps) <= q + |steps|
    decreases |steps|
  {
    if steps != [] {
      var next := if steps[0].Minus? then Decrement(q) else Increment(q);
      PressKeepsPositive(next, steps[1..]);
    }
  }

  /** `product.stock && product.stock > 0 ? "In Stock" : "Out of Stock"`. */
  function StockLabel(stock: Option<int>): (text: string)
    ensures text == "In Stock" <==> stock.Some? && stock.value > 0
    ensures text == "In Stock" || text == "Out of Stock"
  {
    if stock.Some? && stock.value > 0 then "In Stock" else "Out of Stock"
  }

  /** The description, or the placeholder when it is missing or empty. */
  function DescriptionText(description: Option<string>): (r: string)
    ensures description.Some? && description.value != "" ==> r == description.value
    ensures !(description.Some? && description.value != "") ==>
      r == "No description available for this product."
  {
    OrDefault(OrEmpty(description), "No description available for this product.")
  }

  /** The link to the details page of a product, as the catalogue pages build it. */
  function DetailsUrl(id: string): string {
    "/Pages/ProductDetails?id=" + id
  }

  /** The details page reads back the id it was linked with, when the id is a plain
      query value. */
  lemma DetailsUrlReadsBack(id: string)
    requires Text.PlainQueryValue(id)
    ensures Text.GetParam(DetailsUrl(id), "id") == Some(id)
  {
    assert DetailsUrl(id) == "/Pages/ProductDetails" + "?" + "id" + "=" + id;
    Text.GetSingleParam("/Pages/ProductDetails", "id", id);
  }

  /** The target of Buy Now. */
  function BuyNowUrl(id: string, quantity: int): string {
    "/Pages/Checkout?id=" + id + "&qty=" + Text.IntToString(quantity)
  }

  /** The checkout page reads back from the Buy Now link exactly the product id and the
      quantity, under the `id` and `qty` keys it looks for. */
  lemma BuyNowUrlReadsBack(id: string, quantity: int)
    requires quantity >= 1 && Text.PlainQueryValue(id)
    ensures Text.GetParam(BuyNowUrl(id, quantity), "id") == Some(id)
    ensures Text.GetParam(BuyNowUrl(id, quantity), "qty") == Some(Text.NatToString(quantity))
    ensures Text.ParseDigits(Text.NatToString(quantity)) == quantity
  {
    var qty := Text.NatToString(quantity);
    Text.IntToStringAvoids(quantity, '&');
    assert BuyNowUrl(id, quantity) == "/Pages/Checkout" + "?" + "id" + "=" + id + "&" + "qty" + "=" + qty;
    Text.GetPairParams("/Pages/Checkout", "id", id, "qty", qty);
    Text.ParseNatToString(quantity);
  }

  /** A Buy Now link for a product with a non-empty id is a "buy now" checkout: both
      search parameters are present and non-empty. */
  lemma BuyNowUrlIsBuyNowCheckout(id: string, quantity: int)
    requires id != "" && quantity >= 1 && Text.PlainQueryValue(id)
    ensures CheckoutPage.Truthy(Text.GetParam(BuyNowUrl(id, quantity), "id"))
    ensures CheckoutPage.Truthy(Text.GetParam(BuyNowUrl(id, quantity), "qty"))
  {
    BuyNowUrlReadsBack(id, quantity);
  }

  /** What the page renders. */
  datatype Screen = Loading | NotFound | Details(product: Product)

  /** The page's state: `product`, `loading`, `selectedImageIndex` and `quantity`. */
  class ProductPage {
    var product: Option<Product>
    var loading: bool
    var selectedImage: int
    var quantity: int

    /** The initial state: loading, no product, first image, quantity 1. */
    constructor ()
      ensures product.None? && loading && selectedImage == 0 && quantity == 1
    {
      product, loading, selectedImage, quantity := None, true, 0, 1;
    }

    /** The stepper never lets the quantity drop below 1. */
    predicate Valid()
      reads this
    {
      quantity >= 1
    }

    /** The screen for the current state: loading first, then not-found for a missing
        product, then the details. */
    function View(): (s: Screen)
      reads this
      ensures loading <==> s.Loading?
      ensures s.NotFound? <==> !loading && product.None?
      ensures s.Details? ==> product == Some(s.product)
    {
      if loading then Loading
      else if product.None? then NotFound
      else Details(product.value)
    }

    /** The fetch effect for the `id` search parameter, with the response as an input.
        Without an id nothing is requested and nothing changes; otherwise the product
        URL is requested and afterwards loading is over and the product is the response
        body, or none when the response was not ok or the request failed. */
    method FetchProduct(id: Option<string>, response: Outcome<Product>) returns (request: Option<string>)
      modifies this
      ensures !(id.Some? && id.value != "") ==>
        request.None? && product == old(product) && loading == old(loading)
      ensures id.Some? && id.value != "" ==>
        && request == Some("https://dummyjson.com/products/" + id.value)
        && !loading
        && product == if response.Ok? then Some(response.body) else None
      ensures selectedImage == old(selectedImage) && quantity == old(quantity)
    {
      if !(id.Some? && id.value != "") {
        return None;
      }
      loading := true;
      request := Some("https://dummyjson.com/products/" + id.value);
      if response.Ok? {
        product := Some(response.body);
      } else {
        product := None;
      }
      loading := false;
    }

    method PressMinus()
      requires Valid()
      modifies this
      ensures Valid() && quantity == Decrement(old(quantity))
      ensures product == old(product) && loading == old(loading) && selectedImage == old(selectedImage)
    {
      quantity := if quantity - 1 > 1 then quantity - 1 else 1;
    }

    method PressPlus()
      requires Valid()
      modifies this
      ensures Valid() && quantity == Increment(old(quantity))
      ensures product == old(product) && loading == old(loading) && selectedImage == old(selectedImage)
    {
      quantity := quantity + 1;
    }

    /** A thumbnail click selects that image. */
    method SelectImage(index: int)
      modifies this
      ensures selectedImage == index
      ensures product == old(product) && loading == old(loading) && quantity == old(quantity)
    {
      selectedImage := index;
    }

    /** Buy Now, a button of the details screen, navigates to checkout. */
    method BuyNow(b: Browser)
      requires View().Details?
      modifies b
      ensures b.log == old(b.log) + [Navigate(BuyNowUrl(product.value.id, quantity))]
      ensures b.storedUser == old(b.storedUser) && b.storedOrders == old(b.storedOrders)
    {
      b.log := b.log + [Navigate("/Pages/Checkout?id=" + product.value.id + "&qty=" + Text.IntToString(quantity))];
    }
  }

  /** The page without an id never leaves the loading screen: its fetch does nothing. */
  method NoIdStaysLoading(id: Option<string>, response: Outcome<Product>) returns (screen: Screen)
    requires !(id.Some? && id.value != "")
    ensures screen == Loading
  {
    var page := new ProductPage();
    var request := page.FetchProduct(id, response);
    screen := page.View();
  }

  /** A failed fetch ends on the not-found screen. */
  method FailedFetchIsNotFound(id: string, response: Outcome<Product>) returns (screen: Screen)
    requires id != "" && !response.Ok?
    ensures screen == NotFound
  {
    var page := new ProductPage();
    var request := page.FetchProduct(Some(id), response);
    screen := page.View();
  }

  /** A successful fetch shows the fetched product. */
  method FetchedIsShown(id: string, p: Product) returns (screen: Screen)
    requires id != ""
    ensures screen == Details(p)
  {
    var page := new ProductPage();
    var request := page.FetchProduct(Some(id), Ok(p));
    screen := page.View();
  }
}
