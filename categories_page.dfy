/** The category page: the `name` search parameter, its fetch, the collapsed and the
    view-all product lists, the heading label and the card handlers. */
module CategoriesPage {
  import opened Storefront
  import Text
  import ProductDetails

  datatype Product = Product(id: int, title: string, price: int, rating: int, thumbnail: string)

  /** How the category fetch ended: it threw (network or decoding), or it decoded a body
      whose `products` field may be missing. */
  datatype FetchResult = Failed | Decoded(products: Option<seq<Product>>)

  /** The page's state: `products`, `loading` and `viewAll`. */
  datatype PageState = PageState(products: seq<Product>, loading: bool, viewAll: bool)

  const Initial := PageState([], true, false)

  /** `searchParams.get("name") || ""`. */
  function CategoryOf(param: Option<string>): string {
    OrEmpty(param)
  }

  /** The fetch effect for a category: nothing at all for an empty name; otherwise the
      product list of the body (`[]` when it has none, unchanged when the fetch failed)
      and loading over. The request URL is returned, or None when nothing is fetched. */
  function Fetch(state: PageState, category: string, result: FetchResult): (r: (PageState, Option<string>))
    ensures category == "" ==> r.0 == state && r.1.None?
    ensures category != "" ==> r.1 == Some("https://dummyjson.com/products/category/" + category)
    ensures category != "" ==> !r.0.loading && r.0.viewAll == state.viewAll
    ensures category != "" && result.Failed? ==> r.0.products == state.products
    ensures category != "" && result.Decoded? ==> r.0.products == result.products.GetOr([])
  {
    if category == "" then (state, None)
    else
      var products := if result.Decoded? then result.products.GetOr([]) else state.products;
      (PageState(products, false, state.viewAll), Some("https://dummyjson.com/products/category/" + category))
  }

  /** Without a category name the page never leaves "Loading...". */
  lemma EmptyCategoryStaysLoading(result: FetchResult)
    ensures Fetch(Initial, CategoryOf(None), result).0.loading
    ensures Fetch(Initial, CategoryOf(Some("")), result).0.loading
  {
  }

  /** A body without `products` leaves the page with no products. */
  lemma MissingProductsIsEmpty(state: PageState, category: string)
    requires category != ""
    ensures Fetch(state, category, Decoded(None)).0.products == []
  {
  }

  /** The cards shown once loading is over: all products in view-all mode, otherwise
      `products.slice(0, 10)`. */
  function Visible(state: PageState): (shown: seq<Product>)
    ensures state.viewAll ==> shown == state.products
    ensures !state.viewAll ==> |shown| == (if |state.products| < 10 then |state.products| else 10)
    ensures !state.viewAll ==> shown == state.products[..|shown|]
  {
    if state.viewAll then state.products
    else state.products[..if |state.products| < 10 then |state.products| else 10]
  }

  /** The collapsed list is a prefix of the full one, and they agree for at most ten
      products. */
  lemma CollapsedIsPrefix(state: PageState)
    ensures Visible(state.(viewAll := false)) <= Visible(state.(viewAll := true))
    ensures |state.products| <= 10 ==> Visible(state.(viewAll := false)) == Visible(state.(viewAll := true))
  {
  }

  /** The view-all button. */
  function Toggle(state: PageState): (r: PageState)
    ensures r.viewAll == !state.viewAll && r.products == state.products && r.loading == state.loading
  {
    state.(viewAll := !state.viewAll)
  }

  function ToggleText(state: PageState): string {
    if state.viewAll then "Collapse" else "View all products"
  }

  /** Pressing the button twice restores the page, and the button names the mode it
      switches to. */
  lemma ToggleInvolution(state: PageState)
    ensures Toggle(Toggle(state)) == state
    ensures ToggleText(state) == "Collapse" <==> state.viewAll
  {
  }

  /** The heading: `category.replace(/-/g, " ")`. */
  function Label(category: string): string {
    Text.ReplaceAll(category, '-', ' ')
  }

  /** The label has no dashes left, changes nothing else, and for a slug without spaces
      the slug can be recovered from it. */
  lemma LabelSpec(category: string)
    ensures |Label(category)| == |category|
    ensures Text.Avoids(Label(category), '-')
    ensures forall i :: 0 <= i < |category| && category[i] != '-' ==> Label(category)[i] == category[i]
    ensures Text.Avoids(category, ' ') ==> Text.ReplaceAll(Label(category), ' ', '-') == category
  {
    if Text.Avoids(category, ' ') {
      Text.ReplaceAllRoundTrip(category, '-', ' ');
    }
  }

  /** The cart entry of a card: the id as text, the thumbnail as image, quantity 1. */
  function CartItemOf(p: Product): CartItem {
    CartItem(Some(Text.IntToString(p.id)), p.title, p.price, p.thumbnail, 1, p.rating)
  }

  /** The wishlist entry of a card: the id as text, the title as name. */
  function WishlistItemOf(p: Product): WishlistItem {
    WishlistItem(Text.IntToString(p.id), p.title, p.price, p.thumbnail)
  }

  function HandleAddToCart(p: Product): (effects: seq<Effect>)
    ensures DispatchesOf(effects) == [AddToCart(CartItemOf(p))]
    ensures NoRequest(effects)
    ensures effects[|effects| - 1] == Toast(Success(p.title + " added to cart"))
  {
    [Dispatch(AddToCart(CartItemOf(p))), Toast(Success(p.title + " added to cart"))]
  }

  function HandleAddToWishlist(p: Product): (effects: seq<Effect>)
    ensures DispatchesOf(effects) == [AddToWishlist(WishlistItemOf(p))]
    ensures NoRequest(effects)
    ensures effects[|effects| - 1] == Toast(Success(p.title + " added to wishlist"))
  {
    [Dispatch(AddToWishlist(WishlistItemOf(p))), Toast(Success(p.title + " added to wishlist"))]
  }

  function HandleNavigate(p: Product): seq<Effect> {
    [Navigate(ProductDetails.DetailsUrl(Text.IntToString(p.id)))]
  }

  /** The cart and the wishlist get the same id for a product, the text of its catalogue
      id, which reads back as that id and is the one the details page reads from this
      card's link; both keep the card's title, price and picture, and the cart entry
      starts at quantity 1 with the card's rating. */
  lemma ItemsShareTheCatalogueId(p: Product)
    ensures CartItemOf(p).id == Some(WishlistItemOf(p).id)
    ensures p.id >= 0 ==> Text.ParseDigits(WishlistItemOf(p).id) == p.id
    ensures CartItemOf(p).price == WishlistItemOf(p).price == p.price
    ensures CartItemOf(p).title == WishlistItemOf(p).name == p.title
    ensures CartItemOf(p).image == WishlistItemOf(p).image == p.thumbnail
    ensures CartItemOf(p).quantity == 1 && CartItemOf(p).rating == p.rating
    ensures HandleNavigate(p)[0].Navigate?
    ensures Text.GetParam(HandleNavigate(p)[0].path, "id") == Some(WishlistItemOf(p).id)
  {
    Text.IntToStringIsPlain(p.id);
    ProductDetails.DetailsUrlReadsBack(Text.IntToString(p.id));
    if p.id >= 0 {
      Text.ParseNatToString(p.id);
    }
  }
}
