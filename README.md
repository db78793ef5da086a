# ShopEase storefront logic in Dafny

ShopEase is a small web shop. Its Next.js client has catalogue, cart, wishlist, checkout, orders, contact and account pages. Its Express server has signup, login, profile-update, checkout-details and contact endpoints. This project models the logic of those pages and endpoints and proves what they promise:

- **Order lifecycle.** The checkout page validates the billing form, builds the order's items from the optional "buy now" product and the cart, and appends the order to the ledger kept in local storage. The orders page lists the ledger newest first and cancels orders by id. The cart page guards its actions and computes totals.
- **Small state machines.** The countdown timer, the image slider, the quantity stepper, and the contact and account forms.
- **Record mappings and text.** Catalogue product to sale, search, cart and wishlist entries. The `$` display price and its strip. The category label. The first-ten view. The search parameters the pages read and write.
- **Server.** Signup and login against a user collection. The partial profile update with its password-change protocol. The presence checks of the checkout-details and contact endpoints, and what each one saves.

Each client page is one module. Its handlers either return the effects they have (dispatches, toasts, navigations, requests) or append them to the log of a `Storefront.Browser`. Pages whose state the source updates step by step are classes: the product details, search, orders, contact and account pages. A class's methods change its fields and the browser, and their contracts state the whole new state.

The outside world enters as inputs:

- A request's outcome is an `Outcome`: `Ok`, `NotOk` or `Throws`.
- `Date.now()` is an integer parameter.
- A save's success is a boolean.
- bcrypt is a pair of functions. `Server.Sound` states that a hash matches its own password.

Local storage is the browser's two keys, `user` and `orders`. JSON encoding of stored values is the identity.

The server modules share `Server`:

- A user collection is a class holding a sequence of users.
- Its `Valid()` invariant is the schema's two unique indexes: no two users share an id or an email.

A field missing from a request body is modelled as "". Both values fail the same truthiness test.

Two behaviours of the code are worth stating up front:

- `cancelOrder` filters the ledger, so it removes every order with the given id (`OrdersPage.CancelRemovesExactlyThatId`).
- The checkout-details endpoint does not store anything (see Findings).

Two defects listed under Findings are modelled both as written and as corrected. The rest of the model uses the corrected definition: the stored checkout record, and the search card's numeric price.

## Model

| member | source | states |
|---|---|---|
| Storefront.OrEmpty | client/src/app/search/page.tsx:35 | `s \|\| ""` is the value when present and "" otherwise |
| Storefront.OrDefault | server/Controllers/authController.js:30 | `text \|\| fallback` is one of the two, and "" only when both are |
| Storefront.DispatchesOfAppend | client/src/app/Pages/Checkout/page.tsx:137 | the dispatches of a concatenated log are the dispatches of each part, in order |
| Storefront.FoldSumIsSum | client/src/app/Pages/Cart/page.tsx:42-45 | the `reduce` the pages run equals its start value plus the sum |
| Storefront.SumAppend | client/src/app/Pages/Checkout/page.tsx:148-150 | the sum over a concatenation is the sum of the sums |
| Text.TrimEmptyIff | client/src/app/Pages/Checkout/page.tsx:59 | `trim()` gives "" exactly for a string of white space |
| Text.TrimNonEmpty | client/src/app/Pages/Checkout/page.tsx:59 | a string that is non-empty after trimming is non-empty |
| Text.TrimIdempotent | client/src/app/search/page.tsx:35 | trimming twice is trimming once |
| Text.TrimStartSpec | client/src/app/search/page.tsx:35 | the start trim removes exactly the leading white space, so the result is a suffix that starts with a non-space or is empty |
| Text.TrimEndSpec | client/src/app/search/page.tsx:35 | the end trim removes exactly the trailing white space |
| Text.NatToString | client/src/app/Pages/Wishlist/page.tsx:172 | decimal text of a number: digits only, with no leading zero |
| Text.ParseNatToString | client/src/app/Pages/Wishlist/page.tsx:172 | the decimal text reads back as the number |
| Text.NatToStringInjective | client/src/Components/Sales.tsx:62 | different numbers have different texts |
| Text.ParseDigitsLeadingZero | client/src/app/Pages/Cart/page.tsx:124 | a leading "0" does not change the value read |
| Text.IntToString | client/src/Components/Sales.tsx:62 | `toString()` of an integer: the decimal text, with "-" before a negative one |
| Text.IntToStringChars | client/src/Components/Sales.tsx:65 | that text has digits only, apart from a leading "-" |
| Text.IntToStringAvoids | client/src/app/categories/page.tsx:82 | that text has no character other than a digit or "-" (and so no "&" to break a query) |
| Text.Repeat | client/src/Components/Product.tsx:180-183 | n copies of a character |
| Text.PadStart | client/src/Components/Product.tsx:180-183 | `padStart(width, fill)` ends with the text, is as long as the width or the text, and is fill before the text |
| Text.ReplaceAll | client/src/app/categories/page.tsx:114 | `replace(/x/g, y)` changes every x to y and nothing else |
| Text.ReplaceAllRoundTrip | client/src/app/categories/page.tsx:114 | replacing back restores a text without y |
| Text.IndexOf | client/src/app/Pages/Checkout/page.tsx:43-44 | the first position of a character, or None when it does not occur |
| Text.GetSingleParam | client/src/app/Pages/ProductDetails/page.tsx:25 | the model's `searchParams.get(key)` on `path?key=value` gives back the value; it agrees with `URLSearchParams` for plain query values (no `&`, `%`, `+` or `#`) |
| ProductTimer.TickCases | client/src/Components/Product.tsx:20-37 | each branch of the tick: seconds down, or a borrow from minutes, hours or days with 59/59/23 refills, or no change |
| ProductTimer.ZeroIsTheFixedPoint | client/src/Components/Product.tsx:36 | for non-negative fields, a tick leaves the state unchanged exactly when it is all zero |
| ProductTimer.TickStep | client/src/Components/Product.tsx:20-37 | a tick keeps the fields in range and takes exactly one second off the total until zero |
| ProductTimer.TicksCountDown | client/src/Components/Product.tsx:18-38 | after k ticks the total is max(total − k, 0) and every field is still in range |
| ProductTimer.InitialState | client/src/Components/Product.tsx:11-16 | the starting state is in range and 2008775 seconds from zero |
| ProductTimer.TwoDigitsReadsBack | client/src/Components/Product.tsx:180-183 | `String(n).padStart(2, "0")` below 100 is two digits that read back as n |
| ProductTimer.DisplayReadsBack | client/src/Components/Product.tsx:174-187 | the four shown units are two digits each and read back as days, hours, minutes and seconds |
| ProductSlider.GoToSlide | client/src/Components/ProductSlider.tsx:17-21 | a negative index goes to the last slide, one past the end goes to the first, an in-range one is kept |
| ProductSlider.GoToSlideInRange | client/src/Components/ProductSlider.tsx:17-21 | the current index is always a slide |
| ProductSlider.PrevNextInverse | client/src/Components/ProductSlider.tsx:51-68 | from any slide, next then previous (and previous then next) comes back |
| ProductSlider.DotSelectsItsSlide | client/src/Components/ProductSlider.tsx:87-90 | a dot selects exactly its own slide |
| ProductSlider.NextTimesIsModulo | client/src/Components/ProductSlider.tsx:68 | k presses of next from the first slide show slide k mod n |
| ProductSlider.NextTimesLaps | client/src/Components/ProductSlider.tsx:68 | after k presses the slider stands on a slide in [0, n) having gone round whole laps: k = laps·n + slide |
| ProductSlider.ModUnique | client/src/Components/ProductSlider.tsx:19 | the remainder is the unique r in [0, n) with m = q·n + r |
| ProductSlider.ActiveDots | client/src/Components/ProductSlider.tsx:92-95 | there is one dot per slide, and exactly the current one is highlighted |
| CartPage.HandleRemove | client/src/app/Pages/Cart/page.tsx:26-28 | `removeFromCart(_id)` is dispatched exactly when the id is present and non-empty |
| CartPage.HandleQuantityChange | client/src/app/Pages/Cart/page.tsx:31-34 | a quantity below 1 does nothing; any other dispatches `updateQuantity` with the item's id and that quantity |
| CartPage.TotalIsSum | client/src/app/Pages/Cart/page.tsx:37-45 | the total is Σ price × quantity, and 0 for an empty cart |
| CartPage.TotalAppend | client/src/app/Pages/Cart/page.tsx:42-45 | the total of a concatenated cart is the sum of the totals |
| CartPage.TotalBoundsSubtotals | client/src/app/Pages/Cart/page.tsx:37-45 | with prices ≥ 0 and quantities ≥ 1, the total is non-negative and at least every subtotal |
| CartPage.QuantityChoices | client/src/app/Pages/Cart/page.tsx:122 | the selector has ten options |
| CartPage.QuantityChoicesAreOneToTen | client/src/app/Pages/Cart/page.tsx:122-126 | the options are exactly 1 to 10, increasing, and all pass the quantity guard |
| CartPage.QuantityLabelReadsBack | client/src/app/Pages/Cart/page.tsx:124 | every option label has two digits and reads back as its value |
| OrdersPage.OrderTotalIsSum | client/src/app/Pages/Orders/page.tsx:40-70 | an order's total is Σ price × quantity over its items, and 0 with no items |
| OrdersPage.Cancel | client/src/app/Pages/Orders/page.tsx:45 | an order survives a cancel exactly when it is in the ledger with another id |
| OrdersPage.CancelAppend | client/src/app/Pages/Orders/page.tsx:45 | the cancel distributes over concatenation, so the survivors keep their order |
| OrdersPage.CancelAbsent | client/src/app/Pages/Orders/page.tsx:45 | cancelling an id no order has leaves the ledger unchanged |
| OrdersPage.CancelIdempotent | client/src/app/Pages/Orders/page.tsx:45 | cancelling twice is cancelling once |
| OrdersPage.CancelRemovesExactlyThatId | client/src/app/Pages/Orders/page.tsx:45 | every entry with the id goes and every other entry stays as often as it occurred |
| OrdersPage.Displayed | client/src/app/Pages/Orders/page.tsx:62-65 | the display is the stored ledger reversed |
| OrdersPage.NewestFirst | client/src/app/Pages/Orders/page.tsx:62-65 | the last order appended is shown first, and the stored list is recovered from the display |
| OrdersPage.OrdersView.Mount | client/src/app/Pages/Orders/page.tsx:30-38 | the page takes the stored ledger if there is one, keeps its list otherwise, and dispatches `clearCart` |
| OrdersPage.OrdersView.CancelOrder | client/src/app/Pages/Orders/page.tsx:44-49 | the list becomes the cancel of the old list, the stored ledger equals it, and "Order Canceled" is shown |
| CheckoutPage.IsFormValid | client/src/app/Pages/Checkout/page.tsx:59 | the form is valid exactly when all five fields are non-empty after trimming |
| CheckoutPage.EveryNonBlankIff | client/src/app/Pages/Checkout/page.tsx:59 | `every(val => val.trim() !== "")` holds exactly when each value trims to a non-empty text |
| CheckoutPage.FormValidIffNoBlankField | client/src/app/Pages/Checkout/page.tsx:59 | the form is valid exactly when no field is all white space |
| CheckoutPage.BuyNowItem | client/src/app/Pages/Checkout/page.tsx:115-122 | the buy-now snapshot copies title and price, takes the page quantity, and uses `images[0]` or "" |
| CheckoutPage.Snapshot | client/src/app/Pages/Checkout/page.tsx:124-131 | one copied item per cart entry, in cart order |
| CheckoutPage.OrderItems | client/src/app/Pages/Checkout/page.tsx:113-131 | the order has one item per cart entry, plus one only with a product, an id and a qty |
| CheckoutPage.OrderItemsSnapshotCart | client/src/app/Pages/Checkout/page.tsx:113-131 | the buy-now item comes first; each cart entry follows in order with title, price, quantity and image copied |
| CheckoutPage.SnapshotSum | client/src/app/Pages/Checkout/page.tsx:124-131 | the snapshot's item total equals the cart total |
| CheckoutPage.TotalIsTotalOfPlacedOrder | client/src/app/Pages/Checkout/page.tsx:148-150 | the shown total is the total the orders page shows for the order that would be placed |
| CheckoutPage.TotalWithoutBuyNowIsCartTotal | client/src/app/Pages/Checkout/page.tsx:148-150 | without a buy-now product, the checkout total equals the cart page's total |
| CheckoutPage.CollectItems | client/src/app/Pages/Checkout/page.tsx:113-131 | the `push` loop builds exactly the order's items |
| CheckoutPage.PlaceOrder | client/src/app/Pages/Checkout/page.tsx:80-145 | no stored user ⇒ login toast and redirect, nothing sent; otherwise an invalid form ⇒ an error, nothing sent; a failed request ⇒ its message, ledger and cart untouched; success ⇒ one order appended, then `clearCart`, a toast and a redirect |
| CheckoutPage.PlacedOrderIsAppended | client/src/app/Pages/Checkout/page.tsx:133-135 | the new ledger is the old one plus one order, earlier entries unchanged, and that order is shown first |
| ProductDetails.Decrement | client/src/app/Pages/ProductDetails/page.tsx:166 | `max(1, q − 1)`: never below 1 |
| ProductDetails.DecrementUndoesIncrement | client/src/app/Pages/ProductDetails/page.tsx:166-173 | from any quantity ≥ 1, plus then minus comes back |
| ProductDetails.PressKeepsPositive | client/src/app/Pages/ProductDetails/page.tsx:30-173 | any sequence of presses from q ≥ 1 stays ≥ 1 and at most q plus the number of presses |
| ProductDetails.StockLabel | client/src/app/Pages/ProductDetails/page.tsx:143-145 | "In Stock" exactly when a stock is present and positive, "Out of Stock" otherwise |
| ProductDetails.DescriptionText | client/src/app/Pages/ProductDetails/page.tsx:157-158 | the description when truthy, the fallback text otherwise |
| ProductDetails.DetailsUrlReadsBack | client/src/Components/Sales.tsx:40 | for an id that is a plain query value, the details link's `id` parameter is the product id |
| ProductDetails.BuyNowUrlReadsBack | client/src/app/Pages/ProductDetails/page.tsx:182-186 | for an id that is a plain query value, the Buy Now URL's `id` and `qty` are the ones checkout reads back, and the qty reads back as the quantity |
| Text.IntToStringIsPlain | client/src/Components/Sales.tsx:40 | the text of an integer id has no `&`, `%`, `+` or `#`, so it passes through a query unchanged |
| ProductDetails.BuyNowUrlIsBuyNowCheckout | client/src/app/Pages/Checkout/page.tsx:43-62 | both parameters of the Buy Now URL are truthy, so checkout takes the buy-now path |
| ProductDetails.ProductPage.constructor | client/src/app/Pages/ProductDetails/page.tsx:27-30 | no product, loading, the first image and quantity 1 |
| ProductDetails.ProductPage.View | client/src/app/Pages/ProductDetails/page.tsx:53-70 | loading screen exactly while loading, "not found" exactly when loading ended with no product, details otherwise |
| ProductDetails.ProductPage.FetchProduct | client/src/app/Pages/ProductDetails/page.tsx:32-51 | without an id nothing is fetched and nothing changes; with one, the product URL is fetched, success keeps the product and failure clears it, and loading ends |
| ProductDetails.ProductPage.PressMinus | client/src/app/Pages/ProductDetails/page.tsx:166 | the quantity steps down, never below 1, nothing else changes |
| ProductDetails.ProductPage.PressPlus | client/src/app/Pages/ProductDetails/page.tsx:173 | the quantity steps up, nothing else changes |
| ProductDetails.ProductPage.SelectImage | client/src/app/Pages/ProductDetails/page.tsx:29 | the selected image becomes the one clicked |
| ProductDetails.ProductPage.BuyNow | client/src/app/Pages/ProductDetails/page.tsx:182-186 | navigates to the Buy Now URL of the shown product and quantity |
| ProductDetails.NoIdStaysLoading | client/src/app/Pages/ProductDetails/page.tsx:33-53 | without an id the page stays on the loading screen |
| ProductDetails.FailedFetchIsNotFound | client/src/app/Pages/ProductDetails/page.tsx:39-65 | a failed fetch shows "not found" |
| ProductDetails.FetchedIsShown | client/src/app/Pages/ProductDetails/page.tsx:40-41 | a fetched product is shown |
| Sales.SaleFromRaw | client/src/Components/Sales.tsx:61-67 | id as text (absent if absent), thumbnail or "", title, `"$"` + price, rating |
| Sales.SalesFromRaw | client/src/Components/Sales.tsx:60-68 | one card per product, in order |
| Sales.AfterFetch | client/src/Components/Sales.tsx:54-77 | loading ends; a readable product list replaces the cards, anything else keeps them |
| Sales.StripKeepsOnlyKept | client/src/Components/Sales.tsx:102 | the strip leaves only characters in `[0-9.-]` and never lengthens its input |
| Sales.StripAppend | client/src/Components/Sales.tsx:102 | the strip works character by character |
| Sales.StripOfKept | client/src/Components/Sales.tsx:102 | kept characters pass unchanged; a text without any gives "" |
| Sales.StripIdempotent | client/src/Components/Sales.tsx:102-114 | stripping twice is stripping once |
| Sales.StripDisplayed | client/src/Components/Sales.tsx:65-102 | stripping `"$" + s` gives back s for any s of kept characters |
| Sales.IntToStringKept | client/src/Components/Sales.tsx:65 | a whole price's text has kept characters only |
| Sales.StripDisplayPrice | client/src/Components/Sales.tsx:65-102 | the strip of a display price is the price's text |
| Sales.CartItemOf | client/src/Components/Sales.tsx:98-103 | quantity 1, `_id` the card id or else the title, the card's fields, and the number read from the stripped price |
| Sales.HandleAddToCart | client/src/Components/Sales.tsx:97-107 | one `addToCart` of that entry and a success toast |
| Sales.WishlistItemOf | client/src/Components/Sales.tsx:110-116 | id the card id or else the timestamp text; name the title; the image; the number read from the strip |
| Sales.HandleAddToWishlist | client/src/Components/Sales.tsx:109-119 | one `addToWishlist` of that entry and a success toast |
| Sales.CartAndWishlistKeepCatalogueData | client/src/Components/Sales.tsx:60-117 | a product added from the strip arrives in cart and wishlist with its catalogue price and id, quantity 1 |
| Sales.HandleNavigation | client/src/Components/Sales.tsx:38-44 | a truthy id navigates to the details page; otherwise only "Product ID not found" |
| Sales.NavigationCarriesCatalogueId | client/src/Components/Sales.tsx:40-62 | the details page reads back the product's catalogue id |
| Sales.Stars | client/src/Components/Sales.tsx:89-95 | five stars, star i filled exactly when i < rating |
| Sales.FilledStars | client/src/Components/Sales.tsx:89-95 | the number of filled stars is the rating clamped to 0..5 |
| CategoriesPage.Fetch | client/src/app/categories/page.tsx:34-44 | an empty category fetches nothing and changes nothing; otherwise the category URL is fetched, the products are those decoded (or [] when absent), a failure keeps them, and loading ends |
| CategoriesPage.EmptyCategoryStaysLoading | client/src/app/categories/page.tsx:26-35 | with no or an empty `name`, the page stays loading |
| CategoriesPage.MissingProductsIsEmpty | client/src/app/categories/page.tsx:40 | a response without `products` gives an empty list |
| CategoriesPage.Visible | client/src/app/categories/page.tsx:127-133 | view-all shows every product; otherwise the first min(10, n) in order |
| CategoriesPage.CollapsedIsPrefix | client/src/app/categories/page.tsx:130-132 | the collapsed view is a prefix of the full one, and equal to it up to ten products |
| CategoriesPage.Toggle | client/src/app/categories/page.tsx:135 | the button flips view-all and nothing else |
| CategoriesPage.ToggleInvolution | client/src/app/categories/page.tsx:135-136 | two clicks restore the state; the label is "Collapse" exactly in view-all |
| CategoriesPage.LabelSpec | client/src/app/categories/page.tsx:114 | the label has the slug's length, no "-", the slug's other characters, and turns back into the slug |
| CategoriesPage.HandleAddToCart | client/src/app/categories/page.tsx:58-69 | one `addToCart` of the product's entry, no request, and the "added to cart" toast last |
| CategoriesPage.HandleAddToWishlist | client/src/app/categories/page.tsx:71-79 | one `addToWishlist` of the product's entry, no request, and the "added to wishlist" toast last |
| CategoriesPage.ItemsShareTheCatalogueId | client/src/app/categories/page.tsx:58-82 | cart and wishlist entries share the id text, which reads back as the id; title, price and image are copied; quantity is 1; the link carries the same id |
| WishlistPage.HandleAddToCart | client/src/app/Pages/Wishlist/page.tsx:52-67 | a falsy id only shows "Product ID is missing."; otherwise one `addToCart` with id, name as title, price, image, quantity 1 and rating or 0 |
| WishlistPage.HandleDelete | client/src/app/Pages/Wishlist/page.tsx:70-73 | one `removeFromWishlist` with exactly the card's id, then the "removed from wishlist" toast |
| WishlistPage.CartEntryMatchesWishlistEntry | client/src/app/Pages/Wishlist/page.tsx:52-73 | the cart entry and the delete refer to the same id, and the entry's data is carried over |
| WishlistPage.Body | client/src/app/Pages/Wishlist/page.tsx:176-177 | the empty message shows exactly for an empty list |
| WishlistPage.HeaderCountsItems | client/src/app/Pages/Wishlist/page.tsx:172-177 | the heading's number reads back as the number of entries; a non-empty list shows exactly its entries |
| SearchPage.QueryOf | client/src/app/search/page.tsx:35 | the trimmed parameter, or "" without one |
| SearchPage.QueryIsTrimmed | client/src/app/search/page.tsx:35-44 | a search runs exactly when the parameter has a non-space character, and the query has no surrounding white space |
| SearchPage.ImageOf | client/src/app/search/page.tsx:60 | the thumbnail, else the first image, else "" |
| SearchPage.ResultsOf | client/src/app/search/page.tsx:58-64 | one corrected card per product, in order (the numeric price; see Findings) |
| SearchPage.HandleNavigation | client/src/app/search/page.tsx:79-85 | a truthy id navigates to the details page; otherwise only "Product ID not found" |
| SearchPage.HandleAddToCart | client/src/app/search/page.tsx:87-96 | one `addToCart` of the card's entry, no request, and the "added to cart" toast last |
| SearchPage.HandleAddToWishlist | client/src/app/search/page.tsx:98-108 | one `addToWishlist` of the card's entry, no request, and the "added to wishlist" toast last |
| SearchPage.ResultKeepsCatalogueData | client/src/app/search/page.tsx:58-108 | a result goes to the cart with quantity 1, the catalogue id and a subtotal of price × quantity; the wishlist gets the same id and price; the link carries the id |
| SearchPage.SearchView.constructor | client/src/app/search/page.tsx:39-41 | no results, not loading, no error |
| SearchPage.SearchView.Search | client/src/app/search/page.tsx:43-77 | an empty query does nothing; otherwise the query is sent, success replaces the results with the corrected cards, a non-ok response or an exception sets its error, and loading ends |
| SearchPage.NoResultsOnlyForEmptySuccess | client/src/app/search/page.tsx:136-140 | after a search, "No results found." shows exactly when it succeeded with no products |
| SearchPage.AsWrittenCartSubtotalIsNaN | client/src/app/search/page.tsx:62-92 | as written, a search result in the cart has a NaN subtotal |
| SearchPage.AsWrittenCardDisplaysCorrectedPrice | client/src/app/search/page.tsx:58-64 | the card as written differs from the corrected card only in its price, which is the corrected price as displayed |
| Server.ClaimsOf | server/Controllers/authController.js:35-97 | the token claims are the user's id, first name, last name and email, and expire in "12h" |
| Server.IndexOfEmail | server/Controllers/authController.js:16-74 | `findOne({ email })` finds the first user with that email, or none exists |
| Server.IndexOfId | server/Controllers/updateUserController.js:19 | `findById` finds the first user with that id, or none exists |
| Server.UserCollection.constructor | server/Models/userModel.js:4-39 | a collection holding the given users |
| AuthController.NewUserSpec | server/Controllers/authController.js:23-31 | the new document keeps names and email, stores the password's hash, and stores the address or "" |
| AuthController.Signup | server/Controllers/authController.js:6-60 | missing field ⇒ 400, store unchanged; a lookup that throws ⇒ 500; taken email ⇒ 400; failed save ⇒ 500; otherwise one user appended and 201 with its token and no user; the unique indexes hold |
| AuthController.PublicOf | server/Controllers/authController.js:103-109 | id, names, email and address or "", no password |
| AuthController.Login | server/Controllers/authController.js:64-115 | missing field ⇒ 400; a lookup or comparison that throws ⇒ 500 "Internal server error"; unknown email ⇒ 404; wrong password ⇒ 400; otherwise 200 with the token and the public user; nothing is written |
| AuthController.LoginReplyIsConsistent | server/Controllers/authController.js:88-110 | a successful login's token and user describe the same user, the one with that email |
| AuthController.SignupThenLogin | server/Controllers/authController.js:23-110 | a user who has just signed up logs in with the same email and password and gets back what they signed up with |
| AuthController.UnknownEmailNeverLogsIn | server/Controllers/authController.js:74-79 | without a user with the email, no password logs in |
| UpdateUserController.UpdateProfile | server/Controllers/updateUserController.js:5-71 | the handler that mutates the fetched user field by field does to the collection and replies exactly what `Outcome` says, and keeps the unique indexes |
| UpdateUserController.OutcomeFound | server/Controllers/updateUserController.js:27-61 | for a found user: a password refusal, a save that fails (database, required field or taken email), or the merged document saved with a 200 reply |
| UpdateUserController.SavePreservesUnique | server/Models/userModel.js:13-19 | replacing a user by one with the same id and a free email keeps both indexes |
| UpdateUserController.UnknownUserIsNotFound | server/Controllers/updateUserController.js:19-24 | an unknown id gives 404 and no change |
| UpdateUserController.OnlySuccessWrites | server/Controllers/updateUserController.js:34-50 | only a 200 reply changes the collection, and only when the save succeeds |
| UpdateUserController.WrongCurrentPasswordFirst | server/Controllers/updateUserController.js:33-38 | a wrong current password is refused, whatever the new and confirmed passwords are |
| UpdateUserController.MismatchedConfirmationRefused | server/Controllers/updateUserController.js:40-44 | with the right current password, a differing confirmation is refused |
| UpdateUserController.SuccessfulUpdate | server/Controllers/updateUserController.js:27-61 | a success changes only that user, to the updated document, and replies with exactly its public fields and no token |
| UpdateUserController.UpdatedFields | server/Controllers/updateUserController.js:27-47 | each profile field is the value sent if truthy, else the old one, with the schema's setters applied (email lowercased and trimmed, address trimmed); the saved email and address are fixed points of those setters; the id never changes; the hash changes only with all three password fields, to the hash of the new password |
| Server.StoredEmailIdempotent | server/Models/userModel.js:13-19 | the email setter (lowercase, then trim) is idempotent, and what it stores has no capitals and no surrounding white space |
| Text.Lower | server/Models/userModel.js:17 | character by character lower case, with the same length |
| Text.LowerChar | server/Models/userModel.js:17 | a capital letter becomes its lower-case letter, and any other character is kept |
| Text.LowerOfLower | server/Models/userModel.js:17 | text without capitals is its own lower case |
| Text.TrimIsSlice | server/Models/userModel.js:18 | trimming keeps a contiguous piece of the text |
| UpdateUserController.ProfileOnlyUpdate | server/Controllers/updateUserController.js:32-50 | without all three password fields, the request succeeds exactly when the merged document saves (database up, required fields filled, email free), and then the password hash is kept |
| AddressController.AddressDetailsAsWritten | server/Controllers/adressController.js:3-30 | as written: a missing field ⇒ 400, a throwing construction ⇒ 500, otherwise 201 "stored", and the collection is never changed |
| AddressController.AsWrittenDropsTheRecord | server/Controllers/adressController.js:13-23 | as written, a reply saying the details were stored leaves the record out of the collection |
| AddressController.DetailsCollection.constructor | server/Models/CheckoutDetailsModel.js:3-36 | a collection holding the given records |
| AddressController.AddressDetails | server/Controllers/adressController.js:7-23 | corrected: missing field ⇒ 400, nothing saved; failed save or taken email ⇒ 500, nothing saved; otherwise the record is appended and then 201 |
| AddressController.ClientValidPassesServer | server/Controllers/adressController.js:7 | a form the checkout page accepts passes the server's presence check |
| AddressController.BlankFieldPassesOnlyServer | server/Controllers/adressController.js:7 | a field of spaces passes the server's check but not the page's |
| ContactController.ContactStore.constructor | server/Controllers/ContactController.js:13 | a collection holding the given messages |
| ContactController.CreateContact | server/Controllers/ContactController.js:3-21 | missing field ⇒ 400, nothing saved; failed save ⇒ 500, nothing saved; otherwise exactly the four fields appended once and 201 |
| ContactController.PageOutcome | client/src/app/Pages/Contact/page.tsx:43-45 | the page's `ok` is a 2xx status, and the message it reads is the body's `message` or "" |
| ContactController.RefusalHasNoMessage | server/Controllers/ContactController.js:9-19 | the page sees success exactly for a complete form saved successfully, and every refusal without a message |
| ContactPage.WithField | client/src/app/Pages/Contact/page.tsx:19-22 | the named field takes the value, the others are kept |
| ContactPage.FailureText | client/src/app/Pages/Contact/page.tsx:45-51 | a non-ok response shows its message or "Something went wrong"; an exception shows its message or "Failed to send message." |
| ContactPage.ContactView.constructor | client/src/app/Pages/Contact/page.tsx:10-17 | four empty fields, not loading |
| ContactPage.ContactView.ButtonText | client/src/app/Pages/Contact/page.tsx:144-147 | "Sending..." exactly while loading |
| ContactPage.ContactView.Change | client/src/app/Pages/Contact/page.tsx:19-22 | one field updated, loading unchanged |
| ContactPage.ContactView.Submit | client/src/app/Pages/Contact/page.tsx:24-41 | an incomplete form only shows "Please fill in all fields."; otherwise loading is set and the form is posted |
| ContactPage.ContactView.Settle | client/src/app/Pages/Contact/page.tsx:43-54 | success clears the form with a success toast, failure keeps it with the error text, and loading ends |
| ContactPage.SendMessage | client/src/app/Pages/Contact/page.tsx:19-55 | end to end against the endpoint: a sent form is never refused for a missing field; a saved one clears the form; a failed save keeps it and shows "Something went wrong" |
| AccountPage.WithField | client/src/app/Pages/Account/page.tsx:50-55 | the named field takes the value, the others are kept |
| AccountPage.WithProfile | client/src/app/Pages/Account/page.tsx:40-46 | the four profile fields come from the user, a missing address as ""; the password fields are kept |
| AccountPage.ResultOf | client/src/app/Pages/Account/page.tsx:85-100 | `success` with a user is a save; no `success` is a refusal with the reply's message |
| AccountPage.BodyOf | client/src/app/Pages/Account/page.tsx:79-82 | the request body is the user id (or "") plus every form field |
| AccountPage.AccountView.constructor | client/src/app/Pages/Account/page.tsx:22-32 | seven empty fields, no user |
| AccountPage.AccountView.Welcome | client/src/app/Pages/Account/page.tsx:126 | the user's first name when there is one, and "User" otherwise |
| AccountPage.AccountView.Load | client/src/app/Pages/Account/page.tsx:35-48 | with a stored user, the page keeps it and copies its profile into the form; otherwise nothing changes |
| AccountPage.AccountView.Change | client/src/app/Pages/Account/page.tsx:50-55 | one field updated, user unchanged |
| AccountPage.AccountView.Cancel | client/src/app/Pages/Account/page.tsx:57-70 | with a user, its profile is restored and the passwords cleared; without one nothing changes |
| AccountPage.AccountView.SaveChanges | client/src/app/Pages/Account/page.tsx:72-106 | the form is sent with the user's id; a save replaces the stored and kept user and clears only the passwords; a refusal shows its message; an unreadable reply changes nothing |
| AccountPage.EditThenCancel | client/src/app/Pages/Account/page.tsx:35-70 | whatever was typed, cancel restores the loaded profile with empty passwords |
| AccountPage.SaveAgreesWithEndpoint | client/src/app/Pages/Account/page.tsx:79-100 | against the endpoint, the page sees a save exactly on a 200, then keeps exactly the saved document's profile; a refusal shows the endpoint's own non-empty message |

## Left out

- Rendering, styling, animations, scrolling and toasts' display. Toasts, navigations and requests are recorded as effects only.
- The Redux reducers (`addToCart`, `updateQuantity`, `clearCart`, the wishlist slice) and the store configuration: their code is not part of this model, so actions are recorded, not interpreted.
- JSON encoding and `localStorage`: stored values are kept as values.
- Floating point. Prices and ratings are integers, so the rounding of ratings (`Math.round`, `Math.floor`) and `$${product.price * quantity}` formatting of fractional prices are not modelled. The star rows of Product.tsx, the categories page and the product details page are left out for that reason; Sales.tsx's star row is modelled on whole ratings.
- Sales.CartItemOf: `Number(...)` is a caller-supplied function; `Sales.ReadsWholeNumbers` only states that it reads the decimal text of a whole number back.
- The checkout page's product fetch effect (Checkout/page.tsx:61-78) and the quantity it reads from `qty`: the fetched product and the quantity are inputs of `CheckoutView`.
- The Sales strip's scroll buttons and the sale toggle: presentation.
- SearchPage.SearchView.Search: the query is sent as text; `encodeURIComponent` is not modelled.
- SearchPage.ResultsOf / SearchPage.SearchView.Search: the card keeps the numeric price, as corrected under Findings. The text price the page stores as written is `AsWrittenResultOf`, and `AsWrittenCardDisplaysCorrectedPrice` relates the two cards.
- Text.GetParam: `URLSearchParams` is modelled without percent escapes, `+` as space, or fragments. The `Text` lemmas about it hold of the model's reading. The ProductDetails URL lemmas require ids that are plain query values (`Text.PlainQueryValue`: no `&`, `%`, `+` or `#`), for which the two readings agree; catalogue ids are integers and always are.
- AuthController.Signup: bcrypt's salt is not modelled (hashing is a function), the JWT secret and signature are not modelled (a token is its claims and expiry), the schema setters (`lowercase` and `trim` of the email, `trim` of the address, see `Server.StoredEmail`) are not applied at signup or in the login lookup, and an exception thrown by hashing is folded into the failed save.
- UpdateUserController.UpdateProfile: a save fails with 500 on a taken email (the unique index), on an empty required field, or when the database fails; other Mongoose validation errors are folded into the latter. The schema's `lowercase` setter is modelled on ASCII letters only (`Text.Lower`); full Unicode case mapping is not modelled. A `userId` that is not an ObjectId makes `findById` throw, which the source answers with 500; the model answers 404, as for any unknown id.
- AccountPage.ResultOf: a reply with `success` but no `user` is read as a refusal; the endpoint never sends one.
- AccountPage.AccountView.Load: the `|| ""` defaults for the names and email are not modelled, because the stored user always has those fields here.
- ProductDetails.ProductPage.PressMinus: requires the page's invariant (quantity ≥ 1), which every method keeps.
- The contact endpoint's exception from building the record is folded into the failed save.
- The catalogue endpoints (server/Controllers/Sales.Controller.js), the routes, the database connection and the app wiring: library calls and wiring only.
- The login and signup pages, the navigation bar, the footer, the home page and the recommendation strip: fetch, store and render only.

## Findings

| source | as written | input that shows it | evidently intended | confidence | as-written member | corrected member |
|---|---|---|---|---|---|---|
| server/Controllers/adressController.js:13-23 | the record is built but never saved, and 201 "Checkout Details stored in DB" is sent anyway | any body with all five fields non-empty | save the record (`await newUserDetail.save()`) before replying that it was stored | high; not executed | AddressController.AsWrittenDropsTheRecord | AddressController.AddressDetails |
| client/src/app/search/page.tsx:62 | a result's `price` is the text `"$" + price`, which the cart and wishlist entries copy, so the cart's `price * quantity` is NaN | any search result added to the cart, e.g. price 10, quantity 1 | keep the numeric price on the card (format it only when rendering), as the categories page does | high; not executed | SearchPage.AsWrittenCartSubtotalIsNaN | SearchPage.ResultKeepsCatalogueData |

`AddressController.AddressDetails` also enforces the schema's unique email index. As corrected, a second checkout with an email already on record therefore fails with 500.
