# VenderSphere server: cart, catalogue listings and unique-key registries

A Dafny model of the stateful logic in the VenderSphere Express/MongoDB backend (`index.js`):

- **the per-user cart**. The cart store is a map from a user's email to an ordered list of line items. Each item holds a product id, name, price, image list and quantity. The model covers read (with an empty cart as the default), add (create the cart, raise the quantity of the existing line, or append a new line), set quantity (values below 1 are refused), remove a product, and clear the cart;
- **the two catalogue listings**. `GET /products` turns its query parameters into a filter, a sort order from a fixed table, and a page. `GET /seller/products` lists one seller's products newest first, ten to a page by default. Both use the same page arithmetic: `skip = (page - 1) * limit` and `totalPages = Math.ceil(total / limit)`;
- **the insert-if-absent registries**. These cover users keyed by email (with a role that defaults to `"customer"`), seller requests keyed by uid (always stored as `"pending"`), newsletter subscribers keyed by email, and reviews keyed by (product, reviewer), including the `reviewCount` written back to the product.

MongoDB collections become Dafny maps and sets. Each handler becomes a pure function that returns the new collection, or a `Result` whose error names the handler's error reply. Modules:

| file | module | contents |
|---|---|---|
| base.dfy | `Base` | `Option`, `Result`, JavaScript truthiness of a string field |
| text.dfy | `Text` | ASCII lower-casing and its idempotence |
| cart.dfy | `Cart` | cart datatypes, the cart invariant, the five cart handlers |
| cart_properties.dfy | `CartProperties` | add/set/remove behaviour, invariant preservation, round trips |
| pagination.dfy | `Pagination` | the cursor window, `Math.ceil(total / limit)`, page lemmas |
| listing.dfy | `Listing` | query → filter, sort table, sorting, both listing handlers |
| listing_properties.dfy | `ListingProperties` | filter meaning, case-insensitive category, sort table, default pages |
| registries.dfy | `Registries` | users, roles, seller requests, newsletter, reviews |
| registry_properties.dfy | `RegistryProperties` | duplicates refused, review counts |

Modelling choices:

- **Positional updates.** A `$`-positional update (`items.$.quantity`) touches the first line whose product id matches. The model does the same, through `Cart.IndexOf` and `Cart.FirstMatch`. Under the cart invariant (no duplicate product ids), that first line is the only one.
- **Remove.** `$pull` removes every matching line. Removing the last line leaves an existing cart with no items; the cart is not deleted. The update has no upsert, so removing from, or setting a quantity in, a cart that does not exist changes nothing.
- **Query parameters.** A string parameter is truthy only when present and non-empty. Numeric parameters arrive already converted.
  - In `/products`, `priceMin`, `priceMax` and `ratingGte` are `None` when absent or empty, since the code tests them for truthiness. `page` and `limit` are `None` only when absent: the destructuring defaults page 1 and limit 12 apply then. An empty `page` or `limit` is `Number("")`, so it arrives as `Some(0)`.
  - In `/seller/products`, `page` and `limit` are `None` when `parseInt` gives NaN (absent, empty or not a number). `parseInt(x) || d` replaces both NaN and 0 by the default.
- **Cursors.** The store refuses a negative skip. In `/products` that failure lands in the handler's catch and becomes `LoadFailed`, the 500 reply. The seller route has no catch, so the rejection escapes the handler; the model names that outcome `CursorFailed`. What the client then sees depends on the Express version, which `index.js` does not fix. Under Express 4 the rejection goes unhandled: no reply is sent, and on Node 15 or later the process ends. Under Express 5 the default error handler replies 500. A cursor limit of 0 means no limit, and a negative limit acts as its magnitude.
- **Page count.** `Math.ceil(total / limit)` with limit 0 is Infinity or NaN, which the JSON reply carries as `null`; the model returns `None` for it. A negative limit gives the ceiling of a negative quotient.
- **Sorting.** The store's sort is modelled by a stable insertion sort on the table's key. The store itself does not fix the order of ties. A product may have no `sold` field; the store sorts a missing field below every number, and so does the model (`Listing.SortKey.Missing`).
- **Pages.** Both handlers return exactly the window `Window(ordered, skip, limit)` of the sorted matches, where `ordered` is `Listing.ShopOrder` or `Listing.SellerOrder`. The cursor methods are chained in a different order in the two routes, but the store always sorts before it skips and limits. The model fixes one order for equal sort keys (input order) and uses it for every request, so successive pages of one query never overlap and miss nothing. The store makes no such promise across separate queries: paging on a key with ties (`price_asc` with equal prices, say) can show a product twice or never.

`index.js` has no order, stock, payment or payout logic, and a cart add always adds exactly one unit.

## Model

| member | source | states |
|---|---|---|
| Cart.ReadCart | index.js:508-514 | the reply names the requested email; a user without a cart gets an empty item list, otherwise the stored items |
| Cart.IndexOf | index.js:542-544 | finds the first line with the product id, and reports none only when no line has it |
| Cart.AddLine | index.js:542-570 | after an add the product is in the list; the list grows by one line exactly when the product was not there before |
| Cart.AddToCart | index.js:517-573 | the user gets a cart if they had none (reply "created" exactly then); other users' carts are untouched; the product is in the cart afterwards |
| Cart.SetQuantity | index.js:578-596 | refused exactly when the quantity is below 1; otherwise no cart is created or deleted and other users' carts are untouched |
| Cart.Without | index.js:606 | keeps exactly the lines of other products; the removed product no longer appears |
| Cart.RemoveItem | index.js:600-612 | no cart is created or deleted; other carts are untouched; the product is gone from this user's cart |
| Cart.ClearCart | index.js:615-618 | the user's cart is gone and every other cart is unchanged |
| CartProperties.AddNewProduct | index.js:523-570 | adding a product the cart lacks appends one line of quantity 1 after the unchanged lines; with no cart it creates one holding just that line |
| CartProperties.AddExistingProduct | index.js:542-553 | adding a product already present raises its line's quantity by exactly 1; the number of lines and every other line stay the same |
| CartProperties.AddIncrementsTotal | index.js:517-573 | every add puts exactly one more unit in the cart |
| CartProperties.AddPreservesValid | index.js:517-573 | add keeps each cart free of duplicate product ids and of quantities below 1 |
| CartProperties.SetQuantityUpdatesLine | index.js:585-593 | a valid quantity replaces the quantity of the first matching line only; all other fields and lines stay the same |
| CartProperties.SetQuantityNoMatch | index.js:581-593 | with no cart or no matching line, a valid quantity changes nothing, and a quantity below 1 is still refused |
| CartProperties.SetQuantityRoundTrip | index.js:585-593 | setting a quantity and then setting the old value back restores the store |
| CartProperties.SetQuantityPreservesValid | index.js:578-596 | set-quantity keeps the cart invariant |
| CartProperties.RemoveDeletesLine | index.js:603-609 | in a cart without duplicates, remove deletes exactly the product's line and keeps the others in order |
| CartProperties.RemoveAbsentIsNoOp | index.js:600-612 | removing a product no line holds, or from a user without a cart, changes nothing |
| CartProperties.RemoveIdempotent | index.js:603-609 | removing twice is the same as removing once |
| CartProperties.RemovePreservesValid | index.js:600-612 | remove keeps the cart invariant |
| CartProperties.AddThenRemoveNew | index.js:517-612 | adding a new product and then removing it gives back the cart a read showed before |
| CartProperties.ClearPreservesValid | index.js:615-618 | clearing keeps the invariant of every remaining cart |
| CartProperties.ClearThenReadEmpty | index.js:508-618 | after a clear, the user's cart reads as empty and every other user's cart reads as before |
| Text.LowerChar | index.js:212 | each upper-case ASCII letter becomes its own lower-case letter (code point + 32); every other character is unchanged; no result is upper case |
| Text.Lower | index.js:212 | lower-casing keeps the length and maps each character on its own |
| Text.LowerIdempotent | index.js:212 | lower-casing twice is the same as lower-casing once |
| Pagination.Window | index.js:269-274 | a negative skip is refused; otherwise the items from position skip on, as many as the limit allows (all if the limit is 0) |
| Pagination.TotalPages | index.js:282 | no finite page count exactly when the limit is 0; never negative for a positive limit |
| Pagination.TotalPagesIsCeiling | index.js:282 | the page count is the ceiling of the real quotient total / limit, for either sign of the limit |
| Pagination.TotalPagesBounds | index.js:139 | totalPages * limit >= total; when total > 0, (totalPages - 1) * limit < total; zero pages exactly when nothing matches |
| Pagination.PageAtMostLimit | index.js:267-274 | a page p >= 1 is a valid cursor and holds at most limit items |
| Pagination.InnerPagesFull | index.js:267-274 | every page before the last holds exactly limit items |
| Pagination.PageBeyondLastEmpty | index.js:267-274 | a page past totalPages is empty |
| Pagination.PagesCoverAll | index.js:267-283 | reading pages 1 to totalPages in turn returns every item exactly once, in order |
| Pagination.IsWindowUnique | index.js:269-274 | a window is determined by the list, skip and limit: two windows of the same cursor are equal |
| Pagination.ItemOnPage | index.js:267-283 | with a positive limit, item i is entry i % limit of page i / limit + 1, and that page is within totalPages |
| Listing.BuildFilter | index.js:208-243 | the category condition is always in lower case; the shop listing never filters on seller email |
| Listing.Select | index.js:269-270 | keeps exactly the products that match the filter, each as many times as it occurs in the input, and drops every other product |
| Listing.Insert | index.js:271 | inserting into a sorted list keeps it sorted and adds exactly that product |
| Listing.SortBy | index.js:271 | the result is sorted by the requested key and direction and is a permutation of the input |
| Listing.ParsedOr | index.js:118-119 | a non-zero parsed number is kept; NaN and 0 fall back to the default; the result is 0 only if the default is |
| Listing.ShopOrder | index.js:269-271 | the matching products, sorted by the requested key: a permutation of the matches, so as many as the count reports, each from the catalogue and matching the filter |
| Listing.SellerOrder | index.js:126-134 | the seller's products, newest first: a permutation of the seller's matches, so as many as the count reports, each from the catalogue with that seller email |
| Listing.ListProducts | index.js:193-288 | refused exactly when the skip is negative; the products are exactly the window of the sorted matches at skip (page - 1) * limit with that limit: they come from the catalogue, match the filter and are in sort order; total counts the matches; at most abs(limit) products; page and totalPages as computed |
| Listing.SellerProducts | index.js:116-142 | a missing or empty email is refused with the 400 reply, and only then; with an email, a negative skip fails the cursor, and only then; otherwise the products are exactly the window of the seller's products, newest first, at the defaulted page and limit; total counts the seller's products; totalPages is the ceiling of total / limit; currentPage is the defaulted page |
| ListingProperties.ListingFilterMeaning | index.js:208-243 | a product is listed exactly when it meets each condition whose parameter is given (lower-cased category, search on name or brand, price bounds, rating threshold, positive discount when flash is "true", seller id) |
| ListingProperties.CategoryCaseInsensitive | index.js:211-213 | two category spellings that lower-case alike give the same filter |
| ListingProperties.CategoryAlreadyLowered | index.js:211-213 | sending an already lower-cased category gives the same filter |
| ListingProperties.SortTable | index.js:246-265 | the five sort names map to their field and direction; any other or missing name gives createdAt descending |
| ListingProperties.PriceOrdersReverse | index.js:248-253 | price_asc and price_desc are each other's reverse |
| ListingProperties.ShopDefaultPage | index.js:204-205 | with no page or limit, the shop listing is page 1 and shows the first min(12, total) matches in sort order |
| ListingProperties.SellerDefaultPage | index.js:118-124 | with a seller email and no (or zero) page and limit, the seller listing is page 1 and shows the seller's min(10, total) newest products |
| ListingProperties.ShopPageIsWindow | index.js:267-274 | a shop page p >= 1 with a positive limit is answered, and its products are the window of the sorted matches at (p - 1) * limit |
| ListingProperties.ShopOrderIgnoresPage | index.js:208-271 | the filter and sort order do not depend on the page asked for |
| ListingProperties.ShopPageN | index.js:267-274 | shop page n >= 1 of a query is the n-th window of that query's sorted matches |
| ListingProperties.ShopMatchOnPage | index.js:267-283 | with a positive limit, the matching product at sort position i is entry i % limit of shop page i / limit + 1, and that page is within totalPages |
| ListingProperties.SellerPageN | index.js:118-141 | seller page n >= 1 with a positive limit is answered with the n-th window of the seller's products, newest first, and the ceiling page count |
| ListingProperties.SellerMatchOnPage | index.js:118-141 | with a positive limit, the seller's product at position i (newest first) is entry i % limit of seller page i / limit + 1, and that page is within totalPages |
| Registries.RegisterUser | index.js:58-64 | inserted exactly when the email is new; a refused insert leaves the users unchanged; existing users are never changed |
| Registries.RoleOf | index.js:71-74 | a missing user, or a user whose role is missing or empty, reads as "customer"; a stored non-empty role is returned as it is; never empty |
| Registries.SubmitSellerRequest | index.js:78-89 | refused exactly when the uid has applied; otherwise stored as "pending" with the applicant's fields, other requests untouched |
| Registries.Subscribe | index.js:455-474 | a missing or empty email is refused; a known email is a conflict; otherwise exactly one subscriber is added |
| Registries.PostReview | index.js:389-429 | refused exactly when this reviewer has reviewed this product; otherwise stores the review, keeps the others, and gives the review count written to the product document (the reply itself is `{ success: true }`) |
| RegistryProperties.SecondSignUpRefused | index.js:58-74 | a second sign-up with the same email is refused and the first user, and their role, stay |
| RegistryProperties.NewUserIsCustomer | index.js:71-74 | a user who signed up without a role reads as "customer" |
| RegistryProperties.SellerRequestOnce | index.js:78-89 | whatever status the application carries, the stored request is pending; a second application with that uid is refused |
| RegistryProperties.SubscribeTwiceConflicts | index.js:460-468 | subscribing the same email twice: the second attempt is a conflict |
| RegistryProperties.ReviewOncePerReviewer | index.js:393-400 | a reviewer can review a product only once |
| RegistryProperties.ReviewCountIncrements | index.js:411-424 | an accepted review raises that product's count by one and leaves other products' counts unchanged |

## Left out

- MongoDB connection and `ObjectId` parsing, including a parse that throws on a malformed id. Product ids are strings compared by equality.
- CartProperties.AddPreservesValid: holds only for product ids sent in lower-case hex. The cart add tests presence with `item.productId.toString() === product._id`, but stores and matches lines with `new ObjectId(product._id)`. `new ObjectId` accepts upper-case hex while `toString()` gives lower case. So for an id such as `65A1…` the presence test never finds the line, and every add pushes another line with the same ObjectId. That breaks the one-line-per-product invariant.
- CartProperties.AddExistingProduct: for the same upper-case ids, the source appends a new line instead of raising the existing line's quantity; the model's single string equality cannot express the mismatch.
- Express routing and HTTP status codes. Each error reply is a named `Err` value.
- `updatedAt`, `createdAt` and `subscribedAt` timestamps. They come from the clock; product `createdAt` appears only as a sort key.
- The race between the `findOne` check and the following insert or update, in cart add and in every registry. This is concurrency; each handler is modelled as one atomic step.
- Conversion of query and body strings to numbers (`Number`, `parseInt`, JavaScript's `<` on a string). Parameters arrive already converted.
- Cart.SetQuantity: does not model quantities that are not integers, such as 1.5 or a missing field.
- Listing.Matches: the regex search is a parameter (a case-insensitive pattern test on a field) rather than a regex engine.
- Text.Lower: maps only ASCII letters, not full Unicode `toLowerCase`.
- Listing.SortBy: breaks ties by input order; the store's order for equal keys is unspecified.
- ListingProperties.ShopMatchOnPage: relies on the one tie order of `Listing.SortBy` being used for every page request. Across separate queries the store may order equal keys differently, so with ties the source can repeat or skip a product between pages.
- ListingProperties.SellerMatchOnPage: the same caveat for `createdAt` values that are equal.
- Listing.ListProducts: a truthy `search` that the store rejects as a regular expression (for example `(`) also lands in the catch and gets the 500 reply. The model's `SearchTest` cannot fail, so the model answers `Ok` there; "refused exactly when the skip is negative" holds only for patterns the store accepts.
- Registries.PostReview: does not compute the average rating written back to the product. It uses floating-point `toFixed(1)` rounding. Only `reviewCount` is modelled.
- The newsletter confirmation email (nodemailer). It is I/O, and it runs after the subscriber is stored.
- Registries.Subscribe: answers `Ok` once the subscriber is stored, but in the source the confirmation email is sent after the insert. If sending fails, the catch replies 500 "Subscription failed" while the subscriber stays stored, and a retry then gets the 409 conflict. Mail delivery is outside the model, so this outcome is not expressed.
- Registries.PostReview: answers `Ok` once the review is stored, but in the source the review is inserted before `new ObjectId(productId)` is parsed for the product update. For a malformed product id that parse throws and the route has no catch. The review stays stored, no `reviewCount` is written, and the rejection escapes the handler. The model does not parse ids, so this outcome is not expressed.
- `GET /sellers/top` product counts. They come from concurrent `Promise.all` store queries.
- The other routes, which lie outside the cart, the two listings and the insert-if-absent registries:
  - `POST /add-product` lower-cases the category, sets `rating` and `reviewCount` to 0, inserts the product, and then upserts it into its category document.
  - `PATCH /products/:id` replies 400 when the update changes nothing.
  - `GET /products/related/:id` returns `[]` for an unknown id, and otherwise up to 8 other products of the same category.
  - Product delete and status, featured, flash-sale, categories, testimonials, single user and single product reads, and the reviews list are single store calls.
- The user and seller-request documents keep only the fields the handlers look at. The source stores the rest of the request body as-is in those two collections. Reviews and newsletter subscribers are built field by field, and the model keeps the fields that matter here.
