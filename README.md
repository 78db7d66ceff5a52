# ChazeFashion storefront core, in Dafny

This project models the core of the ChazeFashion clothing shop, a Django
application. It covers:

- the records of `catalog/models.py`: products with their category and
  season choices and their defaults, per-user carts, profiles and
  wishlists, cart lines, and orders, reviews and payments with their
  default status and rating;
- the four `post_save` receivers that give every new user one cart, one
  profile and one wishlist by fetch-or-create, including the combined
  receiver that swallows a storage error part-way through;
- the shopper-facing views of `catalog/views.py`:
  - the product-list filter;
  - add to cart, with quantity parsing and merge-on-add;
  - the cart page, with its bulk quantity form and live total;
  - remove from cart, limited to the requester's own lines;
  - add to and remove from the wishlist.

Modules:

| file | module | what it holds |
|---|---|---|
| `models.dfy` | `Models` | Entity datatypes, the enumerations with their stored names, and constructors that fix the defaults. |
| `cart_service.dfy` | `CartService` | The cart-line table (`seq<CartItem>` in primary-key order) and its invariant, plus pure functions for quantity parsing, merge-on-add, the bulk update, owned-line lookup and the live total, with their lemmas. |
| `catalog.dfy` | `Catalog` | The product list as successive narrowing by the filters given in the query string. It is proved equal to a one-pass selection by the conjunction of the criteria. |
| `wishlist_service.dfy` | `WishlistService` | Wishlist add and remove as set operations that report their outcome. |
| `shop.dfy` | `Shop` | The `Tables` snapshot and its referential invariant, fetch-or-create for each per-user row, and the receivers as functions with their lemmas. The `Store` class holds the same tables as fields; its methods perform the fetch-or-creates and run the receivers when a user is saved. |
| `views.dfy` | `Views` | Each view is a method on a `Store`. Its `ensures` ties the new tables and the reply to an effect function of the old tables, and lemmas state what those effects promise. |

Conventions and differences:

- Prices and balances are whole cents (`int`).
- A request parameter that is missing or that `int()`/`float()` rejects is
  represented explicitly, as `Option<int>` for quantities and `PriceParam`
  for price bounds.
- The storage error that the combined receiver catches is a `Fault`
  parameter.
- Where the code and the design intent differ, the model follows the code:
  - The bulk quantity form is not all-or-nothing. Lines saved or deleted
    before the first value that fails to parse stay saved or deleted
    (`CartService.BulkFailureKeepsEarlierWrites`).
  - A review's rating has no upper bound. It is a non-negative integer
    column with default 5.
  - A cart line's quantity column admits 0. Only the views keep it at 1 or
    more, and `CartService.RowsValid` states that as a table invariant.

## Model

| member | source | states |
|---|---|---|
| Models.ParseCategory | ChazeFashion/catalog/models.py:8-14 | a stored category value reads back only as one of the five choices, and to the choice stored under that name |
| Models.ParseSeason | ChazeFashion/catalog/models.py:15-19 | a stored season value reads back only as one of the three choices, and to the choice stored under that name |
| Models.CategoryRoundTrip | ChazeFashion/catalog/models.py:8-14 | each category reads back from its stored name |
| Models.SeasonRoundTrip | ChazeFashion/catalog/models.py:15-19 | each season reads back from its stored name |
| Models.CategoryNameInjective | ChazeFashion/catalog/models.py:8-21 | two categories share a stored name only if they are the same, so filtering on the name selects one category |
| Models.SeasonNameInjective | ChazeFashion/catalog/models.py:15-31 | two seasons share a stored name only if they are the same |
| Models.NewProduct | ChazeFashion/catalog/models.py:20-34 | a product created with its required fields has season "All Season", counters 0 and every optional text blank |
| Models.NewOrder | ChazeFashion/catalog/models.py:99-104 | a new order has status "Pending" and the given items and total |
| Models.NewReview | ChazeFashion/catalog/models.py:110-114 | a new review has rating 5 |
| Models.NewPayment | ChazeFashion/catalog/models.py:121-127 | a new payment has status "Pending" and the given order and amount |
| CartService.ParseQuantity | ChazeFashion/catalog/views.py:149-154 | the quantity is at least 1; it is the posted number when that parses and is positive, and 1 otherwise |
| CartService.FindLine | ChazeFashion/catalog/views.py:157-161 | the lookup finds a line for (cart, product) exactly when the table has one |
| CartService.AddLine | ChazeFashion/catalog/views.py:157-168 | the add merges exactly when a line for (cart, product) exists; otherwise it appends one new line with the quantity and the next id |
| CartService.AddLineQuantity | ChazeFashion/catalog/views.py:157-165 | the (cart, product) quantity grows by exactly q, and every other line's quantity is unchanged |
| CartService.AddLineExisting | ChazeFashion/catalog/views.py:163-165 | on an existing line the add increments that row in place and creates no row |
| CartService.AddLineKeepsRowsValid | ChazeFashion/catalog/views.py:157-161 | merge-on-add keeps ids fresh and unique, quantities at least 1, and at most one line per (cart, product) |
| CartService.AddTwice | ChazeFashion/catalog/views.py:157-165 | two adds of one product leave one line holding both quantities |
| CartService.LinesOf | ChazeFashion/catalog/views.py:177 | the cart's lines are exactly the table rows that belong to that cart |
| CartService.Requested | ChazeFashion/catalog/views.py:182-183 | the value posted for a line, or the line's own quantity when nothing was posted for it; `None` when the posted text is not a number |
| CartService.BulkApply | ChazeFashion/catalog/views.py:180-194 | a failed bulk update never adds rows |
| CartService.BulkOkIff | ChazeFashion/catalog/views.py:180-194 | the form succeeds exactly when every line of the cart has a value that parses (a line with no posted value keeps its quantity) |
| CartService.BulkOthersUntouched | ChazeFashion/catalog/views.py:176-189 | every other cart's rows come out unchanged and in order |
| CartService.BulkKeepsRowsValid | ChazeFashion/catalog/views.py:181-189 | the update keeps the table invariant, creates no ids, and every row after it is an earlier row, possibly with a new quantity |
| CartService.BulkSuccessLookup | ChazeFashion/catalog/views.py:183-189 | after a successful post a line with a positive value holds that quantity, and a line with any other number is gone |
| CartService.BulkIdsWithin | ChazeFashion/catalog/views.py:185-189 | the update never invents a line id |
| CartService.BulkUnlistedKept | ChazeFashion/catalog/views.py:183 | a line with no posted value keeps its row unchanged |
| CartService.BulkFailureKeepsEarlierWrites | ChazeFashion/catalog/views.py:180-195 | when the first bad value is at line k, the lines before k are written as requested and the table from k on is untouched |
| CartService.CachedLines | ChazeFashion/catalog/views.py:177-201 | the cart's lines as the page's cached query holds them after the loop: one per line of the cart, each an old line with at most its quantity changed; a deleted line keeps its old quantity, and from the first unparsable value on the lines are as they were |
| CartService.CachedShowsLiveLines | ChazeFashion/catalog/views.py:177-201 | every line the cart still has after the loop is among the lines the page shows |
| CartService.OwnedIndex | ChazeFashion/catalog/views.py:210 | the lookup finds a row exactly when one has that id and belongs to the given cart |
| CartService.RemoveAt | ChazeFashion/catalog/views.py:212 | the table without the row at the given position, other rows in order |
| CartService.RemoveOwnedLine | ChazeFashion/catalog/views.py:210-212 | deleting a line removes exactly that id, shrinks the table by one, leaves other carts' rows as they were and keeps the invariant |
| CartService.CartTotal | ChazeFashion/catalog/views.py:198 | the sum over the cart's lines of the product's current price times the line's quantity |
| CartService.TotalIsLive | ChazeFashion/catalog/views.py:198 | repricing a product moves the cart total by the price change times that product's quantity in the cart |
| CartService.TotalAfterAdd | ChazeFashion/catalog/views.py:198 | adding q units raises the total by the current price times q, whether merged or not |
| Catalog.ContainsIgnoringCase | ChazeFashion/catalog/views.py:107-120 | `icontains`: the query occurs in the text once ASCII letters in both are lower-cased |
| Catalog.Satisfies | ChazeFashion/catalog/views.py:103-120 | what one `.filter()` call tests: category or season equal to the stored name, fabric or brand containing the query ignoring case, price at least or at most the bound |
| Catalog.FilterBy | ChazeFashion/catalog/views.py:103-120 | one filter keeps exactly the products that satisfy it |
| Catalog.ActiveFilters | ChazeFashion/catalog/views.py:103-120 | the filters the query switches on, in the order the page applies them: category, season, fabric, lower bound, upper bound, brand; an empty parameter or a bound that is not a number adds none |
| Catalog.ApplyFilters | ChazeFashion/catalog/views.py:103-120 | the queryset narrowed by each filter in turn |
| Catalog.ProductList | ChazeFashion/catalog/views.py:93-120 | the listed products: the whole catalog narrowed by the active filters |
| Catalog.Select | ChazeFashion/catalog/views.py:103-120 | the one-pass selection keeps exactly the products that meet every given criterion |
| Catalog.ApplyFiltersIsSelectAll | ChazeFashion/catalog/views.py:103-120 | narrowing one filter at a time equals selecting by all filters at once |
| Catalog.MatchesIffActive | ChazeFashion/catalog/views.py:103-120 | a product meets the criteria exactly when it satisfies every filter the query switches on |
| Catalog.FilterPiecesMatch | ChazeFashion/catalog/views.py:103-120 | each criterion of the query (category, season, fabric, lower and upper price bound, brand) holds of a product exactly when its own test does, and an absent or malformed one imposes nothing |
| Catalog.ProductListIsConjunction | ChazeFashion/catalog/views.py:93-120 | the page's successive filtering is the one-pass conjunction of the given criteria |
| Catalog.ProductListMembers | ChazeFashion/catalog/views.py:93-120 | a product is listed exactly when it is in the catalog and meets every given criterion; the list is no longer than the catalog |
| Catalog.NoCriteriaListsEverything | ChazeFashion/catalog/views.py:93-120 | with no criteria given, the list is the whole catalog in order |
| Catalog.MalformedBoundIgnored | ChazeFashion/catalog/views.py:109-118 | a price bound that is not a number lists the same as no bound |
| Catalog.PriceBoundsInclusive | ChazeFashion/catalog/views.py:109-118 | a product priced exactly at either bound is listed |
| Catalog.CategoryAndSeasonExact | ChazeFashion/catalog/views.py:103-106 | a category or season filter lists exactly the products of that category or season |
| Catalog.UnknownCategoryListsNothing | ChazeFashion/catalog/views.py:103-104 | a category value that is not a valid choice lists nothing |
| Catalog.QueryCaseIrrelevant | ChazeFashion/catalog/views.py:107-108 | upper- or lower-casing the query never changes whether it matches |
| Catalog.ContainsInfixIgnoringCase | ChazeFashion/catalog/views.py:119-120 | text containing the query, in either case, matches it |
| Catalog.TextQueriesIgnoreCase | ChazeFashion/catalog/views.py:107-120 | upper-casing the fabric and brand queries lists the same products |
| Catalog.MoreCriteriaListLess | ChazeFashion/catalog/views.py:119-120 | adding a brand criterion never lists a product that was not listed without it |
| WishlistService.AddProduct | ChazeFashion/catalog/views.py:239-243 | afterwards the product is in the wishlist with nothing else changed; "already in" exactly when it was there |
| WishlistService.RemoveProduct | ChazeFashion/catalog/views.py:254-258 | afterwards the product is not in the wishlist with nothing else changed; "removed" exactly when it was there |
| WishlistService.AddIdempotent | ChazeFashion/catalog/views.py:239-243 | a second add changes nothing and reports "already in" |
| WishlistService.RemoveIdempotent | ChazeFashion/catalog/views.py:254-258 | a second remove changes nothing and reports "not in" |
| WishlistService.RemoveUndoesAdd | ChazeFashion/catalog/views.py:239-258 | removing a product just added restores the wishlist |
| WishlistService.AddUndoesRemove | ChazeFashion/catalog/views.py:239-258 | adding back a product just removed restores the wishlist |
| Shop.Tables.Valid | ChazeFashion/catalog/models.py:50-84 | the schema's guarantees the views keep: one cart, profile and wishlist per registered user, unique cart ids below the next one, wishlists of catalog products, and cart lines with unique ids, quantity at least 1, an existing cart and product, and at most one line per (cart, product) |
| Shop.WithCart | ChazeFashion/catalog/models.py:143 | cart fetch-or-create: the user's cart, or a new one with the next cart id |
| Shop.WithProfile | ChazeFashion/catalog/models.py:146-153 | profile fetch-or-create: the user's profile, or a new one with phone '', address '' and balance 0 |
| Shop.WithWishlist | ChazeFashion/catalog/models.py:156 | wishlist fetch-or-create: the user's wishlist, or a new empty one |
| Shop.Provisioned | ChazeFashion/catalog/models.py:140-156 | the three fetch-or-creates in order: cart, profile, wishlist |
| Shop.CombinedReceiver | ChazeFashion/catalog/models.py:134-165 | for a new user, the three fetch-or-creates in order, stopping at the one where storage fails and keeping the earlier ones |
| Shop.CartReceiver | ChazeFashion/catalog/models.py:168-173 | for a new user, the cart fetch-or-create |
| Shop.ProfileReceiver | ChazeFashion/catalog/models.py:175-186 | for a new user, the profile fetch-or-create with the defaults |
| Shop.WishlistReceiver | ChazeFashion/catalog/models.py:188-192 | for a new user, the wishlist fetch-or-create |
| Shop.AfterUserSave | ChazeFashion/catalog/models.py:133-192 | the four receivers in registration order |
| Shop.ProvisionedCart | ChazeFashion/catalog/models.py:143 | after provisioning the user has exactly one cart: the old one, or a new one with a fresh id; other users' carts are unchanged |
| Shop.ProvisionedProfile | ChazeFashion/catalog/models.py:146-153 | after provisioning the user has exactly one profile: the old one, or a new one with phone '', address '' and balance 0 |
| Shop.ProvisionedWishlist | ChazeFashion/catalog/models.py:156 | after provisioning the user has exactly one wishlist: the old one, or a new empty one |
| Shop.ProvisionedTouchesOnlyUserRows | ChazeFashion/catalog/models.py:140-156 | provisioning changes no users, products or cart lines |
| Shop.NewCartIdIsFresh | ChazeFashion/catalog/models.py:50-51 | a cart created by provisioning gets an id no cart has |
| Shop.ProvisionedIdempotent | ChazeFashion/catalog/models.py:140-156 | fetch-or-create twice is fetch-or-create once |
| Shop.WithCartKeepsValid | ChazeFashion/catalog/models.py:143 | fetch-or-create of a cart keeps cart ids unique and every table invariant |
| Shop.WithProfileKeepsValid | ChazeFashion/catalog/models.py:146-153 | fetch-or-create of a profile keeps every table invariant |
| Shop.WithWishlistKeepsValid | ChazeFashion/catalog/models.py:156 | fetch-or-create of a wishlist keeps every table invariant |
| Shop.ProvisionedKeepsValid | ChazeFashion/catalog/models.py:140-156 | provisioning an existing user keeps every table invariant |
| Shop.ItemsUpdateKeepsValid | ChazeFashion/catalog/views.py:156-164 | writing back a cart-line table whose rows reference existing carts and products, with unique ids and lines, keeps every table invariant |
| Shop.WishlistUpdateKeepsValid | ChazeFashion/catalog/views.py:239-243 | writing back a registered user's wishlist that holds only catalog products keeps every table invariant |
| Shop.SaveOfExistingUserChangesNothing | ChazeFashion/catalog/models.py:134-192 | saving a user who already existed runs no receiver body |
| Shop.ReceiversConvergeDespiteFault | ChazeFashion/catalog/models.py:134-192 | wherever the combined receiver's storage error strikes, the four receivers end in the same state as error-free provisioning |
| Shop.RepeatedSavesConverge | ChazeFashion/catalog/models.py:134-192 | running the receivers again, with any errors, converges to one row of each kind per user |
| Shop.UserCreationKeepsStoreProvisioned | ChazeFashion/catalog/models.py:134-192 | creating a user in a fully provisioned store leaves every user, the new one included, with a cart, a profile and a wishlist, and keeps the invariant |
| Shop.Store.GetOrCreateCart | ChazeFashion/catalog/views.py:146 | the method returns the user's cart, created only if absent, and keeps the invariant |
| Shop.Store.GetOrCreateProfile | ChazeFashion/catalog/views.py:72 | the method returns the user's profile, created with the defaults only if absent |
| Shop.Store.GetOrCreateWishlist | ChazeFashion/catalog/views.py:223 | the method returns the user's wishlist, created empty only if absent |
| Shop.Store.CreateUserProfileAndRelatedObjects | ChazeFashion/catalog/models.py:134-165 | for a new user, the combined receiver fetch-or-creates cart, profile and wishlist in order, stopping at a storage error and keeping what was done |
| Shop.Store.CreateUserCart | ChazeFashion/catalog/models.py:168-173 | for a new user, the receiver fetch-or-creates the cart |
| Shop.Store.CreateUserProfile | ChazeFashion/catalog/models.py:175-186 | for a new user, the receiver fetch-or-creates the profile with the defaults |
| Shop.Store.CreateUserWishlist | ChazeFashion/catalog/models.py:188-192 | for a new user, the receiver fetch-or-creates the wishlist |
| Shop.Store.PostSave | ChazeFashion/catalog/models.py:133-192 | the post-save signal runs the combined receiver and then the cart, profile and wishlist receivers, in that order, and keeps every table invariant |
| Shop.Store.SaveItems | ChazeFashion/catalog/views.py:156-164 | saving the cart-line table replaces exactly the lines and the next line id, and keeps every table invariant |
| Shop.Store.SaveWishlist | ChazeFashion/catalog/views.py:239-243 | saving one user's wishlist replaces exactly that user's entry and keeps every table invariant |
| Shop.Store.SaveUser | ChazeFashion/catalog/models.py:134-192 | saving a user inserts it if new and runs the four receivers in order; a fully provisioned store stays so |
| Views.AddToCartEffect | ChazeFashion/catalog/views.py:140-170 | add to cart on the tables: unknown product changes nothing; otherwise cart fetch-or-create, quantity parse, then merge-on-add, with the outcome telling merge from new line |
| Views.AddToCartAddsQuantity | ChazeFashion/catalog/views.py:141-168 | adding raises the (cart, product) quantity by the parsed quantity and no other line's; "updated" exactly when the line existed, "added" exactly when it did not |
| Views.FirstAddCreatesLine | ChazeFashion/catalog/views.py:146-161 | a user without a cart always gets a new line |
| Views.AddToCartRaisesTotal | ChazeFashion/catalog/views.py:157-168 | adding raises the cart total by the product's current price times the parsed quantity |
| Views.AddToCartKeepsValid | ChazeFashion/catalog/views.py:141-170 | add to cart keeps every table invariant |
| Views.AddToCart | ChazeFashion/catalog/views.py:140-170 | an unknown product changes nothing; otherwise the cart is fetched or created and the line merged, as the effect function states |
| Views.CartPostEffect | ChazeFashion/catalog/views.py:172-195 | a posted quantity form on the tables: cart fetch-or-create, then the bulk update of that cart's lines, with a flag saying whether every value parsed |
| Views.CartPostScope | ChazeFashion/catalog/views.py:176-195 | the form keeps the invariant, touches no other user's lines, and succeeds exactly when every line of the user's cart parses |
| Views.ApplyQuantities | ChazeFashion/catalog/views.py:180-195 | the loop's result and success flag are exactly those of the bulk update |
| Views.CartView | ChazeFashion/catalog/views.py:172-204 | without a form only the cart is fetched or created and the page shows its live lines and total; a form redirects exactly when every value parses, with the tables of the bulk update; after a failed form the page shows the cached lines the loop left, deleted ones included, and their total |
| Views.RemoveFromCartEffect | ChazeFashion/catalog/views.py:206-217 | remove from cart on the tables: the row with that id is deleted when it is in the requester's cart; otherwise nothing changes and the failure is reported |
| Views.RemoveFromCartOwnership | ChazeFashion/catalog/views.py:206-217 | a line is removed exactly when it is in the requester's own cart; on removal the reported product is that line's and no other cart loses a line; otherwise nothing changes |
| Views.RemoveFromCart | ChazeFashion/catalog/views.py:206-217 | the view's new tables and outcome are those of the ownership-scoped removal |
| Views.AddToWishlistEffect | ChazeFashion/catalog/views.py:230-245 | add to wishlist on the tables: unknown product changes nothing; otherwise wishlist fetch-or-create and the set add with its outcome |
| Views.RemoveFromWishlistEffect | ChazeFashion/catalog/views.py:247-263 | remove from wishlist on the tables: unknown product is a caught failure that changes nothing; otherwise wishlist fetch-or-create and the set remove with its outcome |
| Views.AddToWishlistFacts | ChazeFashion/catalog/views.py:230-245 | a known product ends up in the wishlist, "already in" exactly when it was there; an unknown product changes nothing; no other wishlist changes |
| Views.RemoveFromWishlistFacts | ChazeFashion/catalog/views.py:247-263 | a known product ends up out of the wishlist, "removed" exactly when it was there; an unknown product is a caught failure that changes nothing |
| Views.WishlistRemoveUndoesAdd | ChazeFashion/catalog/views.py:230-263 | removing a product just added leaves the tables as the wishlist fetch-or-create alone would |
| Views.AddToWishlist | ChazeFashion/catalog/views.py:230-245 | the view's new tables and outcome are those of the wishlist add effect |
| Views.RemoveFromWishlist | ChazeFashion/catalog/views.py:247-263 | the view's new tables and outcome are those of the wishlist remove effect |

## Left out

- Sign-up, login, logout, the home page and the product detail page (`views.py` lines 10-66 and 129-138) are authentication and rendering. Only the fact that sign-up saves a user, which triggers provisioning, is modelled, by `Shop.Store.SaveUser`.
- The profile form's validation and save (`views.py` lines 74-83) are form handling. Only the profile fetch-or-create is modelled.
- Flash messages, redirects and template rendering are not modelled. A view's reply is an outcome value.
- Image fields, `created_at` and `payment_date` timestamps, the `pr_reviews` float, the profile avatar and the `Seller` record are not modelled: they are files, clock values, floating point, or unused by the core.
- The receivers' `print` logging is not modelled.
- Concurrent fetch-or-create races are not modelled. Requests run one at a time, and the one-to-one maps give at most one row per user by construction.
- Python's `int()` and `float()` string parsing is not modelled. Each parameter arrives already parsed, as `Option<int>` or `PriceParam`.
- Catalog.ProductList: price bounds are compared as whole cents, not floats. Case folding covers ASCII letters only, not the database's collation. The product list runs over a catalog sequence in key order, not over the store's product map.
- Views.CartView: the cached query's rows after a failed form post are computed by `CartService.CachedLines` from the table as it stood before the loop. The model does not mutate row objects in the loop as the source does.
- Views.CartView: the cart's lines are listed in primary-key order. The source's query has no explicit ordering.
- Views.AddToCart: the merge is stated through the `AddLine` function applied to the table, not as a write to a single row object.
- Models.NewProduct: column widths are not enforced. The price column's limit of 10 digits with 2 decimal places is not enforced: prices and totals are unbounded whole cents. Quantities are unbounded rather than 32-bit.
- Order placement, reviews and payments have no operations in the core. Only their records and defaults are modelled.
- Errors from the database other than the modelled ones are not modelled. This covers the storage error in the combined receiver and the caught not-found in the remove views.
- Shop.ReceiversConvergeDespiteFault: holds only for a storage error confined to the combined receiver. The three separate receivers (`models.py` lines 168-192) have no `try`/`except`, and the model assumes storage never fails inside them. A storage error that persisted into them would escape `post_save` with provisioning incomplete.
