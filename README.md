# prostore storefront core, modelled in Dafny

This project models the server side of the prostore Next.js storefront:
- **cart actions:** price calculation, adding and removing a unit, and finding the caller's cart;
- **order actions:** creating an order from the cart, marking it paid (by a gateway or cash on delivery), delivering and deleting it, and listing orders page by page;
- **user actions:** reading and updating the signed-in user, signing up and signing in;
- **product actions:** the filtered, sorted and paged catalogue, featured products, and product create, update and delete;
- **Zod validators:** the currency, product, sign-in and sign-up schemas;
- **route middleware:** anchored protected paths and the `matcher`;
- **Auth.js configuration:** `authorize`, `jwt` with the session-cart handoff, `session`, and the unanchored `authorized` guard.

The database is one object, `Store.Db`, whose tables are fields the actions update in place:
- `products` and `orders` are maps keyed by id.
- `users`, `carts` and `orderItems` are sequences, because the source looks rows up with `findFirst` on fields other than the key, which returns the first row in storage order.

`Db.Valid()` is the invariant every action keeps:
- the map keys are the rows' ids;
- cart ids and user ids are distinct;
- every cart has at most one line per product;
- an order is delivered only if it is paid.

Money is integer cents. Ratings are in hundredths. `round2` is defined in lib/utils, which is not part of this model; it is assumed to be `Math.round(value * 100) / 100`, which on exact amounts is rounding hundredths of a cent to the nearest cent, a half up (`Money.RoundToCent`).

The following are parameters of the operations, because their code is not part of this model:
- the cookie store and the session from `auth()`;
- freshly generated ids and the clock;
- the Zod schemas defined outside `lib/validators.ts`;
- `hashSync`, `compareSync` and the e-mail check;
- `formatNumberWithDecimalPlaces`;
- Auth.js `signIn`.

Multi-step writes that the source runs inside `prisma.$transaction` are computed on local copies and committed together.

## Model

| member | source | states |
|---|---|---|
| CartActions.CalcPrice | lib/actions/cart.actions.ts:12-25 | items price is the sum of price × qty; shipping is 0 exactly when items exceed $100, else $10; tax is 15% rounded to the cent; total is the sum of the three |
| CartActions.ShippingBoundary | lib/actions/cart.actions.ts:16 | exactly $100.00 of items still pays $10 shipping, $100.01 ships free |
| CartActions.PriceExamples | lib/actions/cart.actions.ts:12-25 | two carts priced end to end (free shipping with tax, and $10 shipping with tax) |
| CartActions.ItemsPriceSetQty | lib/actions/cart.actions.ts:14 | changing one line's quantity changes the items price by price × the quantity difference |
| CartActions.ItemsPriceRemoveAt | lib/actions/cart.actions.ts:14 | removing one line lowers the items price by that line's total |
| CartActions.LineIndex | lib/actions/cart.actions.ts:66 | the line for a product, if any; with one line per product it is the only one |
| CartActions.AddToLines | lib/actions/cart.actions.ts:65-82 | an existing line gains one unit if stock allows qty + 1, a new line is appended if stock ≥ 1, otherwise "Product out of stock"; one line per product is kept |
| CartActions.WithoutUniqueLine | lib/actions/cart.actions.ts:161 | filtering out a product removes exactly its one line |
| CartActions.RemoveFromLines | lib/actions/cart.actions.ts:154-166 | "Item not found" exactly when no line has the product; a line with qty 1 is removed, another loses one unit; one line per product is kept |
| CartActions.AddThenRemoveRestores | lib/actions/cart.actions.ts:65-82 | adding a unit and then removing one gives back the original lines |
| CartActions.AddRaisesItemsPrice | lib/actions/cart.actions.ts:65-89 | a successful add raises the items price by the existing line's unit price, or by the new line's price × qty |
| CartActions.RemoveLowersItemsPrice | lib/actions/cart.actions.ts:154-174 | removing a unit of a product in the cart succeeds and lowers the items price by its price |
| CartActions.MyCartIndex | lib/actions/cart.actions.ts:106-121 | no cart without the cookie; a signed-in caller gets the first cart owned by them, any other caller the first cart with the cookie's session id; no earlier cart matches |
| CartActions.GetMyCart | lib/actions/cart.actions.ts:106-135 | the cart returned is in the table and belongs to the caller (by user id, else by session cart id); it is the one MyCartIndex picks, and none exactly when that finds none |
| CartActions.AddItemToCart | lib/actions/cart.actions.ts:27-104 | each failure (no cookie, bad item, unknown product, out of stock) leaves the carts unchanged with its message; otherwise a new cart priced by CalcPrice, or the caller's cart with AddToLines applied and re-priced; the message is the product name followed by " updated in cart" when the line existed and " added to cart" otherwise (a new cart's message keeps the source's stray quote); a new cart failing the cart schema or colliding with an existing id is rejected with that error |
| CartActions.AddToCartLines | lib/actions/cart.actions.ts:65-91 | the in-place increment or push equals AddToLines, and the stored cart is re-priced |
| CartActions.RemoveItemFromCart | lib/actions/cart.actions.ts:138-189 | each failure (no cookie, unknown product, no cart, item not in cart) leaves the carts unchanged; otherwise the cart holds RemoveFromLines re-priced by CalcPrice |
| Store.SetCartContents | lib/actions/cart.actions.ts:83-91 | `cart.update` by id: rejected when no cart has the id, otherwise only that cart's lines and prices change |
| Store.AdvanceTransitive | lib/actions/order.actions.ts:214-305 | orders only move forward (paid and delivered stay set), and two such steps compose |
| UserActions.UserIndex | lib/actions/user.actions.ts:72-76 | the row with the id, if any, and with distinct ids the only one |
| UserActions.GetUserById | lib/actions/user.actions.ts:71-79 | the user with the id, or "User not found" exactly when there is none |
| UserActions.CurrentUserIndexAsWritten | lib/actions/user.actions.ts:86-91 | with no session id the filter `id: undefined` is dropped, so the first user in the table is found |
| UserActions.AnonymousCallerGetsFirstUser | lib/actions/user.actions.ts:86-91 | any non-empty table: an anonymous caller is matched to user 0, where the intended lookup matches no one |
| UserActions.CurrentUserIndex | lib/actions/user.actions.ts:86-91 | corrected lookup: no session id finds no one; otherwise the user whose id is the session's |
| UserActions.CurrentUserCorrection | lib/actions/user.actions.ts:86-91 | the corrected and as-written lookups agree whenever there is a session id, and differ for an anonymous caller |
| UserActions.UpdateUserAddress | lib/actions/user.actions.ts:83-112 | "User not found", then schema rejection, each leaving users unchanged; otherwise only that user's address is replaced (corrected lookup, see Findings) |
| UserActions.UpdateUserPaymentMethod | lib/actions/user.actions.ts:115-139 | as above, storing the method's type as the user's payment method (corrected lookup, see Findings) |
| UserActions.UpdateProfile | lib/actions/user.actions.ts:143-172 | only the current user's name changes; the e-mail sent is ignored (corrected lookup, see Findings) |
| UserActions.AfterSignIn | lib/actions/user.actions.ts:55-65 | a returned signIn gives success, a redirect is rethrown, a failure is reported |
| UserActions.SignUpUser | lib/actions/user.actions.ts:38-66 | invalid form rejected and nothing stored; otherwise one user appended with the hashed password and the default role, then signed in with the plain password |
| UserActions.SignInWithCredentials | lib/actions/user.actions.ts:14-29 | "Signed in successfully" exactly when the form is valid and signIn returns; a redirect is rethrown; everything else is "Invalid email or password" |
| Validators.CurrencyCents | lib/validators.ts:4-10 | a value exactly when the text matches `^\d+(\.\d{2})?$`, and never negative |
| Validators.FixedRoundTrip | lib/validators.ts:4-10 | every non-negative amount printed with two decimals passes the currency check and reads back as the same cents |
| Validators.NegativeRejected | lib/validators.ts:8 | a negative amount printed with two decimals fails the currency check |
| Validators.CurrencyExamples | lib/validators.ts:8 | "60.00" and "30" pass; "1.5", "1.234", ".50" and "" fail |
| Validators.ProductIssues | lib/validators.ts:13-26 | no issue exactly when every text field has at least 3 characters, there is an image and the price passes; a missing image is reported with its message |
| Validators.SignInIssues | lib/validators.ts:29-32 | no issue exactly when the e-mail is valid and the password has at least 6 characters |
| Validators.SignUpIssues | lib/validators.ts:34-44 | no issue exactly when every field rule holds and the passwords agree; "Passwords do not match" appears exactly when they differ |
| Paging.TotalPages | lib/actions/product.actions.ts:87-88 | `Math.ceil(count / limit)`: the least page count covering every row; no number when the limit is 0 |
| Paging.PageOf | lib/actions/order.actions.ts:126-127 | `skip`/`take`: rejected for a negative skip; otherwise at most `limit` rows, the rows from position (page − 1) × limit on |
| Paging.PagesCoverRows | lib/actions/order.actions.ts:126-134 | every row appears on exactly the page the arithmetic names, within 1..totalPages, and the page after the last is empty |
| OrderActions.CheckOrder | lib/actions/order.actions.ts:18-56 | the refusals in source order (not authenticated, no user id, unknown user, empty cart, no address, no payment method, schema), each with its message and redirect; otherwise the order built from the user and the cart's prices |
| OrderActions.Snapshot | lib/actions/order.actions.ts:62-70 | one order row per cart line, in order, carrying that line and the order id |
| OrderActions.SnapshotLines | lib/actions/order.actions.ts:62-70 | the loop over the cart lines produces exactly Snapshot |
| OrderActions.CreateOrder | lib/actions/order.actions.ts:16-97 | a refusal changes nothing; otherwise the order, its rows and the emptied cart (no lines, zero prices) are committed together, and the reply redirects to the new order |
| OrderActions.ItemsOfOrder | lib/actions/order.actions.ts:235-236 | the order rows belonging to the order, each as often as the table holds it, and no others |
| OrderActions.DecrementEffect | lib/actions/order.actions.ts:238-243 | settling succeeds exactly when every product ordered exists; each product's stock drops by the total quantity ordered, no key is added or removed |
| OrderActions.UntouchedProducts | lib/actions/order.actions.ts:238-243 | products not ordered keep their stock |
| OrderActions.SnapshotQty | lib/actions/order.actions.ts:62-70 | the quantity an order records for a product is the cart line's quantity |
| OrderActions.DecrementStock | lib/actions/order.actions.ts:238-243 | the loop decrementing stock row by row equals Decrement |
| OrderActions.Paid | lib/actions/order.actions.ts:246-253 | the order becomes paid at `now` with the payment result given (kept when none is given); nothing else changes |
| OrderActions.UpdateOrderToPaid | lib/actions/order.actions.ts:214-274 | "Order not found", "Order is already paid", or a missing product leave everything unchanged; otherwise stock is decremented and the order marked paid, together |
| OrderActions.UpdateOrderToPaidCOD | lib/actions/order.actions.ts:277-285 | the same settlement without a payment result, with the source's messages: an unpaid order is marked paid exactly when the stock decrement succeeds, and otherwise the store's rejection is returned |
| OrderActions.DeliverOrder | lib/actions/order.actions.ts:288-305 | "Order not found", "Order is not paid", else only that order becomes delivered at `now` |
| OrderActions.DeleteOrder | lib/actions/order.actions.ts:197-211 | a missing order is a store error; otherwise exactly that order is removed |
| Sorting.SortByRank | lib/actions/product.actions.ts:82-85 | `orderBy` on one column: the same rows (as a multiset), ranked by the column |
| OrderActions.Newest | lib/actions/order.actions.ts:129 | the order table, newest first, with the same rows |
| OrderActions.OrdersOf | lib/actions/order.actions.ts:128 | each of the user's orders as many times as in the table, no other order, and newest-first order kept |
| OrderActions.OwnCount | lib/actions/order.actions.ts:133 | how many orders a user has does not depend on the table's order |
| OrderActions.PageNewestFirst | lib/actions/order.actions.ts:129-131 | a page of a newest-first list is newest first and drawn from the list |
| OrderActions.GetMyOrders | lib/actions/order.actions.ts:118-135 | no session is refused; otherwise exactly the requested page of the caller's orders sorted newest first, with the page count over all of the caller's orders |
| OrderActions.GetAllOrders | lib/actions/order.actions.ts:179-194 | exactly the requested page of the table sorted newest first, with the page count over the whole table |
| ProductActions.NumberOf | lib/actions/product.actions.ts:64-71 | `Number(...)`: digits give their value, the empty text 0, anything else NaN |
| ProductActions.SplitRange | lib/actions/product.actions.ts:64-66 | "lo-hi" splits into lo and hi |
| ProductActions.BuildWhere | lib/actions/product.actions.ts:51-72 | each filter is present exactly when its parameter is set and not "all", and carries the parameter's value |
| ProductActions.NoFilterPassesAll | lib/actions/product.actions.ts:51-72 | with every parameter unset or "all", every product matches |
| ProductActions.PriceRangeFilter | lib/actions/product.actions.ts:62-67 | with "lo-hi" in dollars, a product matches exactly when lo × 100 ≤ price ≤ hi × 100 cents |
| ProductActions.PriceWithoutDashMatchesNothing | lib/actions/product.actions.ts:62-67 | a price filter without "-" has no upper bound to compare and matches nothing |
| ProductActions.QueryIgnoresCase | lib/actions/product.actions.ts:51-54 | the name filter matches exactly when the lower-cased query occurs in the lower-cased name |
| ProductActions.SortOrder | lib/actions/product.actions.ts:82-85 | "lowest", "highest" and "rating" pick their orders; anything else is newest first |
| ProductActions.Ordered | lib/actions/product.actions.ts:82-85 | the table in the chosen order, with the same products |
| ProductActions.Matching | lib/actions/product.actions.ts:74-79 | exactly the products satisfying the filter, in their original order |
| ProductActions.GetAllProducts | lib/actions/product.actions.ts:40-89 | exactly the requested page of the products that pass every filter, in the order `sort` asks; at most `limit` of them, and a page count over the whole table |
| ProductActions.FeaturedRows | lib/actions/product.actions.ts:162 | exactly the featured products, newest-first order kept |
| ProductActions.MatchingCounts | lib/actions/product.actions.ts:74-79 | the filter keeps each passing product exactly as often as the table holds it, and no other |
| ProductActions.FeaturedCounts | lib/actions/product.actions.ts:162 | `where: {isFeatured: true}` keeps each featured product exactly as often as the table holds it, and no other |
| ProductActions.FewFeaturedAllShown | lib/actions/product.actions.ts:161-165 | a table of two featured products shows both: `take: 4` returns every featured row when there are fewer than four |
| ProductActions.FeaturedWithin | lib/actions/product.actions.ts:161-165 | the featured rows of the newest-first table are the table's featured products, none repeated beyond the table |
| ProductActions.NewestBeforeLeftOut | lib/actions/product.actions.ts:163-164 | in a newest-first list the first four are at least as new as any later row |
| ProductActions.GetFeaturedProducts | lib/actions/product.actions.ts:160-167 | at most four featured products, newest first, no product shown more often than the table holds it; a featured product left out means four are shown, each at least as new as it, so with fewer than four featured products all are shown |
| ProductActions.FromInput | lib/actions/product.actions.ts:111-147 | a stored product carries the input's fields and the price the currency check read |
| ProductActions.CreateProduct | lib/actions/product.actions.ts:111-126 | schema rejection and a taken id change nothing; otherwise exactly one product is added |
| ProductActions.UpdateProduct | lib/actions/product.actions.ts:128-147 | schema first, then "Product not found"; otherwise the product's fields are replaced, keeping rating, review count and creation time |
| ProductActions.DeleteProduct | lib/actions/product.actions.ts:92-108 | "Product not found" changes nothing; otherwise exactly that product is removed |
| Middleware.SomePrefix | middleware.ts:19 | some anchored pattern matches exactly when some prefix begins the path |
| Middleware.Guard | middleware.ts:21-26 | a redirect exactly when there is no session and the path is protected, to the same URL with path "/sign-in" |
| Middleware.Route | middleware.ts:29-31 | paths the matcher excludes never reach the guard |
| Middleware.PrefixConsequences | middleware.ts:9-17 | "/orders" and "/sign-in" are open, "/order/x" and "/administrator" are protected |
| Middleware.RedirectTargetIsOpen | middleware.ts:21-24 | the redirect target passes the guard, so redirects do not loop |
| Middleware.MatcherExclusions | middleware.ts:30 | "/api/…", "/apiary", "/favicon.ico" and "/_next/static/…" bypass the guard |
| Middleware.AdminIsGuarded | middleware.ts:9-31 | an anonymous request for an admin page is redirected to sign-in |
| Auth.UserByEmail | auth.ts:29-33 | the first user with the e-mail, or none exactly when no user has it |
| Auth.Authorize | auth.ts:26-51 | a user is returned exactly when credentials exist, the first user with the e-mail has a stored hash, and it matches; the user's id, name, e-mail and role |
| Auth.SignUpThenAuthorize | auth.ts:26-51 | a user signed up with a fresh e-mail is accepted with the password they chose |
| Auth.NameAfterSignIn | auth.ts:75-77 | a user named "NO_NAME" gets the e-mail's part before "@" |
| Auth.TokenAfter | auth.ts:69-118 | the token carries the signed-in user's id and role, the name rule above, and a session-update name in its place |
| Auth.SessionCartIndex | auth.ts:92-94 | the first cart with the session cart id (no earlier cart has it), or none exactly when no cart has it |
| Auth.DeleteOwned | auth.ts:97-99 | `deleteMany` by owner: the carts kept are exactly those not owned by the user (or spared), ids stay distinct |
| Auth.HandoffAsWritten | auth.ts:95-109 | the update fails exactly when the session cart was already the user's, and then no cart of the user survives |
| Auth.HandoffLosesOwnCart | auth.ts:95-109 | a user returning with their own cart's cookie loses that cart |
| Auth.Handoff | auth.ts:95-109 | corrected: the session cart becomes the user's, it is the only cart the user owns, other users' and guests' carts stay |
| Auth.HandoffLeavesOneCart | auth.ts:95-109 | after the corrected handoff the user owns exactly one cart, the one with the browser's session cart id |
| Auth.HandoffCorrection | auth.ts:95-109 | the corrected and written handoffs agree whenever the session cart was not already the user's |
| Auth.Jwt | auth.ts:69-118 | with a user: the name is written back (failing if the user row is missing), and on sign-in or sign-up with a cart cookie the session cart is handed over (corrected handoff, see Findings); returns TokenAfter |
| Auth.SessionCallback | auth.ts:55-68 | the session copies id from the token subject, role and name from the token; on "update" it reads the absent `user` and throws |
| Auth.NoNameShowsEmailPrefix | auth.ts:55-77 | a "NO_NAME" user who signs in is shown as the part of the e-mail before "@" |
| Auth.SessionUpdateRenames | auth.ts:114-116 | a name sent with a session update becomes the token's name |
| Auth.SomeOccurs | auth.ts:135 | some unanchored pattern matches exactly when some literal occurs in the path |
| Auth.Authorized | auth.ts:119-155 | deny exactly when there is no session and a pattern occurs; otherwise a request without the cart cookie gets a new one |
| Auth.AnchoredImpliesUnanchored | auth.ts:121-135 | every path the middleware protects is protected by `authorized` too |
| Auth.UnanchoredReachesFurther | auth.ts:121-135 | "/search/profile" is denied by `authorized` but passed by the middleware |

## Left out

- I/O and framework effects are not modelled: `revalidatePath`, `redirect`, `console.log` and the cookies write. Only their decisions are.
- `formatError` is not modelled. A caught error is reported as the `Error` value itself.
- Auth.js internals are not modelled: token signing, the session cookie and the `signIn`/`signOut` flows. `signIn` is a parameter that reports returned, redirected or failed.
- bcrypt (`hashSync`, `compareSync`), `crypto.randomUUID`, `cuid` ids and the clock are left out. They are parameters.
- `formatNumberWithDecimalPlaces` is not modelled. It is the parameter `formatted`. The stored price is what the currency check reads from its output, which assumes the column stores exactly two decimals.
- Database constraints other than primary keys are not modelled: the unique e-mail and slug, and the foreign keys. The order-item cascade on order deletion is not part of this model, so `DeleteOrder` leaves order rows.
- Races between concurrent requests are left out, for example two settlements of one order. So is the re-read of the order after settlement.
- getOrderById, getOrderSummary, getLatestProducts, getAllCategories, getProductById, getProductBySlug, signOutUser and the Stripe webhook are not part of this model.
- Floating point is left out:
  - Prices are exact cents.
  - `Number()` of a query bound accepts only digit strings; decimals, signs and blanks are NaN.
  - A NaN bound matches no product.
- Case-insensitive search lower-cases ASCII letters only.
- Tables read by the listings are given as a sequence of their rows in any order; ties in `orderBy` are ordered arbitrarily, as the database does.
- Paging.PageOf: the page size is a `nat`. A negative `limit` is not modelled. The default `limit = PAGE_SIZE` is not a constant here: the page size is always passed in.
- CartActions.AddItemToCart: a new cart is stored without a stock check, as in the source.
- CartActions.RemoveFromLines: quantities are unbounded integers. A line the source stored with quantity 0 goes to −1, as written.
- OrderActions.CreateOrder: the cart is cleared to zero prices, not to `CalcPrice([])` (which would charge $10 shipping), as written.
- OrderActions.CreateOrder: an empty new id yields "Order not created" after the commit, as written.
- OrderActions.GetMyOrders: a session without a user id lists every user's orders, as `where: {userId: undefined}` does.
- UserActions.SignUpUser: the `jwt` callback that `signIn` triggers (name write-back, cart handoff) is not applied to the store here; its carts frame, and the appended user keeping the name signed up with, hold only because `signIn` is a parameter with no effect on the store. Auth.Jwt models that callback on its own.
- Validators.MinLength: lengths count Unicode scalar values (`seq<char>`), whereas Zod's `.min` counts UTF-16 code units, so strings with characters outside the Basic Multilingual Plane are measured shorter than Zod measures them.

## Findings

| source | as written | input that shows it | evidently intended | confidence | as-written member | corrected member |
|---|---|---|---|---|---|---|
| lib/actions/user.actions.ts:86-91 | `findFirst({where: {id: session?.user?.id}})` with no session drops the filter and returns the first user | no session, any non-empty user table: the address, payment method or name of user 0 is overwritten | no session finds no user, so "User not found" | high (not executed) | UserActions.CurrentUserIndexAsWritten | UserActions.CurrentUserIndex |
| auth.ts:95-109 | deletes all of the user's carts, including the session cart when the user already owns it, then `cart.update` on the deleted row throws; no transaction undoes the delete | carts = [cart "c1" owned by "u1" with session id "s1"], cookie "s1", user "u1" signs in: the cart is gone and jwt throws | delete the user's other carts and keep the session cart, then assign it | high (not executed) | Auth.HandoffAsWritten | Auth.Handoff |
