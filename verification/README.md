# Shop checkout core in Dafny

This project models the store's cart → order → payment state machine as its
Express route handlers implement it, together with the client-side helpers
that feed it. Each handler is a pure transition from a `State` and the
request's fields to a new `State` and a reply (`Outcome`). The state holds:

- products indexed by id;
- carts per user, with price-snapshot lines and a cached total;
- orders with their items;
- the mock bank's accounts;
- users;
- wishlist rows.

Money is integer paise. The cash-on-delivery charge of 40 rupees is
`Store.CodSurcharge = 4000`.

Modules, one per source file:

- `Store`: records, errors and the state invariant `Valid`.
- `CartRoutes`: `backend/routes/cart.js`.
- `OrderRoutes`: `backend/routes/orders.js`, modelling the first
  `POST /create` and `POST /:id/pay`.
- `PaymentRoutes`: `backend/routes/payment.js`.
- `WishlistRoutes`: `backend/routes/wishlist.js`.
- `ProfileRoutes`: `backend/routes/profile.js`.
- `ProductRoutes`: `backend/routes/products.js`.
- `CardForm`: `backend/frontend/src/components/Payment.js`.
- `Checkout`: `backend/frontend/src/pages/CheckoutPage.js`.
- `CartItemView`: `backend/frontend/src/components/CartItem.js`.
- `Scenarios`: properties of several requests in a row.
- Helpers shared by the modules above:
  - `Basics`: `Option`, `Filter`, `FirstIndex`;
  - `Text`: digits, whitespace, trimming, the capital-splitting of field names;
  - `Sorting`: a sort over a total preorder, and lexicographic order;
  - `Paging`: the `LIMIT/OFFSET` arithmetic.

Foreign calls become parameters:

- `bcrypt.compare` is the uninterpreted `Verifier`, and a new password hash
  is an input.
- `Date.now()` is an input, as are the generated order number and
  transaction id.
- The 90% coin flip of the legacy pay route is a boolean input.

The model follows the handlers as written. Several of their behaviours are
easy to misremember:

- A card or UPI payment that fails on the account, the PIN or the balance
  writes nothing. Only a method other than `cod`, `card` or `upi` marks the
  order `failed`, and a failed order is never selected again by
  `/process`.
- The payment branch is chosen by the request's `paymentMethod`, not by the
  method stored on the order.
- Creating an order leaves the cart and the stock as they were. Stock is
  taken when the order is paid, from the value read when the order was
  looked up, with no floor. Two orders for the last units can therefore
  both be paid, leaving the stock negative.
- Adding a product that is already in the cart keeps that line's original
  price. The stock check compares the stock only with the added quantity.
- `PUT /cart/update/:itemId` sets any quantity up to the stock, including
  zero or a negative number.
- `DELETE /cart/clear` answers 404 for a user who has no cart yet.
- `PUT /profile` skips the email check for an empty email. The route itself
  would therefore store an empty email for a second user; whether that
  write succeeds depends on the user model's validators and unique index,
  which are not part of this model. Email uniqueness is proved only for
  updates that name a non-empty email or none (`UpdateProfileKeepsEmailsUnique`).
- The product table has no `category` or `rating` column. A category
  filter or `sortBy=rating` therefore makes the query fail with 500.

## Model

| member | source | states |
|---|---|---|
| Store.ParseMethod | backend/routes/orders.js:61-64 | Exactly `card`, `upi` and `cod` are accepted, and the accepted method prints back as the same text. |
| Store.LinesTotalAppend | backend/routes/cart.js:164-169 | Appending a line raises Σ price×quantity by that line's subtotal. |
| Store.LinesTotalUpdate | backend/routes/cart.js:164-169 | Replacing one line changes the total by the new subtotal minus the old one. |
| Store.LinesTotalRemove | backend/routes/cart.js:164-169 | Removing one line lowers the total by that line's subtotal. |
| CartRoutes.WithCart | backend/routes/cart.js:164-169 | After a cart change, the stored total is Σ price×quantity over the new lines. Other users' carts and all other tables are untouched. |
| CartRoutes.GetCart | backend/routes/cart.js:8-27 | Returns the caller's cart. A user without a cart gets an empty one, created with total 0. |
| CartRoutes.AddToCart | backend/routes/cart.js:30-77 | A missing product gives 404 and stock below the requested quantity (default 1) gives 400, both with no state change. Otherwise the reply is Ok and there are two cases. If the product already has a line, that line's quantity rises by the request and its price and id are kept. If not, exactly one new line is appended at the product's current price with a fresh id. Only the caller's cart changes. |
| CartRoutes.LineWithId | backend/routes/cart.js:85-97 | Finds the first line of the caller's cart with the requested id, or reports that none has it. |
| CartRoutes.LineFor | backend/routes/cart.js:52-59 | Finds a line holding the product, or reports that none does. |
| CartRoutes.UpdateCartItem | backend/routes/cart.js:80-114 | A line missing from the caller's cart gives 404 and a quantity above stock gives 400, with no state change. Otherwise exactly that line takes the given quantity, with no lower bound, and the total is recomputed. |
| CartRoutes.RemoveCartItem | backend/routes/cart.js:117-143 | 404 exactly when the caller's cart has no such line. Otherwise exactly that line is deleted, with the other lines in order, and the total is recomputed. |
| CartRoutes.ClearCart | backend/routes/cart.js:146-161 | 404 exactly when the caller has no cart. Otherwise the cart ends with no lines and total 0. |
| CartRoutes.AddToCartTotal | backend/routes/cart.js:52-71 | After an add, the stored total rises by the added quantity times the price of the line it touched. That is the snapshot price for an existing line. |
| CartRoutes.AddToCartPreservesValid | backend/routes/cart.js:30-77 | An add keeps every cart's total equal to Σ price×quantity, and keeps one line per product. |
| CartRoutes.UpdateCartItemPreservesValid | backend/routes/cart.js:104-108 | An update keeps the stored totals consistent and the lines distinct. |
| CartRoutes.RemoveCartItemPreservesValid | backend/routes/cart.js:121-137 | A remove keeps the stored totals consistent and the lines distinct. |
| CartRoutes.ClearCartPreservesValid | backend/routes/cart.js:148-155 | Clearing keeps the invariant: an empty cart has total 0. |
| CartRoutes.GetCartPreservesValid | backend/routes/cart.js:18-21 | Creating an empty cart keeps the invariant. |
| OrderRoutes.StockProblem | backend/routes/orders.js:89-101 | No problem exactly when every line's product exists with stock ≥ quantity. Otherwise it reports the error of the first failing line. |
| OrderRoutes.ItemsFromLines | backend/routes/orders.js:133-144 | Produces one item per cart line, copying the product id, the quantity and the line price, and taking the product's name. |
| OrderRoutes.CreateOrder | backend/routes/orders.js:52-174 | An unknown method gives 400 before the cart is read. An empty or missing cart gives 400. The first line out of stock gives its 400. In each error case nothing is written. Success holds exactly when none of these applies. It appends exactly one order as pending/pending, at the cart total plus 40 exactly for `cod`, with the address defaulted and one item per line. Carts and stock are unchanged. |
| OrderRoutes.ItemsTotalOfLines | backend/routes/orders.js:133-144 | The copied items add up to the same Σ price×quantity as the cart lines. |
| OrderRoutes.CreatedOrderTotalMatchesItems | backend/routes/orders.js:104-144 | In a consistent state, a new order's total equals the sum over its own items, plus the charge for cash on delivery. |
| OrderRoutes.CreateOrderPreservesValid | backend/routes/orders.js:128-144 | Order creation keeps the invariant. A new order names each product once. |
| OrderRoutes.PayLegacy | backend/routes/orders.js:279-324 | An order that is missing or belongs to someone else gives 404, and an already-paid order gives 400. Otherwise a successful gateway outcome sets paid/processing, and a failed one sets the payment status to `failed`, leaving the rest as it was. |
| OrderRoutes.PayLegacyPreservesValid | backend/routes/orders.js:279-324 | The legacy pay route keeps the invariant. |
| OrderRoutes.LegacyFailureIsRetryable | backend/routes/orders.js:312-320 | After a failed legacy payment, a later successful attempt on the same order is accepted and marks it paid/processing. |
| OrderRoutes.LegacyPaidIsFinal | backend/routes/orders.js:294-296 | Once the legacy route has paid an order, every further attempt is refused with 400 and writes nothing. |
| PaymentRoutes.FindAccount | backend/routes/payment.js:50-52 | Returns the first active account with the key, or none exactly when no active account has it. |
| PaymentRoutes.Authenticate | backend/routes/payment.js:50-62 | "No account" exactly when the lookup fails. Otherwise success holds exactly when the PIN verifies against that account's hash. |
| PaymentRoutes.Mask | backend/routes/payment.js:69 | For a number of at least 4 characters, the result is its first four characters, `****`, then its last four: 12 characters. |
| PaymentRoutes.MaskHidesMiddle | backend/routes/payment.js:69 | Two numbers that agree on their first and last four characters mask identically. |
| PaymentRoutes.Validate | backend/routes/payment.js:41-110 | A missing field gives 400 and an unknown or inactive account gives 404. With unique accounts, success holds exactly when the PIN verifies, and a wrong PIN gives 401. A success reports the matching account's holder, bank and balance, with the masked number or the UPI id. The result carries no state. |
| PaymentRoutes.ApplyStock | backend/routes/payment.js:245-251 | Products not named by the order keep their rows. The loop completes exactly when every item's product exists. |
| PaymentRoutes.StockAfterPayment | backend/routes/payment.js:245-251 | Each ordered product ends at its stock as read at order lookup, minus the ordered quantity. There is no floor. |
| PaymentRoutes.PaymentTakesStock | backend/routes/payment.js:245-251 | After any successful payment, card, UPI or `cod`, each ordered product's stock is its stock at order lookup minus the ordered quantity, and every product the order does not name keeps its row. |
| PaymentRoutes.Settle | backend/routes/payment.js:213-271 | On success the order becomes paid/confirmed. It records the transaction id and the payment details, and delivery is due in 5 days for `cod` and 3 days otherwise. The caller's cart is emptied and the stock loop runs. The receipt reports the order total. |
| PaymentRoutes.PayFromAccount | backend/routes/payment.js:143-210 | The card and UPI blocks debit the order total and settle exactly when an active account has the key, the PIN verifies and the balance covers the total. Otherwise the reply is an error and nothing is written. |
| PaymentRoutes.ProcessPayment | backend/routes/payment.js:113-292 | Only the caller's pending/pending order is selected; any other gives 404 with no state change. An unrecognised method marks only the payment status as failed, with the status still pending, and gives 400. A success leaves the order paid/confirmed with the caller's cart empty and other carts untouched, and the products as the stock loop leaves them. For `cod` no account changes. For card or UPI, the PIN verified, the balance covered the total, exactly the matched account was debited by the order total, and the remaining balance is reported. |
| PaymentRoutes.CardAndUpiRejectionsWriteNothing | backend/routes/payment.js:143-210 | For a card or UPI request, three rejections leave the whole state unchanged: no active account gives 404, a wrong PIN gives 401, and a balance below the total gives 400. |
| PaymentRoutes.BalancesUpdate | backend/routes/payment.js:164-175 | Changing one account's balance changes the bank's total by the same amount. |
| PaymentRoutes.PaymentMovesOrderTotal | backend/routes/payment.js:136-209 | A successful payment takes out of the bank as a whole exactly the order total, or nothing for `cod`. |
| PaymentRoutes.PaymentIsNotRepeatable | backend/routes/payment.js:119-131 | After a successful payment the order is no longer selected, so any further process request gives 404 and writes nothing. |
| PaymentRoutes.ValidationPredictsPayment | backend/routes/payment.js:41-110 | Suppose a card or UPI validation succeeds and the balance it reports covers the order total. Then processing the payable order with the same credentials succeeds, and the remaining balance is the validated balance minus the total. This assumes every ordered product exists. |
| PaymentRoutes.ProcessPaymentFrame | backend/routes/payment.js:113-292 | A payment changes an order only in its status and payment fields: owner, number, total, address, stored method, creation time and items stay. It changes an account only in its balance, and never the users, the line-id counter or the wishlist. Each cart is either unchanged or emptied. |
| PaymentRoutes.ProcessPaymentPreservesValid | backend/routes/payment.js:113-292 | Payment processing keeps the invariant, including unique account numbers and UPI ids. |
| WishlistRoutes.ListWishlist | backend/routes/wishlist.js:8-21 | Returns exactly the caller's rows, as a permutation of them, newest first. |
| WishlistRoutes.AddToWishlist | backend/routes/wishlist.js:24-62 | A missing product gives 404 and a pair that is already there gives 400, both with no state change. Otherwise exactly the pair (caller, product) is added. |
| WishlistRoutes.RemoveFromWishlist | backend/routes/wishlist.js:65-85 | 404 exactly when the caller's pair is absent. Otherwise the pair is gone, every other row stays, and no row is invented. |
| WishlistRoutes.CheckWishlist | backend/routes/wishlist.js:88-101 | True exactly when a row for the caller and the product exists. |
| WishlistRoutes.AddThenCheck | backend/routes/wishlist.js:35-47 | After a successful add, the pair checks as present and a second add is refused with 400. |
| WishlistRoutes.RemoveThenCheck | backend/routes/wishlist.js:69-96 | After a successful remove, the pair checks as absent. |
| WishlistRoutes.AddThenRemoveRestores | backend/routes/wishlist.js:24-85 | Removing a pair just added gives back the state from before the add. |
| WishlistRoutes.AddToWishlistPreservesValid | backend/routes/wishlist.js:35-47 | Adds never create a duplicate (user, product) pair. |
| WishlistRoutes.RemoveFromWishlistPreservesValid | backend/routes/wishlist.js:69-78 | Removes keep the pairs distinct. |
| ProfileRoutes.GetProfile | backend/routes/profile.js:9-37 | A missing user gives 404. Otherwise the reply has the user's fields and the number of orders and wishlist rows they own. |
| ProfileRoutes.OrderCountAfterCreate | backend/routes/profile.js:20-31 | Placing an order raises the reported order count by one. |
| ProfileRoutes.WishlistCountAfterAdd | backend/routes/profile.js:20-31 | Wishlisting a product raises the reported wishlist count by one. |
| ProfileRoutes.UpdateProfile | backend/routes/profile.js:40-75 | A changed, non-empty email that another user holds gives 400 and writes nothing. Otherwise the given name and email replace the old ones, and omitted fields, the password and the creation time are kept. |
| ProfileRoutes.UpdateProfileKeepsEmailsUnique | backend/routes/profile.js:45-54 | An update that names a non-empty email, or none, never gives two users the same email. |
| ProfileRoutes.ChangePassword | backend/routes/profile.js:78-110 | A missing field gives 400. A wrong current password gives 400 with the hash unchanged. Success holds exactly when the current password verifies, and then only the caller's hash is replaced. |
| ProfileRoutes.ChangedPasswordGovernsNextChange | backend/routes/profile.js:96-103 | After a change, the next change is accepted exactly for passwords that verify against the new hash. |
| ProfileRoutes.OrderedHistory | backend/routes/profile.js:115-132 | Returns the caller's orders, narrowed to the given status when there is one, as a permutation and newest first. |
| ProfileRoutes.OrderHistory | backend/routes/profile.js:113-148 | The rows are the window at offset (page−1)×limit, with defaults 1 and 10. With the count taken as the number of matching orders, totalOrders is that count and totalPages is the ceiling of count/limit. hasNext holds exactly when page < totalPages, and hasPrev exactly when page > 1. Every row matches the filter. |
| ProfileRoutes.PagesAreConsecutive | backend/routes/profile.js:115-132 | Each page is newest first, and page p+1 starts exactly where page p ends in the one ordered list both are cut from. |
| Paging.OffsetNext | backend/routes/products.js:21 | Page 1 starts at offset 0, and each next page starts `limit` rows after the previous one. |
| Paging.TotalPages | backend/routes/products.js:90 | The least number of pages of `limit` rows that hold `count` rows. |
| Paging.Window | backend/routes/products.js:81-86 | `LIMIT/OFFSET`: returns the rows from the offset on, at most `limit` of them, in order. |
| Paging.HasNextIffBeforeLastPage | backend/routes/profile.js:134-142 | offset + rows < count holds exactly when the page is before the last page. |
| Sorting.SortBy | backend/routes/products.js:51-86 | An `ORDER BY` over a total preorder returns a sorted permutation of its input. |
| Sorting.LexLeTotal | backend/routes/products.js:60-65 | Any two names are comparable in the name order. |
| Sorting.LexLeTransitive | backend/routes/products.js:60-65 | The name order is transitive. |
| ProductRoutes.BoundOf | backend/routes/products.js:40-48 | A price bound applies exactly when the parameter is present, non-empty and not `0`. |
| ProductRoutes.BuildWhere | backend/routes/products.js:24-48 | There is a search condition exactly when a term is given, a category condition exactly when a non-empty category is given, and the two price bounds. |
| ProductRoutes.AdmitsIff | backend/routes/products.js:27-48 | A product passes exactly when its name or description contains the term (if one is given), and it lies within each bound that applies, bounds included. |
| ProductRoutes.NoFilterAdmitsAll | backend/routes/products.js:40-48 | With no term and no applicable bound, every product passes. |
| ProductRoutes.OrderingFor | backend/routes/products.js:51-75 | `price-low`, `price-high`, `name-asc`, `name-desc` and `rating` each select their own ordering. Every other value, `newest` included, selects newest first. |
| ProductRoutes.LeIsPreorder | backend/routes/products.js:51-75 | Each ordering is a total preorder. |
| ProductRoutes.Ordered | backend/routes/products.js:81-86 | Returns a permutation of the products the filter admits, sorted by the ordering, each with its id. |
| ProductRoutes.ListProducts | backend/routes/products.js:9-105 | A category filter, the `rating` sort, or a price parameter given as `0` with no other bound (an empty price condition) gives 500, and nothing else does. Otherwise the rows are the window at offset (page−1)×limit, with defaults 1 and 100. totalPages is the ceiling of count/limit, and the filters are echoed back. |
| ProductRoutes.ListedIffAdmitted | backend/routes/products.js:27-48 | A product appears in the ordered result exactly when the filter admits it. |
| ProductRoutes.PriceLowStartsCheapest | backend/routes/products.js:54-56 | With `price-low`, the first row of page 1 costs no more than any admitted product. |
| ProductRoutes.GetProduct | backend/routes/products.js:108-118 | A missing id gives 404. Otherwise the reply is the stored product. |
| CardForm.GroupDigits | backend/frontend/src/components/Payment.js:27 | A space stands exactly at every fifth position, between digits, so a string of n digits becomes n + (n−1)/4 characters. |
| CardForm.UngroupDigits | backend/frontend/src/components/Payment.js:23-28 | Deleting the spaces from the grouped digits, or keeping only the digits, gives back exactly the digits. |
| CardForm.FormatCardNumber | backend/frontend/src/components/Payment.js:23-28 | The output holds only digits and spaces. Deleting the spaces gives exactly the digits of the input, and spaces sit exactly at positions 4, 9, 14 and so on. |
| CardForm.FormatCardNumberIdempotent | backend/frontend/src/components/Payment.js:23-28 | Formatting a formatted number changes nothing. |
| CardForm.FormattedSpacesAreInner | backend/frontend/src/components/Payment.js:27 | The output never starts or ends with a space and never has two spaces together. |
| CardForm.CardNumberFitsIff | backend/frontend/src/components/Payment.js:40-48 | The formatted length is at most 19 exactly when the input has at most 16 digits. |
| CardForm.FormatExpiryDate | backend/frontend/src/components/Payment.js:30-38 | Fewer than 2 digits come back unchanged. Otherwise the output is the first two digits, `/`, and the next ≤ 2 digits. The length is always ≤ 5. |
| CardForm.ExpiryCompleteIff | backend/frontend/src/components/Payment.js:64-66 | The formatted expiry is 5 characters long exactly when the input has at least 4 digits. |
| CardForm.OnCardEvent | backend/frontend/src/components/Payment.js:15-58 | A formatted card number is kept only if it is at most 19 characters long, and the expiry is always reformatted. The edited plain field (CVV, holder or billing address) takes the raw value, and the other plain fields keep theirs. |
| CardForm.OnCardEventKeepsWellFormed | backend/frontend/src/components/Payment.js:40-58 | Every change keeps the card number formatted with at most 16 digits, and the expiry at most 5 characters. |
| CardForm.TypedFormStaysWellFormed | backend/frontend/src/components/Payment.js:40-58 | Whatever is typed, the card number stays within 19 characters and the expiry within 5. |
| CardForm.EmptyCardWellFormed | backend/frontend/src/components/Payment.js:5-11 | The initial empty form already satisfies that invariant. |
| CardForm.ValidatePaymentData | backend/frontend/src/components/Payment.js:60-77 | Returns no problem exactly when all five checks pass. Otherwise it reports the first failing check, in the order card digits ≥ 16, expiry ≥ 5, CVV ≥ 3, holder, address. |
| CardForm.HandlersDecideChecks | backend/frontend/src/components/Payment.js:40-66 | For a form filled through the handlers, the card check passes exactly when 16 digits were typed. The expiry check passes exactly when at least 4 digits were typed. |
| CartItemView.Press | backend/frontend/src/components/CartItem.js:46-73 | `−` sends quantity−1 ≥ 1, and only while not updating and quantity > 1. `+` sends quantity+1, and only while not updating and quantity < the shown stock. Remove sends this line's id while not updating. A disabled button sends nothing. |
| CartItemView.SubtotalsAddUpToTotal | backend/frontend/src/components/CartItem.js:26 | The subtotals shown for a cart's lines add up to Σ price×quantity over those lines. |
| CartItemView.StoredTotalIsShownSum | backend/frontend/src/components/CartItem.js:26 | For a consistent cart, the shown subtotals add up to the stored total. |
| CartItemView.PlusAgreesWithServer | backend/frontend/src/components/CartItem.js:40-57 | When the page shows the current stock, `+` is enabled exactly when the server accepts the quantity it sends. |
| CartItemView.MissingProductDisablesPlus | backend/frontend/src/components/CartItem.js:40-57 | A line whose product row is gone shows a stock of 0, so `+` stays disabled. |
| CartItemView.MinusIsAccepted | backend/frontend/src/components/CartItem.js:6-49 | `−` never asks for less than 1, and the server sets exactly that quantity when the stock allows it. |
| CartItemView.RemoveDeletesShownLine | backend/frontend/src/components/CartItem.js:67-71 | The remove button deletes exactly the line it is shown on. |
| Checkout.ValidateShippingData | backend/frontend/src/pages/CheckoutPage.js:42-50 | Returns nothing exactly when every field has non-whitespace content. Otherwise it returns the message for the first blank field, in form order. |
| Checkout.ZipCodeMessage | backend/frontend/src/pages/CheckoutPage.js:46 | The message for `zipCode` is "zip code is required". |
| Checkout.FullNameMessage | backend/frontend/src/pages/CheckoutPage.js:46 | The message for `fullName` is "full name is required". |
| Checkout.PlainFieldMessage | backend/frontend/src/pages/CheckoutPage.js:46 | A field name without capitals is reported as itself plus " is required". |
| Text.TrimEmptyIffBlank | backend/frontend/src/pages/CheckoutPage.js:45 | `trim()` gives the empty string exactly when the text is only whitespace. |
| Text.SpaceBeforeCapitalsOnlyAddsSpaces | backend/frontend/src/pages/CheckoutPage.js:46 | Inserting spaces before capitals only adds spaces, each one directly before a capital. |
| Text.NoCapitalsUnchanged | backend/frontend/src/pages/CheckoutPage.js:46 | Text without capitals is unchanged by both the spacing and the lower-casing. |
| Checkout.ComposeShippingAddress | backend/frontend/src/pages/CheckoutPage.js:70 | The composed address is never empty. |
| Checkout.ComposedAddressLines | backend/frontend/src/pages/CheckoutPage.js:70 | When no field holds a newline, splitting the address at newlines gives the four lines: name, street, "city, state zip" and "Phone: phone". |
| Checkout.ComposedAddressIsStored | backend/frontend/src/pages/CheckoutPage.js:70-75 | The server stores the composed address as sent, never the default. |
| Checkout.SubmitShipping | backend/frontend/src/pages/CheckoutPage.js:52-75 | An order is requested exactly when the shipping data is valid and a method is selected. Otherwise the first error is shown. The request carries the composed address and the selected method. |
| Checkout.GetOrderTotal | backend/frontend/src/pages/CheckoutPage.js:92-99 | 0 without a cart. With a cart and a recognised method it is the total the order route gives an order for that cart and method (`OrderRoutes.OrderTotal`). |
| Checkout.ShownTotalIsOrderTotal | backend/frontend/src/pages/CheckoutPage.js:92-99 | The total shown before ordering equals the total the server gives the order it creates from that cart, and the stored address is the composed one. |
| Checkout.Render | backend/frontend/src/pages/CheckoutPage.js:261-267 | The payment view shows exactly in the payment step with an order. The confirmation shows exactly in the confirmation step with an order and a payment result. |
| Checkout.OnPageEvent | backend/frontend/src/pages/CheckoutPage.js:77-90 | The step moves only on a created order while the shipping view is shown (to payment) or a payment success while the payment view is shown (to confirmation). Data an earlier step needs is never lost, so every step keeps its view's data. |
| Checkout.StepsFollowReplies | backend/frontend/src/pages/CheckoutPage.js:261-267 | Whatever the replies, the payment step shows only after an order was created. The confirmation shows only after a payment succeeded following a creation. |
| Checkout.EditField | backend/frontend/src/pages/CheckoutPage.js:314-320 | Reading the edited credential back gives the new value, every other credential reads as before, and the form is no longer validated. |
| Checkout.CheckFor | backend/frontend/src/pages/CheckoutPage.js:322-341 | A validation request is made exactly for card or UPI with both credentials non-empty, and it carries those credentials. |
| Checkout.ValidateClick | backend/frontend/src/pages/CheckoutPage.js:322-348 | Missing credentials show the message and call nothing. An accepted check sets `validated` and a rejected one shows the server's error. Other methods validate at once. The credentials never change. |
| Checkout.ButtonFor | backend/frontend/src/pages/CheckoutPage.js:496-520 | The button is "Confirm COD Order" exactly for `cod`. Otherwise it is "Pay" exactly when validated, and "Validate Payment Details" when not. |
| Checkout.PayDetails | backend/frontend/src/pages/CheckoutPage.js:355-361 | Whenever a validation request exists, the pay details give the payment route the same channel, the same account key (`KeyIn`) and the same PIN. Other methods send nothing. |
| Checkout.ClientCheckMatchesServer | backend/frontend/src/pages/CheckoutPage.js:322-348 | Against the validate route, a check with both credentials given validates exactly when the PIN verifies for the matching account. The route's "required" error never reaches the component. |
| Checkout.ClientCheckWithoutAccount | backend/frontend/src/pages/CheckoutPage.js:322-348 | A check for a key that no active account holds gets the route's 404 for that channel, and the form stays unvalidated. |
| Checkout.PaySendsCheckedCredentials | backend/frontend/src/pages/CheckoutPage.js:350-367 | The pay request names the same channel, key and PIN as the check. |
| Checkout.OnPayEvent | backend/frontend/src/pages/CheckoutPage.js:496-520 | An edit always clears `validated`, and a validate click never changes the credentials. For card or UPI, the form becomes validated only through a click whose check was made and accepted by the server. |
| Checkout.PayOnlyAfterValidation | backend/frontend/src/pages/CheckoutPage.js:314-348 | For card or UPI, after any sequence of edits and clicks, "Pay" is on screen only if some check was accepted with the current credentials and nothing was edited since. |
| Checkout.CheckedCredentialsAreSent | backend/frontend/src/pages/CheckoutPage.js:355-367 | With unchanged credentials, the check and the pay request carry the same values. |
| Scenarios.CreatedOrderIsPayable | backend/routes/orders.js:116-144 | A newly created order is the caller's, pending/pending, and names only existing products. The products are unchanged. |
| Scenarios.CodCheckout | backend/routes/payment.js:136-142 | Creating a `cod` order from an orderable cart and then processing it with `cod` succeeds. The amount is the cart total + 40, the order ends paid/confirmed, the cart is emptied and no bank account changes. |
| Scenarios.UnknownMethodStrandsOrder | backend/routes/payment.js:272-287 | An unknown method marks the payment failed with the status still pending. `/process` then always gives 404 for that order, while the legacy pay route still accepts it. |
| Scenarios.CodRequestSettlesAnyOrder | backend/routes/payment.js:116-142 | A `cod` request settles a payable order of any stored method, at its stored total. No bank account changes and the stored method is kept. |
| Scenarios.TwoCheckoutsCanOversell | backend/routes/payment.js:245-251 | Two users can each order and pay for quantities that only the stock as a whole covers. The stock ends at the old stock minus both quantities. |

## Left out

- The second `POST /create` in `backend/routes/orders.js`, and the fragment before it: the first handler always answers, so they never run.
- `GET /orders` and `GET /orders/:id`, the product `POST /`, `GET /meta/categories` and `GET /payment/methods`: they only read and echo rows, or return fixed lists.
- `GET /profile/wishlist`: it is the same query as `GET /wishlist`, modelled once as `WishlistRoutes.ListWishlist`.
- The user model's validators and unique index on `email`: `backend/models/User.js` is not part of this model. Users are assumed to be stored as the routes write them, so a second empty email is accepted by the model wherever the route would write it.
- bcrypt hashing and comparison: uninterpreted, passed in as `Verifier` and a new hash.
- Clocks, random ids and the legacy gateway's coin flip: passed in as inputs.
- Concurrency: each request is one atomic transition. Interleavings of two requests on the same stock or balance are not modelled.
- Floating point: money is integer paise, so `parseFloat` and `toFixed(2)` rounding is not modelled, and price bounds are compared as paise.
- `setDate` across daylight-saving changes: a day is a fixed 86,400,000 ms.
- SQL `LIKE` collation and case folding: search is modelled as case-sensitive substring containment. A `%` or `_` in the search term is a wildcard to the database but is matched literally here.
- `ORDER BY name` follows the database collation; the model orders names by character code (`Sorting.LexLe`).
- PaymentRoutes.FindAccount: the account number or UPI id is matched by exact string equality. The route looks it up with `Bank.findOne`, where equality follows the column's collation; under MySQL's default collation that comparison ignores case (so `Rajesh@Paytm` finds `rajesh@paytm`). `Authenticate`, `Validate`, `PayFromAccount` and `ProcessPayment` inherit this.
- ProfileRoutes.UpdateProfile: an email counts as taken only when another user holds exactly the same string. The route's `User.findOne({ where: { email } })` compares under the column's collation, which under MySQL's default ignores case, so the route also refuses `Alice@x.com` when `alice@x.com` is held. `UpdateProfileKeepsEmailsUnique` is about exact equality for the same reason.
- ProfileRoutes.OrderedHistory: the status filter compares the stored status with the given text exactly. The route's `where.status` compares under the column's collation, which under MySQL's default ignores case, so `?status=PENDING` selects pending orders there but none in the model.
- Sequelize query details. Four things are assumed instead: an unknown column fails the query with 500; an undefined lookup key or a missing `paymentDetails` fails with 500; an empty condition object (`price: {}`) fails with 500; the database returns rows that tie under `ORDER BY` in one fixed relative order, the same in every query. The database does not promise this, so with tied `createdAt` values (or tied sort keys in the product list) consecutive pages could skip or repeat a row, which `ProfileRoutes.PagesAreConsecutive` does not cover.
- ProductRoutes.ListProducts: requires page and limit of at least 1. A page of 0 or less, or a negative limit, gives a negative `OFFSET` or `LIMIT`, which the database rejects; that error path is not modelled. A limit of 0 is accepted by the route and answered with 200, but its `totalPages` is `Math.ceil(count / 0)`, which is `Infinity` (or `NaN` when the count is 0) and is sent as `null`; the model's reply has an integer page count, so that case is left out.
- ProfileRoutes.OrderHistory: requires page and limit of at least 1, for the same reasons as `ListProducts`: a page of 0 or less or a negative limit makes the query fail, and a limit of 0 gives a non-integer `totalPages`.
- ProfileRoutes.OrderHistory: the count is modelled as the number of matching orders. The route calls `findAndCountAll` with its items and their products included and without `distinct`, so its count is the number of joined order–item rows (an order with no items counting once). `totalOrders`, `totalPages` and `hasNext` therefore differ from the route's whenever a listed order has more than one item; for example, two orders of three items each give the route a count of 6 and `hasNext` true on the only page, where the model gives 2 and false.
- The `processing` and `updating` flags while a request is in flight, and the interleaving of asynchronous replies: buttons are modelled between requests.
- The submit handler of the card form in `backend/frontend/src/components/Payment.js`: it calls `orderAPI.pay`, which the API client does not define.
- `maxLength` attributes of the form inputs and the CVV field: they are browser-side limits outside the handlers.
- Card-form lengths (19 for the number, 5 for the expiry) count Dafny characters; JavaScript's `length` counts UTF-16 code units, which differ only for characters outside the Basic Multilingual Plane.
- The confirmation component's rendering, and all styles and markup.
