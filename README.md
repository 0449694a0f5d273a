# NaijaAroma restaurant backend — a verified model of its resolvers

NaijaAroma is the GraphQL backend of a Nigerian restaurant. Customers sign up and sign in, browse the
menu, place delivery or pickup orders, send catering inquiries and write reviews. Admins manage the
menu, move orders and inquiries through their statuses and approve reviews. Card payments go through
Stripe, whose webhook marks an order as paid.

This project models the core of that backend in Dafny:

- **Request context.** `RequestContext.CreateContext` reads the `Authorization` header. The user comes
  from the database, never from the token.
- **Guards.** `requireAuth` and `requireAdmin` are modelled, together with the error classes they throw
  (`Errors`).
- **Input checks.** The Joi schemas are modelled as functions that list every failed rule
  (`Validation`), and so is the ObjectId check.
- **Resolvers.** The order, catering, review, menu and account resolvers keep their checks, in their
  order, with their error messages. A write runs only when every check passes.
- **Payment service.** The delivery-fee rule, the receipt and the webhook dispatch are modelled.

The database is one class, `Store.Database`, with one map per table. Each resolver that writes is a
method whose `modifies` clause names only the tables it touches. Its outcome is given by a pure function
of the old tables (`PlaceOrder`, `StatusUpdate`, `Cancellation`, `Approval`, …). Lemmas about those
functions state the properties of the resolvers:

- error precedence, and exactly when each call succeeds;
- who may see which row;
- the invariants every write keeps:
  - an order's total is the sum of its lines plus the fee it charged;
  - order numbers and category names are unique;
  - every menu item's category exists;
- the round trips (registering then logging in; approving twice; cancelling twice).

Things outside the code become parameters:

- the JWT signer and verifier;
- bcrypt's hash and compare;
- Stripe's `constructEvent`;
- Joi's e-mail and URI checks, and the clock (`Checks`);
- `Date.now()` and `Math.random()` in `generateOrderNumber`;
- the ids the store allocates.

The order resolvers exist in the repository only as compiled JavaScript
(`dist/resolvers/orderResolvers.js`). That file is the one cited below.

## Model

| member | source | states |
|---|---|---|
| Auth.ExtractTokenExactly | src/utils/auth.ts:58-67 | a token comes out of the header exactly when the header is `Bearer ` followed by a space-free token, and that token is the one returned; the token may be empty (`Bearer ` alone gives the empty token) |
| Auth.ExtractTokenRoundTrip | src/utils/auth.ts:58-67 | `Bearer <t>` gives back `t` for every space-free `t`, the empty one included |
| Auth.ExtractTokenRejects | src/utils/auth.ts:58-67 | no header, an empty header, a lower-case `bearer` and a header with three parts all give no token |
| Auth.RequireAuth | src/utils/auth.ts:69-73 | succeeds exactly when the context is authenticated and holds a user, and returns that user; otherwise AuthenticationError "Authentication required" |
| Auth.RequireAdmin | src/utils/auth.ts:75-80 | succeeds exactly when requireAuth does and the context is an admin's; an authentication failure comes first, then ForbiddenError "Admin access required" |
| Auth.RequireAdminErrorKinds | src/utils/auth.ts:69-80 | an anonymous caller gets an authentication error and a signed-in non-admin a forbidden error |
| Auth.GenerateOrderNumber | src/utils/auth.ts:82-86 | the number is `NA-`, then the upper-cased base-36 clock, then a dash, then the upper-cased characters 2 to 8 of the random text (at most six); no character is lower case |
| Strings.Base36RoundTrip | src/utils/auth.ts:83 | reading back the base-36 digits of the clock gives the clock |
| Strings.JoinSplit | src/utils/auth.ts:61 | joining the parts of a split on the separator gives the header back |
| Strings.SplitJoin | src/utils/auth.ts:61 | splitting a join of separator-free parts gives the parts back |
| Strings.ToUpperAppend | src/utils/auth.ts:85 | upper-casing the whole number is upper-casing each of its segments |
| RequestContext.CreateContext | src/context.ts:12-44 | authenticated exactly when the header yields a token, the token verifies and its user id is a row of the user table; then the user is that row; admin exactly when that row's role is ADMIN |
| Validation.ValidateObjectId | src/utils/validation.ts:110-116 | accepts exactly the 24-character hexadecimal strings; otherwise ValidationError "Invalid <field> format" |
| Validation.LookaheadFindsMeans | src/utils/validation.ts:7 | each `(?=.*[class])` lookahead holds exactly when a character of that class comes before the first line break |
| Validation.PasswordAccepted | src/utils/validation.ts:5-12 | a password passes exactly when it has at least 8 characters and a lower-case letter, an upper-case letter and a digit before its first line break |
| Validation.SingleLinePasswordAccepted | src/utils/validation.ts:5-12 | for a one-line password: at least 8 characters and at least one lower-case letter, one upper-case letter and one digit |
| Validation.PhonePatternMeans | src/utils/validation.ts:15-20 | the phone pattern holds exactly when the string is an optional `+234`, `234` or `0`, then 7, 8 or 9, then 0 or 1, then eight digits; such a number has 10, 11, 13 or 14 characters |
| Validation.ItemsAccepted | src/utils/validation.ts:54-60 | the item list raises no error exactly when every item is valid |
| Validation.OrderInputAccepted | src/utils/validation.ts:52-72 | the order schema raises no error exactly when every field rule holds, an address of 10 to 200 characters included for a DELIVERY order |
| Validation.ReviewInputAccepted | src/utils/validation.ts:86-89 | a review passes exactly when the rating is 1 to 5 and the comment has 10 to 500 characters |
| Validation.ValidateInput | src/utils/validation.ts:99-108 | the input comes back unchanged exactly when no rule failed; otherwise a ValidationError |
| Validation.ValidateInputReportsAll | src/utils/validation.ts:100-104 | every failed rule's message appears, whole, in the joined error message (`abortEarly: false`) |
| Payment.DeliveryFeeRule | src/services/paymentService.ts:123-135 | the fee is 0 from the free-delivery threshold up (inclusive) and the default fee below it; the location never changes it |
| Payment.GenerateReceiptData | src/services/paymentService.ts:140-154 | the receipt's total is the order's total, its fee is the stored fee or 0, subtotal plus fee is the total, and it is a paid card payment under the intent's id |
| Payment.HandleWebhookEvent | src/services/paymentService.ts:87-92 | with no webhook secret, or an empty one, the call fails before anything is read |
| Payment.WebhookOutcomes | src/services/paymentService.ts:93-117 | a payload whose signature does not check fails with "Invalid webhook signature"; a checked event maps `payment_intent.succeeded`, `payment_intent.payment_failed` and any other type to their outcomes |
| Payment.PaymentSucceededOnlyFromVerifiedEvent | src/services/paymentService.ts:87-117 | a success outcome for an order comes only from a verified `payment_intent.succeeded` event for that order |
| OrderResolvers.Orders | dist/resolvers/orderResolvers.js:7-18 | needs authentication; lists only orders of the table |
| OrderResolvers.OrderById | dist/resolvers/orderResolvers.js:19-33 | succeeds exactly when the caller is signed in, the id is well formed, the order exists and the caller is its owner or an admin; returns that row |
| OrderResolvers.OrderByIdErrors | dist/resolvers/orderResolvers.js:19-33 | the errors in the order they are checked: authentication, id format, not found, "Access denied" |
| OrderResolvers.OrdersAgreeWithOrderById | dist/resolvers/orderResolvers.js:7-33 | an order is in the caller's list exactly when the caller may fetch it by id |
| OrderResolvers.OrderByNumber | dist/resolvers/orderResolvers.js:34-47 | a result is an order of the table with that number that the caller may see; an unused number is "Order not found" |
| OrderResolvers.OrderByNumberIsOrderById | dist/resolvers/orderResolvers.js:19-47 | with unique order numbers, looking an order up by number or by id gives the same answer |
| OrderResolvers.SubsetCard | dist/resolvers/orderResolvers.js:64 | a subset is no larger, and a subset just as large is the whole set |
| OrderResolvers.ElementsCard | dist/resolvers/orderResolvers.js:64 | a list has as many distinct elements as entries exactly when no entry repeats |
| OrderResolvers.AvailableCountMeans | dist/resolvers/orderResolvers.js:58-66 | the count check passes exactly when every requested item exists and is available and no item is requested twice |
| OrderResolvers.PriceLines | dist/resolvers/orderResolvers.js:68-82 | succeeds exactly when every requested item was fetched; the lines are `Lines` and the subtotal is their sum; otherwise "Menu item <id> not found" for the first missing one |
| OrderResolvers.OrderFeeAgreesWithPaymentService | dist/resolvers/orderResolvers.js:84-91 | a DELIVERY order is charged what the payment service's fee rule charges; a PICKUP order nothing |
| OrderResolvers.PlaceOrderAccepts | dist/resolvers/orderResolvers.js:50-117 | createOrder succeeds exactly when the caller is signed in, the input is valid, every id is well formed, every item is available and none repeats, and the new number is unused |
| OrderResolvers.PlaceOrderErrors | dist/resolvers/orderResolvers.js:50-66 | the errors in the order they are checked, a repeated item included as "One or more menu items are not available" |
| OrderResolvers.PlacedOrderContents | dist/resolvers/orderResolvers.js:68-115 | the new order belongs to the caller, is PENDING, copies the input, prices each line from the menu, and its total is the line sum plus the fee |
| OrderResolvers.PlaceOrderKeepsInvariant | dist/resolvers/orderResolvers.js:50-117 | adding the new order keeps every total consistent with its lines and fee, and keeps order numbers unique |
| OrderResolvers.CheckMenuItemIds | dist/resolvers/orderResolvers.js:54-57 | succeeds exactly when every requested id is well formed; otherwise "Invalid Menu item ID format" |
| OrderResolvers.CreateOrder | dist/resolvers/orderResolvers.js:50-117 | the outcome is `PlaceOrder` on the old tables; only a success adds the order, under its new id |
| OrderResolvers.InsertOrder | dist/resolvers/orderResolvers.js:58-115 | from the availability check on, the outcome is `PlaceAvailableItems`; only a success writes |
| OrderResolvers.StatusUpdate | dist/resolvers/orderResolvers.js:118-141 | admin only; sets the status, stamps the delivery time on DELIVERED, sets the estimated time when given, and changes nothing else |
| OrderResolvers.StatusUpdateKeepsInvariant | dist/resolvers/orderResolvers.js:118-141 | a status update keeps totals consistent and order numbers unique |
| OrderResolvers.StatusUpdateAnyTransition | dist/resolvers/orderResolvers.js:118-141 | an admin may set any status on any existing order, even a cancelled or delivered one |
| OrderResolvers.UpdateOrderStatus | dist/resolvers/orderResolvers.js:118-141 | the outcome is `StatusUpdate` on the old table; only a success writes |
| OrderResolvers.Cancellation | dist/resolvers/orderResolvers.js:142-163 | succeeds exactly when the caller may fetch the order and it is neither DELIVERED nor CANCELLED; only the status changes, to CANCELLED |
| OrderResolvers.CancellationErrors | dist/resolvers/orderResolvers.js:142-163 | the fetch errors come first; a final order is refused with a ValidationError |
| OrderResolvers.CancelTwiceFails | dist/resolvers/orderResolvers.js:155-158 | cancelling an order again is refused |
| OrderResolvers.CancellationKeepsInvariant | dist/resolvers/orderResolvers.js:142-163 | a cancellation keeps totals consistent and order numbers unique |
| OrderResolvers.CancelOrder | dist/resolvers/orderResolvers.js:142-163 | the outcome is `Cancellation` on the old table; only a success writes |
| OrderResolvers.ReceiptOfStoredOrder | src/services/paymentService.ts:146-148 | for an order the resolvers created, the receipt's subtotal is the sum of its lines and its fee is the fee charged |
| CateringResolvers.CateringInquiries | src/resolvers/cateringResolvers.ts:20-38 | needs authentication; lists only inquiries of the table |
| CateringResolvers.CateringInquiryById | src/resolvers/cateringResolvers.ts:40-58 | succeeds exactly when the caller is signed in, the id is well formed, the inquiry exists and the caller is an admin, its linked account or an account with its e-mail address |
| CateringResolvers.CateringInquiryByIdErrors | src/resolvers/cateringResolvers.ts:40-58 | the errors in the order they are checked |
| CateringResolvers.CateringListAgreesWithSingle | src/resolvers/cateringResolvers.ts:29-37 | the list's OR filter admits exactly the inquiries the single query lets the caller see |
| CateringResolvers.NewInquiry | src/resolvers/cateringResolvers.ts:62-85 | succeeds exactly when the input is valid; otherwise one ValidationError with every message |
| CateringResolvers.NewInquiryContents | src/resolvers/cateringResolvers.ts:62-85 | the new inquiry copies the input, is INQUIRY with no quote and no notes, and is linked to the caller's account exactly when the caller is signed in |
| CateringResolvers.SenderSeesNewInquiry | src/resolvers/cateringResolvers.ts:40-85 | a signed-in sender can read the inquiry back |
| CateringResolvers.CreateCateringInquiry | src/resolvers/cateringResolvers.ts:62-85 | the outcome is `NewInquiry`; only a success writes |
| CateringResolvers.CateringStatusUpdate | src/resolvers/cateringResolvers.ts:87-130 | admin only; the status is always set, the quote and the notes only when given, nothing else changes |
| CateringResolvers.CateringStatusUpdateKeepsAccess | src/resolvers/cateringResolvers.ts:87-130 | an update never changes who may see the inquiry and keeps the table consistent |
| CateringResolvers.UpdateCateringStatus | src/resolvers/cateringResolvers.ts:87-130 | the outcome is `CateringStatusUpdate` on the old table; only a success writes |
| ReviewResolvers.Reviews | src/resolvers/reviewResolvers.ts:13-19 | admin only; every review |
| ReviewResolvers.ApprovedReviews | src/resolvers/reviewResolvers.ts:21-26 | only reviews of the table |
| ReviewResolvers.ReviewById | src/resolvers/reviewResolvers.ts:28-51 | succeeds exactly when the id is well formed, the review exists and it is approved or the caller is an admin or its author |
| ReviewResolvers.ReviewByIdErrors | src/resolvers/reviewResolvers.ts:28-51 | format, not found, then "Access denied"; never an authentication error |
| ReviewResolvers.ApprovedAreThePublicOnes | src/resolvers/reviewResolvers.ts:21-51 | the public list holds exactly the reviews an anonymous caller may fetch one by one |
| ReviewResolvers.NewReview | src/resolvers/reviewResolvers.ts:55-67 | succeeds exactly when the caller is signed in, the rating is 1 to 5 and the comment 10 to 500 characters; the row is the caller's and not approved |
| ReviewResolvers.NewReviewHiddenButReadable | src/resolvers/reviewResolvers.ts:21-67 | a new review leaves the public list unchanged yet its author can read it |
| ReviewResolvers.CreateReview | src/resolvers/reviewResolvers.ts:55-67 | the outcome is `NewReview`; only a success writes |
| ReviewResolvers.Approval | src/resolvers/reviewResolvers.ts:69-85 | admin only; succeeds exactly for an existing review and sets only its approval flag |
| ReviewResolvers.ApprovalIdempotentAndPublishes | src/resolvers/reviewResolvers.ts:69-85 | approving twice writes the same row; an approved review is listed and anyone may fetch it |
| ReviewResolvers.ApproveReview | src/resolvers/reviewResolvers.ts:69-85 | the outcome is `Approval` on the old table; only a success writes |
| ReviewResolvers.Deletion | src/resolvers/reviewResolvers.ts:87-104 | admin only; succeeds exactly for an existing review |
| ReviewResolvers.DeletionRemovesOnlyThat | src/resolvers/reviewResolvers.ts:87-104 | after a deletion the review is not found, deleting it again is not found, and every other review is unchanged |
| ReviewResolvers.DeleteReview | src/resolvers/reviewResolvers.ts:87-104 | the outcome is `Deletion` on the old table; a success removes that row only |
| MenuResolvers.ActiveCategories | src/resolvers/menuResolvers.ts:46-51 | exactly the active categories |
| MenuResolvers.CategoryById | src/resolvers/menuResolvers.ts:53-65 | succeeds exactly for a well-formed id of an existing category; otherwise the format error or "Category not found" |
| MenuResolvers.MenuListsAgreeWithMenuItemById | src/resolvers/menuResolvers.ts:67-104 | `menuItems` lists exactly the items `menuItem(id)` can fetch, and `availableMenuItems` is the available part of that list |
| MenuResolvers.MenuItemById | src/resolvers/menuResolvers.ts:73-85 | succeeds exactly for a well-formed id of an existing item; otherwise the format error or "Menu item not found" |
| MenuResolvers.AvailableMenuItems | src/resolvers/menuResolvers.ts:99-104 | exactly the available items of the table |
| MenuResolvers.MenuItemsByCategory | src/resolvers/menuResolvers.ts:87-97 | fails only on a malformed category id |
| MenuResolvers.ListsShowOnlyAvailable | src/resolvers/menuResolvers.ts:46-104 | the per-category list is exactly the available items of that category; unavailable items and inactive categories are never listed |
| MenuResolvers.CreateCategory | src/resolvers/menuResolvers.ts:108-125 | admin, then validation, then "Category name already exists"; a success adds the row; the catalogue invariant is kept |
| MenuResolvers.UpdateCategory | src/resolvers/menuResolvers.ts:127-154 | admin, id format, not found, then a conflict only when the name changes to one already taken; a success writes the patched row; the catalogue invariant is kept |
| MenuResolvers.KeepingNameIsNoConflict | src/resolvers/menuResolvers.ts:138-148 | a patch that keeps the category's name never meets another category holding it |
| MenuResolvers.DeleteCategory | src/resolvers/menuResolvers.ts:156-179 | a category with menu items is refused with "Cannot delete category with existing menu items"; a success removes that row only; the catalogue invariant is kept |
| MenuResolvers.CreateMenuItem | src/resolvers/menuResolvers.ts:181-199 | admin, validation, "Invalid Category ID format", then the category must exist; a success adds the row; the catalogue invariant is kept |
| MenuResolvers.UpdateMenuItem | src/resolvers/menuResolvers.ts:201-230 | admin, id format, not found, a new category must exist; a success writes the patched row; the catalogue invariant is kept |
| MenuResolvers.DeleteMenuItem | src/resolvers/menuResolvers.ts:232-249 | admin only; a success removes that row only; the catalogue invariant is kept |
| AccountResolvers.Me | src/resolvers/authResolvers.ts:20-23 | the caller's own row, or "Authentication required" |
| AccountResolvers.Users | src/resolvers/authResolvers.ts:25-30 | admin only; every user |
| AccountResolvers.Register | src/resolvers/authResolvers.ts:34-82 | succeeds exactly when the input is valid and neither the e-mail address nor the username is taken; the conflict message names what clashed; a success adds a CUSTOMER with the hashed password and returns a token for it; the unique indexes are kept |
| AccountResolvers.Login | src/resolvers/authResolvers.ts:84-121 | invalid input is a ValidationError; a success is a token for the user with that address whose stored hash matches; under the unique e-mail index, a registered address with a matching password always logs in |
| AccountResolvers.LoginFailuresUniform | src/resolvers/authResolvers.ts:93-105 | an unknown address and a wrong password give the same "Invalid email or password" |
| AccountResolvers.RegisterThenLogin | src/resolvers/authResolvers.ts:34-121 | registering then logging in with the same address and password issues a token for the new user |

## Left out

- Money is a decimal (`real`). JavaScript's floating-point rounding of prices, quantities and fees is not modelled, nor is Joi's `precision(2)`.
- Lengths are counted in characters. JavaScript counts UTF-16 code units.
- Strings are compared exactly. No Unicode normalisation or case folding is modelled.
- Joi's own message texts ("\"name\" is required" and so on) are modelled as one fixed phrasing per rule. Only the custom messages of the password and phone schemas are the source's exact words.
- Joi's value conversion is not modelled. The validated value is the input itself.
- Joi's e-mail and URI grammars are not modelled. They are the `isEmail` and `isUri` parameters of `Checks`.
- `Date` parsing is not modelled. Times are integers of milliseconds.
- The text of errors raised by the database (a unique-index violation, a malformed ObjectId) is not the driver's wording. Those errors are `Internal` with a fixed message.
- Lists are sets. The `orderBy` ordering of every list query, and the `include` of related rows, are not modelled.
- Explicit GraphQL `null` arguments are not modelled. An optional argument is present or absent.
- `createdAt` and `updatedAt` are not modelled.
- A user's `isVerified` column is not modelled. `register` and `login` return it through `...user`, and the returned user here carries every other column but the password.
- An order's `stripePaymentId` column is not modelled.
- The order's `paymentStatus` column is not modelled. The webhook route that would set it is outside the core.
- The field resolvers that load related rows (an order's user and items, for example) are not modelled.
- `createPaymentIntent`, the Stripe client, the e-mail service, the gallery and settings resolvers, the upload helpers and the HTTP middleware are outside the core.
- Console logging is not modelled.
- JWT signing and verification, bcrypt's salted hashing and Stripe's signature check are foreign calls. They are parameters, and `hash` is deterministic.
- Reading the fee configuration from the environment (`parseFloat`, a missing or non-numeric value) is left out. The configuration is a parameter.
- What the database does to order lines when a menu item they reference is deleted is left out. `DeleteMenuItem` models only the menu table.
- Concurrency is left out. Two requests racing on the same order number or category name are not modelled; each resolver is one atomic step.
- OrderResolvers.OrderByNumber: is a ghost function. It picks one matching order, which is the source's result only when order numbers are unique; `OrderByNumberIsOrderById` states that case.
- AccountResolvers.Login: is a ghost function. It picks one user with the address, which is the source's result only under the unique e-mail index; `LoginFailuresUniform` assumes that index.
- AccountResolvers.Register: when one user holds the e-mail address and another the username, the message depends on which row the database's `findFirst` meets first. The contract allows either.
- OrderResolvers.PlaceOrderKeepsInvariant: needs a non-negative default delivery fee. A negative configured fee would be stored as no fee while the total still subtracts it.
- Order numbers are not claimed unique. Two orders placed in the same millisecond with the same random suffix fail on the store's unique index, which the model reports as an internal error.
