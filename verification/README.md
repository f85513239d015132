# Order actions of Plan-Your-Own-Party, modelled in Dafny

Plan-Your-Own-Party is an event-listing and ticketing web application. Its
only real logic is in the server actions of `lib/actions/order.actions.ts`.
This project models those computations as pure functions and proves what
they promise:

- **Checkout** (`checkoutOrder`). The charge in paise, the receipt id sent to
  the Razorpay payment gateway, the order-creation request, and the redirect
  to the payment page.
- **Signature** (`verifyRazorpaySignature`). The message signed for a
  payment callback, and the exact-equality decision on the claimed signature.
  HMAC-SHA256 with its hex digest is a function-typed parameter `mac`, left
  uninterpreted.
- **OrdersByEvent** (`getOrdersByEvent`). The aggregation pipeline as a list
  computation: `$lookup`/`$unwind` of buyer and event, `$project`, and
  `$match` on the event id and on the buyer name. Before the pipeline, the
  event id is checked.
- **OrdersByUser** (`getOrdersByUser`). The skip/limit window over a buyer's
  orders and the page count.
- **Text** and **Results** are shared helpers. Text holds `slice(0, n)`, ASCII
  case folding, substring search, and splitting at a separator. Results holds
  the `Option` and `Result` types that stand in for thrown errors.

The database and the gateway are parameters of the model:

- the gateway's order creation is a function from the request to an order id
  or an error;
- the collections are a sequence of orders plus maps from `_id` to users and
  to events. MongoDB keeps `_id` unique.

Points where the model follows the code closely:

- The comments at lib/actions/order.actions.ts:24 and :32 promise a receipt
  id under 40 characters. The id the code builds has at most 29
  (`Checkout.ReceiptId`).
- The signature comparison at lib/actions/order.actions.ts:52 is plain `===`.
  `Signature.VerifySignature` models its decision; timing is not modelled.
- `createOrder` (lib/actions/order.actions.ts:60-74) stores the order it is
  given and checks no signature.
- `getOrdersByUser` chains `Order.distinct('event._id').find(conditions)`. The
  later `find` (and `countDocuments`) replaces the `distinct` operation, so the
  query is a plain find on `{ buyer: userId }`, and that is what is modelled.
- `new ObjectId(eventId)` throws for anything but 24 hex digits, and Mongoose's
  cast of `userId` in the `{ buyer: userId }` filter fails the same way. This follows
  the behaviour of the bson library shipped with the version 6 MongoDB driver.
  Upper-case digits are accepted and denote the same id as lower-case ones.
  Stored ids are compared in the lower-case form `toHexString` gives.

## Model

| member | source | states |
|---|---|---|
| `Text.Take` | lib/actions/order.actions.ts:25 | `slice(0, n)` gives the first `n` characters, or the whole string when it is shorter |
| `Text.Lower` | lib/actions/order.actions.ts:121 | case folding keeps the length and lower-cases each ASCII letter, leaving every other character alone |
| `Text.Contains` | lib/actions/order.actions.ts:121 | a pattern longer than the text is never found, and the empty pattern is always found |
| `Text.MatchesIgnoreCase` | lib/actions/order.actions.ts:121 | a name matches the search exactly when the folded search occurs at some index of the folded name |
| `Text.ContainsIff` | lib/actions/order.actions.ts:121 | the substring search succeeds exactly when the pattern occurs at some index |
| `Text.OccurrenceMatches` | lib/actions/order.actions.ts:121 | a pattern that occurs verbatim in a name matches it case-insensitively |
| `Text.EmptyPatternMatchesAll` | lib/actions/order.actions.ts:121 | an empty search string matches every buyer name |
| `Text.MatchIgnoresCase` | lib/actions/order.actions.ts:121 | lower-casing the name or the search never changes whether they match |
| `Text.LowerIdempotent` | lib/actions/order.actions.ts:121 | folding case twice is folding it once |
| `Checkout.ChargeAmount` | lib/actions/order.actions.ts:22 | a free ticket costs 0 paise; otherwise the amount divided by 100 is the rupees and the remainder is the paise of the price |
| `Checkout.ChargeIsHundredTimesPrice` | lib/actions/order.actions.ts:22 | a paid ticket's amount is exactly 100 times its exact decimal price |
| `Checkout.FreeTicketChargesNothing` | lib/actions/order.actions.ts:22 | a free ticket is charged 0 whatever its price |
| `Checkout.ChargeExample` | lib/actions/order.actions.ts:22 | a price of 499.00 is charged 49900 paise |
| `Checkout.ReceiptId` | lib/actions/order.actions.ts:24-25 | the receipt id starts with `receipt_` and has 9 to 29 characters, so it stays under the 40-character ceiling |
| `Checkout.ReceiptRoundTrip` | lib/actions/order.actions.ts:25 | parsing a receipt id gives back exactly the 10-character prefixes of the event id and the buyer id, when the event id's prefix has no underscore |
| `Checkout.ReceiptDependsOnlyOnPrefixes` | lib/actions/order.actions.ts:25 | ids that share their first 10 characters give the same receipt id |
| `Checkout.ReceiptDeterminesPrefixes` | lib/actions/order.actions.ts:25 | equal receipt ids mean equal 10-character prefixes, for underscore-free event ids |
| `Checkout.DistinctIdsCanShareReceipt` | lib/actions/order.actions.ts:25 | two different object ids that agree in their first 10 hex digits give the same receipt id |
| `Checkout.PaymentRequestFor` | lib/actions/order.actions.ts:22-37 | the gateway request is in INR for the charge amount, which is 100 times the price or 0 when free. Its receipt is the receipt id of the event and buyer, within 40 characters. Its notes hold the event and buyer ids |
| `Checkout.CheckoutOrder` | lib/actions/order.actions.ts:21-44 | checkout succeeds exactly when the gateway creates the order; the redirect starts with `/payment?order_id=` and carries the gateway order id; a gateway error reaches the caller unchanged |
| `Checkout.CheckoutAsksOnlyForThisOrder` | lib/actions/order.actions.ts:29-40 | checkout depends on the gateway only through its answer to this order's request |
| `Signature.SignedMessage` | lib/actions/order.actions.ts:49 | the signed message is the order id, then a vertical bar, then the payment id |
| `Signature.SignedMessageRoundTrip` | lib/actions/order.actions.ts:49 | splitting the message at its first vertical bar gives back both ids, when the order id has no vertical bar |
| `Signature.SignedMessageInjective` | lib/actions/order.actions.ts:49 | distinct id pairs give distinct messages, when the order ids have no vertical bar |
| `Signature.SeparatorInOrderIdIsAmbiguous` | lib/actions/order.actions.ts:49 | without that condition, two different id pairs give the same message |
| `Signature.VerifySignature` | lib/actions/order.actions.ts:47-57 | a callback is accepted exactly when its signature equals the MAC of the signed message under the secret |
| `Signature.AtMostOneValidSignature` | lib/actions/order.actions.ts:52-56 | for a given order and payment, at most one signature is accepted |
| `Signature.MutatedSignatureRejected` | lib/actions/order.actions.ts:52-56 | changing any one character of an accepted signature, including its case, gets it rejected |
| `Orders.IsObjectIdHex` | lib/actions/order.actions.ts:82 | an id the constructor accepts is non-empty and folds to a canonical id of 24 lower-case hex digits |
| `Orders.ParseObjectId` | lib/actions/order.actions.ts:82 | `new ObjectId` succeeds exactly on 24 hex digits of either case, giving the canonical lower-case id |
| `Orders.ParseCanonicalObjectId` | lib/actions/order.actions.ts:82 | a canonical id parses to itself |
| `OrdersByEvent.FullName` | lib/actions/order.actions.ts:114-116 | the buyer name is the first name, then one space, then the last name, at those positions |
| `OrdersByEvent.Keep` | lib/actions/order.actions.ts:120-122 | a row is kept exactly when it is for the event and the folded search occurs in the folded buyer name |
| `OrdersByEvent.Project` | lib/actions/order.actions.ts:107-118 | a row keeps the order's id, amount and creation time, takes the event's title and id, and has the buyer's first name, a space, and last name |
| `OrdersByEvent.RowOf` | lib/actions/order.actions.ts:84-106 | an order gives one row when both its buyer and its event exist, and none otherwise |
| `OrdersByEvent.Join` | lib/actions/order.actions.ts:84-118 | the join has at most one row per order |
| `OrdersByEvent.Match` | lib/actions/order.actions.ts:119-123 | every kept row is for the event and matches the search, and no rows are added |
| `OrdersByEvent.GetOrdersByEvent` | lib/actions/order.actions.ts:77-124 | an empty event id fails with "Event ID is required"; an id that is not 24 hex digits fails; otherwise every row is for that event (in canonical form) and its buyer name matches the search |
| `OrdersByEvent.JoinDistributes` | lib/actions/order.actions.ts:84-118 | joining concatenated order lists concatenates their joins, so rows keep the orders' order |
| `OrdersByEvent.UnresolvedOrderDropped` | lib/actions/order.actions.ts:93-106 | an order whose buyer or event is missing gives no row |
| `OrdersByEvent.JoinSound` | lib/actions/order.actions.ts:84-118 | every joined row is the projection of an input order whose buyer and event exist |
| `OrdersByEvent.JoinComplete` | lib/actions/order.actions.ts:84-118 | every order whose buyer and event exist contributes its projection |
| `OrdersByEvent.MatchMembership` | lib/actions/order.actions.ts:119-123 | a row survives the match exactly when it was in the input and meets both conditions |
| `OrdersByEvent.MatchIsSubsequence` | lib/actions/order.actions.ts:119-123 | the match keeps an order-preserving subsequence of its input |
| `OrdersByEvent.ReportedRowsComeFromOrders` | lib/actions/order.actions.ts:81-124 | each reported row projects an input order that resolves, is for the requested event, and whose buyer's full name matches |
| `OrdersByEvent.MatchingOrdersReported` | lib/actions/order.actions.ts:81-124 | each input order that resolves, is for the requested event, and whose buyer's full name matches is reported |
| `OrdersByEvent.ReportPreservesOrder` | lib/actions/order.actions.ts:84-124 | the report is an order-preserving subsequence of the joined rows |
| `OrdersByUser.SkipAmount` | lib/actions/order.actions.ts:137 | the skip is non-negative exactly when the page number is at least 1 |
| `OrdersByUser.LimitOrDefault` | lib/actions/order.actions.ts:133 | the page size is the caller's limit, or 3 when none is given |
| `OrdersByUser.CeilDiv` | lib/actions/order.actions.ts:157 | the page count times the limit covers the count, and one page fewer does not |
| `OrdersByUser.CeilDivUnique` | lib/actions/order.actions.ts:157 | those two bounds single out the page count |
| `OrdersByUser.OrdersOf` | lib/actions/order.actions.ts:138-141 | the selected orders are exactly the input orders whose buyer is the (already cast) user id |
| `OrdersByUser.OrdersOfDistributes` | lib/actions/order.actions.ts:138-141 | selecting from a concatenation concatenates the selections, so the user's orders keep their input order |
| `OrdersByUser.OrdersOfKeepsNewestFirst` | lib/actions/order.actions.ts:138-142 | selecting from a newest-first list leaves the user's orders newest first |
| `OrdersByUser.WindowNewestFirst` | lib/actions/order.actions.ts:142-144 | a skip/limit window of a newest-first list is newest first |
| `OrdersByUser.PageNewestFirst` | lib/actions/order.actions.ts:137-144 | every page of a newest-first order list is newest first |
| `OrdersByUser.Window` | lib/actions/order.actions.ts:143-144 | a window holds at most `limit` items, is the run starting at the skip, is full when enough items remain, and is empty exactly when the skip passes the end |
| `OrdersByUser.GetOrdersByUser` | lib/actions/order.actions.ts:133-159 | a user id that is not 24 hex digits fails the cast; otherwise a page below 1 fails with a negative skip. Otherwise: the data holds at most `limit` orders (3 by default), all bought by the cast id; they are that buyer's orders from position `(page-1)*limit` on; the page count is `ceil(count/limit)`; and the page is non-empty exactly when its number is at most the page count |
| `OrdersByUser.UserIdCaseIgnored` | lib/actions/order.actions.ts:138-144 | a user id in upper-case hex gives the same result as its lower-case form, because the id is cast before the query |
| `OrdersByUser.PageInRangeIff` | lib/actions/order.actions.ts:137-157 | the skip is below the count exactly when the page number is at most the page count |
| `OrdersByUser.DefaultSecondPage` | lib/actions/order.actions.ts:133-144 | with the default limit, page 2 skips 3 orders and shows at most the next 3 |
| `OrdersByUser.PageIsWindow` | lib/actions/order.actions.ts:137-144 | a page's data is the skip/limit window over the user's orders |
| `OrdersByUser.WindowsCoverRest` | lib/actions/order.actions.ts:137-157 | reading the windows from one page to the last gives every item from that page's skip on |
| `OrdersByUser.PagesPartitionOrders` | lib/actions/order.actions.ts:137-157 | when every page is read from one and the same ordered list of orders, pages 1 to the page count read in turn are exactly the user's orders, none missed or repeated |

## Left out

- The Razorpay client setup (lib/actions/order.actions.ts:15-18) and the network call `razorpay.orders.create`. These are foreign I/O; the call is the `gateway` parameter of `Checkout.CheckoutOrder`.
- Next.js `redirect` works by throwing. The `catch` block rethrows it, so the function ends in the redirect. That control transfer is modelled as the `Ok` result carrying the target.
- Checkout.ChargeAmount: the source computes `Number(order.price) * 100` in floating point, so a price such as 19.99 can come out as a non-integer. The model takes the price as an exact decimal (rupees and paise) and does not model float rounding.
- Text.Take: JavaScript's `slice(0, 10)` counts UTF-16 code units, while a Dafny string counts Unicode scalar values. For ids with characters outside the Basic Multilingual Plane, the model keeps up to 10 such characters (up to 20 code units), where JavaScript keeps 10 code units and may split a surrogate pair. Object ids are ASCII hex, where the two agree.
- HMAC-SHA256 and hex encoding (`crypto.createHmac`) are a foreign cryptographic primitive, so they are the uninterpreted `mac` parameter. The secret is a parameter rather than an environment variable.
- OrdersByEvent.GetOrdersByEvent: `RegExp(searchString, 'i')` is modelled as an ASCII case-folded substring match. It agrees with the regex only for search strings without regex metacharacters; a metacharacter can change the match or, for an unbalanced `(`, throw. Case folding of non-ASCII letters is not modelled.
- OrdersByEvent.GetOrdersByEvent: an `undefined` event id is treated like the empty string, which gets the same "Event ID is required" error. `createdAt` is an integer timestamp, and `totalAmount` is kept as the stored string.
- OrdersByUser.GetOrdersByUser: a limit of 0 or below is not modelled. The `Limit` type is positive because `Math.ceil(count / 0)` is Infinity or NaN, and MongoDB reads `limit(0)` as "no limit". `Math.ceil` over doubles is modelled as exact integer ceiling division, which agrees for counts below 2^53.
- OrdersByUser.GetOrdersByUser: the `createdAt`-descending sort, `populate` of event and organizer, and `JSON.parse(JSON.stringify(...))` are database and serialisation work. The model takes the orders in sorted order and returns them unpopulated.
- OrdersByUser.GetOrdersByUser: `Number(page)` can be fractional or NaN. The model takes the page as an integer and does not model non-integer pages.
- OrdersByUser.GetOrdersByUser: the page data (lib/actions/order.actions.ts:140-153) and the count (line 155) are two separate, non-atomic reads. The model derives both from one snapshot of the orders, so an order written between the two reads is not modelled.
- OrdersByUser.PagesPartitionOrders: each page is a separate query. The lemma assumes every page request sees the same orders in the same order. That needs distinct `createdAt` values or a stable tie-break, and no writes between requests. The source sorts on `createdAt` alone, and MongoDB gives documents with equal `createdAt` no fixed order from one query to the next. A tied order can then appear on two pages or on none, and an order written between page requests shifts the pages.
- `createOrder` (lib/actions/order.actions.ts:60-74) and `connectToDatabase` are persistence I/O with no logic of their own.
- `handleError` (lib/utils) is not part of this model. Its errors become `Err` results here.
- Idempotence and uniqueness of order creation are not implemented anywhere in this code, so there is nothing to verify.
- `components/shared/EventForm.tsx` (form UI) and `app/api/events/route.ts` (insert/find plumbing with no logic) are outside the modelled core.
