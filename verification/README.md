# Verified models of the ivy server

The ivy server is a fashion shop: a NestJS service over MongoDB, Redis and VNPay. This project models
the parts of it that hold its state and its arithmetic, and proves what they keep.

| area | files |
|---|---|
| orders, stock, prices, payments | `Ledger.dfy`, `OrderService.dfy`, `StockTheorems.dfy`, `OrderTheorems.dfy`, `CartOrders.dfy`, `CartTheorems.dfy`, `OrderAcceptance.dfy`, `OrderLife.dfy`, `Catalogue.dfy`, `RefundTheorems.dfy`, `Cancellations.dfy`, `ExampleRun.dfy` |
| best sellers per category | `TopProducts.dfy`, `TopProductsTheorems.dfy`, `TopProductsRanking.dfy` |
| repository reads through a Redis cache | `Json.dfy`, `JsonText.dfy`, `CacheKeys.dfy`, `CacheService.dfy`, `Repository.dfy`, `RepositoryTheorems.dfy`, `RepositoryWrites.dfy`, `ProductSearch.dfy` |
| VNPay signing | `UriEncoding.dfy`, `PaymentService.dfy`, `PaymentTheorems.dfy` |
| tokens and one-time passwords | `Auth.dfy`, `AuthService.dfy`, `AuthTheorems.dfy`, `TokenIssues.dfy` |
| chat listings and the chat gateway | `Contact.dfy`, `ChatGateway.dfy` |
| shared | `Common.dfy`, `StringOrder.dfy` |

`dafny verify dfyconfig.toml` checks everything.

Services that change documents are classes whose methods reassign their fields; each method is proved to
do what a step function on the whole state does, and runs are sequences of steps. Whatever a service
cannot decide (document ids, fees, the outcome of an HTTP call, the passing of time, the order in which
the lines of an order make progress, when a cached document, list or stock is dropped, how SCAN divides its
replies) is part of the event, so the theorems hold for every choice. Token pairs, revocations and one-time
codes stay cached for exactly their time to live. Requests are handled one at a time. Money, prices,
stock and quantities are exact real numbers.

## What the code does not deliver

The models follow the code, also where it does not do what its names suggest.

- Selling more than is in stock: the populated option carries no `stock`, so the sold-out test never fires
  (`StockTheorems.SoldOutNeverReported`). An accepted order lowers each stock by what its lines asked for
  when it began, and leaves it non-negative exactly when that was in stock
  (`CartOrders.NonNegativeExactlyWhenInStock`; `ExampleRun.OversellingExample`).
- What createOrder has read of a cart item stays cached when the order fails later: after a new price, the next
  attempt is charged the old one (`ExampleRun.OldPriceCharged`). Deletion marks of products and options are
  not looked at, so what is marked can still be ordered (`OrderAcceptance.OrderAcceptedExactly`).
- The cart items of an order are deleted outside its session: they are gone even if the order is refused
  (`OrderAcceptance.CartEmptiedAnyway`).
- Deleting several cart items at once deletes one of them: a deletion takes one document, the one the filter
  picks (`RepositoryWrites.DeleteExactly`).
- The discount is subtracted twice from the amount to pay. The amount still covers the shipping cost
  exactly when twice the discount is at most the undiscounted price (`OrderTheorems.LinkedAmount`;
  `ExampleRun.UnderpaidExample`).
- A cancelled order is not final: it leaves that status exactly when a successful payment of its transaction
  is reported (`RefundTheorems.CanceledLeftExactly`), and can then be cancelled and refunded once more
  (`RefundTheorems.RefundsExactly`; `ExampleRun.RefundedTwice`).
- A refused updateProduct is not undone completely: options are marked as deleted outside its session
  (`RefundTheorems.RefusedLeavesDocuments`; `RefundTheorems.RefusedUpdateMarks`).
- An order of which no payment was reported since it was processed last cannot be cancelled with a refund,
  however it is to be paid, because its transaction has no pay date to print
  (`Cancellations.CancelAcceptedExactly`; `ExampleRun.UnpaidNotCancelled`).
- The report of a failed payment sets the pay date too, so an order nobody paid can be refunded. There are no
  more refunds than payments exactly when the order is not cancelled or was paid in time at least once
  (`RefundTheorems.RefundsExactly`; `ExampleRun.RefundedUnpaid`).
- A cart item without a quantity is not compared with the stock, and counts as one piece
  (`Ledger.AddCartItemStep`; `StockTheorems.AbsentQuantityUnchecked`).
- The invalidation patterns end in `.*$`, and `.` does not match a line terminator. A listing whose key has a
  U+2028 or U+2029 too far to the right is not invalidated: it is fresh after a write exactly when one
  of the patterns reaches its key, or its answer is the same (`RepositoryTheorems.ListingFreshExactly`).
  For a product search that is a matter of what the search text has after its last such character
  (`ProductSearch.SearchInvalidatedExactly`, `ProductSearch.SearchFreshExactly`; `ProductSearch.StaleSearch`).
- Deletion by pattern takes the namespace out of a key at its first occurrence and puts it in front again:
  it removes the keys it selects exactly when each of them starts with the namespace
  (`CacheService.DeletesExactlySelected`, `CacheService.ForeignKeySurvives`).
- `sortObject` looks values up under the encoded names, so a name is signed with the value of the property
  that is called by its encoding, or with `undefined` if there is none. The parameters are read back
  exactly when that makes no difference (`PaymentTheorems.SignDataReads`, `PaymentTheorems.ReadBackExactly`,
  `PaymentTheorems.EncodedNameLosesValue`). No caller passes such a name: all names the service uses encode
  to themselves (`PaymentTheorems.PayNamesPlain`, `PaymentTheorems.RefundNamesPlain`).
- Signing in after signing out hands out a usable access token exactly when there was no cached pair to sign
  out of (`AuthTheorems.SignInAfterSignOut`; `AuthTheorems.SignedOutForGood`).
- Equal claims make equal tokens, so refreshing within the second in which the cached token was made hands out
  a token that has just been revoked (`AuthTheorems.RefreshedTokenLives`; `AuthTheorems.RefreshedTooSoon`).
- The message walk leaves out the oldest messages unless the page size divides or exceeds their number
  (`Contact.WalkCompleteExactly`); ids without a message make it lose more (`Contact.WalkWithDanglingIds`).

## Model

| member | source | states |
|---|---|---|
| OrderService.OrderService.CreateOrder | src/services/order.service.ts:92-106 | the request, with its session, its totals and its early exits, leaves the world of the ledger's step for any interleaving of the lines |
| OrderService.OrderService.AdvanceLine | src/services/order.service.ts:295-344 | each awaited operation of one line changes session, cart and cache as the step says; a failure ends the session |
| OrderService.OrderService.ProcessOrder | src/services/order.service.ts:108-170 | pricing, pending transaction and link commit together, or nothing does |
| OrderService.OrderService.OrderTransactionCallback | src/services/order.service.ts:172-220 | the payment result reaches the linked transaction, and success prepares the order whatever its status |
| OrderService.OrderService.RequestCancelOrder | src/services/order.service.ts:247-261 | owner and status are checked before the status becomes CANCELING |
| OrderService.OrderService.CancelOrder | src/services/order.service.ts:263-293 | the cancellation is undone whenever the refund cannot be made |
| OrderService.OrderService.CreateProduct | src/services/product.service.ts:166-193 | cost, options, product and the product's entry in its collection are stored together or not at all |
| OrderService.OrderService.UpdateProduct | src/services/product.service.ts:195-260 | a new price is appended and becomes the current one; pushing and pulling images at once aborts; options are marked as deleted in any case once the product is found |
| OrderService.OrderService.AddCartItem | src/services/cart.service.ts:24-51 | a quantity, if given, is limited by the stock the option repository shows, cached or stored |
| OrderService.Database.CommitTransaction | src/utils/schema-transaction.util.ts:11-19 | the session's writes are laid over the stored documents |
| OrderService.Database.AbortTransaction | src/utils/schema-transaction.util.ts:16-19 | nothing of the session remains |
| StockTheorems.CreateOrderConserves | src/services/order.service.ts:92-106 | stock plus quantities in committed order items is the same after any createOrder, finished or aborted at any point |
| StockTheorems.StockConservation | src/services/order.service.ts:295-344 | the same over every run in which nobody overwrites that stock by hand |
| StockTheorems.SoldOutNeverReported | src/services/order.service.ts:302-321 | in every reachable state createOrder never answers sold out |
| CartOrders.NonNegativeExactlyWhenInStock | src/services/order.service.ts:321-327 | an accepted order lowers every stock by what its lines asked for before it began; the stock stays non-negative if and only if that was in stock |
| ExampleRun.OversellingExample | src/services/order.service.ts:321-327 | in a run from the empty shop, two pieces with one in stock are accepted and the stock is -1 |
| CartOrders.OrderIsTheCart | src/services/order.service.ts:92-106 | an accepted order has one item per line, in order, with what createOrder saw of the cart item: the cached view, or else the stored item; and exactly those cart items are gone |
| CartTheorems.CartIsSeen | src/services/order.service.ts:296-306 | in every reachable world createOrder sees exactly the items in the cart, with their product, option and quantity, at a price the product has or had, and at its current one unless the view is cached |
| CartTheorems.OrderHasTheCart | src/services/order.service.ts:92-106 | so an accepted order has for every line the product, option and quantity of the line's cart item |
| OrderAcceptance.OrderAcceptedExactly | src/services/order.service.ts:92-106 | in every reachable world, for any number of lines with different cart items and new ids, and every schedule that lets each finish: accepted if and only if all cart items are in the cart, no id is taken and the insert works; a refusal names what is wrong |
| OrderAcceptance.CartEmptiedAnyway | src/services/order.service.ts:329-329 | the lines' cart items are gone whether or not the order goes through afterwards |
| ExampleRun.OldPriceCharged | src/services/order.service.ts:296-306 | a run in which an order is charged a price that has been replaced, because the view of its cart item was cached |
| OrderLife.LifeIsLived | src/services/order.service.ts:108-293 | in every run the stored order is what its accepted requests tell: owner, items, status, shipping cost, transaction, and the payment's status and date |
| OrderLife.ProcessAnswered | src/services/order.service.ts:108-170 | an order is processed if and only if it exists, the fee is known, the transaction id is new and, when paid by VNPay, the URL can be made |
| OrderLife.CallbackAnswered | src/services/order.service.ts:172-220 | a payment report is taken if and only if the order has been processed, in any status |
| OrderLife.RequestCancelAnswered | src/services/order.service.ts:247-261 | a request to cancel is taken if and only if it is the owner's and the order is PENDING, PREPARING or CANCELING |
| OrderLife.CancelAnswered | src/services/order.service.ts:263-293 | a cancellation is taken if and only if the order is PENDING, PREPARING or CANCELING and, when accepted, a payment was reported and VNPay takes the refund |
| Catalogue.CreateProductExactly | src/services/product.service.ts:166-193 | a product is created if and only if its ids are new; then its cost, its options with their stocks, the product and its place in the collection are stored |
| Catalogue.UpdateProductExactly | src/services/product.service.ts:195-256 | when an update is accepted, and what it leaves of prices, options, images and every stock; which options are marked and which cached stocks dropped in any case |
| Catalogue.SafeDeleteExactly | src/services/product.service.ts:258-264 | a stored product is marked as deleted, and nothing else changes |
| Catalogue.AddCartItemExactly | src/services/cart.service.ts:24-51 | an item is added if and only if product and option are known and the quantity, if any, is at most the stock shown |
| Catalogue.RemoveCartItemExactly | src/services/cart.service.ts:94-100 | a removed item is gone with its view, and nothing else changes |
| OrderTheorems.ReachableInv | src/services/order.service.ts:92-154 | in every reachable state prices, items, totals and linked amounts belong together |
| OrderTheorems.UpdateProductKeepsInv | src/services/product.service.ts:195-256 | through every update, accepted or refused, cost records are append-only and the current cost is the last one of its product |
| OrderTheorems.PriceChangeIndependence | src/services/order.service.ts:346-359 | however prices change later, an order's totals stay, and recomputing them from its stored items gives the same numbers |
| OrderTheorems.ItemPriceIsHistoric | src/services/order.service.ts:331-343 | an order item is charged at a price its product has or had, and the record of that price never changes |
| OrderTheorems.TotalsSplitGross | src/services/order.service.ts:346-359 | total and discount add up to the undiscounted price |
| OrderTheorems.TotalsAdd | src/services/order.service.ts:346-359 | totals and discounts add up item by item |
| OrderTheorems.UniformDiscount | src/services/order.service.ts:349-353 | with one percentage d throughout, the discount is d percent of the undiscounted price |
| OrderTheorems.DiscountAtMostTotal | src/services/order.service.ts:346-359 | with no discount above half the price, the discount does not exceed the total |
| OrderTheorems.LinkedAmount | src/services/order.service.ts:142-154 | in every reachable state the linked transaction has amount total + shipping - discount, that is gross + shipping - 2 * discount, and covers the shipping exactly when twice the discount is at most the gross price |
| ExampleRun.UnderpaidExample | src/services/order.service.ts:142-142 | a run in which the amount to pay is below the shipping cost |
| RefundTheorems.RefusedLeavesDocuments | src/utils/schema-transaction.util.ts:16-19 | a refused request changes no document and no refund, except that a refused updateProduct marks options as deleted; nothing stored changes exactly when the product is missing or no option is left to mark |
| RefundTheorems.RefusedUpdateMarks | src/services/product.service.ts:228-236 | a payload refused for its images that leaves an option marked as deleted |
| RefundTheorems.RefundsExactly | src/services/order.service.ts:199-220 | over every run the refunds of an order are the successful payments reported while it was cancelled, plus one if it is cancelled now; so they are at most the successful payments plus one if cancelled, and not more than those payments exactly when it is not cancelled or was paid in time at least once |
| Cancellations.RefundIsLinkedAmount | src/services/order.service.ts:275-289 | in every run a step adds a refund if and only if it is a cancellation accepted by the administrator and VNPay, of an order that is PENDING, PREPARING or CANCELING and whose payment was reported since it was processed last; it is for the amount linked just before, and without it a cancellation changes nothing |
| Cancellations.CancelAcceptedExactly | src/services/order.service.ts:263-293 | in every run a cancellation is accepted if and only if the order is PENDING, PREPARING or CANCELING and, unless declined, a payment was reported since the order was processed last and the refund goes through |
| Cancellations.RequestedIsCancelled | src/services/order.service.ts:247-293 | an accepted request to cancel an order whose payment was reported is followed by an accepted cancellation, when VNPay takes the refund |
| Cancellations.DatedExactly | src/services/order.service.ts:199-220 | in every run the linked transaction has a pay date exactly when a payment was reported since the order was processed last; linked transactions are stored and never shared |
| ExampleRun.UnpaidNotCancelled | src/services/payment.service.ts:79-79 | a run in which a processed order cannot be cancelled because no payment was reported |
| ExampleRun.RefundedUnpaid | src/services/order.service.ts:211-220 | a run in which an order is refunded after the report of a failed payment only |
| RefundTheorems.CanceledLeftExactly | src/services/order.service.ts:199-210 | a cancelled order changes its status exactly by a successful payment of its transaction, and is then being prepared |
| ExampleRun.RefundedTwice | src/services/order.service.ts:263-293 | a run from the empty shop in which one order is cancelled, revived, cancelled again, and refunded twice |
| TopProductsTheorems.RowsReach | src/services/product.service.ts:75-129 | the rows before grouping hold a category and a product exactly when the one reaches the other |
| TopProductsTheorems.RowsSum | src/services/product.service.ts:119-136 | their quantities add up to the product's sales once per (group, collection) path |
| TopProductsRanking.TopProductsAreTop | src/services/product.service.ts:130-163 | every result the aggregation allows lists, per category, min(limit, reached) distinct products with their sales, best first, and omits none that sells more |
| TopProductsRanking.CategoriesListed | src/services/product.service.ts:147-163 | categories appear once each, and exactly those that reach a product |
| TopProductsRanking.ReachedIsListed | src/services/product.service.ts:125-163 | with room for all, every product a category reaches is in its list with its sales |
| TopProductsRanking.UnsoldStaysListed | src/services/product.service.ts:125-128 | with room for all, a reached product that nobody ordered is in the list with 0, in every result the aggregation allows |
| TopProductsRanking.TopProductsExist | src/services/product.service.ts:75-164 | the aggregation has a result on every catalogue |
| Json.StringifyUnique | src/services/repository.service.ts:63 | the text of a JSON value determines the value and the text after it, unless that text begins with a digit |
| CacheKeys.KeyShape | src/utils/cache-key-join.util.ts:1-3 | a key is prefix, tag, text and postfix joined by colons, without the empty ones |
| CacheKeys.KeyUnique | src/services/repository.service.ts:63-147 | find, listing and paged reads never share a key: the key determines the query |
| CacheKeys.DocumentKeyUnread | src/services/repository.service.ts:41-46 | the key under which create caches a document is no read's key |
| CacheService.CacheService.DeleteKeysByRegex | src/services/cache.service.ts:28-53 | for every full SCAN iteration, in any batches and with repeats, the loop deletes exactly the targets of the selected keys |
| CacheService.DeletesExactlySelected | src/services/cache.service.ts:33-53 | deletion by pattern removes the selected keys and keeps all others if and only if each selected key starts with the namespace |
| CacheService.ForeignKeySurvives | src/services/cache.service.ts:38-48 | a key of a namespace with a longer name is selected and survives |
| Repository.RepositoryService.Create | src/services/repository.service.ts:31-52 | the documents are stored, cached by id, and the listings are invalidated |
| Repository.RepositoryService.Read | src/services/repository.service.ts:54-164 | cached answers first, then the database; nulls and empty lists are not cached |
| Repository.RepositoryService.Update | src/services/repository.service.ts:166-179 | one document changes, and what is cached under its id and all listings go |
| Repository.RepositoryService.Delete | src/services/repository.service.ts:181-190 | the same for a removed document |
| Repository.RepositoryService.SafeDelete | src/services/repository.service.ts:192-196 | only collections that can mark documents as deleted do so |
| Repository.RepositoryService.RefreshCache | src/services/repository.service.ts:202-210 | the two patterns are applied one after the other |
| RepositoryTheorems.CacheIsTransparent | src/services/repository.service.ts:54-210 | after every run, a read by id, a listing or a page whose key the patterns reach answers what the database would |
| RepositoryTheorems.PlainReadsAreTransparent | src/services/repository.service.ts:54-210 | the same for every read by object id, listing or page whose names and strings have no Unicode separator and whose postfix is one line |
| RepositoryWrites.ReadsAnswer | src/services/repository.service.ts:54-164 | in every run a plain read answers with the stored document as selected, or with the documents that match |
| RepositoryWrites.ReadsAreKept | src/services/repository.service.ts:63-91 | what a read finds is kept and answers the same read without the database; what it does not find is not kept |
| RepositoryWrites.CreateExactly | src/services/repository.service.ts:31-52 | documents are created if and only if their ids are new; then they are stored and read back, and all others stay |
| RepositoryWrites.UpdateExactly | src/services/repository.service.ts:166-179 | an update answers if and only if its subject is stored; then the changed document is stored and read, and all others stay |
| RepositoryWrites.DeleteExactly | src/services/repository.service.ts:181-190 | a deletion answers true if and only if its subject is stored; then it is stored no more, reads of it answer null, and all others stay |
| RepositoryWrites.SafeDeleteExactly | src/services/repository.service.ts:192-196 | a soft deletion answers true if and only if documents can be marked and the subject is stored; then it is marked, and all others stay |
| RepositoryTheorems.ListingFreshExactly | src/services/repository.service.ts:202-210 | in every reachable state and for every write, a cached listing answers like the database afterwards if and only if a pattern reaches its key or the answer is the cached one anyway |
| ProductSearch.SearchInvalidatedExactly | src/services/product.service.ts:31-41 | a write invalidates a cached product search exactly when the search text has no Unicode separator or the word listing after the last one |
| ProductSearch.SearchFreshExactly | src/services/product.service.ts:31-41 | the same in every run and with the pattern of the written document: exactly when the cached search is fresh after a write |
| ProductSearch.StaleSearch | src/services/product.service.ts:31-41 | a search for a line separator, repeated after an update, answers what it did before the update |
| JsonText.TextLines | src/services/repository.service.ts:145-145 | the text of a value is one line exactly when no name and no string in it has U+2028 or U+2029 |
| JsonText.TextWords | src/services/repository.service.ts:145-145 | a word stands in the text of a value exactly when one of its names, strings, numbers or literals contains it |
| JsonText.TextOfKinds | src/services/repository.service.ts:145-145 | the text of each kind of value; numbers and strings read back |
| JsonText.TextOfArrays | src/services/repository.service.ts:145-145 | the texts of the elements stand in order between brackets |
| JsonText.TextOfObjects | src/services/repository.service.ts:145-145 | the properties stand in order between braces, each after its quoted name |
| RepositoryTheorems.PagesCoverList | src/services/repository.service.ts:95-127 | pages 1..pages are the list without gap or repeat, all but the last full, the last not empty, further ones empty |
| RepositoryTheorems.PagedReadsCover | src/services/repository.service.ts:95-127 | the same of the paged reads: from 1 to the number of pages they report they give what the listing gives |
| UriEncoding.OnePass | src/services/payment.service.ts:148-162 | encoding and then replacing %20 is one pass in which only spaces become plus signs |
| UriEncoding.ValueRoundTrip | src/services/payment.service.ts:157-159 | a form decoder recovers every value |
| UriEncoding.EncodedExactly | src/services/payment.service.ts:153-159 | exactly letters, digits and nine marks are left as they are |
| UriEncoding.PercentExactly | src/services/payment.service.ts:153-159 | every other byte becomes a percent sign and two capital hexadecimal digits |
| PaymentService.SortObject | src/services/payment.service.ts:148-162 | the loop builds the sorted, encoded object |
| PaymentService.BuildVnpParams | src/services/payment.service.ts:138-146 | the signature of the sorted text is appended as the last field |
| PaymentService.CreatePaymentUrl | src/services/payment.service.ts:23-55 | the base URL, and the signed query of the payment's parameters |
| PaymentTheorems.PaymentUnderstood | src/services/payment.service.ts:23-55 | VNPay reads from the URL exactly the twelve fields, the amount a hundredfold, the order as reference, and a signature that fits |
| PaymentService.BuildRefund | src/services/payment.service.ts:72-96 | the posted object, as the text it is signed with |
| PaymentTheorems.RefundUnderstood | src/services/payment.service.ts:72-96 | VNPay reads from a refund exactly the thirteen fields, the amount a hundredfold, the order as reference, the date of the payment, and a signature that fits |
| PaymentTheorems.SignDataIsCanonical | src/services/payment.service.ts:138-162 | the signed text does not depend on the insertion order of the parameters |
| PaymentTheorems.SignDataReads | src/services/payment.service.ts:148-162 | for every object, a form decoder reads from the signed text each name with the value of the property called by its encoding |
| PaymentTheorems.ReadBackExactly | src/services/payment.service.ts:148-162 | the parameters are read back if and only if no name has an encoding that is another name with another value |
| PaymentTheorems.SignDataIsInvertible | src/services/payment.service.ts:138-162 | a form decoder reads all parameters back from the signed text |
| PaymentTheorems.SignedQueryReadsBack | src/services/payment.service.ts:51-51 | the query without its last field is the signed text and gives back the parameters |
| PaymentTheorems.PayNamesPlain | src/services/payment.service.ts:34-49 | the names of a payment request are distinct and encode to themselves |
| PaymentTheorems.RefundNamesPlain | src/services/payment.service.ts:82-96 | so are the names of a refund request |
| PaymentTheorems.EncodedNameLosesValue | src/services/payment.service.ts:157-159 | a name whose encoding is no name of the object is read back as undefined, so the object only if that was its value |
| AuthService.JwtService.RevokeToken | src/services/jwt-access.service.ts:23-30 | the record lives for the rest of the token's validity, counted from the current second; the token is refused from now on |
| AuthService.JwtService.VerifyToken | src/services/jwt-access.service.ts:32-46 | a token passes exactly when it is neither revoked nor expired |
| AuthService.AuthService.SignIn | src/services/auth.service.ts:35-51 | the cached pair, or a new one that is then cached; no other access token of the user is usable |
| AuthService.AuthService.SignOut | src/services/auth.service.ts:100-102 | the cached pair is revoked and stays cached; no access token of the user is usable |
| AuthService.AuthService.RefreshToken | src/services/auth.service.ts:144-164 | the cached pair is revoked and replaced; no other access token of the user is usable |
| AuthService.AuthService.ForgotPassword | src/services/auth.service.ts:104-124 | refused for an unknown address or number; otherwise the code is stored for fifteen minutes, replacing an earlier one |
| AuthService.AuthService.ResetPassword | src/services/auth.service.ts:126-142 | code and address must match those of the latest request; success changes the password and removes the code |
| AuthTheorems.RevocationLasts | src/services/jwt-access.service.ts:23-46 | from revocation on the token is refused at every later time, and the record ends less than a second after the token |
| AuthTheorems.RevocationSurvivesRuns | src/services/jwt-access.service.ts:23-46 | after revokeToken for any token, expired or not, no later requests make verifyToken accept it |
| AuthTheorems.OneLiveTokenPerUser | src/services/auth.service.ts:144-164 | at every time of every run at most one access token of a user passes, and it is the cached one |
| AuthTheorems.SignInServesTimely | src/services/auth.service.ts:199-210 | sign-in hands out an access token that expired less than a second ago, if at all |
| TokenIssues.SignInHandsOut | src/services/auth.service.ts:35-51 | in every run sign-in hands out the tokens of the user's latest request while they are kept, with the role of that request, and otherwise new ones for the user and role, from the current second on, each for its lifetime |
| TokenIssues.RefreshHandsOut | src/services/auth.service.ts:144-164 | refreshing hands out new tokens for the user and role of any text that decodes, and refuses any other |
| TokenIssues.SignOutEndsBoth | src/services/auth.service.ts:231-240 | after signing out neither token of the pair is accepted again, whatever follows |
| TokenIssues.RefreshEndsBoth | src/services/auth.service.ts:152-152 | nor, after refreshing, is either token of the pair kept before |
| TokenIssues.UsableUntilExpiry | src/services/jwt-access.service.ts:32-46 | a token nobody revoked is accepted until it expires and no longer, while its user neither signs out nor refreshes |
| AuthTheorems.SignInAfterSignOut | src/services/auth.service.ts:231-240 | in every run, the sign-in after a sign-out hands out a usable access token exactly when no pair was cached |
| AuthTheorems.SignedOutForGood | src/services/auth.service.ts:231-240 | whoever signs in, out and in again is given a refused access token |
| AuthTheorems.RefreshedTokenLives | src/services/auth.service.ts:144-164 | in every run, the new access token is usable exactly when it is neither revoked nor the cached one, as it always is in a later second |
| AuthTheorems.RefreshedTooSoon | src/services/auth.service.ts:144-164 | whoever signs in and refreshes within the same second is given a refused access token |
| AuthTheorems.ResetsUseLatestCode | src/services/auth.service.ts:126-142 | each successful reset matches code and address of the user's latest request, less than fifteen minutes old |
| AuthTheorems.ResetsAreSeparated | src/services/auth.service.ts:212-229 | between two successful resets of a user there is a new request |
| AuthTheorems.ResetSucceedsExactly | src/services/auth.service.ts:126-142 | in every run a reset goes through if and only if the last thing that happened to the user's password is a request with that code and address, less than fifteen minutes old, and the password can be stored; otherwise nothing changes, and the answer says why |
| AuthTheorems.ForgotMakesPending | src/services/auth.service.ts:104-124 | a request for a code is refused exactly for an unknown address or number; otherwise its code is the one a reset needs |
| AuthTheorems.OthersKeepPasswords | src/services/auth.service.ts:126-142 | nothing but a reset changes passwords |
| Contact.PageIsWindow | src/services/contact.service.ts:129-136 | a page is the window of messages just older than the page before |
| Contact.WalkCoversNewest | src/services/contact.service.ts:123-149 | following the cursor yields the newest floor(n / limit) * limit messages, each once and in order, or all if fewer than limit |
| Contact.WalkWithDanglingIds | src/services/contact.service.ts:129-141 | with any number of ids that have no message: where the walk begins, and that it is complete exactly when the visited pages hold all listed ids |
| Contact.WalkCompleteExactly | src/services/contact.service.ts:138-141 | the walk is complete exactly when limit divides the number of messages or exceeds it |
| Contact.GetChatRooms | src/services/contact.service.ts:61-90 | the page of rooms with each room's messages turned round in place |
| Contact.ReverseInPlace | src/services/contact.service.ts:75-79 | the messages of a room in reverse |
| Contact.CursorRounds | src/services/contact.service.ts:81-84 | comparing with the unrounded quotient is comparing with the rounded-up number of pages |
| Contact.WalkYieldsAllRooms | src/services/contact.service.ts:61-90 | following the cursor ends and yields every non-empty room exactly once, in order, with its messages in reverse |
| ChatGateway.ChatGateway.HandleDisconnect | src/gateways/chat.gateway.ts:39-46 | the socket leaves all rooms and its entry goes |
| ChatGateway.ChatGateway.OnJoinAdminRoom | src/gateways/chat.gateway.ts:48-60 | the socket joins the admin room and the entry says so |
| ChatGateway.ChatGateway.OnJoinRoom | src/gateways/chat.gateway.ts:62-87 | the room joined before is left; a missing room changes nothing |
| ChatGateway.ChatGateway.OnSendMessage | src/gateways/chat.gateway.ts:89-142 | who may send, the notice of a new room, and the stored message |
| ChatGateway.MembershipConsistent | src/gateways/chat.gateway.ts:39-87 | in every run an entry names a room the socket is in, and names the admin room exactly when the socket is in it |
| ChatGateway.RoomsAreJoined | src/gateways/chat.gateway.ts:39-87 | in every run a socket is in exactly the rooms its client joined and has not left since |
| ChatGateway.EntryIsLastJoin | src/gateways/chat.gateway.ts:39-87 | in every run the entry of a connected client is the room it joined last |
| ChatGateway.RoomsAreOpened | src/gateways/chat.gateway.ts:62-87 | the rooms that can be joined are those that were opened |
| ChatGateway.TestsAgree | src/gateways/chat.gateway.ts:203-209 | both tests of isClientInAdminRoom agree in every reachable state |
| ChatGateway.StampsAreTrue | src/gateways/chat.gateway.ts:90-118 | a message is stored if and only if it can be, the room exists, and the sender is in the admin room or joined that room last; as the administrators' exactly for members of the admin room; the first message to an empty room announces it |
| ChatGateway.StampsAreEarned | src/gateways/chat.gateway.ts:48-60 | as long as no chat room is called admin, a message is stored as the administrators' exactly when its sender came in through the guarded event and has not left since |
| ChatGateway.AdminsCameAsAdmins | src/gateways/chat.gateway.ts:48-87 | under the same condition the members of the admin room are exactly the clients that came in so |
| ChatGateway.NewRoomsAnnounced | src/gateways/chat.gateway.ts:112-118 | no room holds a message without having been announced to the administrators |

## Left out

- Interleaving of whole requests, and commits that fail after an order was inserted or a refund was accepted.
- Writes through an ended session: once a line of an order has failed, the session writes of the other lines have no effect.
- Mails, redirects, the shipping service and the HTTP calls to VNPay, except that they succeed or fail.
- HMAC, bcrypt, JWT signing, uuids, random digits, date and number formatting: inputs or function parameters.
- Descriptive fields of products, options and orders: no property depends on them.
- Fields a payload does not declare: the validation pipe lets them through and createOrder and processOrder spread the payload, so an undeclared `status`, `transaction` or `totalCost` would be stored, and amounts and refunds would no longer be those proved here.
- OrderService.OrderService.UpdateProduct: does not model a new cost without sale price or discount percentage, with which totals would be no numbers: a cost has both.
- A quantity of null in the cart; the quantity is a number or absent.
- Entries of `updateOptions` without an id, which reach an option of the database's choosing: entries name their option.
- Cached copies of orders: requestCancelOrder and cancelOrder see the stored order, although a refused payment leaves an older copy cached.
- The maps in which updateProduct collects its parallel calls: the calls are made in the order they are started.
- Populated references in repository reads, whose keys do not name them, and documents changed behind the repository's back: the code does not invalidate those.
- Reads by a filter instead of an id: they are part of the runs, but no agreement is claimed, because a write invalidates them only if the key happens to contain the id.
- `find` without an id or filter, which answers null at once.
- Repository.RepositoryService.Create: does not model several documents of which only some are stored outside a session, because every caller that passes several passes a session; a refused create leaves no trace.
- Json.StringifyUnique: does not speak of numbers with a fraction, nor of values that are neither text, number, boolean, null, list nor object: filters have none.
- Prefixes with glob or pattern characters.
- Page numbers and limits below one.
- Parameter names that look like array indices, and text with lone surrogates.
- Early eviction of revocation records, token pairs and reset codes (with a pair evicted early, two access tokens of a user can pass), and deletions of the cart repository, whose empty prefix reaches every key.
- Refresh tokens' effect on access control: guards and passport strategies.
- Typing events, ratings, access history, categories, collections and groups: repetitions of what is modelled.
- `loadRoom`'s limit of ten messages, which decides only whether a room is empty.
