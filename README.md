# Bulldogs Market transaction layer in Dafny

Bulldogs Market is a campus donation market. Students spend weekly tokens on donated items, staff fulfil the orders, and both sides exchange token requests and notifications. This project models the market's transaction layer and proves properties of it:

- **The document store.** The item, user, order, token request and notification collections. The operations in `lib/firebase/firestore-utils.ts` read and overwrite these collections.
- **The client-side rules around the store.** The cart hook, the checkout, the staff and student order pages, the token request pages and the inventory manager.

## Modules

| file | module | what it holds |
|---|---|---|
| `domain.dfy` | `Domain` | The documents (`Item`, `User`, `Order`, `TokenRequest`, `Notification`), their statuses, and the `Option`/`Outcome` wrappers. |
| `seqs.dfy` | `Seqs` | `Filter` (JavaScript's `Array.prototype.filter`), `Distinct` and `Reverse`, with their laws. |
| `text.dfy` | `Text` | The string operations the pages use: `toLowerCase`, `includes`, the blank test `!s.trim()`, number printing and `slice(-n)`. |
| `store_spec.dfy` | `StoreSpec` | Value-level specification functions of the store operations, and the properties proved about them. |
| `store.dfy` | `Store` | The class `Market`: the store as fields the methods overwrite. Every method is proved against `StoreSpec`. It also holds one predicate per compound operation, relating the state before (`StoreState`) to the state after. |
| `cart.dfy` | `CartHook` | The class `Cart` of `lib/hooks/use-cart.tsx`. |
| `checkout.dfy` | `CartPage` | `components/cart/cart-page.tsx`: the confirmation guard, and the checkout sequence as balance check, `createOrder`, debit, clear. |
| `admin_orders.dfy` | `AdminOrders` | `components/admin/admin-orders-page.tsx`: the filter, the per-status buttons (the order transition table), and the staff actions. |
| `student_orders.dfy` | `StudentOrders` | `components/orders/orders-page.tsx`: the pending-only Cancel button and the cancellation with its state resets. |
| `token_request_form.dfy` | `TokenRequestForm` | `components/token-request/token-request-page.tsx`: the amount and reason checks, and the single-pending guard on the submit button. |
| `admin_token_requests.dfy` | `AdminTokenRequests` | `components/admin/token-requests-page.tsx`: the status and search filters, the pending-only decision buttons, and the decision. |
| `inventory.dfy` | `Inventory` | `components/admin/inventory-manager.tsx`: add and edit validation, the page's copy of the items (proved to keep mirroring the store), and search. |
| `scenarios.dfy` | `Scenarios` | Properties of sequences of calls: checkout then cancel, cancelling twice, and two checkouts of the last unit. |

### Modelling choices

- **Ids.** Document ids the store generates are natural numbers:
  - orders, token requests and notifications are append-only sequences, and each document's id is its position;
  - items live in a map with a counter for the next id;
  - users are keyed by their uid string. `uids` fixes one order of the user documents, and the role queries that the fan-outs walk list users in that order. The model appends to `uids` as documents are created. Firestore lists the answer of a query without `orderBy` by document id instead, so the model's order of the admin notices differs.
- **Sequential `Promise.all`.** Each `Promise.all` over query results is a loop in list order. The lines of an order come from a cart, whose item ids are distinct.
- **Failing `updateDoc`.** An `updateDoc` on a missing document rejects; the model returns `Err`. When it rejects in the middle of `cancelOrder` or `updateTokenRequest`, the earlier writes stay, as they do in the code.
- **Failing `addDoc`.** The database is opened with `getFirestore(app)` and its default settings (`lib/firebase/firebase-provider.tsx:26`), so an `addDoc` of a document with a field set to `undefined` rejects. `addNotification` avoids this for `relatedId`. `createOrder` and `createTokenRequest` instead write `userName` as given, so without one they fail with `UndefinedField`. `createOrder` fails after its reservation.
- **Compound operations.** Each mutator that other code calls (`createOrder`, `cancelOrder`, `updateItem`, `updateTokenRequest`, `createTokenRequest`, `updateUserTokenBalance`) has an effect predicate over two `StoreState` snapshots. The `Market` method and every page method that calls it ensure that same predicate. The lemmas of `Scenarios` then chain those predicates.

### Where the code departs from the intended design

The model follows the code.

- **Stock.** A checkout whose stock has run out is meant to fail. Instead `createOrder` clamps every quantity at 0 and places the order anyway. `Scenarios.LastUnitOversold` shows two students both getting the last unit. `Scenarios.OversoldCancelsInflateStock` shows that cancelling both orders leaves more stock than ever existed.
- **Order status.** Invalid order transitions are meant to be rejected. `updateOrderStatus` overwrites any status with any other. The only transition table is the set of buttons on the staff page (`AdminOrders.TransitionTable`).
- **Cancelling.**
  - Cancelling a completed order changes nothing and reports success instead of failing.
  - An order that is already cancelled gets its stock returned and its refund paid again (`Scenarios.CancelTwiceRefundsTwice`).
  - A staff cancellation only sets the status through `updateOrderStatus`. It returns no stock and refunds no tokens, although the notice it sends says the tokens were refunded (`AdminOrders.StaffUpdateEffect`).
- **Token requests.**
  - The rule of one pending request per student lives only in the disabled state of the submit button. `handleSubmit` and `createTokenRequest` do not check it.
  - `updateTokenRequest` decides a request whatever its status.
  - The student page can never store a token request. `handleSubmit` calls `createTokenRequest` with four arguments (`components/token-request/token-request-page.tsx:89`), so `userName` is `undefined`, and the `addDoc` rejects. Every submission that passes the page's checks ends in the error toast, and the form keeps its values (`TokenRequestForm.TokenRequestPage.HandleSubmit`). The success toast and the form reset after the call are never reached.
- **Checkout without a profile.** A session whose profile has not loaded passes no `userName` to `createOrder`. The stock is reserved and the "out of stock" notices are sent, then the order's `addDoc` rejects. No order exists, no token is debited, and nothing can return the reserved stock (`Scenarios.ProfilelessCheckoutStrandsStock`).
- **Balances.** `updateUserTokenBalance` is an unguarded increment, so nothing in the store keeps a balance non-negative. The checkout's balance check happens in the page, before `createOrder`, and the debit comes after it.

## Model

| member | source | states |
|---|---|---|
| Domain.Decision.Status | components/admin/token-requests-page.tsx:74-82 | A decision sets `approved` or `rejected`, never back to `pending`; it sets `approved` exactly for an approval. |
| Text.Lower | components/admin/admin-orders-page.tsx:61 | `toLowerCase` keeps the length and lower-cases each ASCII letter, leaving every other character alone. |
| Text.LowerIdempotent | components/admin/token-requests-page.tsx:65-67 | Lower-casing twice is lower-casing once, so lowering an already lowered query changes nothing. |
| Text.SliceLast | lib/firebase/firestore-utils.ts:588 | `slice(-6)` is a suffix of the id text of length `min(6, length)`. |
| Text.NatToStringInjective | components/admin/admin-orders-page.tsx:61 | Distinct order ids have distinct texts, so searching by id text tells orders apart. |
| Text.NatToString | components/admin/admin-orders-page.tsx:61 | The decimal text of an id: at least one character, digits only. `NatToStringInjective` shows it tells ids apart. |
| Text.Includes | components/admin/admin-orders-page.tsx:61 | `s.includes(t)`: `t` occurs in `s` at some position. `IncludesEmpty`, `IncludesSelf` and `IncludesLength` state its laws. |
| Text.IncludesEmpty | components/admin/inventory-manager.tsx:96-110 | Every text includes the empty one, so an empty query matches everything. |
| Text.IncludesSelf | components/admin/admin-orders-page.tsx:61 | Every text includes itself. |
| Text.IncludesLength | components/admin/admin-orders-page.tsx:61 | A text includes only texts no longer than itself. |
| Text.IsWhitespace | components/token-request/token-request-page.tsx:77 | The characters `trim` removes: the ECMAScript white space and line terminators. |
| Text.IsBlank | components/token-request/token-request-page.tsx:77 | `!s.trim()` holds iff every character is one that `trim` removes (the ECMAScript white space and line terminators), so the empty string is blank. |
| Text.IntToString | lib/firebase/firestore-utils.ts:625 | `${n}` of an amount: at least one character, a leading `-` exactly for a negative number, and only digits after it. |
| Text.IntToStringInjective | lib/firebase/firestore-utils.ts:698-706 | Distinct amounts print differently, so the request and decision messages tell the amounts apart. |
| StoreSpec.StatusMessage | lib/firebase/firestore-utils.ts:519-532 | `updateOrderStatus` has an owner message for every status except `pending`. |
| StoreSpec.OutOfStockMessage | lib/firebase/firestore-utils.ts:430 | The text `Item "<name>" is now out of stock.` |
| StoreSpec.NewOrderMessage | lib/firebase/firestore-utils.ts:457 | The text `New order received from <email>.` |
| StoreSpec.UserCancelledMessage | lib/firebase/firestore-utils.ts:588 | The text `Order #<last six characters of the id> has been cancelled by the user.` |
| StoreSpec.NewRequestMessage | lib/firebase/firestore-utils.ts:625 | The text `New token request from <email> for <n> tokens.`; `IntToStringInjective` shows it names the amount unambiguously. |
| StoreSpec.DecisionMessage | lib/firebase/firestore-utils.ts:698-706 | The approved or rejected text for the requested amount. |
| StoreSpec.WithRole | lib/firebase/firestore-utils.ts:426-428 | `where("role", "==", role)` over the users in collection order. `WithRoleMembership` and `WithRoleDistinct` state which uids it lists. |
| StoreSpec.WithRoleMembership | lib/firebase/firestore-utils.ts:426-428 | The role query lists a uid iff the user exists with that role. |
| StoreSpec.WithRoleDistinct | lib/firebase/firestore-utils.ts:426-428 | The role query lists each user at most once. |
| StoreSpec.FanOut | lib/firebase/firestore-utils.ts:428-433 | One unread notification per recipient, in recipient order, with the given message, type and related id. |
| StoreSpec.FanOutRecipients | lib/firebase/firestore-utils.ts:428-433 | A fan-out notifies exactly its recipients, and every notice is unread. |
| StoreSpec.FanOutOncePerRecipient | lib/firebase/firestore-utils.ts:428-433 | Over a role query's answer, every admin receives exactly one notice per event. |
| StoreSpec.Patched | lib/firebase/firestore-utils.ts:382 | The `updateDoc` merge: each field the patch carries replaces the item's field, and the others are kept. `PatchLaws` states its laws. |
| StoreSpec.FullPatch | lib/firebase/firestore-utils.ts:382 | A patch that carries every field of an item, as the edit dialog sends. `PatchLaws` shows that it replaces the item. |
| StoreSpec.PatchRunsOut | lib/firebase/firestore-utils.ts:370-378 | `updateItem`'s warning test: a patch with a quantity of at most 0 for an item that had stock. |
| StoreSpec.PatchLaws | lib/firebase/firestore-utils.ts:382 | A full patch replaces the item and an empty patch keeps it. Patching twice equals patching once. A patch without a quantity keeps the quantity. |
| StoreSpec.ReserveAllEffect | lib/firebase/firestore-utils.ts:413-438 | With distinct lines, each existing listed item drops to `max(0, old - requested)`. Missing items are skipped and every other item is unchanged. |
| StoreSpec.ReserveOne | lib/firebase/firestore-utils.ts:416-421 | One step of the reservation loop: an existing item drops to `max(0, stock - quantity)`, a missing one is skipped. |
| StoreSpec.CrossingNotices | lib/firebase/firestore-utils.ts:423-434 | One step's notices: one per admin iff that step takes the item from above 0 to 0. |
| StoreSpec.ReserveAll | lib/firebase/firestore-utils.ts:413-421 | The stock after `createOrder`'s loop: the lines applied one after the other, each clamping an existing item at 0 and skipping a missing one. `ReserveAllEffect` and `ReserveKeepsStockNonNegative` state what it does. |
| StoreSpec.StockNotices | lib/firebase/firestore-utils.ts:424-434 | The loop's "out of stock" notices, each line judged on the stock the earlier lines left. `StockNoticesAreRunOuts` and `StockNoticesShape` state which notices these are. |
| StoreSpec.ReleaseAllEffect | lib/firebase/firestore-utils.ts:553-565 | Cancelling gives every existing item back the total its lines name. No item appears or disappears. |
| StoreSpec.ReleaseOne | lib/firebase/firestore-utils.ts:555-561 | One step of the return loop: an existing item gets the line's quantity back, with no clamp, and a missing one is skipped. |
| StoreSpec.ReleaseAll | lib/firebase/firestore-utils.ts:553-565 | The stock after `cancelOrder`'s loop: each line gives its quantity back to an existing item and skips a missing one. `ReleaseAllEffect` and `ReserveThenRelease` state what it does. |
| StoreSpec.ReserveThenRelease | lib/firebase/firestore-utils.ts:419 | With distinct lines and enough stock for each, reserving then returning restores the stock exactly. |
| StoreSpec.ClampBreaksRoundTrip | lib/firebase/firestore-utils.ts:419 | For any item holding fewer units than a line orders, reserving and then releasing that line leaves the full line quantity in stock, more than there was: the clamp at 0 breaks the round trip. |
| StoreSpec.ReserveKeepsStockNonNegative | lib/firebase/firestore-utils.ts:419 | Whatever an order asks, `createOrder` never makes a quantity negative, and it keeps the set of items. |
| StoreSpec.ReleaseKeepsStockNonNegative | lib/firebase/firestore-utils.ts:558-561 | Returning lines of non-negative quantity keeps every quantity non-negative. |
| StoreSpec.StockNoticesAreRunOuts | lib/firebase/firestore-utils.ts:424-434 | With distinct lines, "out of stock" notices go, once per admin and in line order, exactly to the lines whose item existed with stock above 0 and at most the requested quantity. |
| StoreSpec.StockNoticesShape | lib/firebase/firestore-utils.ts:424-434 | Every "out of stock" notice goes to an admin, is unread, has type `inventory`, and names an existing item on the order. |
| StoreSpec.Credit | lib/firebase/firestore-utils.ts:156-158 | `increment(amount)` adds `amount` to one user's balance and changes no other user. |
| StoreSpec.DebitThenRefund | lib/firebase/firestore-utils.ts:573 | A debit followed by a refund of the same amount restores every balance. |
| StoreSpec.ResetBalances | lib/firebase/firestore-utils.ts:842-849 | Every student's balance becomes 3, and admins are untouched. |
| StoreSpec.ResetIdempotent | lib/firebase/firestore-utils.ts:847 | Resetting twice leaves the balances the first reset left. |
| StoreSpec.ResetForgetsHistory | lib/firebase/firestore-utils.ts:847 | Two user tables that differ only in balances reset to the same table iff their admins' balances agree. A student's earlier balance is forgotten. |
| StoreSpec.MarkedFor | lib/firebase/firestore-utils.ts:818-827 | Marking read sets `read` only on the user's own notifications and keeps every other field. |
| StoreSpec.MarkAllRead | lib/firebase/firestore-utils.ts:818-829 | Marking all read keeps every notification in place, each marked for the user. |
| StoreSpec.MarkAllReadIdempotent | lib/firebase/firestore-utils.ts:818-829 | Marking all read twice is marking all read once. |
| StoreSpec.MarkAllReadEffect | lib/firebase/firestore-utils.ts:818-829 | Afterwards the user has no unread notification, and nobody else's notification changed. |
| StoreSpec.OutOfStockItems | lib/firebase/firestore-utils.ts:275-290 | Exactly the items with quantity at most 0, with their contents. |
| StoreSpec.LowStockItems | lib/firebase/firestore-utils.ts:292-307 | Exactly the items with `0 < quantity <= threshold` (5 by default), with their contents. |
| StoreSpec.ItemsInCategory | lib/firebase/firestore-utils.ts:246-273 | Every item for an empty filter; otherwise exactly the items of that category. |
| StoreSpec.StockQueriesPartition | lib/firebase/firestore-utils.ts:275-307 | An item is never both out of stock and low on stock. Every item is one of the two, or above the threshold. |
| StoreSpec.CategoryQueryIsSubset | lib/firebase/firestore-utils.ts:252-254 | A category filter never lists an item the unfiltered query does not. |
| StoreSpec.RequestsOfMembership | lib/firebase/firestore-utils.ts:637-656 | `getUserTokenRequests(uid)` lists exactly the user's requests. |
| StoreSpec.RequestsOf | lib/firebase/firestore-utils.ts:637-656 | `getUserTokenRequests(uid)`: the user's requests, newest first. `RequestsOfMembership` states that it holds exactly that user's requests. |
| Store.BalanceUpdateEffect | lib/firebase/firestore-utils.ts:152-163 | `updateUserTokenBalance` succeeds iff the user document exists. It then adds the amount to that balance alone, with no lower bound; otherwise it fails with `UserNotFound`. No other collection changes. |
| Store.CreateOrderEffect | lib/firebase/firestore-utils.ts:401-467 | `createOrder`: the clamped reservation and the "out of stock" notices in line order always happen. It succeeds iff a `userName` is given: then one pending order is stored under the next id, followed by one order notice per admin. Without a name the `addDoc` refuses the `undefined` field and the call fails with `UndefinedField` after the reservation. Users and requests are unchanged. |
| Store.UpdateItemEffect | lib/firebase/firestore-utils.ts:357-387 | `updateItem`: `ItemNotFound` with no change iff the item is missing. Otherwise the admins are warned exactly when the patch takes the stock from above 0 to 0 or below, and the patch is merged. |
| Store.CancelOrderEffect | lib/firebase/firestore-utils.ts:539-597 | `cancelOrder`: `OrderNotFound` for a missing order, and success with no change for a completed one. Otherwise the stock is returned and the order cancelled, then the refund and the notices follow iff the user exists; when the user is missing, the first two writes stay and the call fails. |
| Store.CreateTokenRequestEffect | lib/firebase/firestore-utils.ts:600-635 | `createTokenRequest` succeeds iff a `userName` is given: one pending request under the next id and one token notice per admin. Without a name the `addDoc` refuses the `undefined` field: `UndefinedField` with nothing written. Nothing else changes. |
| Store.UpdateTokenRequestEffect | lib/firebase/firestore-utils.ts:675-715 | `updateTokenRequest`: `RequestNotFound` for a missing request. Otherwise the status is overwritten, whatever it was. An approval credits the tokens and fails after the first write when the user is missing. A successful decision sends one notice. |
| Store.Market.constructor | lib/firebase/firestore-utils.ts:24-72 | An empty store: no items, users, orders, requests or notifications, and the item counter at 0. The store invariant holds. |
| Store.Market.Admins | lib/firebase/firestore-utils.ts:426-428 | The admin query lists exactly the existing users whose role is admin at the time of the call. |
| Store.Market.Students | lib/firebase/firestore-utils.ts:842-844 | The student query lists exactly the existing students. |
| Store.Market.TokenBalance | lib/firebase/firestore-utils.ts:137-150 | The stored balance, or 0 for a user without a document. |
| Store.Market.AddNotification | lib/firebase/firestore-utils.ts:718-746 | Appends one unread notification, with `relatedId` only when given. Nothing else changes. |
| Store.Market.NotifyAll | lib/firebase/firestore-utils.ts:624-628 | The `Promise.all` of `addNotification` appends exactly the fan-out to the recipients. |
| Store.Market.CreateUserProfile | lib/firebase/firestore-utils.ts:197-243 | An existing profile takes the new email, role and names and keeps its balance. A new student starts with 3 tokens and a welcome notice; a new admin starts with 0 and no notice. |
| Store.Market.UpdateUserTokenBalance | lib/firebase/firestore-utils.ts:152-163 | `BalanceUpdateEffect`: an unguarded `+= amount`, or `UserNotFound` without a change for a missing user. |
| Store.Market.AddItem | lib/firebase/firestore-utils.ts:342-355 | The item is stored under a fresh id; nothing else changes. |
| Store.Market.UpdateItem | lib/firebase/firestore-utils.ts:357-387 | `UpdateItemEffect`: `ItemNotFound` without a change for a missing item. Otherwise the patch is applied, after a notice to every admin exactly when it takes the stock from above 0 to at most 0. |
| Store.Market.DeleteItem | lib/firebase/firestore-utils.ts:389-398 | Removes the item, and only it; a missing item is no error. |
| Store.Market.CreateOrder | lib/firebase/firestore-utils.ts:401-467 | `CreateOrderEffect`: the clamped reservation and the "out of stock" notices. Then, iff a `userName` is given, one pending order with the given lines and `tokensUsed` under the next id and one `order` notice per admin with the order's id; otherwise `UndefinedField` after the reservation. |
| Store.Market.ReserveLines | lib/firebase/firestore-utils.ts:413-438 | The reservation loop leaves `ReserveAll` of the stock and appends exactly `StockNotices`. |
| Store.Market.ReserveLine | lib/firebase/firestore-utils.ts:414-435 | One line: `max(0, current - quantity)` for an existing item, and the admins' notice when it crosses to 0. |
| Store.Market.UpdateOrderStatus | lib/firebase/firestore-utils.ts:503-537 | `OrderNotFound` for a missing order. Otherwise the status is overwritten whatever it was, and the owner gets the new status's message (none for `pending`). |
| Store.Market.CancelOrder | lib/firebase/firestore-utils.ts:539-597 | `CancelOrderEffect`: a missing order is an error; a completed order succeeds with nothing changed. Any other order gets its stock back and status `cancelled`, then the refund, one notice to the user and one per admin. A missing user fails after the first two writes. |
| Store.Market.RefundAndNotify | lib/firebase/firestore-utils.ts:572-591 | The refund, then the user's notice and the admins' notices, or `UserNotFound` with neither. |
| Store.Market.ReleaseLines | lib/firebase/firestore-utils.ts:553-565 | The return loop leaves `ReleaseAll` of the stock and changes nothing else. |
| Store.Market.CreateTokenRequest | lib/firebase/firestore-utils.ts:600-635 | `CreateTokenRequestEffect`: iff a `userName` is given, one pending request under the next id and one `token` notice per admin; otherwise `UndefinedField` and nothing is written. |
| Store.Market.UpdateTokenRequest | lib/firebase/firestore-utils.ts:675-715 | `UpdateTokenRequestEffect`: a missing request is an error. Otherwise the status is overwritten. An approval credits exactly `tokensRequested`; a rejection credits nothing. One `token` notice goes to the requester. |
| Store.Market.MarkNotificationAsRead | lib/firebase/firestore-utils.ts:801-812 | Sets `read` on that notification and no other; a missing one is an error. |
| Store.Market.MarkAllNotificationsAsRead | lib/firebase/firestore-utils.ts:814-834 | The log becomes `MarkAllRead` of the old log; nothing else changes. |
| Store.Market.ResetWeeklyTokens | lib/firebase/firestore-utils.ts:837-861 | The balances become `ResetBalances` of the old ones, with one `system` notice per student. Nothing else changes. |
| Store.Market.SetWeeklyBalances | lib/firebase/firestore-utils.ts:846-849 | The balance loop overwrites exactly the listed users' balances with 3. |
| CartHook.Total | lib/hooks/use-cart.tsx:57 | `items.reduce((sum, i) => sum + i.quantity, 0)`; `TotalSplit`, `LinesAtMostUnits` and `ItemCountVsUnits` relate it to the lines. |
| CartHook.QuantityOf | lib/hooks/use-cart.tsx:119-122 | The units the cart holds of one item; `TotalSplit` shows the cart total is this plus the other lines' total. |
| CartHook.FindLine | lib/hooks/use-cart.tsx:134 | `items.find(item => item.id === itemId)`; `FindLineSpec` states that it is the first matching line. |
| CartHook.SetQuantity | lib/hooks/use-cart.tsx:147 | The item's lines take the new quantity; every other line is unchanged. |
| CartHook.SetQuantityKeepsRules | lib/hooks/use-cart.tsx:115-156 | Setting an item to at least 1 unit, within the room the other lines leave under 3, keeps one line per item, every line at least 1 and the total at most 3. |
| CartHook.FindLineSpec | lib/hooks/use-cart.tsx:134 | `find` returns nothing iff the item is not in the cart, and otherwise its first line. |
| CartHook.TotalSplit | lib/hooks/use-cart.tsx:120-122 | The cart total is the other lines' total plus the item's own quantity. |
| CartHook.RemovePresent | lib/hooks/use-cart.tsx:112 | With one line per item, removing an item drops exactly its line and keeps the others in order. |
| CartHook.WithoutIdDistinct | lib/hooks/use-cart.tsx:112 | Removing lines keeps the ids distinct. |
| CartHook.LinesAtMostUnits | lib/hooks/use-cart.tsx:162 | A cart that keeps the rules has at most as many lines (`itemCount`) as units, and at most 3 units. |
| CartHook.Cart.AddToCart | lib/hooks/use-cart.tsx:54-109 | Refused, with the cart unchanged, iff: 3 units are already held; or the item is already in the cart; or the item is missing or out of stock; checked in that order. Otherwise exactly one line of quantity 1 is appended. The cart rules are preserved. |
| CartHook.Cart.RemoveFromCart | lib/hooks/use-cart.tsx:111-113 | Drops exactly the item's lines, keeps the rest in order, and preserves the cart rules. |
| CartHook.Cart.UpdateQuantity | lib/hooks/use-cart.tsx:115-156 | Ignored iff the quantity is below 1. Refused iff the other lines plus the new quantity exceed 3, or iff it is an increase beyond the stock. Otherwise only the item's line changes. The cart rules are preserved. |
| CartHook.Cart.ClearCart | lib/hooks/use-cart.tsx:158-160 | The cart becomes empty and keeps the rules. |
| CartHook.Cart.constructor | lib/hooks/use-cart.tsx:29 | The cart starts empty and keeps the rules. |
| CartHook.Cart.ItemCount | lib/hooks/use-cart.tsx:162 | The number of lines. `ItemCountVsUnits` relates it to the summed quantity. |
| CartHook.Cart.IsInCart | lib/hooks/use-cart.tsx:164-166 | Some line carries the item id. `IsInCartIff` relates it to the item's quantity and to `find`. |
| CartHook.Cart.ItemCountVsUnits | lib/hooks/use-cart.tsx:162 | In a cart that keeps the rules, `itemCount` is at most the summed quantity, which is at most 3. It is strictly less as soon as one line holds 2 units or more. |
| CartHook.Cart.IsInCartIff | lib/hooks/use-cart.tsx:164-166 | In a cart that keeps the rules, `isInCart(id)` holds iff the item's summed quantity is at least 1, and iff `find` returns a line for it. |
| CartPage.OrderLines | components/cart/cart-page.tsx:146-150 | One order line per cart line, with the same id, name and quantity, in order. |
| CartPage.OrderLinesDistinct | components/cart/cart-page.tsx:146-150 | A cart with one line per item gives an order with one line per item. |
| CartPage.UserName | components/cart/cart-page.tsx:153 | The profile's first and last name joined by a space, or none without a profile. |
| CartPage.TokensNeeded | components/cart/cart-page.tsx:131 | One token per cart line, whatever the quantities. |
| CartPage.TokensNeededBound | components/cart/cart-page.tsx:131 | A cart that keeps the rules costs at most its unit count, and at most 3 tokens. |
| CartPage.CheckoutComposes | components/cart/cart-page.tsx:143-157 | A `createOrder` that stored the order, followed by the debit of `tokensNeeded`, is `CheckoutEffect`. |
| CartPage.CheckoutStopsAtOrder | components/cart/cart-page.tsx:143-157 | A `createOrder` that threw ends the checkout: its reservation and stock notices are the whole `CheckoutEffect`, with outcome `CheckoutFailed` and no debit. |
| CartPage.CheckoutEffect | components/cart/cart-page.tsx:143-157 | The checkout's store effect. The reservation and its stock notices always happen. Without a loaded profile no `userName` is passed: no order is stored, nothing is debited and the outcome is `CheckoutFailed`. With a profile, the pending order mirrors the cart under the next id with `tokensUsed` equal to the line count, the order notices follow, and then the debit of that count, which succeeds (outcome `Placed`) iff the user document exists. |
| CartPage.PlaceOrder | components/cart/cart-page.tsx:143-157 | `CheckoutEffect`: the debit runs only when `createOrder` resolved. The result is `Placed` iff the session has a profile and the user document exists. |
| CartPage.CheckoutPage.constructor | components/cart/cart-page.tsx:82-84 | No pickup time is chosen and the confirmation dialog is closed. |
| CartPage.CheckoutPage.SelectPickupTime | components/cart/cart-page.tsx:246 | The chosen slot becomes the pickup time; the dialog stays as it was. |
| CartPage.CheckoutPage.HandleCheckoutConfirm | components/cart/cart-page.tsx:88-118 | Refuses iff nobody is signed in, the cart is empty, or no pickup time is chosen, checked in that order. Only otherwise opens the dialog. |
| CartPage.CheckoutPage.HandleCheckout | components/cart/cart-page.tsx:120-192 | Without a user, or with a balance below the line count, nothing changes. Otherwise `CheckoutEffect` holds. The cart is cleared and the dialog closed only when the order is placed. When `createOrder` or the debit throws, the cart and the dialog are kept. |
| AdminOrders.Listed | components/admin/admin-orders-page.tsx:59-63 | The row predicate of `filtered`: the status filter and the search on email or id. `FilteredMembership` states it. |
| AdminOrders.Filtered | components/admin/admin-orders-page.tsx:59-63 | `filtered`: the orders the table lists, in list order. `FilteredMembership` states which orders these are. |
| AdminOrders.FilteredMembership | components/admin/admin-orders-page.tsx:59-63 | An order is listed iff the filter is "all" or its status, and its email (ignoring case) or id contains the search. |
| AdminOrders.UnfilteredShowsAll | components/admin/admin-orders-page.tsx:59-63 | "all" with an empty search lists every order in order. |
| AdminOrders.TransitionTable | components/admin/admin-orders-page.tsx:185-195 | The buttons allow exactly pending to ready, ready to completed, and pending or ready to cancelled. |
| AdminOrders.TransitionsMoveForward | components/admin/admin-orders-page.tsx:185-195 | Every offered transition moves an order strictly forward. |
| AdminOrders.Offered | components/admin/admin-orders-page.tsx:185-195 | The buttons of a row: Ready for pending, Complete for ready, and Cancel unless the order is completed or cancelled. `TransitionTable` states the transitions they allow. |
| AdminOrders.Target | components/admin/admin-orders-page.tsx:185-195 | The status each button sets: ready, completed or cancelled. |
| AdminOrders.StaffStatusMessage | components/admin/admin-orders-page.tsx:68-74 | The extra owner notice exists exactly for `ready` and `completed`. |
| AdminOrders.StaffCancelMessage | components/admin/admin-orders-page.tsx:86 | The staff cancellation notice: the last six characters of the order id, and the claim that the tokens were refunded. |
| AdminOrders.WithStatus | components/admin/admin-orders-page.tsx:75 | Only the orders with that id change, and only in status. |
| AdminOrders.WithStatusOnlyStatus | components/admin/admin-orders-page.tsx:75 | The local update changes status only: the target takes the new status, and contents and other orders are kept. |
| AdminOrders.StaffUpdate | components/admin/admin-orders-page.tsx:65-74 | `StaffUpdateEffect`: `updateOrderStatus`, then the extra notice on success. Stock and balances never change. |
| AdminOrders.StaffUpdateEffect | components/admin/admin-orders-page.tsx:65-94 | A staff action: `OrderNotFound` with no change iff the order is missing. Otherwise its status is overwritten, then the owner's status notice and the page's extra notice are sent when they are not empty. Stock, balances and requests never change, even for a cancellation. |
| AdminOrders.AdminOrdersPage.constructor | components/admin/admin-orders-page.tsx:33-57 | The page holds the loaded orders and no order chosen for cancelling. |
| AdminOrders.AdminOrdersPage.UpdateStatus | components/admin/admin-orders-page.tsx:65-80 | `StaffUpdateEffect` with the ready/completed message. Only on success does the local status of that order change. |
| AdminOrders.AdminOrdersPage.AskCancel | components/admin/admin-orders-page.tsx:191-195 | The Cancel button exists iff the order is neither completed nor cancelled; it remembers the order. |
| AdminOrders.AdminOrdersPage.CancelOrder | components/admin/admin-orders-page.tsx:82-94 | Nothing without a chosen order. Otherwise `StaffUpdateEffect` to `cancelled` with the staff notice, with no stock return and no refund. The local status follows on success, and the dialog clears either way. |
| StudentOrders.CancelShown | components/orders/orders-page.tsx:189 | An order card shows Cancel iff the order is pending. `StudentCancelIsStaffCancel` relates this to the staff table. |
| StudentOrders.StudentCancelIsStaffCancel | components/orders/orders-page.tsx:189 | A student's Cancel (pending only) is a transition the staff table allows too. |
| StudentOrders.OrdersPage.constructor | components/orders/orders-page.tsx:25-31 | The page holds the loaded orders, with no cancellation running, no order chosen and the dialog closed. |
| StudentOrders.OrdersPage.ConfirmCancelOrder | components/orders/orders-page.tsx:61-64 | Remembers the order and refund and opens the dialog. |
| StudentOrders.OrdersPage.ClickCancel | components/orders/orders-page.tsx:189-207 | Accepted iff the order is pending and no cancellation is running. The refund offered is the order's `tokensUsed`. |
| StudentOrders.OrdersPage.HandleCancelOrder | components/orders/orders-page.tsx:66-99 | Without a user or a chosen order, nothing changes. Otherwise `CancelOrderEffect` holds, only the chosen order turns `cancelled` locally and only on success, and the dialog and pending state are reset either way. |
| TokenRequestForm.ValidAmount | components/token-request/token-request-page.tsx:68 | An amount is accepted iff it is between 1 and 5. |
| TokenRequestForm.HasPendingRequest | components/token-request/token-request-page.tsx:136 | `hasPendingRequest`: some listed request is pending. `SubmitEnabledIff` and `SubmittedRequestDisablesButton` use it. |
| TokenRequestForm.SubmittedRequestDisablesButton | components/token-request/token-request-page.tsx:136 | After a request is stored, the author's refreshed list has a pending request, so the button is disabled. |
| TokenRequestForm.SubmitEnabled | components/token-request/token-request-page.tsx:200 | The button's `disabled` without the spinner flag: enabled iff no request is pending. `SubmitEnabledIff` states it over the list's members. |
| TokenRequestForm.SubmitEnabledIff | components/token-request/token-request-page.tsx:200 | The button is enabled iff no listed request is pending. |
| TokenRequestForm.SubmitRequest | components/token-request/token-request-page.tsx:89-97 | `CreateTokenRequestEffect` with the reason as typed and the given name. Only when it resolved is the list read: it is the user's requests and disables the button. |
| TokenRequestForm.TokenRequestPage.constructor | components/token-request/token-request-page.tsx:26-54 | The form starts at 1 token with an empty reason, beside the user's loaded requests. |
| TokenRequestForm.TokenRequestPage.EditForm | components/token-request/token-request-page.tsx:176-187 | The amount and reason fields take the typed values; the request list is unchanged. |
| TokenRequestForm.TokenRequestPage.HandleSubmit | components/token-request/token-request-page.tsx:56-121 | Refused iff no user, the amount is outside 1 to 5, or the reason is blank, checked in that order. Every other submission calls `createTokenRequest` without a `userName`, so it ends in `SubmitFailed`. No call changes the store, the form or the list. |
| AdminTokenRequests.StatusMatches | components/admin/token-requests-page.tsx:60-61 | The status filter: `all`, or the request's own status. |
| AdminTokenRequests.SearchMatches | components/admin/token-requests-page.tsx:65-67 | The lower-cased query in the lower-cased email or reason. |
| AdminTokenRequests.Visible | components/admin/token-requests-page.tsx:56-72 | `filteredRequests`: the status filter unless "all", then the search unless the query is empty. `VisibleMembership` states which requests it shows. |
| AdminTokenRequests.VisibleMembership | components/admin/token-requests-page.tsx:56-72 | A request is shown iff it has the chosen status (or "all"), and its lowercased email or reason contains the lowercased query. |
| AdminTokenRequests.UnfilteredShowsAll | components/admin/token-requests-page.tsx:58-71 | "all" with an empty query shows every request in order. |
| AdminTokenRequests.VisibleIdempotent | components/admin/token-requests-page.tsx:56-72 | Filtering the shown list again by the same settings changes nothing. |
| AdminTokenRequests.WithDecision | components/admin/token-requests-page.tsx:82 | Only the decided request's status changes locally. |
| AdminTokenRequests.CanDecide | components/admin/token-requests-page.tsx:203 | A row offers Approve and Reject iff its request is pending. `DecisionHidesButtons` uses it. |
| AdminTokenRequests.DecisionHidesButtons | components/admin/token-requests-page.tsx:203-234 | After a decision that request offers no Approve/Reject; every other row keeps its buttons. |
| AdminTokenRequests.TokenRequestsPage.constructor | components/admin/token-requests-page.tsx:18-54 | The page holds the loaded requests, with status "all" and an empty query. |
| AdminTokenRequests.TokenRequestsPage.SetFilters | components/admin/token-requests-page.tsx:134-169 | The search box and the status select set the query and the view; the requests are unchanged. |
| AdminTokenRequests.TokenRequestsPage.HandleUpdateRequest | components/admin/token-requests-page.tsx:74-98 | `UpdateTokenRequestEffect`; the local copy follows only on success. |
| Inventory.AddCheck | components/admin/inventory-manager.tsx:131-157 | Add is refused iff the name is blank, the category is empty or the quantity is negative, checked in that order. |
| Inventory.EditAcceptsWhatAddRefuses | components/admin/inventory-manager.tsx:204 | The edit dialog accepts a form that add refuses iff the name is non-empty but blank, the category is set and the quantity is not negative. Add then refuses it with `NameRequired`. |
| Inventory.SpaceNameSplitsDialogs | components/admin/inventory-manager.tsx:204 | A name of one space with a category and a quantity of 1 passes edit and is refused by add. |
| Inventory.EditFormValid | components/admin/inventory-manager.tsx:204 | The edit dialog checks an untrimmed name, a category and a quantity that is not negative. `EditAcceptsWhatAddRefuses` and `AddValidIsEditValid` compare it with add. |
| Inventory.AddValidIsEditValid | components/admin/inventory-manager.tsx:204 | Every form add accepts, edit accepts. |
| Inventory.MirrorsAfterAdd | components/admin/inventory-manager.tsx:175 | Appending the new item keeps the copy mirroring the store. |
| Inventory.WithContents | components/admin/inventory-manager.tsx:223 | Only the selected item's entry changes, to the form's contents. |
| Inventory.MirrorsAfterEdit | components/admin/inventory-manager.tsx:223 | The local edit after a full `updateItem` keeps the copy mirroring the store. |
| Inventory.MirrorsAfterDelete | components/admin/inventory-manager.tsx:256 | Removing the id from both keeps the copy mirroring the store. |
| Inventory.ItemMatches | components/admin/inventory-manager.tsx:99-104 | The lower-cased query in the lower-cased name, description or category. |
| Inventory.VisibleItems | components/admin/inventory-manager.tsx:96-110 | The search filter over name, category and description, in list order. `VisibleItemsMembership` states which items it lists. |
| Inventory.VisibleItemsMembership | components/admin/inventory-manager.tsx:96-110 | An item is listed iff it is in the copy and its lowercased name, description or category contains the lowercased query; the empty query lists all. |
| Inventory.AddToStore | components/admin/inventory-manager.tsx:160-175 | `addItem` with the form, and exactly one appended entry carrying the returned id. |
| Inventory.EditInStore | components/admin/inventory-manager.tsx:214-223 | `UpdateItemEffect` with every field of the form, and the local edit only on success. |
| Inventory.DeleteFromStore | components/admin/inventory-manager.tsx:253-256 | `deleteItem`, and the removal of exactly that id from the copy. |
| Inventory.InventoryManager.constructor | components/admin/inventory-manager.tsx:44-61 | The form starts as `defaultItemForm` ("food", one unit), with no selection and every dialog closed. |
| Inventory.InventoryManager.EditForm | components/admin/inventory-manager.tsx:112-125 | An input or select change takes the typed form; the items, the selection and the dialogs are unchanged. |
| Inventory.InventoryManager.OpenEditDialog | components/admin/inventory-manager.tsx:278-288 | Selects the item, copies it into the form, and opens the dialog. |
| Inventory.InventoryManager.OpenDeleteDialog | components/admin/inventory-manager.tsx:290-293 | Selects the item and opens the dialog. |
| Inventory.InventoryManager.HandleAddItem | components/admin/inventory-manager.tsx:127-195 | A refused form changes nothing. Otherwise the item is stored and appended once under its id, and the form resets. The copy keeps mirroring the store, and stock stays non-negative. |
| Inventory.InventoryManager.HandleEditItem | components/admin/inventory-manager.tsx:197-244 | Nothing without a selection or with an invalid form. Otherwise `UpdateItemEffect` holds, and only on success does the local entry change and the dialog reset. The copy keeps mirroring the store, and stock stays non-negative. |
| Inventory.InventoryManager.HandleDeleteItem | components/admin/inventory-manager.tsx:246-276 | Nothing without a selection. Otherwise exactly that id leaves the store and the copy. |
| Scenarios.CheckoutPlaced | components/cart/cart-page.tsx:143-157 | A placed checkout appended the pending order under the next id, reserved the stock and debited its existing user. |
| Scenarios.CancelReleased | lib/firebase/firestore-utils.ts:551-573 | A successful cancel of a non-completed order returned its stock, set it cancelled and credited the existing user. |
| Scenarios.CheckoutThenCancelRestores | lib/firebase/firestore-utils.ts:551-573 | A checkout from a well-formed cart with enough stock, then the student page's cancel refunding `tokensUsed`, restores every stock quantity and every balance. |
| Scenarios.CancelTwiceRefundsTwice | lib/firebase/firestore-utils.ts:551-573 | Cancelling an order twice refunds it twice and returns its stock twice. |
| Scenarios.LastUnitOversold | lib/firebase/firestore-utils.ts:419 | Two checkouts of the one remaining unit both place pending orders, and the stock ends at 0. |
| Scenarios.ProfilelessCheckoutStrandsStock | lib/firebase/firestore-utils.ts:413-441 | A checkout of the last unit by a session without a profile fails: the stock ends at 0, yet no order holds the unit and no token is debited. |
| Scenarios.OversoldCancelsInflateStock | lib/firebase/firestore-utils.ts:558-561 | Cancelling those two orders leaves 2 units, one more than ever existed. |

## Left out

- Firebase I/O (`getDoc`, `updateDoc`, `addDoc`, `deleteDoc`) is replaced by the in-memory `Market`. The `if (!db) return` early exits and image uploads (`uploadProfileImage`, `uploadItemImage`) are left out, since they are foreign calls.
- Concurrency: `Promise.all` fan-outs run as sequential loops in list order. The lost updates of concurrent read-then-write calls are not modelled.
- Timestamps (`serverTimestamp`), `orderBy("createdAt")` and `limit(20/50)` are left out. A collection's order is its append order, and `getUserTokenRequests` lists newest first as the reverse.
- The email helpers (`sendEmail`, `send*Email`) only print text, so they are left out. A failing email would skip the page's later local update; that path is not modelled.
- Auth, sessions, routing and the non-admin redirect are left out. The signed-in user is an `Option<SessionUser>` parameter.
- Pickup slot generation depends on the clock and locale formatting. The pickup time is a string parameter.
- Cart persistence in localStorage, polling intervals and the `useEffect` page loads are left out: `getItem`, `getItems`, `getAllOrders`, `getUserOrders`, `getAllTokenRequests`. Each page's list is a constructor argument, and the cart's stock lookup is a parameter.
- Toasts, spinners and the `isSubmitting`/`processingRequestId` flags are presentation state and are left out. Their outcomes are returned as result values instead.
- Text.Lower: lower-cases ASCII letters only. `toLowerCase` on other scripts is not modelled, because it needs Unicode case tables.
- Document ids are natural numbers rather than random strings. `Text.SliceLast` on the decimal text stands for `id.slice(-6)`.
- Stored quantities and names are taken as present. The defaulting of a missing field (`quantity || 0`, `user.email || ""`) is not modelled.
- TokenRequestForm.TokenRequestPage.EditForm: takes the amount as an integer. `Number.parseInt` of an emptied field is `NaN`, which passes the range check of `handleSubmit`. Only the browser's `required`, `min` and `max` validation keeps it out, and neither `NaN` nor that validation is modelled.
- TokenRequestForm.TokenRequestPage.HandleSubmit: the form reset, the list reload and the success toast after `createTokenRequest` are not modelled, because the call always rejects there and they are never reached. `SubmitRequest` states what the store calls do when a name is given.
- The order in which Firestore lists a role query (by document id) is not modelled. The fan-outs walk the users in `uids` order, so only the order of the admin notices may differ.
- Inventory.InventoryManager.EditForm: takes the form as typed. The `Number.parseInt(value) || 0` conversion of the quantity field is not modelled.
- `updateUserProfile`, `getUserRole`, `getAllStudents`, `getUserNotifications` and `getAdminNotifications` are profile and notification reads or edits outside the transaction layer, so they are left out.
