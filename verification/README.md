# Food-delivery prototype: the root application state, in Dafny

This project models the state container at the root of the food-delivery web
prototype (`App.tsx`), separated from its React rendering. It has four parts:

- **Cart aggregate**: a list of cart entries, each a menu item plus a quantity.
  It supports add-with-merge, quantity update with clamp-at-zero and removal
  of zero entries, remove-by-id, and clear. The derived values are the
  subtotal, the payable amount (subtotal plus the flat 15000 delivery fee) and
  the navbar badge count.
- **Notification queue**: toasts are appended in the order they are raised.
  They are removed by id, either on dismissal or when their 3-second timer
  fires; both paths run the same filter.
- **Session and navigation**: the current screen (a closed enumeration), the
  signed-in display name (empty means guest), sign-in, sign-out, the
  profile-name update, order placement, and the empty-prompt guard of the AI
  suggestion box.
- **Merchant dashboard**: a menu list with delete-by-id, and table bookings
  whose status is overwritten by confirm or reject.

Layout:

- `Seqs.dfy` holds `Filter` and `SumOf`, the JavaScript `filter` and numeric
  `reduce` the handlers are built from, with their lemmas.
- `Types.dfy` holds the records; `Catalog.dfy` holds the mock menu and the seed
  bookings.
- `CartOps.dfy` holds the cart transformations and totals as functions, plus
  the lemmas about them.
- `Notifications.dfy` holds the toast queue transformations.
- `AppState.dfy` holds the class `App`. Its fields are the root's four pieces of
  state, and its methods are the root's handlers.
- `Merchant.dfy` holds the dashboard's transformations and the class
  `Dashboard`. The dashboard's state lives only while the screen is mounted,
  and its toasts go to the `App` it was given.

The cart invariant `ValidCart` says two things: ids are unique, and every
quantity is positive. The handlers themselves work on any list: like the
source's `map`, they touch every entry carrying the id. The lemmas state what
those handlers mean under the invariant.

Points where the code's behaviour is worth noting:

- After a successful sign-in, the sign-in form itself navigates to the landing
  screen (`App.tsx:375`).
- The booking handler does not check the current status (`App.tsx:687`). A
  confirmed or cancelled booking stays that way only because the dashboard
  shows the buttons on pending bookings alone (`App.tsx:751`). The model proves
  terminality under that guard, and exhibits the overwrite without it.
- Toast ids are clock readings, so the code does not ensure they are unique. The
  round-trip lemmas about a toast therefore require that its id is not already
  displayed.
- Adding an item that is already in the cart keeps the stored entry's fields
  and raises only its quantity. The subtotal therefore grows by the stored price
  (`App.tsx:848`).

## Model

| member | source | states |
|---|---|---|
| CartOps.WithQuantity | App.tsx:855-860 | every entry carrying the id gets its quantity through the given map; every other entry, and every item field, is unchanged; the length is unchanged |
| CartOps.AddToCart | App.tsx:845-850 | for an id already in the cart, the length is unchanged and each entry with that id has quantity one higher, with the item fields it had; for a new id, the item is appended with quantity 1 |
| CartOps.AddToCartKeepsValid | App.tsx:846-849 | adding to a valid cart keeps ids unique and quantities positive |
| CartOps.AddToCartExisting | App.tsx:847-848 | with unique ids, adding an item at position k bumps exactly entry k; the badge count rises by 1 and the subtotal by the stored price of entry k |
| CartOps.AddToCartNew | App.tsx:849 | adding a new item raises the badge count by 1 and the subtotal by its price |
| CartOps.AddToCartCount | App.tsx:845-850 | with unique ids, one add always raises the badge count by exactly 1 |
| CartOps.AddRepeatedly | App.tsx:845-850 | adding the same item n >= 1 times to an empty cart yields exactly one entry, with quantity n |
| CartOps.UpdateQuantity | App.tsx:854-862 | after any quantity update, every remaining entry has a positive quantity, and the cart does not grow |
| CartOps.UpdateQuantityAt | App.tsx:855-861 | in a valid cart, entry k becomes q + delta when that is positive and otherwise disappears; all other entries stay in place and in order |
| CartOps.UpdateQuantityAbsent | App.tsx:855-861 | an id not in the cart leaves the cart unchanged |
| CartOps.UpdateQuantityKeepsValid | App.tsx:855-861 | a quantity update keeps a valid cart valid |
| CartOps.UpdateToZeroRemoves | App.tsx:857-861 | lowering an entry by its whole quantity leaves no entry with that id (zero quantities are never observable) |
| CartOps.UpdateQuantityTotals | App.tsx:854-862 | the badge count and the subtotal change by exactly the changed entry's old and new contributions, `max(0, q + delta)` |
| CartOps.AddThenDecrement | App.tsx:845-862 | in a valid cart, add-to-cart followed by the minus button gives back the original cart |
| CartOps.IncrementMatchesAdd | App.tsx:846-861 | for an item already in a valid cart, the plus button produces the same cart as add-to-cart |
| CartOps.RemoveFromCart | App.tsx:864-867 | after removal no entry carries the id, and an entry is kept exactly when it was in the cart with a different id |
| CartOps.RemoveAbsent | App.tsx:865 | removing an id that is not in the cart leaves the cart unchanged |
| CartOps.RemoveAt | App.tsx:865 | with unique ids, removal cuts out exactly entry k, keeps the others in order, and lowers the badge count and the subtotal by that entry's share |
| CartOps.RemoveKeepsValid | App.tsx:865 | removal keeps a valid cart valid |
| CartOps.RemoveAfterAdd | App.tsx:845-866 | removing a freshly added item gives back the original cart |
| CartOps.Subtotal | App.tsx:576 | the checkout subtotal: the sum of price times quantity over the entries, folded from an initial 0 |
| CartOps.Payable | App.tsx:644 | the payable amount: the subtotal plus the flat 15000 delivery fee |
| CartOps.ItemCount | App.tsx:906 | the navbar badge: the sum of the quantities, folded from an initial 0 |
| CartOps.ItemCountBounds | App.tsx:906 | in a cart with positive quantities, the badge count is at least the number of entries, and it is 0 exactly when the cart is empty |
| CartOps.TotalsNonNegative | App.tsx:576 | with non-negative prices, the subtotal is non-negative and the payable amount is at least the delivery fee |
| CartOps.EmptyCartTotals | App.tsx:644 | an empty cart has subtotal 0, badge 0, and payable amount 15000 |
| CartOps.PhoTwiceScenario | constants.ts:64-73 | a cart with one m1 (65000) plus another m1 becomes one entry of quantity 2, with subtotal 130000, payable amount 145000 and badge count 2 |
| CartOps.Apply | App.tsx:845-869 | one cart operation the root hands down: add, quantity update, remove or clear |
| CartOps.Run | App.tsx:845-869 | a sequence of cart operations applied in order |
| CartOps.RunKeepsValid | App.tsx:845-869 | no sequence of add, update, remove and clear operations ever produces a duplicate id or a non-positive quantity |
| Notifications.PushToast | App.tsx:837-841 | raising a toast appends exactly one toast, with the given id, message and type (info by default), and keeps the earlier ones as they were |
| Notifications.DropToast | App.tsx:842 | after removal no toast carries the id, and a toast is kept exactly when it was displayed with another id |
| Notifications.DropCounts | App.tsx:842 | removal keeps every toast with another id exactly as many times as it occurred, and drops every toast with the id |
| Notifications.DropAbsent | App.tsx:842 | dismissing or expiring an id that is not displayed is a no-op |
| Notifications.DropIdempotent | App.tsx:840-842 | a timer that fires after the toast was dismissed changes nothing |
| Notifications.DropAfterPush | App.tsx:837-841 | when the id is new, the toast's own expiry restores the queue as it was before the toast was raised |
| Notifications.DropPushOther | App.tsx:839-842 | removing another id leaves a newly raised toast last in the queue |
| Notifications.DropToastConcat | App.tsx:842 | removal distributes over concatenation, so the remaining toasts keep their relative order even when an id occurs more than once |
| Notifications.DropCommutes | App.tsx:840-842 | two removals give the same queue in either order |
| AppState.CredentialsPresent | App.tsx:366 | the sign-in guard: both the email and the password are non-empty |
| AppState.ShowsNavbar | App.tsx:902 | the navbar is rendered on every screen except the sign-in screen |
| AppState.OrderButtonShown | App.tsx:588-646 | the order button is on screen only on the checkout view with a non-empty cart |
| AppState.OrderButtonNeedsItems | App.tsx:588-646 | whenever the order button is on screen over a valid cart, the badge count is at least 1 |
| AppState.App.constructor | App.tsx:831-834 | the application starts on the landing screen, as a guest, with an empty cart and no toasts |
| AppState.App.Navigate | App.tsx:831 | navigation sets the current view unconditionally and changes nothing else |
| AppState.App.AddToast | App.tsx:837-841 | the queue becomes the old queue with the one toast appended; nothing else changes |
| AppState.App.RemoveToast | App.tsx:842 | the queue becomes the old queue without the toasts carrying the id |
| AppState.App.AddToCart | App.tsx:845-852 | the cart becomes the merge of the item into the old cart and stays valid; the badge count rises by 1; one success toast is appended |
| AppState.App.UpdateQuantity | App.tsx:854-862 | the cart becomes the clamped-and-filtered update of the old cart and stays valid; nothing else changes |
| AppState.App.RemoveFromCart | App.tsx:864-867 | the cart loses every entry with the id and stays valid; one info toast is appended |
| AppState.App.ClearCart | App.tsx:869 | the cart becomes empty; nothing else changes |
| AppState.App.Login | App.tsx:872-875 | the display name is set, and one success welcome toast naming the user is appended |
| AppState.App.Logout | App.tsx:877-882 | from any state: guest, empty cart, landing screen with the navbar shown, and one info toast appended |
| AppState.App.SubmitLogin | App.tsx:365-377 | accepted exactly when both fields are non-empty; if not, an error toast is appended and nothing else changes; if so, the fixed display name is signed in and the landing screen, with its navbar, is shown |
| AppState.App.PlaceOrder | App.tsx:579-586 | the completed order empties the cart and shows the order-success screen, where the order button is no longer shown |
| AppState.App.SaveProfile | App.tsx:790-793 | the display name is replaced, and a success toast is appended |
| AppState.App.RequestAiSuggestion | App.tsx:258-272 | an empty prompt appends an info toast and shows nothing new; any other prompt shows the fixed suggestion and raises no toast |
| Merchant.DeleteMenuItem | App.tsx:681 | after deletion no item carries the id, and an item is kept exactly when it was on the menu with another id |
| Merchant.DeleteMenuItemAbsent | App.tsx:681 | deleting an id the menu does not hold leaves the menu unchanged |
| Merchant.DeleteMenuItemConcat | App.tsx:681 | deletion keeps the remaining items in their original order |
| Merchant.ActionStatus | App.tsx:687 | confirm and reject both write a non-pending status |
| Merchant.ApplyBookingAction | App.tsx:686-687 | the length is unchanged; only the status field of bookings carrying the id changes, to confirmed or cancelled; every other booking is unchanged |
| Merchant.BookingActionKeepsIds | App.tsx:687 | booking ids stay unique |
| Merchant.BookingActionIdempotent | App.tsx:687 | performing the same action twice equals performing it once |
| Merchant.Offered | App.tsx:751-754 | the confirm and reject buttons are on screen for an id exactly when a pending booking carries it |
| Merchant.OfferedActionOneWay | App.tsx:751-754 | with unique ids, an action on a booking whose buttons are shown moves each status only from pending, and leaves every confirmed or cancelled booking unchanged |
| Merchant.UnguardedActionOverwrites | App.tsx:686-687 | the handler itself does not guard: rejecting seed booking 2 while it is confirmed overwrites it with cancelled |
| Merchant.RunClicks | App.tsx:686-687 | a sequence of merchant clicks, each applying the booking handler in order |
| Merchant.AllOffered | App.tsx:751-754 | every click in a sequence lands on a booking whose buttons are on screen when it is made |
| Merchant.TerminalStaysTerminal | App.tsx:751-754 | through any sequence of clicks the dashboard can offer, a confirmed or cancelled booking never changes again |
| Merchant.Dashboard.constructor | App.tsx:673-677 | mounting the dashboard seeds the mock menu and the two seed bookings |
| Merchant.Dashboard.DeleteItem | App.tsx:679-684 | if the dialog is confirmed, the item is deleted and a success toast is appended; if declined, nothing changes |
| Merchant.Dashboard.BookingAction | App.tsx:686-689 | bookings become the overwritten list, with ids still unique; a success toast is appended for confirm and an info toast for reject |

## Left out

- Rendering is not modelled: `renderView`'s switch (every view has its own page, and NotFound falls back to the landing page), JSX, CSS classes, icons, the `Button`, `Input`, `Badge` and `Footer` components, and `toLocaleString` formatting are presentation only.
- The navbar dropdown state and its document `mousedown` listener are not modelled; they are DOM event plumbing.
- The `setTimeout` delays of sign-in, ordering, the AI suggestion and toast expiry are not modelled, and neither are the `loading`/`isProcessing` flags. Each completed effect is a single transition, and expiry is `RemoveToast` at some later point. Timer races and timers that outlive their screen are concurrency concerns.
- `Date.now()` toast ids are a clock read, so they are method parameters. Nothing makes them unique, so no uniqueness invariant is claimed.
- `window.confirm` in the menu delete handler is a browser dialog, so its answer is the `confirmed` argument.
- The form inputs (email, password, AI prompt, profile name) and the dashboard's active tab are local UI state, so they are parameters or are not modelled.
- AppState.App.RequestAiSuggestion: the `catch` branch with the "busy" text is not modelled, because the awaited timer never rejects. An empty prompt is reported as `None`, meaning the previous suggestion stays on screen.
- AppState.App.PlaceOrder: the handler has no guard, so the model has none either. The non-empty-cart condition under which the button is shown is stated separately as `OrderButtonShown`, and `OrderButtonNeedsItems` proves that it implies a badge count of at least 1.
- The toast-only actions (social sign-in, advanced filters, add-menu-item, table request on the restaurant page) are not modelled as separate operations. Each is an `AddToast` call with a fixed message.
- The AI service wrapper, the charts and the map placeholder are not modelled. They are a network client and third-party UI, and the application never calls the AI service.
- Restaurants, categories, ratings and the favourite flag are not modelled. They are static display data, and ratings are floating point.
- JavaScript numbers are modelled as unbounded integers. Prices are whole dong and deltas are whole steps, so there is no rounding or overflow below 2^53.
- The optional `popular` flag is a plain boolean, with absent meaning `false`.
- The merchant menu and the customer catalog are separate copies in the source. The model keeps them separate and does not reconcile them.
