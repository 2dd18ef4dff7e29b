# RevaEats cart and order model

A Dafny model of the client-side cart store of RevaEats, a campus food-ordering
web application, and of the order, login and display logic around it:

- the `CartProvider` store (`src/hooks/use-cart.tsx`): cart lines, the logged-in
  phone and its cookie, the mutators and the derived `cartCount` / `cartTotal`
  (modules `CartLines`, pure, and `CartStore`, the class `Cart`);
- `placeOrder` and `getOrderStatus` (`src/lib/actions.ts`, module `Orders`) over
  an in-memory `orders` / `order_items` pair of tables;
- the `login` find-or-create flow (`src/lib/auth-actions.ts`, module `Auth`) over
  an in-memory `users` table;
- the two phone rules, `^\d{10}$` and `^[6-9]\d{9}$`, kept apart and related
  (module `PhoneRules`);
- the checkout form's field rules and `onSubmit` (module `CheckoutForm`);
- the order-status tracker's stage list, timer step and active-stage mapping
  (module `StatusTracker`);
- the recommendation filter and its "Add" handler (module `Recommendations`);
- the menu card's quantity lookup and +/- handlers (module `MenuItemCard`);
- the menu page's grouping by category (module `MenuPage`).

Prices are integers (paise), so every total is exact. Item and order ids are
strings. Whatever the database or the recommender answers is a parameter of
the operation that asks: a reply `Ok`, `DbError` (an `error` object) or `Threw`
(the await throws), the id and time the database gives a new order, or the
recommender's list.

The model follows the code on these points, where one might expect otherwise:
no pickup code is generated (the `orders` insert has none); the `name` field the
checkout form sends is not read by `placeOrder`; `placeOrder` accepts an empty
cart; the tracker draws three stages, so `Completed` (index -1) marks none of
them active; and the checkout form clears the cart even when `placeOrder`
returns an error.

## Model

| member | source | states |
|---|---|---|
| `SeqUtil.IndexOf` | src/components/order-status-tracker.tsx:49 | `indexOf` is -1 exactly when the element is absent, otherwise the first position holding it |
| `CartLines.HasId` | src/hooks/use-cart.tsx:48-49 | the `find` by item id succeeding (also the `find` of src/components/menu-item-card.tsx:18); used by `Added` and `QuantityOf` and stated by their lemmas |
| `CartLines.Incremented` | src/hooks/use-cart.tsx:50-54 | the `map` of `addToCart` that adds one to the matching line; stated through `Added` by `AddedPresent` |
| `CartLines.Added` | src/hooks/use-cart.tsx:46-57 | `addToCart`'s state update; what it does is stated by the `Added*` lemmas below |
| `CartLines.AddedPresent` | src/hooks/use-cart.tsx:48-54 | adding an item already in a well-formed cart increments exactly its line, by exactly 1; all other lines are equal |
| `CartLines.AddedAbsent` | src/hooks/use-cart.tsx:56 | adding an absent item appends one line with quantity 1 at the end |
| `CartLines.AddedWellFormed` | src/hooks/use-cart.tsx:46-57 | `addToCart` keeps ids unique and quantities at least 1 |
| `CartLines.AddedCount` | src/hooks/use-cart.tsx:46-57 | `addToCart` raises `cartCount` by exactly 1 |
| `CartLines.AddedTotalPresent` | src/hooks/use-cart.tsx:50-54 | adding an item already present raises `cartTotal` by the price stored in its line |
| `CartLines.IncrementedLineTotal` | src/hooks/use-cart.tsx:98-100 | one more unit on a line raises `cartTotal` by that line's price |
| `CartLines.AddedTotalAbsent` | src/hooks/use-cart.tsx:56 | adding a new item raises `cartTotal` by its price |
| `CartLines.AddTwiceToEmpty` | src/hooks/use-cart.tsx:46-57 | two additions of one item to an empty cart give a single line with quantity 2 |
| `CartLines.Removed` | src/hooks/use-cart.tsx:63-65 | `removeFromCart`'s filter; stated by the `Removed*` lemmas below |
| `CartLines.RemovedAbsent` | src/hooks/use-cart.tsx:63-65 | removing an id not in the cart changes nothing |
| `CartLines.RemovedPresent` | src/hooks/use-cart.tsx:63-65 | removing the item at position k deletes exactly that line and keeps the others in order |
| `CartLines.RemovedWellFormed` | src/hooks/use-cart.tsx:63-65 | `removeFromCart` keeps the invariant and leaves no line with that id |
| `CartLines.RemovedSums` | src/hooks/use-cart.tsx:63-65 | removal lowers count and total by exactly the removed line's quantity and price times quantity |
| `CartLines.WithQuantity` | src/hooks/use-cart.tsx:71-75 | the `map` of `updateQuantity`; stated by `WithQuantityPresent` / `WithQuantityAbsent` |
| `CartLines.WithQuantityPresent` | src/hooks/use-cart.tsx:71-75 | a positive quantity replaces exactly the matching line's quantity, nothing else |
| `CartLines.ReplacedWellFormed` | src/hooks/use-cart.tsx:71-75 | giving one line another positive quantity keeps ids unique and quantities at least 1 |
| `CartLines.WithQuantityAbsent` | src/hooks/use-cart.tsx:71-75 | setting the quantity of an absent id changes nothing |
| `CartLines.Updated` | src/hooks/use-cart.tsx:67-77 | `updateQuantity`'s state update; stated by `UpdatedCases` / `UpdatedWellFormed` |
| `CartLines.UpdatedCases` | src/hooks/use-cart.tsx:67-77 | `updateQuantity(id, q)` with q <= 0 equals `removeFromCart(id)`; with an absent id it is a no-op |
| `CartLines.UpdatedWellFormed` | src/hooks/use-cart.tsx:67-77 | `updateQuantity` keeps the invariant for every quantity |
| `CartLines.ReplacedSums` | src/hooks/use-cart.tsx:94-100 | changing one line's quantity changes count and total by that line's difference only |
| `CartLines.Count` | src/hooks/use-cart.tsx:94-96 | the `cartCount` fold; stated by `CountAppend`, `CountAtLeastLines` and the sums lemmas |
| `CartLines.Total` | src/hooks/use-cart.tsx:98-100 | the `cartTotal` fold; stated by `TotalAppend` and the sums lemmas |
| `CartLines.CountAtLeastLines` | src/hooks/use-cart.tsx:94-96 | in a well-formed cart `cartCount` is at least the number of lines, and 0 exactly for the empty cart |
| `CartLines.CountAppend` | src/hooks/use-cart.tsx:94-96 | the count of two carts joined is the sum of their counts |
| `CartLines.TotalAppend` | src/hooks/use-cart.tsx:98-100 | the total of two carts joined is the sum of their totals |
| `CartLines.ApplyAllWellFormed` | src/hooks/use-cart.tsx:46-81 | no sequence of add / update / remove calls produces a duplicate id or a quantity below 1 |
| `CartStore.Cart.constructor` | src/hooks/use-cart.tsx:29-43 | the store starts with an empty cart, logged in from a non-empty `userPhone` cookie, loading finished |
| `CartStore.Cart.AddToCart` | src/hooks/use-cart.tsx:46-61 | the new lines are `Added(old lines, item)`, count + 1, total + the price of the item's line (the stored line's price when it was present), user and cookie untouched, toast "<name> added to cart!" |
| `CartStore.Cart.RemoveFromCart` | src/hooks/use-cart.tsx:63-65 | the new lines are `Removed(old lines, id)`, none has the id, user untouched |
| `CartStore.Cart.UpdateQuantity` | src/hooks/use-cart.tsx:67-77 | the new lines are `Updated(old lines, id, q)`, via `removeFromCart` when q <= 0 |
| `CartStore.Cart.ClearCart` | src/hooks/use-cart.tsx:79-81 | the cart is empty, count and total are 0, user untouched |
| `CartStore.Cart.LoginUser` | src/hooks/use-cart.tsx:83-86 | the phone is set and the cookie written with a 2,592,000 s lifetime; the cart is untouched |
| `CartStore.Cart.LogoutUser` | src/hooks/use-cart.tsx:88-92 | whatever the prior state: no phone, no cookie, an empty cart, count 0 |
| `CartStore.Cart.CartCount` | src/hooks/use-cart.tsx:94-96 | `cartCount` is at least the number of lines and 0 exactly for an empty cart |
| `CartStore.Cart.CartTotal` | src/hooks/use-cart.tsx:98-100 | `cartTotal` of an empty cart is 0 |
| `PhoneRules.IsDigit` | src/lib/actions.ts:9 | JavaScript's `\d` without the u flag: a character in '0'..'9' |
| `PhoneRules.AllDigits` | src/lib/auth-actions.ts:11 | `\d{n}` over a whole string: every character is a digit; used by `IsTenDigitPhone` and `IsIndianMobile` |
| `PhoneRules.IsTenDigitPhone` | src/lib/actions.ts:9 | `/^\d{10}$/`; related to the other rule by the lemmas below |
| `PhoneRules.IsIndianMobile` | src/lib/auth-actions.ts:10-13 | `/^[6-9]\d{9}$/`, shared by login and checkout; related to the other rule by the lemmas below |
| `PhoneRules.MobileIsTenDigitsStartingSixToNine` | src/lib/auth-actions.ts:10-13 | a phone is an Indian mobile number iff it is ten digits whose first digit is 6-9 |
| `PhoneRules.MobileImpliesTenDigits` | src/components/checkout-form.tsx:16 | every number the form's rule accepts is accepted by `placeOrder`'s `^\d{10}$` |
| `PhoneRules.TenDigitsNotMobile` | src/lib/actions.ts:9 | but not conversely: "0123456789" passes `^\d{10}$` and fails `^[6-9]\d{9}$` |
| `PhoneRules.EmptyFailsBoth` | src/components/checkout-form.tsx:27-30 | the empty default phone fails both rules |
| `Orders.ValidationFailure` | src/lib/actions.ts:16-22 | validation fails exactly when the phone is not ten digits or the cart field is missing; the phone message exactly when the phone is bad, and "Invalid data provided." for a good phone without a cart |
| `Orders.ItemRows` | src/lib/actions.ts:50-55 | `orderItemsToInsert`; stated by `ItemRowsCopyLines` and `RowsTotalIsCartTotal` |
| `Orders.ItemRowsCopyLines` | src/lib/actions.ts:50-55 | one item row per cart line, carrying the order id and the line's item id, quantity and price |
| `Orders.RowsTotalIsCartTotal` | src/lib/actions.ts:26 | the item rows' price times quantity sums to the cart total written on the order |
| `Orders.PlaceOrder` | src/lib/actions.ts:13-73 | invalid input returns its message with no insert; a failed order insert returns before any item insert; otherwise the order row (status New, the phone, the cart total) is appended, and stays when the item insert fails; success returns the new row's id and appends exactly the built item rows, which sum to the order total |
| `Orders.HasOrderFrom` | src/lib/actions.ts:83 | the `.eq('ordered_by_phone', phone)` select finding a row; `LatestOrder` and `GetOrderStatus` are None exactly when it fails |
| `Orders.LatestOrder` | src/lib/actions.ts:79-86 | the phone's order with the greatest `order_time`, None exactly when the phone has no order |
| `Orders.GetOrderStatus` | src/lib/actions.ts:75-90 | None for an empty phone, on a query error or with no order; otherwise the id and status of an order of that phone with the greatest time |
| `Auth.Phones` | src/lib/auth-actions.ts:34-35 | the `phone` column the select matches against: a phone is in it exactly when some row holds it |
| `SeqUtil.OccurrencesPositive` | src/lib/auth-actions.ts:45 | the count of a phone in that column is positive exactly when the phone occurs, which is the `!user` test |
| `SeqUtil.OccurrencesAppend` | src/lib/auth-actions.ts:46-48 | the insert of one row adds one to the count of its own phone and nothing to any other |
| `SeqUtil.OccurrencesWithoutRepeats` | src/app/menu/page.tsx:16 | in a list without repeats, such as `categories`, every element occurs once |
| `Auth.Login` | src/lib/auth-actions.ts:16-65 | an invalid phone or a failed select returns its message and writes nothing; an absent phone gets exactly one `{New User, phone}` row, a present one none; an insert failure returns a message; success always redirects to /menu with the phone present (exactly once if it was at most once before) |
| `StatusTracker.StageIndex` | src/components/order-status-tracker.tsx:8-10 | the stages are New, Preparing, Ready for Pickup in that order; any other status has index -1 |
| `StatusTracker.IsActive` | src/components/order-status-tracker.tsx:56 | `index <= currentStatusIndex`; stated by `ActiveIsPrefix` and `UnrecognisedMarksNothing` |
| `StatusTracker.ActiveStages` | src/components/order-status-tracker.tsx:49-56 | one flag per stage, and stage i is drawn active iff the current status is stage i or a later stage |
| `StatusTracker.Scheduled` | src/components/order-status-tracker.tsx:38-42 | the status the effect schedules; stated by `ScheduledIsNextStage` |
| `StatusTracker.Run` | src/components/order-status-tracker.tsx:28-42 | the status after n timer firings; stated by `RunMonotone` and `RunReachesReady` |
| `StatusTracker.ScheduledIsNextStage` | src/components/order-status-tracker.tsx:38-42 | New schedules Preparing, Preparing schedules Ready for Pickup (one stage forward); only Ready for Pickup schedules nothing |
| `StatusTracker.RunMonotone` | src/components/order-status-tracker.tsx:29-42 | the status never moves backward over any number of timer firings |
| `StatusTracker.RunReachesReady` | src/components/order-status-tracker.tsx:38-42 | from any stage, two or more firings end at Ready for Pickup |
| `StatusTracker.ActiveIsPrefix` | src/components/order-status-tracker.tsx:56 | the active stages form a prefix of the list |
| `StatusTracker.UnrecognisedMarksNothing` | src/components/order-status-tracker.tsx:49 | a status outside the list (Completed) marks no stage active |
| `StatusTracker.PreparingStages` | src/components/order-status-tracker.tsx:56 | with Preparing, New and Preparing are active and Ready for Pickup is not |
| `StatusTracker.Tracker.constructor` | src/components/order-status-tracker.tsx:18-25 | the tracker starts at New and clears the cart when it mounts; phone, cookie and loading flag are kept |
| `StatusTracker.Tracker.TimerFires` | src/components/order-status-tracker.tsx:28-42 | a firing sets the scheduled status, never a lower stage |
| `Recommendations.CartNames` | src/components/smart-recommendations.tsx:23 | the cart's item names sent to the recommender; what they are used for is stated by `FilteredAgainstCart` |
| `Recommendations.InCatalog` | src/components/smart-recommendations.tsx:27 | `allMenuItems.some(item => item.name === rec)`; stated by `FindByName` (which succeeds exactly on such names) |
| `Recommendations.Shown` | src/components/smart-recommendations.tsx:27 | the filter's predicate: not among the cart's names and in the catalog; stated by `FilteredMembers` |
| `Recommendations.Filtered` | src/components/smart-recommendations.tsx:26-28 | the recommendation filter; stated by `FilteredMembers`, `FilteredAppend` and `FilteredAgainstCart` |
| `Recommendations.FilteredMembers` | src/components/smart-recommendations.tsx:26-28 | a name is shown iff the recommender returned it, it is not in the cart and it names a catalog item |
| `Recommendations.FilteredAppend` | src/components/smart-recommendations.tsx:26-28 | the filter keeps the recommender's order |
| `Recommendations.FilteredAgainstCart` | src/components/smart-recommendations.tsx:23-28 | against a cart, a name is shown iff it was returned, names a catalog item and no cart line holds an item of that name |
| `Recommendations.FindByName` | src/components/smart-recommendations.tsx:52 | the lookup succeeds iff a catalog item has the name, and returns the first catalog item with that name |
| `Recommendations.Without` | src/components/smart-recommendations.tsx:55 | the `filter` dropping the added name; stated by `WithoutMembers` |
| `Recommendations.WithoutMembers` | src/components/smart-recommendations.tsx:55 | every occurrence of the added name leaves the list, every other name stays |
| `Recommendations.Panel.constructor` | src/components/smart-recommendations.tsx:15-17 | no recommendations, not loading, dialog closed |
| `Recommendations.Panel.GetRecommendations` | src/components/smart-recommendations.tsx:20-49 | the list becomes the filtered answer; the dialog opens iff it is non-empty, else the "great combo" toast; a failed fetch keeps the list and shows the error toast; loading ends false |
| `Recommendations.Panel.AddRecommendation` | src/components/smart-recommendations.tsx:51-57 | a catalog name calls `addToCart` once for the first catalog item of that name and leaves the list; any other name changes nothing; phone, cookie and loading flag are kept |
| `MenuItemCard.QuantityOf` | src/components/menu-item-card.tsx:18-19 | the shown quantity is that of the first line with the item's id, or 0 when there is none |
| `MenuItemCard.ShowsAddButton` | src/components/menu-item-card.tsx:58 | the `quantity === 0` test; stated by `AddButtonIffAbsent` |
| `MenuItemCard.ShowsTrash` | src/components/menu-item-card.tsx:65 | the `quantity === 1` test; stated by `TrashIffDecreaseRemoves` |
| `MenuItemCard.QuantityOfLine` | src/components/menu-item-card.tsx:18-19 | in a well-formed cart it is the quantity of the item's line, at least 1 |
| `MenuItemCard.AddButtonIffAbsent` | src/components/menu-item-card.tsx:58-62 | the "add" control is drawn iff the item is not in the cart |
| `MenuItemCard.TrashIffDecreaseRemoves` | src/components/menu-item-card.tsx:64-65 | the trash icon replaces minus iff pressing it takes the item out of the cart |
| `MenuItemCard.Increased` | src/components/menu-item-card.tsx:25-29 | `handleIncrease`'s effect on the lines; stated by `IncreasedLine`, `IncreasedIsAdded`, `IncreasedAbsent` |
| `MenuItemCard.Decreased` | src/components/menu-item-card.tsx:31-37 | `handleDecrease`'s effect on the lines; stated by `DecreasedOneLess`, `TrashIffDecreaseRemoves`, `DecreasedThenIncreased` |
| `MenuItemCard.IncreasedLine` | src/components/menu-item-card.tsx:25-29 | "+" on the item of a line in a well-formed cart gives exactly that line one more unit |
| `MenuItemCard.IncreasedIsAdded` | src/components/menu-item-card.tsx:25-29 | "+" on an item in the cart does the same as adding it again |
| `MenuItemCard.IncreasedAbsent` | src/components/menu-item-card.tsx:25-29 | "+" on an item not in the cart does nothing |
| `MenuItemCard.DecreasedOneLess` | src/components/menu-item-card.tsx:31-37 | "-" removes exactly one unit and leaves no zero-quantity line |
| `MenuItemCard.DecreasedThenIncreased` | src/components/menu-item-card.tsx:25-37 | "-" then "+" restores the cart while more than one unit is left |
| `MenuItemCard.HandleAdd` | src/components/menu-item-card.tsx:21-23 | the add button is `addToCart`: the new cart is `Added(old cart, item)`; phone, cookie and loading flag are kept |
| `MenuItemCard.HandleIncrease` | src/components/menu-item-card.tsx:25-29 | the new cart is `Increased(old cart, id)`; phone, cookie and loading flag are kept |
| `MenuItemCard.HandleDecrease` | src/components/menu-item-card.tsx:31-37 | the new cart is `Decreased(old cart, id)`, keeps the invariant, and has one unit fewer when the item was in it; phone, cookie and loading flag are kept |
| `CheckoutForm.DefaultsInvalid` | src/components/checkout-form.tsx:14-30 | the empty default name and phone both fail, the name needing at least 2 characters |
| `CheckoutForm.IsValidName` | src/components/checkout-form.tsx:15 | `z.string().min(2)`; stated by `DefaultsInvalid` |
| `CheckoutForm.IsValidForm` | src/components/checkout-form.tsx:14-17 | `checkoutFormSchema`: a valid name and an Indian mobile number; stated by `DefaultsInvalid` and `AcceptedFormPassesOrderCheck` |
| `CheckoutForm.AcceptedFormPassesOrderCheck` | src/components/checkout-form.tsx:14-17 | with a phone the form accepts, `placeOrder`'s validation passes whatever cart is sent |
| `CheckoutForm.Submit` | src/components/checkout-form.tsx:35-66 | an invalid form changes nothing; a throwing call keeps the cart; otherwise `placeOrder` gets the cart snapshot, never fails on the phone, and the cart is cleared whatever it returns; a failed order insert leaves both tables and returns its failure, a failed item insert leaves `order_items` and returns its failure; phone, cookie and loading flag are kept |
| `MenuPage.Distinct` | src/app/menu/page.tsx:16 | `[...new Set(list)]`; stated by `DistinctMembers` and `DistinctFirstAppearance` |
| `MenuPage.CategoryList` | src/app/menu/page.tsx:16 | `menuItems.map(item => item.category)`, the list `Categories` deduplicates; stated by `DistinctMembers` and `DistinctFirstAppearance` |
| `MenuPage.Categories` | src/app/menu/page.tsx:16 | the `categories` constant; stated by `DistinctMembers` and `DistinctFirstAppearance` |
| `MenuPage.DistinctMembers` | src/app/menu/page.tsx:16 | `categories` holds each item's category exactly once and nothing else |
| `MenuPage.DistinctFirstAppearance` | src/app/menu/page.tsx:16 | categories come in order of first appearance |
| `MenuPage.Section` | src/app/menu/page.tsx:30-31 | the per-category `filter`; stated by `SectionMembers` and `SectionAppend` |
| `MenuPage.SectionMembers` | src/app/menu/page.tsx:30-31 | a section lists exactly the items with its category |
| `MenuPage.SectionAppend` | src/app/menu/page.tsx:30-31 | a section keeps the items' original order |
| `MenuPage.Sections` | src/app/menu/page.tsx:24-35 | one section per category, headed by the category in `categories` order |
| `MenuPage.SectionsListTheirCategory` | src/app/menu/page.tsx:24-31 | the section under a heading lists exactly the fetched items of that category |
| `MenuPage.ItemInExactlyOneSection` | src/app/menu/page.tsx:24-35 | every fetched item appears in exactly one section |
| `MenuPage.ListedCountIsItemCount` | src/app/menu/page.tsx:24-35 | the sections list as many items as were fetched |
| `MenuPage.Page` | src/app/menu/page.tsx:9-35 | a query error gives the error view and no sections; otherwise the sections' sizes add up to the item count |

## Left out

- Supabase calls: the client, the network and the database's own semantics are not modelled; each call's outcome, the generated order id and `order_time` are parameters. The `order_items` insert is taken to be all-or-nothing.
- Timers: the random 3-8 s delay of the tracker, the cancellation of pending timers on change or unmount, and the polling of `src/components/live-order-status.tsx`; only the step relation is modelled.
- Cookies: `getCookie`/`setCookie`/`deleteCookie` are a `cookie` field of the store.
- The recommender (`src/ai/flows/smart-food-recommendations.ts`): a foreign, non-deterministic call; its answer is an arbitrary list of names, or None when it throws.
- Floating-point prices and `toFixed(2)` formatting: prices are integers.
- JSON: the cart snapshot reaches `placeOrder` already decoded; `JSON.parse` throwing on a bad string is not modelled.
- Toasts: only their kind or title is returned; the toast queue is not modelled.
- Pure UI files (cart, checkout, profile and login pages, header, dialogs, submit button, live order status) and rendering in general.
- The `isSubmitting` guard against a second submission is a disabled button, not modelled.
- MenuItem's description and image fields, which no modelled logic reads.
- The menu query's `is_available` filter: the page takes the query's answer as input.
- Orders.PlaceOrder: the phone field is a string; a missing field, for which the validator reports its own type message, is not modelled.
- Orders.GetOrderStatus: an await that throws is not modelled (the function has no `try`); of two orders with the same `order_time` the first in table order is chosen, where the database leaves it open.
- Auth.Login: the phone field is a string (a missing field is not modelled); `maybeSingle` failing on duplicate rows appears only as a select reply.
- CheckoutForm.Submit: `callThrows` models a call that fails before the server action runs; a call whose response is lost after the action ran is not modelled.
- CheckoutForm.IsValidName counts characters, where the validator counts UTF-16 code units.
