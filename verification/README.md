# Wrapsody storefront: a verified model of the app's decision logic

Wrapsody is a SwiftUI storefront app built on the Shopify Storefront API, Firebase
Authentication and Firestore, and the Shopify checkout sheet. Most of its code is view
layout and SDK calls. This project models the decisions the app makes between those calls,
and proves properties of that model:

- the `CartManager` cart session: create-or-mutate branching, wholesale replacement on
  success, `resetCart`, the preview cart, customer login and creation, past orders;
- the cart screen: the quantity stepper, the in-flight update guard and busy flag, the
  remove-confirm dialog, checkout enablement and the checkout sheet's events;
- the catalogue: page merging with de-duplication, the load guards, search, favourites,
  variant selection, price and stock labels, add-to-cart and the cart badge;
- saved-for-later lines: moving one to the cart and swipe-deleting;
- authentication: login and its stay-logged-in persistence, auto-login and its rollback,
  sign-up guards and the user document, password validation and update, the EULA gate;
- order history: mapping fetched orders with defaults, newest first, and the amounts the
  detail view shows;
- the APNs device token's hexadecimal form.

Every SDK round trip becomes an outcome datatype passed in as a parameter: a failure, or a
success with its payload. A callback that an SDK never invokes on some path is modelled by
leaving the state unchanged, or by an `Option` saying whether it ran. `UserDefaults` and
`@AppStorage` (which is backed by `UserDefaults.standard`) are one `map` from keys to stored
values. Callbacks are delivered one at a time.

One module per Swift file of the core. `CartManager` is `cart_manager.dfy`,
`CartView`/`CartLines` is `cart_view.dfy`, `CollectionView`/`ProductListView` is
`collection_view.dfy`, and so on. Shared modules: `Wrappers` (Option/Result), `Storefront`
(the storefront entities), `Defaults` (the device store), `Text` (Swift's
`split(separator: " ")`, `joined(separator:)` and lower-casing) and `Seqs` (`filter` and the
order-preserving sublist relation).

Where the code and a plain reading of the design differ, the model follows the code:

- The cart tab's Clear control is shown when `cart?.lines != nil`. Lines are not optional,
  so it is shown whenever a cart exists, even one with no lines.
- `moveToCart` drops the saved line whatever the add's outcome.
- Agreeing to the EULA opens the main tabs even if storing the acceptance fails.

## Model

| member | source | states |
|---|---|---|
| CartManager.CartResult | SwiftUIExample/ProductViewModel.swift:285-290 | a mutation counts as a success exactly when the response carries a cart; a response without one is a failure |
| CartManager.Perform | SwiftUIExample/ProductViewModel.swift:205-227 | when a request was sent, a returned cart replaces the field wholesale, a failure leaves it, and the completion receives the field as it then stands |
| CartManager.AddItem | SwiftUIExample/ProductViewModel.swift:297-338 | with no cart a cart-create with exactly `[variant]` is sent, with a cart a lines-add against its id; the field changes only on success; the completion gets the post-operation field |
| CartManager.UpdateQuantity | SwiftUIExample/ProductViewModel.swift:275-295 | with a cart, one line update carrying id and quantity; with none, a cart-create with `[id]` |
| CartManager.UpdateWithoutCartIsCreate | SwiftUIExample/ProductViewModel.swift:292-294 | the no-cart update is the same step as adding the id to a fresh cart, and the requested quantity has no effect |
| CartManager.RemoveItem | SwiftUIExample/ProductViewModel.swift:341-371 | with no cart nothing is sent, the cart stays absent and the completion is never called; with a cart, one lines-remove for that line |
| CartManager.ResetCart | SwiftUIExample/ProductViewModel.swift:229-231 | the cart becomes absent whatever it was, with no request and no completion |
| CartManager.AfterReset | SwiftUIExample/ProductViewModel.swift:229-231 | after a reset a removal sends nothing and an add starts a new cart |
| CartManager.Step | SwiftUIExample/ProductViewModel.swift:205-231 | a reset empties the cart; any failed action leaves it as it was |
| CartManager.RunOnlyHoldsReturnedCarts | SwiftUIExample/ProductViewModel.swift:205-371 | along any sequence of actions the field holds the initial cart or a cart some response returned, and it is absent only if it started absent or was reset |
| CartManager.GetRandomProduct | SwiftUIExample/ProductViewModel.swift:256-271 | on success the callback gets a listed product, or nothing for an empty list; on failure it is never called |
| CartManager.InjectRandomCartItem | SwiftUIExample/ProductViewModel.swift:188-201 | with a cached cart the cart becomes the cache and nothing is sent; otherwise the delivered product's first variant is added and cache and cart both take the result |
| CartManager.InjectionReusesCache | SwiftUIExample/ProductViewModel.swift:188-201 | once an injection fills the cache, later ones send nothing and keep the cached cart; a first injection from no cart fills it exactly when its add returned a cart |
| CartManager.LoginCustomer | SwiftUIExample/ProductViewModel.swift:100-134 | a returned token is stored under "customerAccessToken", prefetches the orders and is handed to the completion; every failure hands over nothing and stores nothing |
| CartManager.LoginThenTokenReadable | SwiftUIExample/ProductViewModel.swift:103-108 | after a successful login the token is readable under "customerAccessToken"; after a failed one that key is unchanged |
| CartManager.CreateCustomer | SwiftUIExample/ProductViewModel.swift:58-80 | the completion gets the created customer, or nothing on a user error, an empty payload or a transport failure |
| CartManager.FetchPastOrders | SwiftUIExample/ProductViewModel.swift:170-180 | the customer's orders, or nothing on failure or when the customer is missing |
| CartView.NewQuantity | SwiftUIExample/CartView.swift:282 | increment asks for q+1; decrement asks for max(q-1, 1), never below 1 |
| CartView.LeftControlFor | SwiftUIExample/CartView.swift:196-219 | the decrement button is offered exactly when quantity > 1, otherwise the trash button |
| CartView.LineSubtitle | SwiftUIExample/CartView.swift:178-186 | the variant title (marked when out of stock) unless it is "Default Title" or the line is not a variant; then the product title |
| CartView.WrittenGuardFails | SwiftUIExample/CartView.swift:127-131 | as written, one `updating` slot lets a second update for a line go out while its first is in flight, and clears `isBusy` while another line is still in flight |
| CartView.WrittenBegin | SwiftUIExample/CartView.swift:277-279 | as written: a tap is ignored only when this same line holds the slot; otherwise the line takes the slot, displacing any other line, busy is set and an update is sent |
| CartView.WrittenFinish | SwiftUIExample/CartView.swift:283-285 | as written: any completion empties the slot and clears busy, even when another line took the slot after this update was sent |
| CartView.BeginUpdate | SwiftUIExample/CartView.swift:277-279 | the corrected form of the tap guard (see Findings): a tap on a line already in flight is ignored; otherwise that line joins the in-flight set, busy is set and an update is sent |
| CartView.FinishUpdate | SwiftUIExample/CartView.swift:283-285 | the corrected form of the completion (see Findings): only its own line leaves the in-flight set, and busy holds exactly while some line is left |
| CartView.IdleIsGuarded | SwiftUIExample/CartView.swift:126-131 | for the corrected guard: idle rows with nothing in flight satisfy the invariant, so runs start guarded |
| CartView.FixedStepKeepsGuard | SwiftUIExample/CartView.swift:127-131 | for the corrected guard: each tap or delivered completion keeps at most one update per line in flight, the set equals the lines in flight, and busy means some are in flight |
| CartView.FixedRunKeepsGuard | SwiftUIExample/CartView.swift:276-288 | for the corrected guard: that invariant holds along every run of taps and completions |
| CartView.OnAppear | SwiftUIExample/CartView.swift:42-116 | `onAppear` exists only for a cart with lines: the URL binding takes that cart's checkout URL and setting the binding clears `cartCompleted`; a missing or empty cart changes nothing |
| CartView.ShowsEmptyState | SwiftUIExample/CartView.swift:42 | the rows, checkout button and sheet exist only for a cart with lines; without a cart the empty state is shown |
| CartView.CheckoutDisabled | SwiftUIExample/CartView.swift:65 | while busy mirrors the slot, checkout is disabled exactly when some line holds the slot or there is no URL |
| CartView.AppearEnablesCheckout | SwiftUIExample/CartView.swift:42-116 | appearing with a lined cart and nothing in flight enables checkout, and a tap presents the sheet on that cart's URL |
| CartView.TapStepper | SwiftUIExample/CartView.swift:276-282 | as written: a tap on the line that holds the slot sends nothing and changes nothing; any other tap (even while another line is in flight) takes the slot, sets busy and sends the manager's update with the clamped quantity |
| CartView.DeliverUpdate | SwiftUIExample/CartView.swift:283-287 | as written: an update's completion stores the answered cart (a failure keeps the old one), empties the slot whichever line holds it, sets the URL to the cart's, and changes nothing else |
| CartView.StepperRoundTrip | SwiftUIExample/CartView.swift:276-288 | a tap answered before any other tap is the manager's `updateQuantity`: same request and cart, the URL follows, rows return to idle; in between checkout is blocked and a re-tap of that line sends nothing |
| CartView.ScreenGuardFails | SwiftUIExample/CartView.swift:277-285 | on the screen as written: taps a, b, a send three updates, two of them for a; a's answer while b's is out clears busy, so checkout opens with b pending |
| CartView.RemoveOnlyAfterConfirm | SwiftUIExample/CartView.swift:208-272 | trash then Cancel sends nothing and keeps the cart; trash then Remove asks the live cart to drop exactly that line; with no cart nothing is sent |
| CartView.ConfirmRemove | SwiftUIExample/CartView.swift:259-272 | removal is attempted only with a remembered line, is sent only when there is a cart, and its completion stores the cart and its URL |
| CartView.TapCheckout | SwiftUIExample/CartView.swift:50-68 | the sheet opens exactly when the button is enabled (not busy and a URL is set), and a sheet it opens has a URL to render |
| CartView.BusyBlocksCheckout | SwiftUIExample/CartView.swift:65 | while an update is in flight a checkout tap changes nothing |
| CartView.OnCheckoutCancel | SwiftUIExample/CartView.swift:73-79 | cancel resets the cart and clears the flag only after a completed checkout, and always dismisses the sheet |
| CartView.CompleteThenCancel | SwiftUIExample/CartView.swift:73-96 | completing then closing the sheet leaves the empty state; closing without completing keeps the cart |
| Collection.FetchProducts | SwiftUIExample/CollectionView.swift:443-453 | the page's products and end cursor; both absent on failure or a missing collection |
| Collection.FetchCollections | SwiftUIExample/ProductViewModel.swift:240-247 | the listed collections, or nothing on failure |
| Collection.LoadCollections | SwiftUIExample/CollectionView.swift:46-58 | delivered collections replace the grid, a failure keeps it, and loading ends either way |
| Collection.MergePage | SwiftUIExample/CollectionView.swift:253-255 | the old list is a prefix of the new one and exactly the page items whose ids were not shown are appended |
| Collection.MergeAppendsSublistOfPage | SwiftUIExample/CollectionView.swift:254 | the appended items keep the page's order |
| Collection.MergeSamePageTwice | SwiftUIExample/CollectionView.swift:253-255 | delivering the same page again adds nothing |
| Collection.MergeKeepsIdsDistinct | SwiftUIExample/CollectionView.swift:253-255 | a list and page with distinct ids merge into a list with distinct ids |
| Collection.FinishLoad | SwiftUIExample/CollectionView.swift:250-259 | delivered products are merged and the cursor advances; nil products keep list and cursor; loading ends in both cases |
| Collection.BeginLoad | SwiftUIExample/CollectionView.swift:246-250 | a no-op while loading; otherwise loading starts and a 250-item page after the current cursor is requested |
| Collection.LoadProducts | SwiftUIExample/CollectionView.swift:246-261 | no request while loading; otherwise one request, loading ends, and a failed fetch leaves the list as it was |
| Collection.LoadMoreProducts | SwiftUIExample/CollectionView.swift:263-266 | proceeds exactly when not loading and an end cursor exists |
| Collection.LoadGuardsSendOnce | SwiftUIExample/CollectionView.swift:246-266 | while a page is out neither load sends again; after its answer the next load asks for the page after the delivered cursor; a page without a cursor ends paging |
| Collection.RowAppeared | SwiftUIExample/CollectionView.swift:222-226 | only the last filtered row's appearance can ask for another page |
| Collection.FilteredProducts | SwiftUIExample/CollectionView.swift:186-200 | empty search text returns the list unchanged; otherwise exactly the products matching in some field |
| Collection.FilteredIsSublist | SwiftUIExample/CollectionView.swift:186-200 | the search result keeps list order and invents nothing |
| Collection.LoadFavoriteStatus | SwiftUIExample/CollectionView.swift:295-298 | the heart is filled exactly when the id is in the stored list |
| Collection.ToggleFavorite | SwiftUIExample/CollectionView.swift:301-313 | a filled heart removes every occurrence of the id, an empty one appends it, the heart flips, and no other stored key changes |
| Collection.ToggleAgreesWithStore | SwiftUIExample/CollectionView.swift:301-313 | after a toggle the heart agrees with list membership, whatever it showed before |
| Collection.ToggleTwiceRestores | SwiftUIExample/CollectionView.swift:301-313 | favouriting then unfavouriting an unlisted product restores the list |
| Catalog.OnAppear | SwiftUIExample/CatalogView.swift:47-56 | a given product selects its first variant's id (none without variants); otherwise the delivered product is shown and its first variant selected |
| Catalog.AppearSelectsFirstVariant | SwiftUIExample/CatalogView.swift:47-56 | after appearing, the price and add button describe the first variant |
| Catalog.SelectVariant | SwiftUIExample/CatalogView.swift:145-168 | a picker button exists only for a shown product with more than one variant; it selects the variant, and the image index moves to the first of that product's images with the variant image's id, else stays |
| Catalog.ShowsVariantPicker | SwiftUIExample/CatalogView.swift:145-154 | the picker is shown only for more than one variant; without it the only variant a product can have is the one selected on appear |
| Catalog.PickedVariantIsSelected | SwiftUIExample/CatalogView.swift:161-162 | with distinct variant ids, the picked variant is the one the price and add button then describe |
| Catalog.VariantLabelMarksUnavailable | SwiftUIExample/CatalogView.swift:159 | the label is the bare title exactly when the variant is for sale; otherwise the title followed by " (OUT OF STOCK)" |
| Catalog.SelectedVariant | SwiftUIExample/CatalogView.swift:194 | the FIRST variant carrying the selected id, with no earlier variant carrying it; none exactly when no variant has it |
| Catalog.PriceText | SwiftUIExample/CatalogView.swift:194-195 | the selected variant's formatted price; "Out of Stock" when no variant matches or when formatting gives nothing |
| Catalog.AddButton | SwiftUIExample/CatalogView.swift:205-231 | "Out of Stock - price" exactly for a selected unavailable variant; otherwise a spinner while adding, else "Add to cart - price" |
| Catalog.AddToCart | SwiftUIExample/CatalogView.swift:197-203 | needs a selected id; sends the manager's add for it; afterwards adding has ended and the URL is the delivered cart's, or nil |
| Catalog.FailedAddKeepsUrlOfCart | SwiftUIExample/CatalogView.swift:200-203 | a response without a cart leaves the URL of the existing cart (nil without one); a transport failure keeps the cart |
| Catalog.BadgeCount | SwiftUIExample/CatalogView.swift:258 | the cart's total quantity, or 0 without a cart |
| Catalog.NoCartNoBadge | SwiftUIExample/CatalogView.swift:286 | the badge is drawn only for a positive count, so never without a cart or after a reset |
| SaveForLater.MoveToCart | SwiftUIExample/SaveForLaterView.swift:112-122 | only a variant line moves; the manager's add is sent for its variant, and the first saved line with the same id is removed |
| SaveForLater.ShowsEmptyState | SwiftUIExample/SaveForLaterView.swift:11-12 | the empty state is shown exactly when no saved line can be found, so none can be moved; otherwise the first line is found at index 0 |
| SaveForLater.MoveIgnoresAddOutcome | SwiftUIExample/SaveForLaterView.swift:114-120 | the saved list after a move does not depend on the add's outcome, keeps the rest in order, and loses exactly one line when one matched |
| Seqs.FirstIndexWhere | SwiftUIExample/SaveForLaterView.swift:118 | `firstIndex(where:)`: the first matching position, with no match before it; none exactly when nothing matches (also the image search of CatalogView.swift:165) |
| SaveForLater.DeleteRemovesExactlyOffsets | SwiftUIExample/SaveForLaterView.swift:124-126 | deleting drops the list by the number of offsets, every other line survives, and the survivors keep their order |
| SaveForLater.DeleteOneIsRemoveAt | SwiftUIExample/SaveForLaterView.swift:118-125 | deleting one offset is the same as `remove(at:)` |
| Login.LoginUser | SwiftUIExample/LoginView.swift:295-336 | logging-in ends after the Firebase callback; a Firebase error shows its text and stops with the store unchanged; otherwise the choice is persisted and the storefront login runs; a token logs in and navigates, no token alerts |
| Login.RememberChoice | SwiftUIExample/LoginView.swift:311-319 | the flag follows the checkbox; email and password are saved when it is ticked and blanked otherwise; no other key changes |
| Login.LoginPersistsChoice | SwiftUIExample/LoginView.swift:303-331 | a Firebase failure changes no flag; after Firebase success the saved credentials follow the checkbox even if the storefront fails, and `isUserLoggedIn` is set exactly when a token comes back |
| Login.HandleAutoLogin | SwiftUIExample/LoginView.swift:275-293 | sign-in is attempted, with the saved credentials, exactly when a current user exists and stay-logged-in is set; loading stops on every path; an error clears the logged-in flag, the stay flag and both saved credentials |
| Login.StayLoggedInRoundTrip | SwiftUIExample/LoginView.swift:276-319 | after a login with the box ticked, the next auto-login tries exactly the typed credentials |
| Login.FailedAutoLoginIsNotRetried | SwiftUIExample/LoginView.swift:276-285 | after a failed auto-login the next launch does not attempt one |
| Login.ConvertFullNameToComponents | SwiftUIExample/LoginView.swift:383-395 | nothing when the name has no piece; otherwise the given name is the first space-separated piece |
| Login.NameSplitKeepsWords | SwiftUIExample/LoginView.swift:383-395 | nothing exactly for a blank name; the given name is one word, the family name splits back into the remaining words, and it is empty exactly for a one-word name |
| Login.NameSplitOfJoin | SwiftUIExample/LoginView.swift:384-388 | a name of words joined by single spaces splits into its first word and the rest joined the same way |
| Login.UserDataFor | SwiftUIExample/LoginView.swift:397-407 | the profile document is keyed by the email, and a missing name gives blank first and last names |
| SignUp.SignUpUser | SwiftUIExample/SignUpView.swift:148-195 | a password mismatch is reported before the EULA check; no account is requested if either fails; the document is keyed by the lower-cased email and keeps the typed email; the customer is created only after the document is written |
| SignUp.SignedUpOnlyAfterAllSucceed | SwiftUIExample/SignUpView.swift:161-189 | signed up exactly when both guards pass and account, document and customer are all created; the stored `hasAcceptedEula` is then true |
| SignUp.DocumentIdIgnoresCase | SwiftUIExample/SignUpView.swift:173 | emails that differ only in letter case get the same document id, which holds no upper-case letter |
| UpdatePassword.ValidatePasswords | SwiftUIExample/UpdatePasswordView.swift:87-97 | passes exactly for a confirmed password of at least 6 characters; a mismatch is reported before the length; a pass leaves the form untouched |
| UpdatePassword.UpdatePassword | SwiftUIExample/UpdatePasswordView.swift:68-113 | a failed validation stops before re-authentication; without a user email nothing happens; a wrong current password is reported; an update error is reported; success marks the form updated and clears the error |
| UpdatePassword.UpdatedOnlyWhenAcceptable | SwiftUIExample/UpdatePasswordView.swift:68-97 | the form is marked updated exactly after validation, re-authentication and the update all succeed, and the new password sent has at least 6 characters |
| LoggedIn.CheckEulaAcceptance | SwiftUIExample/LoggedInView.swift:70-100 | loading stops on every path; only a found document sets the flag, to its stored Bool or false; no email, an error or no document leave it |
| LoggedIn.AcceptedIn | SwiftUIExample/LoggedInView.swift:90 | a document counts as accepted exactly when its field is the Bool true |
| LoggedIn.Gate | SwiftUIExample/LoggedInView.swift:12-44 | the main tabs are shown exactly when not loading and accepted; loading shows the spinner; otherwise the EULA screen |
| LoggedIn.TabsOnlyForAcceptedUsers | SwiftUIExample/LoggedInView.swift:14-41 | from a fresh view the main tabs appear after the lookup exactly when the user's document records an acceptance |
| LoggedIn.StoreEulaAcceptance | SwiftUIExample/LoggedInView.swift:102-130 | the first document's id is updated; the local flag becomes true only once that update succeeds |
| LoggedIn.AgreeOnEulaScreen | SwiftUIExample/LoggedInView.swift:38-40 | a disabled agree button changes nothing and stores nothing; an enabled one sets the bound flag and then stores the acceptance |
| LoggedIn.AgreeOpensTabs | SwiftUIExample/LoggedInView.swift:38-40 | agreeing with the box ticked opens the main tabs whether or not the acceptance is stored |
| LoggedIn.FetchUserName | SwiftUIExample/LoggedInView.swift:46-68 | the first document's `firstName` string, or "Profile" when it has none; unchanged without an email, on error or without documents |
| LoggedIn.FetchUserNameKeepsGate | SwiftUIExample/LoggedInView.swift:46-68 | fetching the name never changes what the gate shows, and repeating a fetch with the same answer changes nothing |
| LoggedIn.StoredFields | SwiftUIExample/SignUpView.swift:167-172 | the document sign-up writes holds the first name, the email and the EULA flag under the keys the lookups read |
| LoggedIn.SignedUpDocumentIsRead | SwiftUIExample/LoggedInView.swift:60-92 | a lookup that finds the document a sign-up wrote shows its first name and opens the main tabs, because every written sign-up document records acceptance |
| LoggedIn.TapClear | SwiftUIExample/LoggedInView.swift:152-160 | Clear is offered for a present cart and calls `resetCart`, after which it is gone |
| LoggedIn.ClearZeroesBadge | SwiftUIExample/LoggedInView.swift:152-167 | the tab badge is the cart's total quantity, and 0 after Clear |
| Eula.PressAgree | SwiftUIExample/EulaView.swift:47-60 | a disabled button does nothing; an enabled one sets the binding to true and calls `onAccept` once |
| Eula.AgreeEnabledAfterOddTaps | SwiftUIExample/EulaView.swift:6-60 | the box starts unchecked and each tap flips it, so agreeing is possible exactly after an odd number of taps |
| Eula.AcceptNeedsAgreement | SwiftUIExample/EulaView.swift:47-60 | `onAccept` runs at most once per press, and exactly when the box is checked |
| OrderHistory.FetchOrders | SwiftUIExample/OrderHistoryView.swift:50-93 | without a saved token loading stops and nothing is fetched; otherwise the fetch uses the token, loading stops when it answers, and orders are replaced only when some were delivered |
| OrderHistory.FetchedOrdersAreSortedMapping | SwiftUIExample/OrderHistoryView.swift:63-88 | with a token, a delivered list shows one order per fetched order, newest first, as a permutation of the mapped orders |
| OrderHistory.NoTokenShowsNoOrders | SwiftUIExample/OrderHistoryView.swift:51-55 | without a saved token a fresh model stops loading, shows no orders and sends no fetch, whatever the storefront would answer |
| OrderHistory.MapLineItem | SwiftUIExample/OrderHistoryView.swift:65-73 | a line without a variant gets id "Unknown ID", price "$0 USD" and no image; otherwise the variant's id, "$amount currency" and exactly the variant image's URL when it has one |
| OrderHistory.MapOrder | SwiftUIExample/OrderHistoryView.swift:76-86 | the name and status default to "Unknown Order Number" and "Unknown Status"; total, subtotal and shipping are "$amount currency", a missing subtotal "$0 USD"; line items map one for one |
| OrderHistory.SortIsSortedPermutation | SwiftUIExample/OrderHistoryView.swift:88 | the sort returns the same orders with no order followed by a later one |
| OrderHistory.SortKeepsSorted | SwiftUIExample/OrderHistoryView.swift:88 | an already sorted list is left as it is |
| OrderHistory.DisplayedAmountOfPrice | SwiftUIExample/OrderHistoryView.swift:258-273 | for an amount without spaces, the detail view shows "$" and the amount and drops the currency |
| DeviceToken.ByteToHex | SwiftUIExample/App.swift:88 | each byte becomes two lower-case hex digits, high nibble first, reading back to the byte; the first is '0' exactly for bytes below 16 |
| DeviceToken.TokenString | SwiftUIExample/App.swift:88-89 | the token string has exactly two characters per byte |
| DeviceToken.TokenStringDigits | SwiftUIExample/App.swift:88-89 | byte i's two hex digits sit at positions 2i and 2i+1, in token order |
| DeviceToken.TokenIsLowerHex | SwiftUIExample/App.swift:88 | the token string holds only 0-9 and a-f |
| DeviceToken.DecodeOfTokenString | SwiftUIExample/App.swift:88-89 | reading the string back two digits at a time gives the bytes in order |
| DeviceToken.TokenStringInjective | SwiftUIExample/App.swift:88-89 | distinct tokens give distinct strings |
| Text.Tokens | SwiftUIExample/LoginView.swift:384 | splitting on spaces yields only non-empty pieces without spaces |
| Text.TokensOfJoin | SwiftUIExample/LoginView.swift:384-388 | splitting words joined by single spaces gives the words back |
| Text.TokensEmptyIff | SwiftUIExample/LoginView.swift:384-385 | the split is empty exactly for a string of spaces |
| Text.LowercaseFacts | SwiftUIExample/SignUpView.swift:173 | lower-casing leaves no upper-case ASCII letter, is idempotent, and maps case variants to one string |

## Left out

- SDK and network calls (the Storefront client, Firebase Auth and Firestore, the checkout sheet) are not modelled; only their outcomes are, as parameters.
- Google and Apple sign-in are left out: they are SDK flows. Only the name split and the profile fields they save are modelled.
- GraphQL fragment builders are left out: they are field selections with no behaviour.
- `formattedString` and other currency formatting are left out because they depend on the locale. The price formatter is a function parameter of `Catalog.PriceText`.
- `inferRegion` is left out because it depends on the locale.
- `localizedCaseInsensitiveContains` is an abstract `contains` parameter, because it depends on the locale.
- The random choice in `getRandomProduct` is an arbitrary index parameter.
- Image caches and downloads, the AppDelegate push and tracking plumbing, and appearance setup are left out: they are I/O.
- Static and wrapper views are not part of this model: Terms, EULA settings, FAQ, loading screen, home, settings, reset password, profile.
- Overlapping cart callbacks are delivered one at a time. The last-writer-wins race between them is not modelled.
- `[weak self]` callbacks dropped after the view model is gone are not modelled.
- Swift `Decimal` amounts are kept as their printed strings.
- The past-orders query does not request `subtotalPrice`, `totalShippingPrice` or variant images. What the SDK returns for unrequested fields is not part of this model, so `OrderHistory.MapOrder` treats them as ordinary optional or present fields.
- `OrderHistory.SortIsSortedPermutation`: Swift's `sort` is not stable. The model keeps same-date orders in fetched order, which is one of the orders Swift may produce.
- `Text.Lowercase`: lower-cases ASCII letters only, because Unicode case mapping is not modelled.
- `UpdatePassword.ValidatePasswords`: counts characters, not grapheme clusters, because Unicode segmentation is not modelled.
- `Order`'s random `UUID` identity is left out: only SwiftUI's list diffing uses it.
- String comparison and splitting work on Unicode code points. Swift's `==` treats canonically equivalent strings as equal and `split` works on grapheme clusters, so the model differs for decomposed accents. This affects the password and confirmation checks in `SignUp.SignUpUser` and `UpdatePassword.ValidatePasswords`, the "Default Title" test in `CartView.LineSubtitle`, and `Text.Tokens`.
- `Text.Tokens`: splits on the space code point and does not group combining marks with the preceding character.
- `ShopifyCheckoutSheetKit.preload` and `invalidate` are left out: they only manage the checkout sheet's cache.
- CartView: the screen runs the single `updating` slot as written. The corrected per-line set is proved separately, over its own runs of taps and completions, and is not wired into `CartView.Screen`.
- `CartView.NewQuantity`: requires room for the `Int32` step, because Swift traps on overflow there.

## Findings

| source | as written | input that shows it | evidently intended | confidence | as-written member | corrected member |
|---|---|---|---|---|---|---|
| SwiftUIExample/CartView.swift:127-131 | `CartLines` keeps one `updating` slot, and every completion sets it to nil | tap line a, then line b, then a again: a second update for a is sent while the first is in flight; or tap a, tap b, and let a's completion arrive: `isBusy` turns false while b's update is pending and checkout is enabled | at most one update per line in flight, and busy while any line is in flight | medium, not executed | CartView.WrittenGuardFails | CartView.FixedRunKeepsGuard |
