# F1-Bites storefront: order placement and inventory, in Dafny

A model of the F1-Bites food storefront's server-side order and inventory
protocol, plus the pure decision logic around it. The pieces are:

- **Checkout** (`OrderRoutes`). The request is checked, then each line is
  validated against the product store in order, and the order lines are
  snapshotted and totalled. Finally one all-or-nothing transaction saves the
  order, re-checks and decrements stock, and recomputes availability.
  Order reads and the status update are modelled too.
- **Carts** (`CartRoutes`). Per-user line lists, unique by product: the view,
  add-or-merge with stock caps, set quantity, remove and clear.
- **Catalogue writes** (`ProductRoutes` for the JSON routes, `AdminRoutes`
  for the multipart form routes, whose fields arrive as text). Create,
  patch and delete, with availability recomputed whenever stock is supplied.
- **Record schemas** (`Schema`): products and orders with their
  enumerations, defaults and bounds.
- **Validators** (`Validators`): the e-mail pattern, password strength and
  the markup sanitiser.
- **Start-up environment check** (`EnvCheck`).
- **Profile routes** (`ProfileRoutes`).
- **Client-side page logic** (`HomePage`, `CartPage`, `CheckoutPage`):
  pagination, quantity buttons and totals, the checkout gate, and the
  request the checkout page sends.

The stores are values:

- products are a `map<Id, Product>`;
- orders are a `seq<Order>` that checkout appends to;
- carts are a `map<UserId, seq<CartLine>>`.

Every server-side operation is a pure function. A route that can fail
returns a `Result`, or a pair of the next store and a `Result`. Checkout
returns an `Attempt` holding the next store and the outcome, and whenever
the outcome is an error the next store is the one it started from. The
environment check is a method returning a `Report`. The page logic returns
plain values: the page's new lines, the request a button press sends, and
flags for what the page shows.

Prices, quantities and stock are integers, read as the smallest currency
unit. `Number(...)` is modelled for integer syntax (`JsText.ToNumber`), and
the white space that `trim()` and `\s` recognise is modelled by code point
(`JsText.IsSpace`). The clock (`now`), freshly generated document ids, the
server's answers to client requests (`serverOk`, `postOk`, `clearOk`) and
uploaded file URLs are parameters.

The administrator's delete route (`backend/routes/adminRoutes.js:101-111`)
answers exactly as the product delete route does, so
`ProductRoutes.DeleteProduct` models both.

Where the order route and the order schema disagree, the model follows the
route:

- A new order is stored with status `delivered`, although the schema
  default is `pending`.
- A status update accepts any of the six statuses from any status.
- An unknown status is reported before the order lookup.

## Model

| member | source | states |
|---|---|---|
| `Schema.NewProduct` | backend/models/Product.js:3-10 | a product left without stock or availability gets stock 0 and availability true; every given field is kept |
| `Schema.DefaultsBreakAvailabilityRule` | backend/models/Product.js:9-10 | the schema alone admits a valid product with stock 0 that is still marked available |
| `Schema.ParseStatus` | backend/models/Order.js:38-42 | a status text is accepted exactly when it is the name of one of the six statuses, and then it denotes that status |
| `Schema.ParseStatusName` | backend/models/Order.js:38-42 | every status's name parses back to that status |
| `Schema.ParsePaymentMethod` | backend/models/Order.js:33-37 | a payment text is accepted exactly when it is one of the five method names |
| `Schema.ParsePaymentName` | backend/models/Order.js:33-37 | every payment method's name parses back to that method |
| `Schema.NewOrder` | backend/models/Order.js:33-46 | payment method defaults to cash on delivery, status to pending, delivery fee to 0; the given fields are kept |
| `Schema.LinesTotalAppend` | backend/routes/orderRoutes.js:53-61 | the order total splits over concatenated line lists, so it is the sum of the line subtotals |
| `Schema.LinesTotalNonNegative` | backend/models/Order.js:16-24 | lines with non-negative prices and quantities have a non-negative total |
| `Ordering.SortDesc` | backend/routes/orderRoutes.js:12-14 | the result is a permutation of the input, sorted by descending key |
| `Ordering.Insert` | backend/routes/orderRoutes.js:12-14 | inserting into a newest-first list adds exactly that element and keeps the list newest first |
| `Ordering.Enumerate` | backend/routes/ProductRoutes.js:31 | lists each element of a finite set exactly once |
| `OrderRoutes.CheckLine` | backend/routes/orderRoutes.js:40-59 | an unresolvable id is not-found under the requested name; an unavailable product, or one with less stock than asked (reporting its stock), is refused; otherwise the line snapshots the product's name, price and image |
| `OrderRoutes.ValidateLines` | backend/routes/orderRoutes.js:39-62 | validation succeeds exactly when every line passes, and then yields one snapshot per line in request order |
| `OrderRoutes.ValidateLinesFirstFailure` | backend/routes/orderRoutes.js:39-51 | the error reported is that of the first failing line |
| `OrderRoutes.ValidateItems` | backend/routes/orderRoutes.js:36-62 | the handler's loop gives the same outcome as line-by-line validation, with a running total equal to the sum of the snapshot subtotals |
| `OrderRoutes.QtyOfUnmentioned` | backend/routes/orderRoutes.js:91-99 | a product no order line names is ordered in quantity 0, so the stock pass leaves it alone |
| `OrderRoutes.Decrement` | backend/routes/orderRoutes.js:91-96 | stock drops by exactly the quantity, availability becomes `newStock > 0`, and no other field changes |
| `OrderRoutes.Reserve` | backend/routes/orderRoutes.js:83-100 | a line naming a product the store lacks aborts the stock pass; a completed pass keeps the same set of products |
| `OrderRoutes.ReserveEffect` | backend/routes/orderRoutes.js:83-100 | a completed stock pass keeps the same products; each ordered product drops by its total ordered quantity and stays at or above zero; all others are unchanged |
| `OrderRoutes.ReserveNeverOversells` | backend/routes/orderRoutes.js:84-89 | a completed stock pass never takes more of a product than it had |
| `OrderRoutes.ReserveSucceedsWhenStockSuffices` | backend/routes/orderRoutes.js:83-100 | conversely, the pass completes when every product exists and has at least its total ordered quantity |
| `OrderRoutes.Commit` | backend/routes/orderRoutes.js:64-120 | a failed transaction (rejected save or lost re-check) leaves the store as it was |
| `OrderRoutes.PlaceOrder` | backend/routes/orderRoutes.js:22-125 | any failure leaves the store unchanged; missing or empty items and incomplete customer details are refused first; then a line error is reported as validation found it |
| `OrderRoutes.PlaceOrderCommitted` | backend/routes/orderRoutes.js:53-114 | on success exactly one valid order is appended, with the snapshots in order, a total equal to the sum of subtotals, status delivered and delivery now + 45 min; stock drops by the ordered quantities, and no other product changes |
| `OrderRoutes.PlaceOrderSucceeds` | backend/routes/orderRoutes.js:22-125 | conversely, checkout commits when the request is complete, the payment (if any) is a known method, every line resolves to an in-stock available product with a positive quantity, and each product has at least its total ordered quantity |
| `OrderRoutes.PlaceOrderPaymentMethod` | backend/routes/orderRoutes.js:75 | the recorded method is the requested one, or cash on delivery when none is given |
| `OrderRoutes.PlaceOrderPreservesInvariant` | backend/routes/orderRoutes.js:68-120 | checkout keeps every product and order within its schema (no negative stock) and every order total equal to its lines' sum |
| `OrderRoutes.PlaceOrderKeepsAvailabilityRule` | backend/routes/orderRoutes.js:91-96 | checkout keeps availability equal to `stock > 0` wherever it held before |
| `OrderRoutes.SequentialCheckoutsNeverOversell` | backend/routes/orderRoutes.js:84-89 | two checkouts in a row against one store leave no stock below zero |
| `OrderRoutes.FailedCheckoutRetryIsSame` | backend/routes/orderRoutes.js:115-123 | retrying a failed checkout fails the same way on the unchanged store |
| `OrderRoutes.CompetingCheckouts` | backend/routes/orderRoutes.js:49-50 | stock 5, two orders of 3 in a row: the first commits leaving 2, the second is refused with "Available: 2" |
| `OrderRoutes.DuplicateLinesCaughtInTransaction` | backend/routes/orderRoutes.js:84-89 | one product on two lines passes validation, but the in-transaction re-check aborts and nothing is saved |
| `OrderRoutes.TwoLineTotal` | backend/routes/orderRoutes.js:53-99 | lines of 100 x 2 and 50 x 1 give a total of 250 and stocks drop by 2 and 1 |
| `OrderRoutes.GetOrder` | backend/routes/orderRoutes.js:130-135 | an order is found only when both its id and its owner match; otherwise not found |
| `OrderRoutes.FindOrder` | backend/routes/orderRoutes.js:153-161 | finds the position of the order with the id, or reports that no order has it |
| `OrderRoutes.OwnedBy` | backend/routes/orderRoutes.js:12 | keeps exactly the caller's orders, each as often as stored |
| `OrderRoutes.ListOrders` | backend/routes/orderRoutes.js:12-14 | the caller's orders, all of them and only them, newest first |
| `OrderRoutes.UpdateStatus` | backend/routes/orderRoutes.js:146-161 | invalid exactly when the text is not one of the six statuses; not found for an unknown id; for a known id it succeeds, giving the first order with that id the new status and changing nothing else |
| `OrderRoutes.UpdateStatusIdempotent` | backend/routes/orderRoutes.js:146-161 | setting the same status twice is setting it once |
| `CartRoutes.FindLine` | backend/routes/cartRoutes.js:67-69 | finds the first line for the product, or reports that none exists |
| `CartRoutes.ViewLines` | backend/routes/cartRoutes.js:18-29 | shows only lines whose product exists and is available, with the live product fields and the stored quantity |
| `CartRoutes.ViewLinesAppend` | backend/routes/cartRoutes.js:18-29 | the view of a cart is the views of its parts in order, so order is kept |
| `CartRoutes.ViewOfOneLine` | backend/routes/cartRoutes.js:19-28 | a single line is shown as its product's fields plus its quantity exactly when the product exists and is available |
| `CartRoutes.ViewLinesMembers` | backend/routes/cartRoutes.js:18-29 | the view holds the view of every stored line whose product exists and is available, and nothing else |
| `CartRoutes.GetCart` | backend/routes/cartRoutes.js:8-31 | a user without a cart sees an empty list; otherwise exactly the stored lines whose product exists and is available, in stored order (the view that `ViewOfOneLine` and `ViewLinesAppend` pin down), each with the live product fields and its stored quantity |
| `CartRoutes.AddToCart` | backend/routes/cartRoutes.js:38-84 | quantity defaults to 1; a missing id, unknown or unavailable product, short stock, or merged quantity above stock (reporting the stock) is refused; a request passing every check succeeds, merging into the product's line or appending a new one |
| `CartRoutes.AddToCartQuantities` | backend/routes/cartRoutes.js:66-81 | adding raises that product's cart quantity by exactly the amount added and leaves every other product's quantity alone |
| `CartRoutes.AddToCartKeepsUnique` | backend/routes/cartRoutes.js:66-81 | adding keeps every cart unique by product: a merge keeps the line's product, and a new line is for a product the cart lacked |
| `CartRoutes.CartQtyAppend` | backend/routes/cartRoutes.js:66-81 | a product's cart quantity splits over concatenated line lists |
| `CartRoutes.CartQtySetQuantity` | backend/routes/cartRoutes.js:122 | replacing one line's quantity moves only that product's cart quantity |
| `CartRoutes.UpdateCart` | backend/routes/cartRoutes.js:91-125 | checks run in order, each with its own error: invalid request, unknown product, over stock, no cart, line absent; when all pass it succeeds, and only that line's quantity changes |
| `CartRoutes.UpdateCartSetsQuantity` | backend/routes/cartRoutes.js:114-122 | after an update the product's cart quantity is exactly the one requested, and others are unchanged |
| `CartRoutes.UniqueQtyIsLineQty` | backend/routes/cartRoutes.js:67-77 | in a cart unique by product, a product's quantity is its one line's quantity |
| `CartRoutes.AbsentQtyIsZero` | backend/routes/cartRoutes.js:78-81 | a product without a line has cart quantity 0 |
| `CartRoutes.RemoveLines` | backend/routes/cartRoutes.js:141-143 | drops every line for the product and keeps all others; removing an absent product changes nothing |
| `CartRoutes.RemoveLinesQty` | backend/routes/cartRoutes.js:141-143 | after removal the product's cart quantity is 0 and every other product's quantity is unchanged |
| `CartRoutes.RemoveLinesAppend` | backend/routes/cartRoutes.js:141-143 | removal keeps the remaining lines in their order |
| `CartRoutes.RemoveLinesKeepsUnique` | backend/routes/cartRoutes.js:141-143 | removal keeps a cart unique by product |
| `CartRoutes.RemoveFromCart` | backend/routes/cartRoutes.js:132-146 | a missing cart is not found; otherwise the user's lines for that product are removed |
| `CartRoutes.ClearCart` | backend/routes/cartRoutes.js:153-159 | the caller's cart exists afterwards and is empty (upsert); other carts are unchanged |
| `CartRoutes.ClearCartIdempotent` | backend/routes/cartRoutes.js:155-159 | clearing twice is clearing once |
| `ProductRoutes.ListProducts` | backend/routes/ProductRoutes.js:26-31 | lists every product matching the `available` filter exactly once, newest first; no filter when the parameter is absent |
| `ProductRoutes.GetProduct` | backend/routes/ProductRoutes.js:39-45 | found exactly when the id is in the catalogue |
| `ProductRoutes.CreateProduct` | backend/routes/ProductRoutes.js:52-80 | a falsy name, price (so price 0) or category is refused, then negative price, then negative stock; a created product is valid, has stock `stock or 0` and availability `stock > 0` |
| `ProductRoutes.ApplyPatch` | backend/routes/ProductRoutes.js:100-109 | a supplied stock overwrites availability with `stock > 0`; absent fields are unchanged |
| `ProductRoutes.PatchProduct` | backend/routes/ProductRoutes.js:87-113 | a supplied negative price is refused, then a negative stock, then an emptied name or category, each with its own error, then an unknown id as not found; otherwise it succeeds and only that product is patched |
| `ProductRoutes.PatchKeepsProductValid` | backend/routes/ProductRoutes.js:92-109 | an accepted patch keeps the product within its schema |
| `ProductRoutes.PatchAvailability` | backend/routes/ProductRoutes.js:101-103 | availability equals `stock > 0` after a patch that supplies stock, or that keeps it and touches neither field |
| `ProductRoutes.AvailabilityFlagAloneBreaksRule` | backend/routes/ProductRoutes.js:101-107 | a patch sending only `isAvailable: true` can mark an empty product available |
| `ProductRoutes.DeleteProduct` | backend/routes/ProductRoutes.js:122-128 | an unknown id is not found; otherwise exactly that product is removed |
| `AdminRoutes.StockOrZero` | backend/routes/adminRoutes.js:47 | non-numeric or absent stock text becomes 0; numeric text becomes its value |
| `AdminRoutes.AdminCreate` | backend/routes/adminRoutes.js:18-56 | refuses a missing name, price or category, then a negative price, then negative stock, then a price that is not a number; otherwise it succeeds, and the created product is valid, priced by `Number(price)`, with stock `Number(stock) or 0`, availability `stock > 0`, and image only from an upload |
| `AdminRoutes.AdminCreateZeroPrice` | backend/routes/adminRoutes.js:23-48 | a non-empty price text that reads as 0 (such as `"0"`) passes the required-field check and is stored as price 0; a stock text that is not a number (such as `"x"`) is stored as 0 and unavailable |
| `AdminRoutes.ZeroText` | backend/routes/adminRoutes.js:23 | the text `"0"` reads as the number 0 |
| `AdminRoutes.ApplyForm` | backend/routes/adminRoutes.js:72-82 | supplied stock is converted and sets availability `stock > 0`; supplied price is converted; supplied name, category and description replace the old ones; the image changes only with an upload |
| `AdminRoutes.AdminPatch` | backend/routes/adminRoutes.js:59-98 | refused in order: negative price, negative stock, a non-empty price or a stock text that is not a number, an emptied name, category or price (the schema's `required` check), an unknown id; a form passing all checks succeeds and changes only that product |
| `AdminRoutes.EmptyPriceIsRequiredFailure` | backend/routes/adminRoutes.js:64-89 | an empty price text is not converted and fails the schema's `required` check like an emptied name, unless a stock text fails its cast first |
| `AdminRoutes.AdminPatchKeepsInvariants` | backend/routes/adminRoutes.js:64-77 | an accepted form patch keeps the product valid, and keeps availability equal to `stock > 0` when stock was supplied or when it held before |
| `JsText.Trim` | backend/utils/validators.js:59 | the result has no surrounding white space and is the input minus white space at both ends |
| `JsText.TrimOfTrimmed` | backend/utils/validators.js:59 | trimming a trimmed string changes nothing |
| `JsText.ToNumber` | backend/routes/adminRoutes.js:43-47 | blank text reads as 0; non-blank text is a number exactly when, trimmed, it is a run of decimal digits with at most a leading sign |
| `JsText.NumberOf` | frontend/src/pages/Cart/Checkout.jsx:48-52 | `Number` of undefined is NaN, of null 0, of a boolean 0 or 1, of a number itself, and of a string its reading as text |
| `JsText.LettersAreNaN` | backend/routes/adminRoutes.js:47 | `Number` of a non-empty run of letters is NaN, so such a stock text falls back to 0 |
| `JsText.ToNumberOfIntToText` | backend/routes/adminRoutes.js:43-47 | `Number` reads back any integer written in decimal |
| `Validators.FirstAt` | backend/utils/validators.js:11 | finds the first `@`, or reports that there is none |
| `Validators.EmailMatchesPattern` | backend/utils/validators.js:10-12 | the scan (no white space, one `@` not first, a dot strictly inside the domain) accepts exactly the strings the regular expression matches |
| `Validators.ValidatePassword` | backend/utils/validators.js:20-45 | valid exactly when 8 to 128 characters long with an ASCII letter and a digit; the message names the first broken rule in source order |
| `Validators.FindClose` | backend/utils/validators.js:57 | finds the first closing script tag at or after a position, or reports that there is none |
| `Validators.ScriptEnd` | backend/utils/validators.js:57 | a script match starts with `<script` plus a word boundary and ends just after a closing tag |
| `Validators.StripFrom` | backend/utils/validators.js:57 | the output has only characters of the input, text without `<` passes through unchanged |
| `Validators.StripSkipsScript` | backend/utils/validators.js:57 | where a script match starts, the whole match is removed and stripping resumes after it |
| `Validators.StripPlainStretch` | backend/utils/validators.js:57 | a stretch without `<` is copied unchanged ahead of the rest |
| `Validators.ScriptAt` | backend/utils/validators.js:57 | an opening tag, text without `<`, then a closing tag form one match, ending after that closing tag |
| `Validators.ScriptRemoved` | backend/utils/validators.js:57 | a script element between plain runs is removed with its content, leaving the two runs joined |
| `Validators.ScriptRemovedExample` | backend/utils/validators.js:57 | `a<script>x</script>b` becomes `ab` |
| `Validators.StripScripts` | backend/utils/validators.js:57 | removing script elements keeps only input characters and leaves text without `<` unchanged |
| `Validators.RemoveAngles` | backend/utils/validators.js:58 | the output has no `<` or `>` and only input characters; text without them is unchanged |
| `Validators.Sanitize` | backend/utils/validators.js:56-59 | the output has no `<` or `>`, no surrounding white space, and only input characters |
| `Validators.SanitizeIdempotent` | backend/utils/validators.js:56-59 | sanitising twice is sanitising once |
| `Validators.SanitizePlainText` | backend/utils/validators.js:56-59 | text without angle brackets is only trimmed |
| `Validators.SanitizeValue` | backend/utils/validators.js:53 | a non-string value is returned unchanged; a string comes back sanitised |
| `EnvCheck.Missing` | backend/utils/envValidation.js:24-26 | lists exactly the given variables that are unset or empty |
| `EnvCheck.MissingAppend` | backend/utils/envValidation.js:24-26 | missing variables are reported in list order |
| `EnvCheck.RequiredMissing` | backend/utils/envValidation.js:7-26 | the report names the unset ones among `MONGO_URI`, `JWT_SECRET`, `ADMIN_KEY`, in that order |
| `EnvCheck.Warnings` | backend/utils/envValidation.js:24-31 | every warning is one of the two short-secret messages, and a list naming neither variable draws none |
| `EnvCheck.ApplyDefaultsKeys` | backend/utils/envValidation.js:35-39 | defaulting removes nothing and adds exactly the defaulted names |
| `EnvCheck.ApplyDefaultsUntouched` | backend/utils/envValidation.js:35-39 | a variable without a default keeps its value |
| `EnvCheck.ApplyDefaultsDefaulted` | backend/utils/envValidation.js:13-17 | a defaulted variable keeps a value that was set, and otherwise gets its default |
| `EnvCheck.OptionalVarsAlwaysSet` | backend/utils/envValidation.js:13-17 | after defaulting, PORT, FRONTEND_URL and NODE_ENV are all set |
| `EnvCheck.ApplyDefaultsIdempotent` | backend/utils/envValidation.js:35-39 | defaulting twice is defaulting once |
| `EnvCheck.CheckRequired` | backend/utils/envValidation.js:24-32 | the loop yields the missing required variables in list order, and the short-secret warnings |
| `EnvCheck.RequiredWarnings` | backend/utils/envValidation.js:24-31 | the warnings are a short `JWT_SECRET` warning then a short `ADMIN_KEY` warning, each only when that variable is set and shorter than 32 or 8 characters |
| `EnvCheck.FillDefaults` | backend/utils/envValidation.js:35-39 | the loop fills in each unset optional variable in turn |
| `EnvCheck.ValidateEnv` | backend/utils/envValidation.js:19-64 | reports missing, warnings and the defaulted environment; exits exactly when something is missing, or in production with a placeholder secret or admin key |
| `EnvCheck.AcceptedStart` | backend/utils/envValidation.js:41-58 | a start that goes ahead has all required variables set, and in production neither placeholder |
| `EnvCheck.PlaceholdersAcceptedInDevelopment` | backend/utils/envValidation.js:16-58 | with NODE_ENV unset the placeholders pass, with only the short-secret warning |
| `ProfileRoutes.BuildUpdate` | backend/routes/profileRoutes.js:33-40 | the name is in the update only when truthy; each contact field whenever sent, even empty |
| `ProfileRoutes.ApplyUpdate` | backend/routes/profileRoutes.js:42-46 | email, password and the admin flag never change; named fields are set; others are kept |
| `ProfileRoutes.Project` | backend/routes/profileRoutes.js:14-22 | the view has no password; absent contact fields read `""` and an absent admin flag reads false |
| `ProfileRoutes.GetProfile` | backend/routes/profileRoutes.js:7-22 | not found exactly for an unknown user; otherwise the user's projection, without the password |
| `ProfileRoutes.UpdateProfile` | backend/routes/profileRoutes.js:31-63 | an unknown user is not found and nothing changes; otherwise that user becomes the body's update applied to them, answered with the new projection; email, password and admin flag never change, and no other user does |
| `ProfileRoutes.UpdateThenGet` | backend/routes/profileRoutes.js:52-62 | the update's response equals a later read of the profile |
| `ProfileRoutes.UpdateProfileIdempotent` | backend/routes/profileRoutes.js:33-46 | sending the same update twice is sending it once |
| `ProfileRoutes.PrivilegedFieldsIgnored` | backend/routes/profileRoutes.js:33-40 | a body with only email, password and admin flag changes nothing |
| `ProfileRoutes.EmptyNameKeptEmptyPhoneCleared` | backend/routes/profileRoutes.js:36-37 | an empty name keeps the name, while an empty phone clears the phone |
| `HomePage.Visible` | frontend/src/pages/Home/Home.jsx:39-41 | keeps exactly the cards not marked unavailable; a missing flag keeps the card |
| `HomePage.VisibleAppend` | frontend/src/pages/Home/Home.jsx:39-41 | filtering keeps the order the products arrived in |
| `HomePage.JsSlice` | frontend/src/pages/Home/Home.jsx:46 | within bounds, `slice` is the subsequence between the two indexes |
| `HomePage.Page` | frontend/src/pages/Home/Home.jsx:11-46 | page p shows items `(p-1)*12` up to `p*12`, at most 12; a page past the end is empty |
| `HomePage.TotalPages` | frontend/src/pages/Home/Home.jsx:48 | at least 1, and the least page count whose pages hold all items |
| `HomePage.PagesFrom` | frontend/src/pages/Home/Home.jsx:43-48 | pages from p to the last hold exactly the items from `(p-1)*12` on |
| `HomePage.PagesCoverList` | frontend/src/pages/Home/Home.jsx:43-48 | pages 1 to the last, laid end to end, are exactly the filtered list |
| `HomePage.QueryOf` | frontend/src/pages/Home/Home.jsx:14 | the query is trimmed, and absent means empty |
| `HomePage.Navigate` | frontend/src/pages/Home/Home.jsx:35-37 | a changed search resets the page to 1; the same search keeps it |
| `HomePage.ChoosePage` | frontend/src/pages/Home/Home.jsx:50-52 | a page button selects a page that is non-empty whenever there are products |
| `HomePage.PaddedQueryIsSameSearch` | frontend/src/pages/Home/Home.jsx:14 | padded and trimmed forms of a search are the same search, so the page is kept |
| `CartPage.FetchedTotal` | frontend/src/pages/Cart/Cart.jsx:19-21 | after fetching the cart, the total shown is the sum, over stored lines whose product exists and is available, of the live price times the stored quantity |
| `CartPage.TotalAppend` | frontend/src/pages/Cart/Cart.jsx:38-41 | the total splits over concatenated line lists, so it is the sum of `price * quantity` |
| `CartPage.TotalSingle` | frontend/src/pages/Cart/Cart.jsx:38-41 | one line's total is its price times its quantity |
| `CartPage.TotalNonNegative` | frontend/src/pages/Cart/Cart.jsx:38-41 | non-negative prices and quantities give a non-negative total |
| `CartPage.NextQuantity` | frontend/src/pages/Cart/Cart.jsx:46 | increase adds one; decrease subtracts one but never goes below one |
| `CartPage.ButtonsUndoEachOther` | frontend/src/pages/Cart/Cart.jsx:46 | increase then decrease returns to the start; from 2 up, so does the reverse; decrease at 1 stays at 1 |
| `CartPage.FindItem` | frontend/src/pages/Cart/Cart.jsx:45 | finds the first line with the id, or reports that none exists |
| `CartPage.SetQuantity` | frontend/src/pages/Cart/Cart.jsx:53-55 | exactly the matching lines get the new quantity; the rest are unchanged |
| `CartPage.UpdateQuantity` | frontend/src/pages/Cart/Cart.jsx:43-62 | no request for a missing line; the request carries the next quantity; lines change only after the server accepts, and then the matching lines take that quantity |
| `CartPage.SetQuantityUnique` | frontend/src/pages/Cart/Cart.jsx:53-55 | with unique ids, setting a present id's quantity replaces exactly its one line |
| `CartPage.UpdateQuantityTotal` | frontend/src/pages/Cart/Cart.jsx:53-57 | an accepted press moves the total by price times the change in quantity |
| `CartPage.TotalReplace` | frontend/src/pages/Cart/Cart.jsx:38-41 | replacing one line moves the total by the difference of the two subtotals |
| `CartPage.Without` | frontend/src/pages/Cart/Cart.jsx:67 | keeps exactly the lines with another id |
| `CartPage.WithoutMembers` | frontend/src/pages/Cart/Cart.jsx:67 | the filter keeps exactly the lines whose id differs |
| `CartPage.WithoutAppend` | frontend/src/pages/Cart/Cart.jsx:67 | removal keeps the other lines in order |
| `CartPage.WithoutUnmatched` | frontend/src/pages/Cart/Cart.jsx:67 | removing an id no line has leaves the list unchanged |
| `CartPage.RemoveItem` | frontend/src/pages/Cart/Cart.jsx:64-74 | lines change only after the server accepts, and then drop exactly the matching id |
| `CartPage.WithoutUniqueCut` | frontend/src/pages/Cart/Cart.jsx:67 | with unique ids, filtering out a present id cuts out exactly its one line, keeping the others in place |
| `CartPage.RemoveItemTotal` | frontend/src/pages/Cart/Cart.jsx:66-69 | with unique ids, removing a line cuts it out in place and takes its subtotal off the total |
| `CartPage.Restore` | frontend/src/pages/Cart/Cart.jsx:27-30 | a missing or zero quantity becomes 1; any other quantity is kept |
| `CartPage.RestoreRoundTrip` | frontend/src/pages/Cart/Cart.jsx:27-30 | a restored line saved again restores to itself |
| `CartPage.RestoreAll` | frontend/src/pages/Cart/Cart.jsx:26-30 | restores each saved line in order |
| `CheckoutPage.Prefill` | frontend/src/pages/Cart/Checkout.jsx:24-33 | each truthy saved field overrides the form, the address from `location`; the payment is untouched; with no saved profile nothing changes |
| `CheckoutPage.PrefillKeepsGateOpen` | frontend/src/pages/Cart/Checkout.jsx:24-33 | prefill never empties a field and is idempotent |
| `CheckoutPage.PayloadLines` | frontend/src/pages/Cart/Checkout.jsx:75-78 | one request line per cart line, in order, with its id and quantity |
| `CheckoutPage.BuildPayload` | frontend/src/pages/Cart/Checkout.jsx:74-81 | the body holds the mapped lines, exactly the five delivery fields, and a payment name the order schema accepts as the chosen method |
| `CheckoutPage.AsRequest` | frontend/src/pages/Cart/Checkout.jsx:74-81 | the order route reads one line per payload line, with the product id as its reference and the same quantity |
| `CheckoutPage.GateIsServerCheck` | frontend/src/pages/Cart/Checkout.jsx:66-70 | the page's five-field gate lets through exactly the forms whose body passes the order route's customer check |
| `CheckoutPage.PayloadPassesRequestChecks` | backend/routes/orderRoutes.js:27-33 | a request the page lets through passes the order route's presence checks exactly when the cart has a line, and names the chosen payment |
| `CheckoutPage.PlaceOrderFlow` | frontend/src/pages/Cart/Checkout.jsx:65-96 | nothing is sent with an empty delivery field; the clear is sent only after the order is accepted; the order shows as placed only when both succeed |
| `CheckoutPage.Normalize` | frontend/src/pages/Cart/Checkout.jsx:48-52 | price is `Number(price)`, or 0 when not a number; quantity is `Number(quantity)`, or 1 when zero or not a number |
| `CheckoutPage.NormalizeRoundTrip` | frontend/src/pages/Cart/Checkout.jsx:48-52 | a line saved as numbers, or as their decimal text, is restored unchanged when its quantity is not zero |
| `CheckoutPage.NormalizeAll` | frontend/src/pages/Cart/Checkout.jsx:48-53 | normalises each saved line in order |
| `CheckoutPage.UnreadableLineTotal` | frontend/src/pages/Cart/Checkout.jsx:50-54 | an unreadable price counts 0 and an unreadable quantity counts 1 in the total |

## Left out

- Database I/O, `populate`, indexes and sessions are left out. The stores
  are in-memory values, and a transaction is all-or-nothing replacement of
  the store.
- Concurrency and transaction isolation are left out. Only two checkouts in
  sequence against one store are modelled.
- Floating point is left out: prices, quantities and stock are integers.
  `Number(...)` reads only optionally signed decimal integers (after
  trimming), and everything else is NaN.
- Lengths are counted in Unicode code points, not UTF-16 units. This matters
  for the password bounds and the environment-secret warnings only on
  characters outside the Basic Multilingual Plane.
- Id casting is left out. A malformed id finds nothing, like an unknown one,
  where the route would answer with a cast error.
- The `q` and `category` regular-expression search of the product listing
  is left out, because it depends on the database's regex semantics.
- Upload URL construction is left out: the uploaded image's URL is a
  parameter.
- Authentication, administrator checks, password hashing, tokens,
  `isValidObjectId`, the maintenance scripts, server wiring, logging, and
  React rendering, routing, alerts and `localStorage` are left out. A
  browser-saved profile or cart is a parameter.
- The cart document schema (`backend/models/Cart.js`) is not part of this
  model. Cart lines are modelled as the cart routes write them.
- The admin form carries only name, price, category, description and stock.
  Any other form field is not modelled.
- Request bodies are typed: JSON numbers are `int`, and text fields are
  strings. A body field of an unexpected JSON type is not modelled, except
  for the saved lines the checkout page normalises, and the sanitiser's
  non-string input.
- Server failures (HTTP 500) that come from the database are not modelled.
  A failure inside the checkout transaction is modelled as an abort.
- `OrderRoutes.ListOrders`: the source breaks ties between equal creation
  times by the database's order. The model promises only a newest-first
  order.
- `ProductRoutes.ListProducts`: it returns product ids, not documents, and
  breaks ties in creation time arbitrarily.
- `ProductRoutes.CreateProduct`, `AdminRoutes.AdminCreate`: these require a
  fresh id, which stands for the id the database generates.
- `CartPage.Restore`: a saved quantity is an optional integer, absent
  standing for `undefined` or `null`. The other falsy values (`""`, `NaN`,
  `false`), which also become 1, and a quantity saved as text are not
  modelled on the cart page; the checkout page's normalisation models text.
