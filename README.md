# Prescripto pharmacy core in Dafny

This project models the pharmacy side of the Prescripto web application:
the carts kept on each user's record, orders, and the medicine catalog on
the Express backend, plus the storefront pages that use them (the cart
page, the checkout page and the related-doctors strip).

- `wrappers.dfy` — `Option`, `Result` and the `Failure` replies (400, 404,
  500 with their messages).
- `seqs.dfy` — `Filter`, `IndexWhere` and `Reverse` on sequences, the
  JavaScript `filter`, `findIndex` and `reverse` the handlers and pages
  use, with their membership, concatenation and permutation lemmas.
- `cart_model.dfy` (`CartModel`) — a cart entry and the effect of each
  cart operation on one user's cart: add (merge), increase, decrease,
  remove. It also holds the invariant they keep (unique ids, quantities
  of at least 1) and how they undo each other.
- `cart_controller.dfy` (`CartController`) — the six handlers of
  `cartController.js` as methods of a `CartStore` class. The class holds a
  map from user id to cart, and each method is proved against the
  functions of `CartModel`. `FindIndex` is the `findIndex` scan written as
  a loop.
- `amounts.dfy` (`Amounts`) — a price taken n times, written as repeated
  addition and shown equal to the product, which the totals use.
- `cart_totals.dfy` (`CartTotals`) — `calculateTotal` and the "items"
  count, and how each cart operation moves them.
- `cart_page.dfy` (`CartPage`) — `Cart.jsx` as a `CartView` class: fetch
  on load, `handleQuantityChange`, the disabled states of the decrease and
  checkout buttons, and the reversed display.
- `order_model.dfy`, `order_controller.dfy` (`OrderModel`,
  `OrderController`) — the order schema and
  `createOrder`/`getUserOrders` over an append-only `OrderLedger` class.
- `checkout.dfy` (`Checkout`) — `PlaceOrder.jsx` as a `PlaceOrderPage`
  class: the form, the required-field check, and the order of the create
  and clear-cart requests.
- `settlement.dfy` (`Settlement`) — what the server stores for the order
  the checkout page sends, and a place-then-clear scenario.
- `medicine_model.dfy`, `medicine_controller.dfy` (`MedicineModel`,
  `MedicineController`) — the medicine schema and the four handlers over a
  `Catalog` class. This includes `Number(price)` on decimal text and the
  public id the remove handler derives from an image URL.
- `related_doctors.dfy` (`RelatedDoctors`) — the filter in the effect of
  `RelatedDoctors.jsx` and the first-five slice it shows.

The database, the image host and the HTTP round trips are not modelled as
such. Each user document is reduced to its cart, held in a `map`. Orders
and medicines are `seq`s. A request's reply, an upload's URL, the outcome
of an image destroy and the current time are parameters of the method
that needs them. Prices and amounts are exact `real`s (JavaScript numbers
without floating-point rounding) and quantities are integers. A field that is
absent in a request body is the empty string, which JavaScript's `!`
treats like an absent one. An optional value the handler distinguishes
from "absent" (the cart price, the order items, the order address, the
uploaded image) is an `Option`.

The model follows the code where it is looser or stricter than its
messages suggest:

- `addToCart` checks only `price === undefined`, so a price of 0 is
  accepted.
- `createOrder` refuses an amount of 0, does not check the address, and
  does not recompute the amount from the items.
- A missing address or an item without id or name is refused by the save,
  which answers 500, not 400.
- `addMedicine` dereferences the uploaded file, so a request without an
  image ends in 500.
- The cart page keeps `totalPrice` after the checkout page empties the
  cart.

## Model

| member | source | states |
|---|---|---|
| CartController.FindIndex | backend/controllers/cartController.js:28-30 | the loop returns the first index whose entry has the id, or -1 when none has it |
| CartController.AddRequestComplete | backend/controllers/cartController.js:9 | the add guard: id, name and imageUrl non-empty and a price present; CartController.CartStore.AddToCart answers 400 exactly when it fails |
| CartModel.IndexOf | backend/controllers/cartController.js:85 | result is -1 exactly when no entry has the id; otherwise it is the first entry with the id |
| CartModel.Remove | backend/controllers/cartController.js:131 | the entries with another id, in their order; its properties are CartModel.RemoveDropsExactlyTheId, RemoveKeepsValid, RemoveIdempotent and RemoveKeepsOrder |
| CartModel.Merge | backend/controllers/cartController.js:27-57 | an existing entry is replaced by itself with one more unit (same id, name, image and price) and every other position is unchanged; a new id is appended with quantity 1 and the sent fields; the id is then present; the cart invariant is kept |
| CartModel.Increase | backend/controllers/cartController.js:85-88 | "Item not in cart" (404) exactly when no entry has the id; otherwise the first match is replaced by itself with one more unit and every other position is unchanged; the invariant is kept |
| CartModel.Decrease | backend/controllers/cartController.js:106-116 | succeeds exactly when the id is present and its entry has quantity above 1; 404 exactly when the id is absent; 400 "Quantity cannot be less than 1" exactly when the match has quantity at most 1; otherwise that entry is replaced by itself with one unit less (still at least 1) and every other position is unchanged |
| CartModel.RemoveDropsExactlyTheId | backend/controllers/cartController.js:131 | an entry survives removal exactly when it was in the cart with another id; an absent id leaves the cart as it was |
| CartModel.RemoveKeepsValid | backend/controllers/cartController.js:131 | removal keeps ids unique and quantities at least 1 |
| CartModel.RemoveIdempotent | backend/controllers/cartController.js:131 | removing twice is removing once |
| CartModel.RemoveKeepsOrder | backend/controllers/cartController.js:131 | removal keeps the relative order of the remaining entries |
| CartModel.RemoveUndoesMerge | backend/controllers/cartController.js:27-57 | adding an item and then removing it equals removing it from the original cart |
| CartModel.DecreaseUndoesIncrease | backend/controllers/cartController.js:85-116 | on a cart with positive quantities, a decrease after a successful increase gives back the cart |
| CartModel.IncreaseUndoesDecrease | backend/controllers/cartController.js:85-116 | an increase after a successful decrease gives back the cart |
| CartModel.MergeRepeated | backend/controllers/cartController.js:28-57 | adding a new item n times leaves one entry for it at the end with quantity n |
| CartModel.MergeLeavesOneEntry | backend/controllers/cartController.js:28-57 | after an add on a valid cart exactly one entry has the id |
| CartController.CartStore.AddToCart | backend/controllers/cartController.js:4-74 | 400 with the fields message when id, name or imageUrl is empty or price missing; 404 for an unknown user; otherwise the user's cart becomes the merged cart and is returned; the store invariant is kept; no other cart changes |
| CartController.CartStore.IncreaseQuantity | backend/controllers/cartController.js:78-96 | 404 "User not found" for an unknown user; otherwise the reply is the per-cart increase and the store changes only when it succeeds |
| CartController.CartStore.DecreaseQuantity | backend/controllers/cartController.js:99-121 | as above with the per-cart decrease; a refused decrease leaves the store unchanged |
| CartController.CartStore.RemoveFromCart | backend/controllers/cartController.js:124-139 | 404 for an unknown user; otherwise the user's cart becomes the filtered cart and is returned; the invariant is kept |
| CartController.CartStore.GetCart | backend/controllers/cartController.js:142-165 | succeeds exactly when the user exists, with that user's cart; otherwise 404 "User not found" |
| CartController.CartStore.ClearCart | backend/controllers/cartController.js:168-200 | for a known user the cart becomes empty and the empty cart is returned; otherwise 404 and nothing changes |
| Amounts.Scale | frontend/src/pages/Cart.jsx:51-57 | a price taken n times (the `price * quantity` of a line); its meaning is Amounts.ScaleIsProduct |
| Amounts.ScaleIsProduct | frontend/src/pages/Cart.jsx:51-57 | a price taken n times is n times the price |
| Amounts.ScaleAdd | frontend/src/pages/Cart.jsx:51-57 | taking a price a times and b times adds up to taking it a + b times |
| CartTotals.Total | frontend/src/pages/PlaceOrder.jsx:74-80 | the sum of each entry's price times quantity; CartTotals.TotalsAppend, AdjustMovesTotals and MergeMovesTotals state how it moves |
| CartTotals.ItemCount | frontend/src/pages/Cart.jsx:115 | the sum of the quantities; CartTotals.TotalsAppend, AdjustMovesTotals and ItemCountAtLeastEntries state its properties |
| CartTotals.TotalsAppend | frontend/src/pages/Cart.jsx:51-57 | total and item count of a concatenation are the sums of the parts |
| CartTotals.AdjustMovesTotals | frontend/src/pages/Cart.jsx:51-57 | moving one entry's quantity by d moves the count by d and the total by its price taken d times (`Amounts.Scale`, equal to d times the price) |
| CartTotals.MergeMovesTotals | backend/controllers/cartController.js:34-57 | every add raises the count by one and the total by the stored price (existing item) or the sent price (new item) |
| CartTotals.ItemCountAtLeastEntries | frontend/src/pages/Cart.jsx:115 | with positive quantities the unit count is at least the number of entries, and equal to it exactly when every quantity is 1 |
| CartPage.DecreaseEnabled | frontend/src/pages/Cart.jsx:165 | the decrease button is enabled when quantity is above 1 and the item is not being updated; CartPage.EnabledDecreaseIsAccepted shows the server accepts such a decrease |
| CartPage.CheckoutEnabled | frontend/src/pages/Cart.jsx:220 | the checkout button is enabled when the cart is non-empty and nothing is being updated; CartPage.CartView.ClickCheckout navigates exactly then |
| CartPage.Endpoint | frontend/src/pages/Cart.jsx:63-75 | an action has an endpoint exactly when it is increase, decrease or remove |
| CartPage.Displayed | frontend/src/pages/Cart.jsx:150 | the shown list is the cart reversed: same length, same entries, position i holds entry n-1-i |
| CartPage.EnabledDecreaseIsAccepted | frontend/src/pages/Cart.jsx:165 | a decrease the enabled button sends for an entry of a valid cart is accepted and leaves that entry one unit lower, at least 1 |
| CartPage.CartView.FetchCart | frontend/src/pages/Cart.jsx:25-49 | a resolved reply replaces the cart and sets the total to its sum; a rejected one keeps both; loading ends |
| CartPage.CartView.HandleQuantityChange | frontend/src/pages/Cart.jsx:59-96 | an unknown action sends nothing; otherwise the request goes to the action's endpoint, the cart and total are replaced only on a successful reply, and the updating mark is cleared |
| CartPage.CartView.ClickDecrease | frontend/src/pages/Cart.jsx:163-166 | a request is sent exactly when quantity is above 1 and the item is not being updated; when sent, a successful reply replaces the cart and sets the total to its sum, any other reply keeps both, and the updating mark is cleared; when not sent nothing changes; loading is untouched |
| CartPage.CartView.ClickCheckout | frontend/src/pages/Cart.jsx:218-220 | checkout navigates exactly when the cart is non-empty and no update is in flight |
| OrderModel.ItemConforms | backend/models/orderModel.js:5-15 | an item has its required id and name; OrderController.SchemaRefusesIncomplete shows an item without them is refused |
| OrderModel.Conforms | backend/models/orderModel.js:3-19 | an order has a non-empty userId and only conforming items (the address, amount and date are fields of the record); OrderController.NewOrder ensures every created order conforms |
| OrderController.RequestComplete | backend/controllers/orderController.js:11 | the create guard: userId non-empty, items present and amount non-zero; OrderController.NewOrder answers 400 exactly when it fails |
| OrderController.NewOrder | backend/controllers/orderController.js:8-25 | 400 "All fields are required" exactly when userId is empty, items missing or amount 0; an order exactly when also the address is present and every item has id and name; every other failure is 500 "Server error"; the order holds the sent fields and the time and conforms to the schema |
| OrderController.AmountIsNotRecomputed | backend/controllers/orderController.js:16-22 | for any complete request whose items conform, the order is created with the amount exactly as sent, whatever the items add up to, and an empty item list is accepted |
| OrderController.SchemaRefusesIncomplete | backend/models/orderModel.js:3-19 | a request passing the guard without an address, or with an item lacking id or name, ends in 500 |
| OrderController.OrdersOf | backend/controllers/orderController.js:40 | the stored orders with the userId; OrderController.OrdersOfExact and OrdersOfAppend state its properties |
| OrderController.OrdersOfExact | backend/controllers/orderController.js:40 | the query returns exactly the stored orders with that userId |
| OrderController.OrdersOfAppend | backend/controllers/orderController.js:40 | after an append the owner's list ends with the new order and other users' lists do not change |
| OrderController.OrderLedger.CreateOrder | backend/controllers/orderController.js:6-33 | succeeds exactly when the new order is valid, then appends it and answers "Order Placed"; otherwise the ledger is unchanged; stored orders are never altered |
| OrderController.OrderLedger.GetUserOrders | backend/controllers/orderController.js:36-51 | 404 "No orders found" exactly when no order has the userId; otherwise the non-empty list of that user's orders |
| Checkout.SetField | frontend/src/pages/PlaceOrder.jsx:82-85 | the named field takes the value and every other field keeps its value |
| Checkout.InitialForm | frontend/src/pages/PlaceOrder.jsx:19-31 | every field is empty except the country, which is "India" |
| Checkout.MissingFields | frontend/src/pages/PlaceOrder.jsx:92-93 | the required fields that are empty, in list order; Checkout.MissingFieldsExact, FormCompleteIff and OptionalFieldsIgnored state its properties |
| Checkout.MissingFieldsExact | frontend/src/pages/PlaceOrder.jsx:92-93 | a field is reported missing exactly when it is required and empty |
| Checkout.FormCompleteIff | frontend/src/pages/PlaceOrder.jsx:92-101 | nothing is missing exactly when all eight required fields are filled |
| Checkout.OptionalFieldsIgnored | frontend/src/pages/PlaceOrder.jsx:92 | apartment, state and delivery notes never change the check's outcome |
| Checkout.UntouchedFormMissesAllButCountry | frontend/src/pages/PlaceOrder.jsx:19-31 | the initial form misses every required field except the country, in list order |
| Checkout.PlaceOrderPage.FetchCart | frontend/src/pages/PlaceOrder.jsx:48-72 | a resolved reply replaces the cart and total; a rejected one keeps them; the form is untouched; loading ends |
| Checkout.PlaceOrderPage.HandleInputChange | frontend/src/pages/PlaceOrder.jsx:82-85 | the form becomes the old form with one field set |
| Checkout.PlaceOrderPage.HandlePlaceOrder | frontend/src/pages/PlaceOrder.jsx:87-150 | nothing is sent when a required field is missing; otherwise the order request carries the form, the cart and the total; clearing is requested only after the order succeeded; the cart is emptied only after both requests went through; the total is kept; placing ends |
| Settlement.LineItems | backend/models/orderModel.js:5-15 | each stored item is the entry's id, name, quantity and price, position by position |
| Settlement.LineItemsTotal | frontend/src/pages/PlaceOrder.jsx:74-80 | the stored items add up to the page's total |
| Settlement.SubmittedOrderIsStored | frontend/src/pages/PlaceOrder.jsx:105-117 | a complete submission with a non-zero total is stored with the form, the cart's items and an amount equal to their total; a zero total is refused with 400 |
| MedicineModel.Conforms | backend/models/medicineModel.js:3-11 | a record has its required text fields; MedicineController.NewMedicine ensures every created record conforms |
| MedicineModel.IndexOfId | backend/controllers/medicineController.js:96 | -1 exactly when no record has the id; otherwise a record with the id |
| MedicineModel.DeleteAtRemovesOnlyThatId | backend/controllers/medicineController.js:96 | with unique ids, deleting a record removes exactly the records with its id |
| MedicineModel.DeleteAtKeepsUniqueIds | backend/controllers/medicineController.js:96 | deleting a record keeps ids unique |
| MedicineController.DecimalValue | backend/controllers/medicineController.js:37 | a number exactly when the text is decimal (digits and at most one point, with at least one digit); digit text reads as its whole value; the value is never negative |
| MedicineController.IsDecimal | backend/controllers/medicineController.js:37 | the decimal text the value reads: at least one digit, only digits and points, at most one point; MedicineController.DecimalValue is defined exactly on it |
| MedicineController.WholeValue | backend/controllers/medicineController.js:37 | the value of digit text read left to right, base ten |
| MedicineController.FractionValue | backend/controllers/medicineController.js:37 | the value of the digits after the point, at least 0 and below 1 |
| MedicineController.DecimalShape | backend/controllers/medicineController.js:37 | text is decimal exactly when its part before the first point is digits and the rest is empty or a point followed by digits, with a digit somewhere |
| MedicineController.DecimalValueOfParts | backend/controllers/medicineController.js:37 | for digit parts that are not both empty, whole "." fraction reads as the whole value plus the fraction value |
| MedicineController.FractionTrailingZero | backend/controllers/medicineController.js:37 | a trailing zero after the point does not change the value |
| MedicineController.WholeLeadingZero | backend/controllers/medicineController.js:37 | a leading zero does not change the value |
| MedicineController.TwelveFifty | backend/controllers/medicineController.js:37 | "12.50" reads as 12.5 |
| MedicineController.NotPriceTexts | backend/controllers/medicineController.js:37 | "1.2.3", "12a" and "." are not numbers |
| MedicineController.DecimalText | admin/src/pages/Admin/AddMedicine.jsx:33 | a whole number becomes non-empty digit text with no leading zero |
| MedicineController.WholeRoundTrip | admin/src/pages/Admin/AddMedicine.jsx:33 | the digit text of a whole number reads back as that number |
| MedicineController.DecimalRoundTrip | backend/controllers/medicineController.js:37 | reading back the text of a whole price gives the price as a number |
| MedicineController.LastSegment | backend/controllers/medicineController.js:107 | the suffix after the last '/', with no '/' in it, the whole text when there is none |
| MedicineController.FirstPart | backend/controllers/medicineController.js:107 | the prefix before the first '.', with no '.' in it, the whole text when there is none |
| MedicineController.PublicId | backend/controllers/medicineController.js:107 | the public id has neither '/' nor '.' |
| MedicineController.DestroyTarget | backend/controllers/medicineController.js:106-108 | the asset the handler asks to destroy is "medicines/" followed by the public id, with no further '/' |
| MedicineController.PublicIdOfFileUrl | backend/controllers/medicineController.js:107 | for a URL ending in "/name.extension" the public id is name |
| MedicineController.NewMedicine | backend/controllers/medicineController.js:7-44 | 400 "Please provide all required fields" exactly when a required field is empty; a record exactly when also an image came and the price is decimal text; other failures are 500; the record holds the fields, the parsed price and the time, and conforms |
| MedicineController.InsertByDate | backend/controllers/medicineController.js:64-65 | inserting into a newest-first list keeps it newest-first and adds exactly that record |
| MedicineController.SortNewestFirst | backend/controllers/medicineController.js:64-65 | the result is newest-first and a permutation of the input |
| MedicineController.Catalog.AddMedicine | backend/controllers/medicineController.js:5-59 | succeeds exactly when the new record is valid, then appends it and answers "Medicine added successfully"; otherwise the catalog is unchanged; ids stay unique |
| MedicineController.Catalog.ListMedicines | backend/controllers/medicineController.js:62-82 | every record exactly once, newest first, with their count |
| MedicineController.Catalog.RemoveMedicine | backend/controllers/medicineController.js:85-125 | 400 for an empty id; 404 when no record has it; otherwise the record is deleted and, when it had an image, a destroy of "medicines/<publicId>" is requested; the reply is its id, or 500 when the destroy fails after the delete; only that id disappears |
| MedicineController.Catalog.GetMedicine | backend/controllers/medicineController.js:128-162 | succeeds exactly when the id is non-empty and some record has it, with a stored record with that id; 400 for an empty id; 404 exactly when no record has it |
| RelatedDoctors.Related | frontend/src/components/RelatedDoctors.jsx:14 | the listed doctors of the speciality other than the current one; RelatedDoctors.RelatedExact and RelatedKeepsOrder state its properties |
| RelatedDoctors.RelatedExact | frontend/src/components/RelatedDoctors.jsx:14 | a doctor is related exactly when listed, of the same speciality, and not the current doctor |
| RelatedDoctors.RelatedKeepsOrder | frontend/src/components/RelatedDoctors.jsx:14 | the related list keeps the doctor list's order |
| RelatedDoctors.AfterEffect | frontend/src/components/RelatedDoctors.jsx:12-17 | with doctors and a speciality, the list becomes the filtered list: a doctor is shown exactly when listed, of that speciality and not the current one; otherwise the previous list stays |
| RelatedDoctors.Shown | frontend/src/components/RelatedDoctors.jsx:48 | the first five related doctors, or all of them when there are fewer |

## Left out

- Persistence: Mongoose documents, `markModified` and `save` are the
  assignment of a field. Concurrent requests (two saves racing on one
  user) are not modelled.
- The catch-all 500 replies for database or network errors other than
  the ones named above are not modelled. Examples: a malformed ObjectId
  in `findById`, or a failing save.
- Request values that are not strings (a numeric `id` or `productId`) are
  not modelled. Ids are text, so `toString()` and `===` agree.
- MedicineController.NewMedicine: `Number(price)` is modelled on decimal
  text only (digits with at most one point). Text `Number` also reads, such
  as a sign, surrounding whitespace, an exponent, hexadecimal or
  "Infinity", is refused with 500 here.
- Prices and amounts are exact reals. The floating-point rounding of the
  totals and `toFixed(2)` are not modelled.
- The upload at backend/controllers/medicineController.js:29 names no folder, while the remove
  handler destroys "medicines/<publicId>". The model computes only the
  target the handler requests. Whether that asset exists is up to the
  image host.
- The image host: the upload is its returned URL and the destroy is its
  outcome, both given as parameters. Files, folders and credentials are
  not modelled.
- Time: `Date.now()` and `new Date()` are a `now` parameter. The
  checkout page's three-second `setTimeout` is modelled as running at
  once.
- Toasts, navigation, rendering and the console are not modelled, except
  the decisions they depend on.
- Middleware (`authUser`, `authAdmin`, which put the `userId` into the
  body), routes and the server bootstrap are not part of this model.
- Context pages (`MedicineDetails.jsx`, `Shop.jsx`, `Orders.jsx`,
  `ListMedicine.jsx`, `AddMedicine.jsx` apart from the price it sends)
  are not part of this model.
- OrderController.NewOrder: the address is the checkout form's record.
  The backend accepts any object, so other shapes are not modelled.
- MedicineController.Catalog.AddMedicine: requires the new id to be fresh.
  The database generates it; `_id` generation is not modelled.
- MedicineController.SortNewestFirst: the order of records with equal
  `createdAt` is not promised.
- MedicineController.Catalog.ListMedicines: the `select('-__v')`
  projection and the 500 on a failing query are not modelled.
- CartController.CartStore.AddToCart: `price: null` counts as present in
  the source; the model has only present or absent.
- The doctors of the related strip have only the fields it reads. The
  navigation on click is not modelled.
