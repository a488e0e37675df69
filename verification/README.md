# Vibe-Cart in Dafny

Vibe-Cart is a small demo storefront: a React single-page shop plus two
interchangeable Express back ends. This project models the logic hidden in
its request handlers and React state setters as immutable datatypes and
total functions, and proves what each promises.

- `PersistedCart` (`persisted_cart.dfy`) — the SQLite cart router of
  `backend/routes/cart.js`. The state is the three tables: catalog, cart
  rows and receipts. Each request is one atomic transition returning the
  new store and a reply. Listing joins the cart with the catalog. Adding
  always inserts a new row. Delete and patch answer 404 for an unknown id.
  Checkout reprices the submitted lines from the catalog, is
  all-or-nothing, writes one receipt and clears the cart.
- `MockApi` (`mock_api.dfy`) — the in-memory mock of `backend/server.js`.
  Adding merges into the existing line, delete filters by product id, and
  checkout prices the submitted lines and empties the cart. An exception
  inside a handler (an unknown product's `price`) is a 500 reply that
  leaves the state alone.
- `Storefront` (`storefront.dfy`) — the shop page of
  `frontend/src/App.jsx`:
  - the cart reducer (`addToCart`, `removeFromCart`, `setItemQty`) and
    `getTotal`;
  - the category menu ordering;
  - the product-grid search and category filter;
  - the cart clearing of `handleCheckout`.
- `QtyStepper` (`qty_stepper.dfy`) — the per-product quantity stepper.
  `App.jsx` and `frontend/src/components/ProductList.jsx` both keep one,
  and "Add to Cart" reads it.
- `CheckoutForm` (`checkout_form.dfy`) — the checkout modal of
  `frontend/src/components/CheckoutModal.jsx`:
  - the field validator, with its exact messages;
  - the form/slip step machine;
  - the order-id shape;
  - the slip's item total and display rows.
- `Text` and `Basics` (`text.dfy`, `basics.dfy`) — the JavaScript string
  operations and the list vocabulary (order-preserving filter, `Set`
  de-duplication, subsequences) that the modules above are written in.

Money is integer minor units. The shop's and the mock's prices are whole
rupees, as written in the source. The SQLite seed prices become cents
(29.99 is 2999). The clock, `uuidv4()`, `Math.random()` and every database
success flag are parameters of the operations that use them.

The SQLite router inserts a cart row without checking that the product
exists. The model follows the code: such a row is stored, and the inner
join of the listing hides it (`PersistedCart.ListOmitsUnknownProducts`).

## Model

| member | source | states |
|---|---|---|
| PersistedCart.StatusCode | backend/routes/cart.js:15-76 | Database errors are 500, a missing row is 404, and every validation or pricing failure is 400 |
| PersistedCart.ListCart | backend/routes/cart.js:8-18 | A failed query is a 500. Otherwise each listed line is the join of one cart row with its product, with `lineTotal = qty * price`, in cart order. Only rows whose product exists are listed, and the total is the worth of the whole cart at catalog prices |
| PersistedCart.SumJoin | backend/routes/cart.js:16 | Folding `s + r.lineTotal` over the joined rows gives the rows' worth at catalog prices |
| PersistedCart.JoinableValue | backend/routes/cart.js:9-13 | Dropping the rows the inner join cannot match leaves the cart's worth unchanged |
| PersistedCart.ListOmitsUnknownProducts | backend/routes/cart.js:9-13 | A stored row is listed exactly when its product exists, and every listed line names an existing product |
| PersistedCart.AddItem | backend/routes/cart.js:22-33 | A missing or empty product id, or a quantity that is missing or below 1, is a 400 with nothing changed. An insert failure or a clashing fresh id is a 500 with nothing changed. Otherwise exactly one new row `(freshId, productId, qty, now)` is appended, the 201 reply is `{id, productId, qty}` without the timestamp, and catalog and receipts are untouched |
| PersistedCart.AddNeverMerges | backend/routes/cart.js:26-31 | Adding a product already in the cart adds a second row for it: the row count and that product's row count each grow by one |
| PersistedCart.DeleteItem | backend/routes/cart.js:36-43 | A database error is a 500 and an unknown id is a 404, each with nothing changed. Otherwise the reply is the id and the new cart is the old one, in order, without that row and with every other row kept |
| PersistedCart.PatchItem | backend/routes/cart.js:46-55 | A missing quantity or one below 1 is a 400 before the store is touched. A database error is a 500 and an unknown id is a 404, each with nothing changed. Otherwise exactly the row with that id gets the new quantity and every other row is unchanged |
| PersistedCart.FirstUnpriced | backend/routes/cart.js:74-76 | The first submitted line whose price is missing or zero: every earlier line is priced |
| PersistedCart.PricePass | backend/routes/cart.js:73-78 | The pricing loop succeeds exactly when every line has a truthy price. It then totals catalog price times quantity; otherwise it fails naming the first unpriced product |
| PersistedCart.AgreeOnItems | backend/routes/cart.js:67-78 | Two price tables that agree on the submitted products give the same verdict, total and rejected line |
| PersistedCart.BatchedQueryIsAuthoritative | backend/routes/cart.js:63-72 | The `WHERE id IN (...)` lookup prices the submitted lines exactly as the full catalog does |
| PersistedCart.Checkout | backend/routes/cart.js:58-92 | Each early failure is a 400 that changes nothing: a non-array cart, a missing name or email, an empty cart, or an unknown or zero-priced product (naming the first such line). A failed price query, a failed receipt insert or a clashing receipt id is a 500 that changes nothing. Success requires all of these to pass. The receipt total is then catalog price times submitted quantity. Exactly one receipt is appended, the whole cart is deleted (kept only when that delete failed), and success is reported either way |
| PersistedCart.CheckoutIgnoresClientPrices | backend/routes/cart.js:62-78 | Two submissions that differ only in client-sent prices get the same reply and leave the same cart |
| PersistedCart.SameLinesSameTotal | backend/routes/cart.js:74-78 | Lines with the same products and quantities get the same verdict, total and rejected product |
| PersistedCart.ItemsTotalOfRows | backend/routes/cart.js:74-78 | Checking out the stored rows totals them at the same value the listing computes |
| PersistedCart.CheckoutChargesListedTotal | backend/routes/cart.js:16-77 | Checking out the stored cart charges exactly the total GET / reported |
| PersistedCart.AddKeepsKeysDistinct | backend/routes/cart.js:26-29 | Adding keeps row ids and receipt ids distinct (primary keys) |
| PersistedCart.DeleteKeepsKeysDistinct | backend/routes/cart.js:38 | Deleting keeps row ids and receipt ids distinct |
| PersistedCart.PatchKeepsKeysDistinct | backend/routes/cart.js:50 | Patching keeps row ids and receipt ids distinct |
| PersistedCart.CheckoutKeepsKeysDistinct | backend/routes/cart.js:80-87 | Checkout keeps row ids and receipt ids distinct |
| PersistedCart.SeedCheckout | backend/db.js:44-50 | Against the seed catalog, two coffee makers and one mug, with a bogus client price attached, check out at 6948 cents, clear the cart and write one receipt |
| PersistedCart.UnknownProductCheckout | backend/routes/cart.js:76 | One unknown product rejects the checkout by name and leaves both cart rows and the receipts untouched |
| MockApi.Find | backend/server.js:35 | `products.find` yields a product exactly when some product has the id. The product found is a member of the list, has that id, and no product before it has that id |
| MockApi.PriceLines | backend/server.js:34-37 | The reduce succeeds exactly when every line's product exists, and then adds catalog price times quantity to the running sum |
| MockApi.GetCart | backend/server.js:33-40 | GET /api/cart changes nothing. It replies with the stored lines and their catalog-priced total exactly when every line's product exists, and otherwise throws |
| MockApi.AddToCart | backend/server.js:43-54 | If the product has a line, that line's quantity grows by `qty` and nothing else changes. Otherwise `{productId, qty}` is appended at the end. The reply is the new cart |
| MockApi.AddAccumulates | backend/server.js:45-51 | Adding raises the product's held quantity by `qty` and leaves every other product's quantity alone |
| MockApi.DeleteFromCart | backend/server.js:57-61 | Every line with that product id is removed and the others are kept in order. An unparsable id (NaN) matches nothing |
| MockApi.DeleteAbsentAndIdempotent | backend/server.js:58-59 | Deleting an absent id is a no-op, and deleting twice is deleting once |
| MockApi.Checkout | backend/server.js:64-78 | The receipt totals the submitted lines, not the stored cart, at catalog prices, and the stored cart is then empty. A non-array body or an unknown product throws and changes nothing |
| MockApi.CheckoutChargesListedTotal | backend/server.js:34-69 | Checking out the stored cart charges the total GET /api/cart reported |
| MockApi.HandlersKeepProductIdsDistinct | backend/server.js:45-76 | Because add merges, every handler keeps the cart's product ids pairwise distinct |
| MockApi.ProductsNeverChange | backend/server.js:15-78 | No handler changes the product list |
| QtyStepper.Shown | frontend/src/components/ProductList.jsx:23 | A missing or zero entry shows as 1, any other entry as itself |
| QtyStepper.Step | frontend/src/components/ProductList.jsx:6-11 | The stepped entry is `max(1, shown + delta)`, so it is at least 1. The keys gain only `id`, and every other id keeps its value |
| QtyStepper.StepKeepsPositive | frontend/src/App.jsx:104-109 | Stepping keeps every stored quantity, and so every shown quantity, at least 1 |
| QtyStepper.StepRoundTrip | frontend/src/App.jsx:104-109 | `+` then `-` restores the shown quantity. `-` then `+` does too unless `-` hit the floor of 1, which `-` never goes below |
| QtyStepper.AddRequest | frontend/src/components/ProductList.jsx:25 | "Add to Cart" passes the product id and the shown quantity, which is at least 1 while all entries are |
| Storefront.AddToCart | frontend/src/App.jsx:111-118 | If the product has a line, that line's quantity grows by `qty` and the others are unchanged. Otherwise `{...product, qty}` is appended at the end. The ids are the old ids, plus the new one at the end if it was absent |
| Storefront.RemoveFromCart | frontend/src/App.jsx:133-139 | After a removal every remaining line holds units, and no line is added |
| Storefront.SetItemQty | frontend/src/App.jsx:141-147 | After setting a quantity every line holds units |
| Storefront.RemoveFromCartSpec | frontend/src/App.jsx:132-139 | An absent id changes nothing. Otherwise the target line is removed exactly when `amount` reaches its quantity, or else lowered by `amount`, and the other lines keep their order and contents |
| Storefront.RemoveAt | frontend/src/App.jsx:133-138 | Removing from line `k` either deletes exactly that line or lowers it, by the same rule |
| Storefront.SetItemQtySpec | frontend/src/App.jsx:141-147 | Setting a quantity never removes a line: the target gets `max(1, qty)` and every other line is unchanged |
| Storefront.AddKeepsWellFormed | frontend/src/App.jsx:111-118 | Adding a positive quantity keeps ids distinct and every quantity at least 1 |
| Storefront.RemoveAndSetKeepWellFormed | frontend/src/App.jsx:132-147 | Remove and set-quantity keep ids distinct and every quantity at least 1 |
| Storefront.RemoveButtonDeletesLine | frontend/src/App.jsx:503 | The cart's "Remove" button deletes exactly its line and keeps the rest in order |
| Storefront.PlusMinusRoundTrip | frontend/src/App.jsx:491-498 | The cart's `+` followed by its `-` gives back the same cart |
| Storefront.Total | frontend/src/App.jsx:149 | `getTotal` is never negative when prices and quantities are not |
| Storefront.LineValueShift | frontend/src/App.jsx:149 | Moving a line's quantity by `n` moves its value by `n` times its price |
| Storefront.TotalConcat | frontend/src/App.jsx:149 | The total of two carts joined is the sum of their totals |
| Storefront.TotalSplit | frontend/src/App.jsx:149 | The total is the lines before `k`, plus line `k`, plus the lines after it |
| Storefront.TotalShift | frontend/src/App.jsx:149 | Changing one line's quantity by `n` changes the total by `n` times that line's price |
| Storefront.AddAt | frontend/src/App.jsx:113-115 | Adding a product already on line `k` changes line `k` only |
| Storefront.TotalAfterAddNew | frontend/src/App.jsx:117 | Adding `qty` of a new product raises the total by price times `qty` |
| Storefront.TotalAfterAddExisting | frontend/src/App.jsx:115 | Adding `qty` of a product already in the cart raises the total by its price times `qty` |
| Storefront.TotalAfterRemove | frontend/src/App.jsx:132-139 | Removing `amount` lowers the total by price times `amount`, or by the whole line's value when the line is deleted |
| Storefront.PresentBase | frontend/src/App.jsx:156 | The base categories that occur, in base order, without duplicates |
| Storefront.Others | frontend/src/App.jsx:155 | The found categories outside the base list, in found order, without duplicates |
| Storefront.Categories | frontend/src/App.jsx:151-157 | Every menu entry is a found category, and every found category is on the menu |
| Storefront.FoundMembers | frontend/src/App.jsx:154 | The de-duplicated list holds exactly the non-empty categories of the products |
| Storefront.FoundOrder | frontend/src/App.jsx:154 | The de-duplicated list orders categories by where products first use them |
| Storefront.CategoriesContents | frontend/src/App.jsx:151-157 | The menu has no duplicate and no empty entry, and it holds exactly the products' non-empty categories |
| Storefront.CategoriesBaseFirst | frontend/src/App.jsx:153-156 | Base categories come before every other category, in base order |
| Storefront.CategoriesRestOrder | frontend/src/App.jsx:154-156 | The other categories follow in the order products first introduce them |
| Storefront.Visible | frontend/src/App.jsx:351-359 | The grid is an order-preserving subsequence of the catalog |
| Storefront.VisibleSpec | frontend/src/App.jsx:349-359 | A product is shown exactly when the trimmed, lower-cased query is empty or occurs in its lower-cased name or category, and the selection is empty, "All Categories" or its category |
| Storefront.BlankSearchShowsAll | frontend/src/App.jsx:352-357 | A blank query with "All Categories" shows every product, in order |
| Storefront.SearchIgnoresCase | frontend/src/App.jsx:349-353 | Typing the query in another case shows the same products |
| Storefront.SearchIdempotent | frontend/src/App.jsx:351-359 | Filtering the grid again with the same query and category changes nothing |
| Storefront.AddFromGrid | frontend/src/App.jsx:450 | The grid's "Add to Cart" adds the stepper's shown quantity of the product and changes nothing else |
| Storefront.AddFromGridKeepsWellFormed | frontend/src/App.jsx:450 | Adding from the grid keeps ids distinct and every quantity at least 1 while the stepper's entries are at least 1 |
| Storefront.HandleCheckout | frontend/src/App.jsx:29-43 | After checkout the cart is empty (total 0), both the checkout modal and the cart panel are closed, and the stepper is kept |
| CheckoutForm.MatchesEmail | frontend/src/components/CheckoutModal.jsx:37 | An accepted address has at least five characters (`L@R.S`) |
| CheckoutForm.MatchesEmailIffShape | frontend/src/components/CheckoutModal.jsx:37 | The e-mail scan accepts exactly the strings `L@R.S`. `L`, `R` and `S` are non-empty and hold neither white space nor '@', and the split point may be any '.' after the '@' |
| CheckoutForm.EmailShapeNotBlank | frontend/src/components/CheckoutModal.jsx:36-37 | An address of that shape is never blank, so the two e-mail messages never compete |
| CheckoutForm.ExpiryOkShape | frontend/src/components/CheckoutModal.jsx:50 | The expiry is accepted exactly when it is two digits, '/', and two digits |
| CheckoutForm.Check | frontend/src/components/CheckoutModal.jsx:32-55 | The card number, expiry and CVV are checked only when the method is "card", and the UPI id only when it is "upi" |
| CheckoutForm.Errors | frontend/src/components/CheckoutModal.jsx:32-56 | The error map has exactly the fields whose check fails, each with that check's message |
| CheckoutForm.EmailErrorSpec | frontend/src/components/CheckoutModal.jsx:36-37 | The e-mail field has an error exactly when the address lacks the pattern's shape. The message is "Email is required" exactly when the address is blank |
| CheckoutForm.ContactErrorsSpec | frontend/src/components/CheckoutModal.jsx:38-45 | An error is recorded exactly when the rule fails. The password needs 6 UTF-16 units; name, address and city must not be blank; the phone must be exactly 10 ASCII digits and the pincode exactly 6 |
| CheckoutForm.PaymentErrorsSpec | frontend/src/components/CheckoutModal.jsx:48-54 | With "card", the card number, expiry and CVV are checked as 16 digits, `DD/DD` and 3 digits. With "upi", only a blank UPI id is an error. Each card error and the UPI error arise only under their method |
| CheckoutForm.OtherMethodNoPaymentErrors | frontend/src/components/CheckoutModal.jsx:52-54 | Any other method, such as "cod", records no payment error |
| CheckoutForm.Validate | frontend/src/components/CheckoutModal.jsx:56-57 | `validate()` is true exactly when no field error was recorded |
| CheckoutForm.AllChecksPass | frontend/src/components/CheckoutModal.jsx:32-58 | All checks pass exactly when each of the eleven field checks passes |
| CheckoutForm.ValidateSpec | frontend/src/components/CheckoutModal.jsx:32-58 | `validate()` holds exactly when every field rule above holds, with the payment rules conditional on the method |
| CheckoutForm.EmptyFormErrors | frontend/src/components/CheckoutModal.jsx:7-21 | The initial form, with "card" preselected, has an error on every field but the UPI id |
| CheckoutForm.OrderId | frontend/src/components/CheckoutModal.jsx:60-64 | The order id starts with "ORD" |
| CheckoutForm.OrderIdShape | frontend/src/components/CheckoutModal.jsx:60-64 | For a clock of at least six digits, the id is 13 characters: "ORD", then six digits giving the clock modulo 10^6, then four digits giving the draw plus 1000, which lies in [1000, 9999] |
| CheckoutForm.ItemTotal | frontend/src/components/CheckoutModal.jsx:98 | `itemTotal` is never negative when prices and quantities are not |
| CheckoutForm.ItemTotalIsTotal | frontend/src/components/CheckoutModal.jsx:98 | On lines with non-zero quantities, `itemTotal` equals the shop's `getTotal` |
| CheckoutForm.DisplayItems | frontend/src/components/CheckoutModal.jsx:99 | The slip lists the items, one row per item with that item's name, price and quantity, or one "Items" row priced at the total when there are none |
| CheckoutForm.DisplayItemsValue | frontend/src/components/CheckoutModal.jsx:98-99 | The slip's rows add up to `itemTotal`, or to the total for the placeholder row |
| CheckoutForm.AsDisplayValue | frontend/src/components/CheckoutModal.jsx:98 | The display rows of the lines add up to `itemTotal` |
| CheckoutForm.SlipAmounts | frontend/src/components/CheckoutModal.jsx:277-288 | "Subtotal" is `itemTotal`, falling back to the total when that is zero. "Total" is the total, falling back to `itemTotal` when that is zero |
| CheckoutForm.SlipShowsCartTotal | frontend/src/components/CheckoutModal.jsx:277-288 | Opened from the shop with a well-formed cart, the slip shows the cart's total as both subtotal and total |
| CheckoutForm.PlaceOrder | frontend/src/components/CheckoutModal.jsx:59-78 | The errors become the validator's map. From the form, the step moves to the slip exactly when the form validates. A failing form changes nothing else. A passing one records an id made from the `Date.now()` reading and, as the order time, the separate `new Date()` reading |
| CheckoutForm.Back | frontend/src/components/CheckoutModal.jsx:302 | "Back" returns to the form and keeps the form, errors and order data |
| CheckoutForm.Finish | frontend/src/components/CheckoutModal.jsx:80-94 | "Finish" makes two calls on the parent, in order. First it calls `onSubmit` with the form, the order id, the items and the total, using the placed order's time if there is one and otherwise the current time. Then it calls `onClose`. The step returns to the form, keeping the form, errors, order id and order time |
| CheckoutForm.Deliver | frontend/src/App.jsx:29-38 | `onSubmit` is `handleCheckout`, which empties the cart and hides the drawer and the modal. `onClose` only hides the modal. Neither touches the stepper |
| CheckoutForm.DeliverAll | frontend/src/App.jsx:531-536 | After any non-empty run of the modal's calls the modal is hidden, the stepper is kept, and the cart is either kept or emptied |
| CheckoutForm.PlaceThenBack | frontend/src/components/CheckoutModal.jsx:66-78 | Reaching the slip implies the form validated, and "Back" then returns to the unchanged form |
| CheckoutForm.FinishAfterPlace | frontend/src/components/CheckoutModal.jsx:74-89 | A finished order carries the id and time recorded when it was placed, not the time of finishing |
| CheckoutForm.FinishFromShop | frontend/src/App.jsx:531-536 | The modal opened from the shop submits the shop's cart at `getTotal()`. After "Finish" the cart is empty, the drawer and the modal are hidden, and the stepper is unchanged |
| Text.Trim | frontend/src/App.jsx:349 | `trim` never lengthens a string, and a non-empty result neither starts nor ends with white space |
| Text.TrimSpec | frontend/src/App.jsx:349 | `trim` removes a run of white space from each end and keeps the middle of the string unchanged |
| Text.Lower | frontend/src/App.jsx:349 | `toLowerCase` keeps the length and lower-cases each character on its own |
| Text.Contains | frontend/src/App.jsx:353 | The empty needle is always found, and a found needle is no longer than the haystack |
| Text.BlankIffAllSpace | frontend/src/components/CheckoutModal.jsx:41-44 | `!s.trim()` holds exactly when every character is JavaScript white space |
| Text.TrimLowerCommute | frontend/src/App.jsx:349 | Trimming and lower-casing commute |
| Text.LowerIdempotent | frontend/src/App.jsx:349-353 | Lower-casing twice is lower-casing once |
| Text.ContainsIffOccurs | frontend/src/App.jsx:353 | `includes` finds the needle exactly when it occurs at some offset |
| Text.NatToString | frontend/src/components/CheckoutModal.jsx:63 | `toString` renders at least one ASCII digit and no leading zero |
| Text.DigitsRoundTrip | frontend/src/components/CheckoutModal.jsx:63 | Reading a rendered number back gives the number |
| Text.NatToStringLength | frontend/src/components/CheckoutModal.jsx:63 | A number with `k` digits renders to `k` characters |
| Text.Last | frontend/src/components/CheckoutModal.jsx:63 | `slice(-k)` is the last `k` characters. It is the whole string when the string is shorter than `k`, and also when `k` is 0, since `-0` is `0` |
| Text.SuffixValue | frontend/src/components/CheckoutModal.jsx:63 | The last `k` rendered digits denote the number modulo 10^k |
| Text.Utf16Length | frontend/src/components/CheckoutModal.jsx:38 | `length` counts UTF-16 units: between one and two per character, and exactly one per character of the Basic Multilingual Plane |
| Basics.Filter | frontend/src/App.jsx:351 | `filter` returns a subsequence of its input holding only passing elements, and every passing element of the input appears in it |
| Basics.FilterCount | frontend/src/App.jsx:351 | `filter` keeps each passing value exactly as many times as it occurs and drops every other value entirely |
| Basics.Dedup | frontend/src/App.jsx:154 | `Array.from(new Set(s))` lists each value of `s` once, with no duplicates, ordered by first occurrence |

## Left out

- I/O: the SQLite connection, schema creation and seeding, Express,
  body-parser, cors and `app.listen` are not modelled. Each database
  statement's success is a boolean parameter. `backend/db.js` contributes
  only the seed catalog, used as example data.
- `uuidv4()`, `new Date()`, `Date.now()` and `Math.random()` are
  parameters (fresh id, timestamp, random draw). Their values are not
  modelled. The checkout modal reads the clock twice, once for the order
  id and once for the order time, and the model takes the two readings as
  separate parameters.
- Floating-point money, `toFixed` and currency formatting: prices are
  integer minor units, and nothing is claimed about float rounding.
- Concurrency between simultaneous requests: each request is one atomic
  transition, as the single-threaded callbacks run.
- GET `/api/products` (`backend/server.js:28-30`) only returns the
  constant list; the model keeps the list and proves no handler changes it.
- React rendering, styles, animations, toasts, `setTimeout`, the
  outside-click listener, `console.log`, the "No products match" message
  and `window.scrollTo` are presentation and are left out.
- `handleChange` in the checkout modal (editing a field and clearing its
  error) is form plumbing and is left out.
- The presentation-only components `CategoryCarousel.jsx`,
  `CategoryCard.jsx`, `CartView.jsx` and `Header.jsx` are not part of
  this model.
- Text.Lower: only the ASCII letters are case-mapped; the rest of
  Unicode case mapping is not modelled.
- PersistedCart.PriceMap: a product id that names an
  `Object.prototype` member (such as "constructor") reads as priced in
  JavaScript; the model treats every id as a plain key.
- PersistedCart.AddItem: the JSON body's `productId` is modelled as a
  string and `qty` as an integer. Other JSON types (a numeric product id,
  a fractional or string quantity) are not modelled.
- MockApi.AddToCart: the mock does not validate its body. Product ids are
  integers and quantities integers; a missing `qty` (which makes the line
  `NaN`) and a product id of another JSON type are not modelled.
- PersistedCart.PatchItem: `qty` is modelled as an optional integer. A
  string such as "5" passes `!qty || qty < 1` and is stored as given, and
  that case is not modelled.
- PersistedCart.Checkout: each submitted line is modelled as a product id
  string and an integer quantity, and name and email as strings. Some
  other JSON shapes are not modelled:
  - a `null` line makes `cartItems.map` throw, which Express answers with
    500;
  - a line without `qty` makes the total `NaN`;
  - a name or email that is not a string.
- MockApi.Checkout: each submitted line is modelled as an integer
  product id and an integer quantity. Some other JSON shapes are not
  modelled:
  - a line without `qty` makes `total` `NaN`, and the mock still replies
    200 and clears the cart;
  - a `null` line, or a `productId` sent as a string (which `===` never
    matches), makes the `reduce` throw, which Express answers with 500;
  - a body without `cartItems` throws the same way.
- PersistedCart.ListCart: SQL gives the joined rows no guaranteed order.
  The model lists them in cart order.
- CheckoutForm.OrderIdShape: stated only for a clock of at least six
  digits, as every real `Date.now()` value is. For smaller values
  `OrderId` still models `slice(-6)` exactly.
- CheckoutForm.OrderId: the draw is taken in [0, 9000), the range of
  `Math.floor(Math.random() * 9000)`.
