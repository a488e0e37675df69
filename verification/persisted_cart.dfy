/** The SQLite-backed cart router of backend/routes/cart.js: list, add,
    delete and patch cart rows, and the checkout that reprices a submitted
    cart from the catalog, writes one receipt and clears the cart. Every
    request is one atomic transition of a `Store`; database failures,
    fresh ids and timestamps are parameters. */
module PersistedCart {
  import opened Basics

  /** A catalog product; `price` is in cents (the seed's 29.99 is 2999). */
  datatype Product = Product(name: string, price: int)

  /** A row of `cart_items`. */
  datatype Row = Row(id: string, productId: string, qty: int, createdAt: string)

  /** One element of the submitted `cartItems`. `clientPrice` is whatever
      price the client sent along with the line; checkout never reads it. */
  datatype LineRequest = LineRequest(productId: string, qty: int, clientPrice: Option<int>)

  /** The JSON snapshot stored with a receipt. */
  datatype Payload = Payload(cartItems: seq<LineRequest>, name: string, email: string)

  /** A row of `receipts`. */
  datatype Receipt = Receipt(id: string, total: int, payload: Payload, createdAt: string)

  /** The three tables; `products.id` is the primary key, hence a map. */
  datatype Store = Store(catalog: map<string, Product>, cart: seq<Row>, receipts: seq<Receipt>)

  /** The error bodies the router sends. */
  datatype Failure =
    | InvalidPayload                      // 400 'Invalid payload'
    | InvalidQty                          // 400 'Invalid qty'
    | CartEmpty                           // 400 'Cart empty'
    | ProductNotFound(productId: string)  // 400 'Product not found: <id>'
    | NotFound                            // 404 'Not found'
    | DbError                             // 500 'DB error'

  /** The HTTP status each failure is sent with. */
  function StatusCode(f: Failure): (code: int)
    ensures code == 500 <==> f == DbError
    ensures code == 404 <==> f == NotFound
    ensures code == 400 <==> !(f == DbError || f == NotFound)
  {
    match f
    case NotFound => 404
    case DbError => 500
    case _ => 400
  }

  datatype Reply<T> = Ok(value: T) | Err(failure: Failure)

  /** The store after a request together with the reply sent. */
  datatype Outcome<T> = Outcome(store: Store, reply: Reply<T>)

  /** A JS truthiness test on an optional string: present and non-empty. */
  predicate Truthy(s: Option<string>) {
    s.Some? && s.value != ""
  }

  /** `!qty || qty < 1` is false: present, and at least 1 (0 is falsy and
      below 1 anyway). */
  predicate QtyAccepted(qty: Option<int>) {
    qty.Some? && qty.value >= 1
  }

  function RowId(row: Row): string {
    row.id
  }

  function RowIds(cart: seq<Row>): (ids: seq<string>)
    ensures |ids| == |cart| && forall i :: 0 <= i < |cart| ==> ids[i] == cart[i].id
  {
    Keys(cart, RowId)
  }

  function ReceiptId(receipt: Receipt): string {
    receipt.id
  }

  function ReceiptIds(receipts: seq<Receipt>): (ids: seq<string>)
    ensures |ids| == |receipts| && forall i :: 0 <= i < |receipts| ==> ids[i] == receipts[i].id
  {
    Keys(receipts, ReceiptId)
  }

  // ---------------------------------------------------------------------
  // GET /  -- the cart joined with the catalog, with line totals and total
  // ---------------------------------------------------------------------

  datatype ItemView = ItemView(id: string, productId: string, qty: int, name: string, price: int, lineTotal: int)
  datatype CartView = CartView(items: seq<ItemView>, total: int)

  /** `v` is the joined row `c JOIN p ON p.id = c.productId` for `row`. */
  predicate JoinedFrom(v: ItemView, row: Row, catalog: map<string, Product>) {
    && row.productId in catalog
    && v.id == row.id && v.productId == row.productId && v.qty == row.qty
    && v.name == catalog[row.productId].name
    && v.price == catalog[row.productId].price
    && v.lineTotal == RowValue(row, catalog)
  }

  /** `qty * price` for a row whose product exists, nothing otherwise. */
  function RowValue(row: Row, catalog: map<string, Product>): int {
    if row.productId in catalog then row.qty * catalog[row.productId].price else 0
  }

  /** The rows the inner join keeps: those whose product exists. */
  function Joinable(cart: seq<Row>, catalog: map<string, Product>): seq<Row> {
    Filter(cart, (r: Row) => r.productId in catalog)
  }

  /** The worth of the cart at current catalog prices, rows without a
      product contributing nothing. */
  function CartValue(cart: seq<Row>, catalog: map<string, Product>): int {
    if cart == [] then 0 else RowValue(cart[0], catalog) + CartValue(cart[1..], catalog)
  }

  function Join(rows: seq<Row>, catalog: map<string, Product>): (items: seq<ItemView>)
    requires forall i :: 0 <= i < |rows| ==> rows[i].productId in catalog
    ensures |items| == |rows|
    ensures forall i :: 0 <= i < |rows| ==> JoinedFrom(items[i], rows[i], catalog)
  {
    seq(|rows|, i requires 0 <= i < |rows| =>
      var p := catalog[rows[i].productId];
      ItemView(rows[i].id, rows[i].productId, rows[i].qty, p.name, p.price, RowValue(rows[i], catalog)))
  }

  /** `rows.reduce((s, r) => s + r.lineTotal, 0)`, as the left fold it is. */
  function SumLineTotals(items: seq<ItemView>, acc: int): int {
    if items == [] then acc else SumLineTotals(items[1..], acc + items[0].lineTotal)
  }

  /** Summing the joined rows' line totals gives their value. */
  lemma {:induction false} SumJoin(rows: seq<Row>, catalog: map<string, Product>, acc: int)
    requires forall i :: 0 <= i < |rows| ==> rows[i].productId in catalog
    ensures SumLineTotals(Join(rows, catalog), acc) == acc + CartValue(rows, catalog)
    decreases |rows|
  {
    if rows != [] {
      var items := Join(rows, catalog);
      assert items[1..] == Join(rows[1..], catalog) by {
        assert forall i :: 0 <= i < |rows| - 1 ==> rows[1..][i] == rows[i + 1];
      }
      assert items[0].lineTotal == RowValue(rows[0], catalog);
      SumJoin(rows[1..], catalog, acc + items[0].lineTotal);
    }
  }

  /** Dropping the rows without a product does not change the value. */
  lemma {:induction false} JoinableValue(cart: seq<Row>, catalog: map<string, Product>)
    ensures CartValue(Joinable(cart, catalog), catalog) == CartValue(cart, catalog)
  {
    if cart != [] {
      JoinableValue(cart[1..], catalog);
      if cart[0].productId in catalog {
        var j := Joinable(cart, catalog);
        assert j == [cart[0]] + Joinable(cart[1..], catalog);
        assert j[1..] == Joinable(cart[1..], catalog);
      } else {
        assert Joinable(cart, catalog) == Joinable(cart[1..], catalog);
      }
    }
  }

  /** GET /: the joined rows in cart order, each with `qty * price`, and
      their sum; a failed query is a 500. */
  function ListCart(s: Store, dbOk: bool): (r: Reply<CartView>)
    ensures r.Ok? <==> dbOk
    ensures r.Err? ==> r.failure == DbError
    ensures r.Ok? ==> |r.value.items| == |Joinable(s.cart, s.catalog)|
    ensures r.Ok? ==> forall i :: 0 <= i < |r.value.items| ==>
      JoinedFrom(r.value.items[i], Joinable(s.cart, s.catalog)[i], s.catalog)
    ensures r.Ok? ==> r.value.total == CartValue(s.cart, s.catalog)
  {
    if !dbOk then Err(DbError)
    else
      var rows := Joinable(s.cart, s.catalog);
      var items := Join(rows, s.catalog);
      SumJoin(rows, s.catalog, 0);
      JoinableValue(s.cart, s.catalog);
      Ok(CartView(items, SumLineTotals(items, 0)))
  }

  /** A cart row shows up in the listing exactly when its product exists;
      every listed line refers to an existing product. */
  lemma ListOmitsUnknownProducts(s: Store, row: Row)
    requires row in s.cart
    ensures ListCart(s, true).Ok?
    ensures row.productId in s.catalog <==>
      exists i :: 0 <= i < |ListCart(s, true).value.items| &&
        ListCart(s, true).value.items[i].id == row.id && ListCart(s, true).value.items[i].productId == row.productId
    ensures forall i :: 0 <= i < |ListCart(s, true).value.items| ==> ListCart(s, true).value.items[i].productId in s.catalog
  {
    var rows := Joinable(s.cart, s.catalog);
    var items := ListCart(s, true).value.items;
    if row.productId in s.catalog {
      assert row in rows;
      var j := IndexOf(row, rows);
      assert JoinedFrom(items[j], rows[j], s.catalog);
    }
  }

  // ---------------------------------------------------------------------
  // POST /  -- always inserts a fresh row
  // ---------------------------------------------------------------------

  /** The 201 body of POST /: `{ id, productId, qty }` (no `createdAt`). */
  datatype Created = Created(id: string, productId: string, qty: int)

  /** POST / with body `{productId, qty}`. Never merges: a valid request
      appends a new row under `freshId`, even when a row for the same
      product exists. The product is not checked against the catalog. An
      insert error, including a clash on the primary key, is a 500. */
  function AddItem(s: Store, productId: Option<string>, qty: Option<int>, freshId: string, now: string,
                   insertOk: bool): (o: Outcome<Created>)
    ensures o.store.catalog == s.catalog && o.store.receipts == s.receipts
    ensures !(Truthy(productId) && QtyAccepted(qty)) ==> o == Outcome(s, Err(InvalidPayload))
    ensures Truthy(productId) && QtyAccepted(qty) && !(insertOk && freshId !in RowIds(s.cart)) ==>
      o == Outcome(s, Err(DbError))
    ensures o.reply.Ok? <==> Truthy(productId) && QtyAccepted(qty) && insertOk && freshId !in RowIds(s.cart)
    ensures o.reply.Err? ==> o.store == s
    ensures o.reply.Ok? ==> o.reply.value == Created(freshId, productId.value, qty.value)
    ensures o.reply.Ok? ==> o.store.cart == s.cart + [Row(freshId, productId.value, qty.value, now)]
  {
    if !Truthy(productId) || !QtyAccepted(qty) then Outcome(s, Err(InvalidPayload))
    else if !insertOk || freshId in RowIds(s.cart) then Outcome(s, Err(DbError))
    else
      var row := Row(freshId, productId.value, qty.value, now);
      Outcome(s.(cart := s.cart + [row]), Ok(Created(freshId, productId.value, qty.value)))
  }

  /** The number of rows holding `productId`. */
  function RowsFor(cart: seq<Row>, productId: string): nat {
    if cart == [] then 0 else (if cart[0].productId == productId then 1 else 0) + RowsFor(cart[1..], productId)
  }

  lemma {:induction false} RowsForAppend(cart: seq<Row>, row: Row, productId: string)
    ensures RowsFor(cart + [row], productId) == RowsFor(cart, productId) + (if row.productId == productId then 1 else 0)
  {
    if cart != [] {
      assert (cart + [row])[1..] == cart[1..] + [row];
      RowsForAppend(cart[1..], row, productId);
    }
  }

  /** Adding a product already in the cart creates a second row for it:
      the row count and the product's row count each grow by exactly one. */
  lemma AddNeverMerges(s: Store, productId: string, qty: int, freshId: string, now: string)
    requires productId != "" && qty >= 1 && freshId !in RowIds(s.cart)
    ensures var o := AddItem(s, Some(productId), Some(qty), freshId, now, true);
      && o.reply.Ok?
      && |o.store.cart| == |s.cart| + 1
      && RowsFor(o.store.cart, productId) == RowsFor(s.cart, productId) + 1
  {
    var o := AddItem(s, Some(productId), Some(qty), freshId, now, true);
    RowsForAppend(s.cart, Row(freshId, productId, qty, now), productId);
  }

  // ---------------------------------------------------------------------
  // DELETE /:id and PATCH /:id
  // ---------------------------------------------------------------------

  /** DELETE /:id: `DELETE FROM cart_items WHERE id = ?`. The statement
      changes no row exactly when no row has that id, which is the 404. */
  function DeleteItem(s: Store, id: string, dbOk: bool): (o: Outcome<string>)
    ensures o.store.catalog == s.catalog && o.store.receipts == s.receipts
    ensures !dbOk ==> o == Outcome(s, Err(DbError))
    ensures dbOk && id !in RowIds(s.cart) ==> o == Outcome(s, Err(NotFound))
    ensures o.reply.Ok? <==> dbOk && id in RowIds(s.cart)
    ensures o.reply.Ok? ==> o.reply.value == id
    ensures o.reply.Ok? ==> forall i :: 0 <= i < |o.store.cart| ==> o.store.cart[i] in s.cart && o.store.cart[i].id != id
    ensures o.reply.Ok? ==> forall i :: 0 <= i < |s.cart| && s.cart[i].id != id ==> s.cart[i] in o.store.cart
    ensures o.reply.Ok? ==> IsSubsequence(o.store.cart, s.cart)
  {
    if !dbOk then Outcome(s, Err(DbError))
    else if id !in RowIds(s.cart) then Outcome(s, Err(NotFound))
    else Outcome(s.(cart := Filter(s.cart, (r: Row) => r.id != id)), Ok(id))
  }

  /** PATCH /:id with body `{qty}`: validation first, then
      `UPDATE cart_items SET qty = ? WHERE id = ?`; zero changed rows is
      a 404. */
  function PatchItem(s: Store, id: string, qty: Option<int>, dbOk: bool): (o: Outcome<(string, int)>)
    ensures o.store.catalog == s.catalog && o.store.receipts == s.receipts
    ensures !QtyAccepted(qty) ==> o == Outcome(s, Err(InvalidQty))
    ensures QtyAccepted(qty) && !dbOk ==> o == Outcome(s, Err(DbError))
    ensures QtyAccepted(qty) && dbOk && id !in RowIds(s.cart) ==> o == Outcome(s, Err(NotFound))
    ensures o.reply.Ok? <==> QtyAccepted(qty) && dbOk && id in RowIds(s.cart)
    ensures o.reply.Ok? ==> o.reply.value == (id, qty.value)
    ensures o.reply.Ok? ==> |o.store.cart| == |s.cart|
    ensures o.reply.Ok? ==> forall i :: 0 <= i < |s.cart| ==>
      if s.cart[i].id == id then o.store.cart[i] == s.cart[i].(qty := qty.value) else o.store.cart[i] == s.cart[i]
  {
    if !QtyAccepted(qty) then Outcome(s, Err(InvalidQty))
    else if !dbOk then Outcome(s, Err(DbError))
    else if id !in RowIds(s.cart) then Outcome(s, Err(NotFound))
    else
      var cart := seq(|s.cart|, i requires 0 <= i < |s.cart| =>
        if s.cart[i].id == id then s.cart[i].(qty := qty.value) else s.cart[i]);
      Outcome(s.(cart := cart), Ok((id, qty.value)))
  }

  // ---------------------------------------------------------------------
  // POST /checkout
  // ---------------------------------------------------------------------

  /** The catalog as a price lookup. */
  function CatalogPrices(catalog: map<string, Product>): (prices: map<string, int>)
    ensures prices.Keys == catalog.Keys
    ensures forall id :: id in catalog ==> prices[id] == catalog[id].price
  {
    map id | id in catalog :: catalog[id].price
  }

  /** `priceMap` built from `SELECT id, price FROM products WHERE id IN (...)`. */
  function PriceMap(catalog: map<string, Product>, ids: set<string>): map<string, int> {
    map id | id in catalog && id in ids :: catalog[id].price
  }

  function ProductIdSet(items: seq<LineRequest>): (ids: set<string>)
    ensures forall i :: 0 <= i < |items| ==> items[i].productId in ids
  {
    set i | 0 <= i < |items| :: items[i].productId
  }

  /** The JS test `priceMap[id]` is truthy: a known product whose price is
      not 0 (a price of 0 reads as "not found"). */
  predicate Priced(prices: map<string, int>, productId: string) {
    productId in prices && prices[productId] != 0
  }

  predicate AllPriced(prices: map<string, int>, items: seq<LineRequest>) {
    forall i :: 0 <= i < |items| ==> Priced(prices, items[i].productId)
  }

  /** The position of the first line the checkout loop rejects. */
  function FirstUnpriced(prices: map<string, int>, items: seq<LineRequest>): (k: nat)
    requires !AllPriced(prices, items)
    ensures k < |items| && !Priced(prices, items[k].productId)
    ensures forall j :: 0 <= j < k ==> Priced(prices, items[j].productId)
  {
    if !Priced(prices, items[0].productId) then 0
    else
      assert !AllPriced(prices, items[1..]) by {
        var i :| 0 <= i < |items| && !Priced(prices, items[i].productId);
        assert items[1..][i - 1] == items[i];
      }
      1 + FirstUnpriced(prices, items[1..])
  }

  /** The authoritative total: the sum of catalog price times submitted
      quantity over the submitted lines. */
  function ItemsTotal(prices: map<string, int>, items: seq<LineRequest>): int {
    if items == [] then 0
    else
      var price := if items[0].productId in prices then prices[items[0].productId] else 0;
      price * items[0].qty + ItemsTotal(prices, items[1..])
  }

  /** The `for (const item of cartItems)` loop: accumulate `p * item.qty`
      and return 400 naming the first item whose price is falsy. */
  function PricePass(prices: map<string, int>, items: seq<LineRequest>, total: int): (r: Reply<int>)
    ensures r.Ok? <==> AllPriced(prices, items)
    ensures r.Ok? ==> r.value == total + ItemsTotal(prices, items)
    ensures r.Err? ==> r.failure == ProductNotFound(items[FirstUnpriced(prices, items)].productId)
  {
    if items == [] then Ok(total)
    else
      var id := items[0].productId;
      if !Priced(prices, id) then Err(ProductNotFound(id))
      else
        var r := PricePass(prices, items[1..], total + prices[id] * items[0].qty);
        assert AllPriced(prices, items) <==> AllPriced(prices, items[1..]) by {
          if AllPriced(prices, items[1..]) {
            forall i | 0 < i < |items| ensures Priced(prices, items[i].productId) {
              assert items[i] == items[1..][i - 1];
            }
          }
        }
        r
  }

  /** Two price tables that agree on every submitted product give the same
      verdict, the same rejected line and the same total. */
  lemma {:induction false} AgreeOnItems(p1: map<string, int>, p2: map<string, int>, items: seq<LineRequest>)
    requires forall i :: 0 <= i < |items| ==>
      (items[i].productId in p1 <==> items[i].productId in p2) &&
      (items[i].productId in p1 ==> p1[items[i].productId] == p2[items[i].productId])
    ensures AllPriced(p1, items) <==> AllPriced(p2, items)
    ensures ItemsTotal(p1, items) == ItemsTotal(p2, items)
    ensures !AllPriced(p1, items) ==> FirstUnpriced(p1, items) == FirstUnpriced(p2, items)
  {
    if items != [] {
      AgreeOnItems(p1, p2, items[1..]);
      if !AllPriced(p1, items) {
        var k1 := FirstUnpriced(p1, items);
        var k2 := FirstUnpriced(p2, items);
        assert !(k1 < k2) && !(k2 < k1);
      }
    }
  }

  /** The batched `IN (...)` query prices every submitted line exactly as
      the full catalog would. */
  lemma BatchedQueryIsAuthoritative(catalog: map<string, Product>, items: seq<LineRequest>)
    ensures var batch := PriceMap(catalog, ProductIdSet(items));
      && (AllPriced(batch, items) <==> AllPriced(CatalogPrices(catalog), items))
      && ItemsTotal(batch, items) == ItemsTotal(CatalogPrices(catalog), items)
      && (!AllPriced(batch, items) ==> FirstUnpriced(batch, items) == FirstUnpriced(CatalogPrices(catalog), items))
  {
    AgreeOnItems(PriceMap(catalog, ProductIdSet(items)), CatalogPrices(catalog), items);
  }

  datatype ReceiptView = ReceiptView(id: string, total: int, createdAt: string, name: string, email: string)

  /** POST /checkout with body `{cartItems, name, email}`. `cartItems` is
      `None` when it is not an array. `queryOk`, `insertOk` and `clearOk`
      are the outcomes of the price query, the receipt insert and the cart
      delete; `receiptId` and `now` stand for `uuidv4()` and the clock. */
  function Checkout(s: Store, cartItems: Option<seq<LineRequest>>, name: Option<string>, email: Option<string>,
                    queryOk: bool, receiptId: string, now: string, insertOk: bool, clearOk: bool): (o: Outcome<ReceiptView>)
    // Validation and every failure leave all three tables untouched.
    ensures cartItems.None? || !Truthy(name) || !Truthy(email) ==> o == Outcome(s, Err(InvalidPayload))
    ensures cartItems == Some([]) && Truthy(name) && Truthy(email) ==> o == Outcome(s, Err(CartEmpty))
    ensures o.reply.Err? ==> o.store == s
    ensures o.store.catalog == s.catalog
    // One unknown (or zero-priced) product aborts the whole checkout, naming the first such line.
    ensures cartItems.Some? && cartItems.value != [] && Truthy(name) && Truthy(email) && queryOk
            && !AllPriced(CatalogPrices(s.catalog), cartItems.value) ==>
      o == Outcome(s, Err(ProductNotFound(cartItems.value[FirstUnpriced(CatalogPrices(s.catalog), cartItems.value)].productId)))
    // A failed price query, a failed receipt insert or a clashing receipt id is a 500.
    ensures cartItems.Some? && cartItems.value != [] && Truthy(name) && Truthy(email) && !queryOk ==>
      o == Outcome(s, Err(DbError))
    ensures cartItems.Some? && cartItems.value != [] && Truthy(name) && Truthy(email) && queryOk
            && AllPriced(CatalogPrices(s.catalog), cartItems.value)
            && !(insertOk && receiptId !in ReceiptIds(s.receipts)) ==>
      o == Outcome(s, Err(DbError))
    ensures o.reply.Ok? <==>
      && cartItems.Some? && cartItems.value != [] && Truthy(name) && Truthy(email) && queryOk
      && AllPriced(CatalogPrices(s.catalog), cartItems.value)
      && insertOk && receiptId !in ReceiptIds(s.receipts)
    // Success: the total comes from catalog prices, exactly one receipt is
    // appended, and the whole cart is deleted unless that delete failed.
    ensures o.reply.Ok? ==> o.reply.value.total == ItemsTotal(CatalogPrices(s.catalog), cartItems.value)
    ensures o.reply.Ok? ==> o.reply.value == ReceiptView(receiptId, o.reply.value.total, now, name.value, email.value)
    ensures o.reply.Ok? ==>
      o.store.receipts == s.receipts + [Receipt(receiptId, o.reply.value.total, Payload(cartItems.value, name.value, email.value), now)]
    ensures o.reply.Ok? ==> o.store.cart == (if clearOk then [] else s.cart)
  {
    if cartItems.None? || !Truthy(name) || !Truthy(email) then Outcome(s, Err(InvalidPayload))
    else
      var items := cartItems.value;
      if |items| == 0 then Outcome(s, Err(CartEmpty))
      else if !queryOk then Outcome(s, Err(DbError))
      else
        BatchedQueryIsAuthoritative(s.catalog, items);
        match PricePass(PriceMap(s.catalog, ProductIdSet(items)), items, 0)
        case Err(f) => Outcome(s, Err(f))
        case Ok(total) =>
          if !insertOk || receiptId in ReceiptIds(s.receipts) then Outcome(s, Err(DbError))
          else
            var receipt := Receipt(receiptId, total, Payload(items, name.value, email.value), now);
            var cart := if clearOk then [] else s.cart;
            Outcome(Store(s.catalog, cart, s.receipts + [receipt]),
                    Ok(ReceiptView(receiptId, total, now, name.value, email.value)))
  }

  /** Two submissions that differ only in the prices the client attached
      get the same verdict and the same total. */
  lemma CheckoutIgnoresClientPrices(s: Store, a: seq<LineRequest>, b: seq<LineRequest>, name: Option<string>,
                                    email: Option<string>, queryOk: bool, receiptId: string, now: string,
                                    insertOk: bool, clearOk: bool)
    requires |a| == |b|
    requires forall i :: 0 <= i < |a| ==> a[i].productId == b[i].productId && a[i].qty == b[i].qty
    ensures var oa := Checkout(s, Some(a), name, email, queryOk, receiptId, now, insertOk, clearOk);
            var ob := Checkout(s, Some(b), name, email, queryOk, receiptId, now, insertOk, clearOk);
      && oa.reply == ob.reply
      && oa.store.cart == ob.store.cart
  {
    SameLinesSameTotal(CatalogPrices(s.catalog), a, b);
  }

  lemma {:induction false} SameLinesSameTotal(prices: map<string, int>, a: seq<LineRequest>, b: seq<LineRequest>)
    requires |a| == |b|
    requires forall i :: 0 <= i < |a| ==> a[i].productId == b[i].productId && a[i].qty == b[i].qty
    ensures AllPriced(prices, a) <==> AllPriced(prices, b)
    ensures ItemsTotal(prices, a) == ItemsTotal(prices, b)
    ensures !AllPriced(prices, a) ==> a[FirstUnpriced(prices, a)].productId == b[FirstUnpriced(prices, b)].productId
  {
    if a != [] {
      SameLinesSameTotal(prices, a[1..], b[1..]);
      if !AllPriced(prices, a) {
        var ka := FirstUnpriced(prices, a);
        var kb := FirstUnpriced(prices, b);
        assert !(ka < kb) && !(kb < ka);
      }
    }
  }

  /** The stored rows resubmitted as `cartItems`. */
  function AsRequest(cart: seq<Row>): (items: seq<LineRequest>)
    ensures |items| == |cart|
    ensures forall i :: 0 <= i < |cart| ==> items[i].productId == cart[i].productId && items[i].qty == cart[i].qty
  {
    seq(|cart|, i requires 0 <= i < |cart| => LineRequest(cart[i].productId, cart[i].qty, None))
  }

  lemma {:induction false} ItemsTotalOfRows(catalog: map<string, Product>, cart: seq<Row>)
    ensures ItemsTotal(CatalogPrices(catalog), AsRequest(cart)) == CartValue(cart, catalog)
  {
    if cart != [] {
      assert AsRequest(cart)[1..] == AsRequest(cart[1..]);
      ItemsTotalOfRows(catalog, cart[1..]);
    }
  }

  /** Checking out the stored cart charges exactly the total the cart
      listing showed. */
  lemma CheckoutChargesListedTotal(s: Store, name: string, email: string, receiptId: string, now: string, clearOk: bool)
    requires s.cart != [] && name != "" && email != ""
    requires AllPriced(CatalogPrices(s.catalog), AsRequest(s.cart))
    requires receiptId !in ReceiptIds(s.receipts)
    ensures var o := Checkout(s, Some(AsRequest(s.cart)), Some(name), Some(email), true, receiptId, now, true, clearOk);
      o.reply.Ok? && o.reply.value.total == ListCart(s, true).value.total
  {
    ItemsTotalOfRows(s.catalog, s.cart);
  }

  // ---------------------------------------------------------------------
  // Invariant: the primary keys of cart_items and receipts are distinct
  // ---------------------------------------------------------------------

  predicate UniqueRowIds(cart: seq<Row>) {
    forall i, j :: 0 <= i < |cart| && 0 <= j < |cart| && cart[i].id == cart[j].id ==> i == j
  }

  predicate Consistent(s: Store) {
    UniqueRowIds(s.cart) && NoDup(ReceiptIds(s.receipts))
  }

  /** Distinct rows drawn from a cart with distinct ids have distinct ids. */
  lemma UniqueIdsOfSubset(sub: seq<Row>, cart: seq<Row>)
    requires UniqueRowIds(cart) && NoDup(sub)
    requires forall i :: 0 <= i < |sub| ==> sub[i] in cart
    ensures UniqueRowIds(sub)
  {
    forall i, j | 0 <= i < |sub| && 0 <= j < |sub| && sub[i].id == sub[j].id ensures i == j {
      var a := IndexOf(sub[i], cart);
      var b := IndexOf(sub[j], cart);
      assert cart[a].id == cart[b].id;
    }
  }

  lemma AddKeepsKeysDistinct(s: Store, productId: Option<string>, qty: Option<int>, freshId: string, now: string,
                             insertOk: bool)
    requires Consistent(s)
    ensures Consistent(AddItem(s, productId, qty, freshId, now, insertOk).store)
  {
    var a := AddItem(s, productId, qty, freshId, now, insertOk).store;
    if a != s {
      forall i | 0 <= i < |s.cart| ensures s.cart[i].id != freshId {
        assert RowIds(s.cart)[i] == s.cart[i].id;
      }
    }
  }

  lemma DeleteKeepsKeysDistinct(s: Store, id: string, dbOk: bool)
    requires Consistent(s)
    ensures Consistent(DeleteItem(s, id, dbOk).store)
  {
    var d := DeleteItem(s, id, dbOk).store;
    if d != s {
      FilterNoDup(s.cart, (r: Row) => r.id != id);
      UniqueIdsOfSubset(d.cart, s.cart);
    }
  }

  lemma PatchKeepsKeysDistinct(s: Store, id: string, qty: Option<int>, dbOk: bool)
    requires Consistent(s)
    ensures Consistent(PatchItem(s, id, qty, dbOk).store)
  {
    var p := PatchItem(s, id, qty, dbOk).store;
    assert forall i :: 0 <= i < |s.cart| ==> p.cart[i].id == s.cart[i].id;
  }

  lemma CheckoutKeepsKeysDistinct(s: Store, cartItems: Option<seq<LineRequest>>, name: Option<string>,
                                  email: Option<string>, queryOk: bool, receiptId: string, now: string,
                                  insertOk: bool, clearOk: bool)
    requires Consistent(s)
    ensures Consistent(Checkout(s, cartItems, name, email, queryOk, receiptId, now, insertOk, clearOk).store)
  {
    var c := Checkout(s, cartItems, name, email, queryOk, receiptId, now, insertOk, clearOk).store;
    if c != s {
      assert ReceiptIds(c.receipts) == ReceiptIds(s.receipts) + [receiptId];
    }
  }

  // ---------------------------------------------------------------------
  // The seed catalog and two worked checkouts
  // ---------------------------------------------------------------------

  /** The products seeded into an empty database, prices in cents. */
  const SeedCatalog: map<string, Product> := map[
    "p1" := Product("Aeropress Coffee Maker", 2999),
    "p2" := Product("Ceramic Mug", 950),
    "p3" := Product("Stainless Travel Tumbler", 1999),
    "p4" := Product("Espresso Beans 1kg", 2400),
    "p5" := Product("Cold Brew Bottle", 1500)
  ]

  /** Two coffee makers and one mug: 2 x 29.99 + 9.50 = 69.48. */
  lemma SeedCheckout(cart: seq<Row>, receiptId: string, now: string)
    ensures var items := [LineRequest("p1", 2, Some(1)), LineRequest("p2", 1, None)];
            var o := Checkout(Store(SeedCatalog, cart, []), Some(items), Some("Ann"), Some("a@b.co"),
                              true, receiptId, now, true, true);
      o.reply.Ok? && o.reply.value.total == 6948 && o.store.cart == [] && |o.store.receipts| == 1
  {
    var items := [LineRequest("p1", 2, Some(1)), LineRequest("p2", 1, None)];
    var prices := CatalogPrices(SeedCatalog);
    assert AllPriced(prices, items);
    assert ItemsTotal(prices, items) == 2999 * 2 + ItemsTotal(prices, items[1..]);
    assert ItemsTotal(prices, items[1..]) == 950 * 1 + ItemsTotal(prices, items[2..]);
  }

  /** A line for an unknown product rejects the checkout and keeps both
      rows of the cart. */
  lemma UnknownProductCheckout(receiptId: string, now: string)
    ensures var cart := [Row("c1", "p1", 1, now), Row("c2", "unknown", 1, now)];
            var items := [LineRequest("p1", 1, None), LineRequest("unknown", 1, None)];
            var o := Checkout(Store(SeedCatalog, cart, []), Some(items), Some("Ann"), Some("a@b.co"),
                              true, receiptId, now, true, true);
      o.reply == Err(ProductNotFound("unknown")) && o.store.cart == cart && o.store.receipts == []
  {
    var items := [LineRequest("p1", 1, None), LineRequest("unknown", 1, None)];
    var prices := CatalogPrices(SeedCatalog);
    assert Priced(prices, items[0].productId);
    assert !Priced(prices, items[1].productId);
    assert FirstUnpriced(prices, items) == 1;
  }
}
