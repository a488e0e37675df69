/** The in-memory mock server of backend/server.js: a fixed product list
    and one process-wide cart of `{productId, qty}` lines. Unlike the
    SQLite router, adding merges into an existing line, deleting filters
    by product id, and checkout prices the submitted lines and empties the
    cart. A handler that throws (`product.price` of an unknown product,
    `reduce` on a non-array) is answered 500 by Express and leaves the
    state as it was. */
module MockApi {
  import opened Basics

  datatype Product = Product(id: int, name: string, price: int)

  datatype Line = Line(productId: int, qty: int)

  datatype State = State(products: seq<Product>, cart: seq<Line>)

  /** `Crashed` is an exception escaping the handler (HTTP 500). */
  datatype Reply<T> = Ok(value: T) | Crashed

  datatype Outcome<T> = Outcome(state: State, reply: Reply<T>)

  /** The hard-coded product list. */
  const SeedProducts: seq<Product> := [
    Product(1, "Wireless Headphones", 1999),
    Product(2, "Bluetooth Speaker", 1499),
    Product(3, "Smartwatch", 2999),
    Product(4, "Laptop Stand", 899),
    Product(5, "USB-C Hub", 1299)
  ]

  const InitialState: State := State(SeedProducts, [])

  function ProductId(p: Product): int {
    p.id
  }

  function ProductIds(products: seq<Product>): (ids: seq<int>)
    ensures |ids| == |products| && forall i :: 0 <= i < |products| ==> ids[i] == products[i].id
  {
    Keys(products, ProductId)
  }

  function LineId(line: Line): int {
    line.productId
  }

  function LineIds(cart: seq<Line>): (ids: seq<int>)
    ensures |ids| == |cart| && forall i :: 0 <= i < |cart| ==> ids[i] == cart[i].productId
  {
    Keys(cart, LineId)
  }

  /** `products.find(p => p.id === id)`: the first product with that id. */
  function Find(products: seq<Product>, id: int): (r: Option<Product>)
    ensures r.Some? <==> exists k :: 0 <= k < |products| && products[k].id == id
    ensures r.Some? ==> r.value in products && r.value.id == id
    ensures r.Some? ==> exists k :: 0 <= k < |products| && products[k] == r.value &&
                                    (forall j :: 0 <= j < k ==> products[j].id != id)
  {
    var ids := ProductIds(products);
    if id in ids then
      var k := IndexOf(id, ids);
      assert forall j :: 0 <= j < k ==> products[j].id != id by {
        assert forall j :: 0 <= j < k ==> ids[j] == products[j].id;
      }
      Some(products[k])
    else
      assert forall k :: 0 <= k < |products| ==> products[k].id != id by {
        assert forall k :: 0 <= k < |products| ==> ids[k] == products[k].id;
      }
      None
  }

  predicate AllKnown(products: seq<Product>, lines: seq<Line>) {
    forall i :: 0 <= i < |lines| ==> lines[i].productId in ProductIds(products)
  }

  /** The reference total: catalog price times quantity, summed. */
  function LinesTotal(products: seq<Product>, lines: seq<Line>): int {
    if lines == [] then 0
    else
      var price := match Find(products, lines[0].productId) case Some(p) => p.price case None => 0;
      price * lines[0].qty + LinesTotal(products, lines[1..])
  }

  /** `lines.reduce((sum, item) => sum + product.price * item.qty, sum)`
      with `product` found by id; an unknown id throws. */
  function PriceLines(products: seq<Product>, lines: seq<Line>, sum: int): (r: Reply<int>)
    ensures r.Ok? <==> AllKnown(products, lines)
    ensures r.Ok? ==> r.value == sum + LinesTotal(products, lines)
  {
    if lines == [] then Ok(sum)
    else
      match Find(products, lines[0].productId)
      case None => Crashed
      case Some(p) =>
        var r := PriceLines(products, lines[1..], sum + p.price * lines[0].qty);
        assert AllKnown(products, lines) <==> AllKnown(products, lines[1..]) by {
          if AllKnown(products, lines[1..]) {
            forall i | 0 < i < |lines| ensures lines[i].productId in ProductIds(products) {
              assert lines[i] == lines[1..][i - 1];
            }
          }
        }
        r
  }

  datatype CartBody = CartBody(cart: seq<Line>, total: int)

  /** GET /api/cart: the stored lines and their worth; throws when a line
      names a product that does not exist. */
  function GetCart(s: State): (o: Outcome<CartBody>)
    ensures o.state == s
    ensures o.reply.Ok? <==> AllKnown(s.products, s.cart)
    ensures o.reply.Ok? ==> o.reply.value == CartBody(s.cart, LinesTotal(s.products, s.cart))
  {
    match PriceLines(s.products, s.cart, 0)
    case Crashed => Outcome(s, Crashed)
    case Ok(total) => Outcome(s, Ok(CartBody(s.cart, total)))
  }

  /** POST /api/cart with body `{productId, qty}`: `existing.qty += qty`
      on the first line for the product, else push a new line. */
  function AddToCart(s: State, productId: int, qty: int): (o: Outcome<seq<Line>>)
    ensures o.state.products == s.products
    ensures o.reply == Ok(o.state.cart)
    ensures productId in LineIds(s.cart) ==> |o.state.cart| == |s.cart|
    ensures productId in LineIds(s.cart) ==> forall i :: 0 <= i < |s.cart| ==>
      o.state.cart[i] == if i == IndexOf(productId, LineIds(s.cart)) then Line(productId, s.cart[i].qty + qty) else s.cart[i]
    ensures productId !in LineIds(s.cart) ==> o.state.cart == s.cart + [Line(productId, qty)]
    ensures LineIds(o.state.cart) == if productId in LineIds(s.cart) then LineIds(s.cart) else LineIds(s.cart) + [productId]
  {
    var ids := LineIds(s.cart);
    var cart :=
      if productId in ids then
        var k := IndexOf(productId, ids);
        s.cart[k := Line(productId, s.cart[k].qty + qty)]
      else s.cart + [Line(productId, qty)];
    Outcome(s.(cart := cart), Ok(cart))
  }

  /** The quantity held for a product, over all its lines. */
  function QtyOf(cart: seq<Line>, productId: int): int {
    if cart == [] then 0 else (if cart[0].productId == productId then cart[0].qty else 0) + QtyOf(cart[1..], productId)
  }

  lemma {:induction false} QtyOfUpdate(cart: seq<Line>, k: nat, line: Line, productId: int)
    requires k < |cart| && line.productId == cart[k].productId
    ensures QtyOf(cart[k := line], productId) ==
      QtyOf(cart, productId) + (if line.productId == productId then line.qty - cart[k].qty else 0)
  {
    if k > 0 {
      assert cart[k := line][1..] == cart[1..][k - 1 := line];
      QtyOfUpdate(cart[1..], k - 1, line, productId);
    }
  }

  lemma {:induction false} QtyOfAppend(cart: seq<Line>, line: Line, productId: int)
    ensures QtyOf(cart + [line], productId) == QtyOf(cart, productId) + (if line.productId == productId then line.qty else 0)
  {
    if cart != [] {
      assert (cart + [line])[1..] == cart[1..] + [line];
      QtyOfAppend(cart[1..], line, productId);
    }
  }

  /** Adding `qty` of a product raises the quantity held for it by `qty`
      and leaves every other product's quantity alone. */
  lemma AddAccumulates(s: State, productId: int, qty: int, other: int)
    ensures QtyOf(AddToCart(s, productId, qty).state.cart, productId) == QtyOf(s.cart, productId) + qty
    ensures other != productId ==> QtyOf(AddToCart(s, productId, qty).state.cart, other) == QtyOf(s.cart, other)
  {
    var ids := LineIds(s.cart);
    if productId in ids {
      var k := IndexOf(productId, ids);
      QtyOfUpdate(s.cart, k, Line(productId, s.cart[k].qty + qty), productId);
      QtyOfUpdate(s.cart, k, Line(productId, s.cart[k].qty + qty), other);
    } else {
      QtyOfAppend(s.cart, Line(productId, qty), productId);
      QtyOfAppend(s.cart, Line(productId, qty), other);
    }
  }

  /** DELETE /api/cart/:id: `cart.filter(item => item.productId !== id)`
      with `id = parseInt(...)`; `None` is the NaN of an unparsable id,
      which equals nothing, so every line is kept. */
  function DeleteFromCart(s: State, id: Option<int>): (o: Outcome<seq<Line>>)
    ensures o.state.products == s.products
    ensures o.reply == Ok(o.state.cart)
    ensures id.None? ==> o.state == s
    ensures id.Some? ==> id.value !in LineIds(o.state.cart)
    ensures id.Some? ==> forall i :: 0 <= i < |s.cart| && s.cart[i].productId != id.value ==> s.cart[i] in o.state.cart
    ensures forall i :: 0 <= i < |o.state.cart| ==> o.state.cart[i] in s.cart
    ensures IsSubsequence(o.state.cart, s.cart)
  {
    match id
    case None =>
      SubsequenceRefl(s.cart);
      Outcome(s, Ok(s.cart))
    case Some(n) =>
      var kept := Filter(s.cart, (item: Line) => item.productId != n);
      Outcome(s.(cart := kept), Ok(kept))
  }

  /** Deleting an id that is not in the cart changes nothing, and deleting
      twice is deleting once. */
  lemma DeleteAbsentAndIdempotent(s: State, id: Option<int>)
    ensures id.Some? && id.value !in LineIds(s.cart) ==> DeleteFromCart(s, id).state == s
    ensures DeleteFromCart(DeleteFromCart(s, id).state, id) == DeleteFromCart(s, id)
  {
    if id.Some? {
      var keep := (item: Line) => item.productId != id.value;
      if id.value !in LineIds(s.cart) {
        FilterAll(s.cart, keep);
      }
      FilterIdempotent(s.cart, keep);
    }
  }

  datatype Receipt = Receipt(total: int, timestamp: string)

  /** POST /api/checkout with body `{cartItems}` (`None` when it is not an
      array): the receipt totals the submitted lines at catalog prices,
      then the stored cart is emptied whatever was submitted. Nothing is
      persisted. */
  function Checkout(s: State, cartItems: Option<seq<Line>>, timestamp: string): (o: Outcome<Receipt>)
    ensures o.state.products == s.products
    ensures o.reply.Ok? <==> cartItems.Some? && AllKnown(s.products, cartItems.value)
    ensures o.reply.Ok? ==> o.reply.value == Receipt(LinesTotal(s.products, cartItems.value), timestamp)
    ensures o.reply.Ok? ==> o.state.cart == []
    ensures o.reply.Crashed? ==> o.state == s
  {
    match cartItems
    case None => Outcome(s, Crashed)
    case Some(items) =>
      match PriceLines(s.products, items, 0)
      case Crashed => Outcome(s, Crashed)
      case Ok(total) => Outcome(s.(cart := []), Ok(Receipt(total, timestamp)))
  }

  /** Checking out the stored cart charges what GET /api/cart reported. */
  lemma CheckoutChargesListedTotal(s: State, timestamp: string)
    requires AllKnown(s.products, s.cart)
    ensures GetCart(s).reply.Ok? && Checkout(s, Some(s.cart), timestamp).reply.Ok?
    ensures Checkout(s, Some(s.cart), timestamp).reply.value.total == GetCart(s).reply.value.total
  {
  }

  /** Because add merges, no product ever has two lines: every handler
      keeps the cart's product ids distinct. */
  lemma HandlersKeepProductIdsDistinct(s: State, productId: int, qty: int, id: Option<int>,
                                       cartItems: Option<seq<Line>>, timestamp: string)
    requires NoDup(LineIds(s.cart))
    ensures NoDup(LineIds(AddToCart(s, productId, qty).state.cart))
    ensures NoDup(LineIds(DeleteFromCart(s, id).state.cart))
    ensures NoDup(LineIds(Checkout(s, cartItems, timestamp).state.cart))
  {
    var d := DeleteFromCart(s, id).state.cart;
    if id.Some? {
      KeysOfSubsequence(d, s.cart, LineId);
    }
  }

  /** No handler touches the product list. */
  lemma ProductsNeverChange(s: State, productId: int, qty: int, id: Option<int>,
                            cartItems: Option<seq<Line>>, timestamp: string)
    ensures GetCart(s).state.products == s.products
    ensures AddToCart(s, productId, qty).state.products == s.products
    ensures DeleteFromCart(s, id).state.products == s.products
    ensures Checkout(s, cartItems, timestamp).state.products == s.products
  {
  }
}
