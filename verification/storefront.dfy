/** The client-side shop of App.jsx: the cart reducer (add with merge,
    remove by amount, set quantity), its total, the checkout that empties
    it, the category menu and the product-grid search filter. Prices are
    whole rupees. */
module Storefront {
  import opened Basics
  import Text
  import QtyStepper

  /** A catalog entry; `rating` and `image` are display-only and left out.
      A missing category is the empty string (`p.category || ""`). */
  datatype Product = Product(id: int, name: string, price: int, category: string)

  /** A cart line, `{...product, qty}`. */
  datatype Line = Line(product: Product, qty: int)

  /** The hard-coded catalog. */
  const Catalog: seq<Product> := [
    Product(1, "Wireless Headphones", 1200, "Audio"),
    Product(2, "Smartwatch", 2500, "Wearables"),
    Product(3, "RGB Keyboard", 1000, "Peripherals"),
    Product(4, "Gaming Mouse", 800, "Peripherals"),
    Product(5, "USB Microphone", 1500, "Audio"),
    Product(6, "Rose Moisturizer", 599, "Beauty"),
    Product(7, "Laptop Stand", 450, "Accessories")
  ]

  function LineId(line: Line): int {
    line.product.id
  }

  function Ids(cart: seq<Line>): (ids: seq<int>)
    ensures |ids| == |cart| && forall i :: 0 <= i < |cart| ==> ids[i] == cart[i].product.id
  {
    Keys(cart, LineId)
  }

  /** The invariant the reducer keeps: one line per product, each holding
      at least one unit. */
  predicate WellFormed(cart: seq<Line>) {
    NoDup(Ids(cart)) && forall i :: 0 <= i < |cart| ==> cart[i].qty >= 1
  }

  /** The new quantity each reducer action gives its target line. */
  datatype Change = Plus(n: int) | Minus(n: int) | Clamp(n: int)

  function Apply(c: Change, q: int): int {
    match c
    case Plus(n) => q + n
    case Minus(n) => q - n
    case Clamp(n) => QtyStepper.Max(1, n)
  }

  /** `prev.map(it => it.id === id ? {...it, qty: <new qty>} : it)`. */
  function Adjust(cart: seq<Line>, id: int, c: Change): (r: seq<Line>)
    ensures |r| == |cart| && Ids(r) == Ids(cart)
    ensures forall i :: 0 <= i < |cart| ==>
      r[i] == if cart[i].product.id == id then cart[i].(qty := Apply(c, cart[i].qty)) else cart[i]
  {
    seq(|cart|, i requires 0 <= i < |cart| =>
      if cart[i].product.id == id then cart[i].(qty := Apply(c, cart[i].qty)) else cart[i])
  }

  predicate HasUnits(line: Line) {
    line.qty > 0
  }

  /** `.filter(it => it.qty > 0)`. */
  function DropEmpty(cart: seq<Line>): (r: seq<Line>)
    ensures forall i :: 0 <= i < |r| ==> r[i].qty > 0
    ensures IsSubsequence(r, cart)
  {
    Filter(cart, HasUnits)
  }

  /** `addToCart(product, qty)`: raise the quantity of the product's line,
      or append `{...product, qty}` when there is none. */
  function AddToCart(cart: seq<Line>, p: Product, qty: int): (r: seq<Line>)
    ensures Ids(r) == if p.id in Ids(cart) then Ids(cart) else Ids(cart) + [p.id]
    ensures forall i :: 0 <= i < |cart| && cart[i].product.id != p.id ==> r[i] == cart[i]
    ensures forall i :: 0 <= i < |cart| && cart[i].product.id == p.id ==>
      r[i].product == cart[i].product && r[i].qty == cart[i].qty + qty
    ensures p.id !in Ids(cart) ==> r[|cart|] == Line(p, qty)
  {
    if p.id in Ids(cart) then Adjust(cart, p.id, Plus(qty)) else cart + [Line(p, qty)]
  }

  /** `removeFromCart(productId, amount)`: lower the line by `amount`, then
      drop every line left without units. */
  function RemoveFromCart(cart: seq<Line>, id: int, amount: int): (r: seq<Line>)
    ensures forall i :: 0 <= i < |r| ==> r[i].qty > 0
    ensures |r| <= |cart|
  {
    DropEmpty(Adjust(cart, id, Minus(amount)))
  }

  /** `setItemQty(productId, qty)`: set the line to `Math.max(1, qty)`. */
  function SetItemQty(cart: seq<Line>, id: int, qty: int): (r: seq<Line>)
    ensures forall i :: 0 <= i < |r| ==> r[i].qty > 0
  {
    DropEmpty(Adjust(cart, id, Clamp(qty)))
  }

  /** `item.price * item.qty`. */
  function LineValue(line: Line): int {
    line.product.price * line.qty
  }

  /** `getTotal()`: the sum of price times quantity. */
  function Total(cart: seq<Line>): (t: int)
    ensures (forall i :: 0 <= i < |cart| ==> cart[i].product.price >= 0 && cart[i].qty >= 0) ==> t >= 0
  {
    if cart == [] then 0 else LineValue(cart[0]) + Total(cart[1..])
  }

  /** Changing a line's quantity by `n` changes its value by `n` units. */
  lemma LineValueShift(line: Line, n: int)
    ensures LineValue(line.(qty := line.qty + n)) == LineValue(line) + line.product.price * n
    ensures LineValue(line.(qty := line.qty - n)) == LineValue(line) - line.product.price * n
  {
  }

  // ---------------------------------------------------------------------
  // What the reducer does to a well-formed cart
  // ---------------------------------------------------------------------

  lemma {:induction false} DropEmptyKeeps(cart: seq<Line>)
    requires forall i :: 0 <= i < |cart| ==> cart[i].qty > 0
    ensures DropEmpty(cart) == cart
  {
    FilterAll(cart, HasUnits);
  }

  /** In a cart with distinct ids, the product `id` sits at position `k`
      and nowhere else. */
  lemma OnlyLine(cart: seq<Line>, id: int, k: nat)
    requires NoDup(Ids(cart)) && k < |cart| && cart[k].product.id == id
    ensures forall i :: 0 <= i < |cart| && i != k ==> cart[i].product.id != id
  {
    forall i | 0 <= i < |cart| && i != k ensures cart[i].product.id != id {
      assert Ids(cart)[i] != Ids(cart)[k];
    }
  }

  /** Dropping empty lines from a cart in which only line `k` may be empty. */
  lemma DropEmptyAround(m: seq<Line>, k: nat)
    requires k < |m| && forall i :: 0 <= i < |m| && i != k ==> m[i].qty > 0
    ensures DropEmpty(m) == if m[k].qty > 0 then m else m[..k] + m[k + 1..]
  {
    assert m == m[..k] + ([m[k]] + m[k + 1..]);
    FilterConcat(m[..k], [m[k]] + m[k + 1..], HasUnits);
    FilterConcat([m[k]], m[k + 1..], HasUnits);
    DropEmptyKeeps(m[..k]);
    DropEmptyKeeps(m[k + 1..]);
    assert Filter([m[k]], HasUnits) == if m[k].qty > 0 then [m[k]] else [] by {
      assert [m[k]][1..] == [];
    }
  }

  /** Removing `amount` of the product on line `k`. */
  lemma RemoveAt(cart: seq<Line>, k: nat, amount: int)
    requires WellFormed(cart) && k < |cart|
    ensures RemoveFromCart(cart, cart[k].product.id, amount) ==
      if amount >= cart[k].qty then cart[..k] + cart[k + 1..]
      else cart[k := cart[k].(qty := cart[k].qty - amount)]
  {
    var id := cart[k].product.id;
    var m := Adjust(cart, id, Minus(amount));
    OnlyLine(cart, id, k);
    assert forall i :: 0 <= i < |m| && i != k ==> m[i] == cart[i];
    assert m == cart[k := cart[k].(qty := cart[k].qty - amount)];
    DropEmptyAround(m, k);
    assert m[..k] == cart[..k];
    assert m[k + 1..] == cart[k + 1..];
  }

  /** Removing `amount` of a product deletes its line exactly when
      `amount` reaches the line's quantity and otherwise lowers it by
      `amount`; the other lines keep their order and quantities, and an
      absent product changes nothing. */
  lemma RemoveFromCartSpec(cart: seq<Line>, id: int, amount: int)
    requires WellFormed(cart)
    ensures id !in Ids(cart) ==> RemoveFromCart(cart, id, amount) == cart
    ensures id in Ids(cart) ==>
      var k := IndexOf(id, Ids(cart));
      RemoveFromCart(cart, id, amount) ==
        if amount >= cart[k].qty then cart[..k] + cart[k + 1..]
        else cart[k := cart[k].(qty := cart[k].qty - amount)]
  {
    if id !in Ids(cart) {
      assert Adjust(cart, id, Minus(amount)) == cart;
      DropEmptyKeeps(cart);
    } else {
      RemoveAt(cart, IndexOf(id, Ids(cart)), amount);
    }
  }

  /** Setting a quantity replaces the line's quantity by `max(1, qty)`:
      the line is never removed and no other line changes. */
  lemma SetItemQtySpec(cart: seq<Line>, id: int, qty: int)
    requires WellFormed(cart)
    ensures |SetItemQty(cart, id, qty)| == |cart|
    ensures id !in Ids(cart) ==> SetItemQty(cart, id, qty) == cart
    ensures id in Ids(cart) ==>
      var k := IndexOf(id, Ids(cart));
      SetItemQty(cart, id, qty) == cart[k := cart[k].(qty := QtyStepper.Max(1, qty))]
  {
    var m := Adjust(cart, id, Clamp(qty));
    if id !in Ids(cart) {
      assert m == cart;
    } else {
      var k := IndexOf(id, Ids(cart));
      OnlyLine(cart, id, k);
      assert m == cart[k := cart[k].(qty := QtyStepper.Max(1, qty))];
    }
    DropEmptyKeeps(m);
  }

  /** Add with a positive quantity keeps a cart well formed: ids stay
      unique and every line keeps a unit. */
  lemma AddKeepsWellFormed(cart: seq<Line>, p: Product, qty: int)
    requires WellFormed(cart) && qty >= 1
    ensures WellFormed(AddToCart(cart, p, qty))
  {
    var a := AddToCart(cart, p, qty);
    if p.id !in Ids(cart) {
      var ids := Ids(cart) + [p.id];
      assert Ids(a) == ids;
      forall i, j | 0 <= i < j < |ids| ensures ids[i] != ids[j] {
        if j == |cart| {
          assert ids[i] == Ids(cart)[i];
        } else {
          assert ids[i] == Ids(cart)[i] && ids[j] == Ids(cart)[j];
        }
      }
    }
  }

  /** Remove and set-quantity keep a cart well formed. */
  lemma RemoveAndSetKeepWellFormed(cart: seq<Line>, id: int, amount: int, newQty: int)
    requires WellFormed(cart)
    ensures WellFormed(RemoveFromCart(cart, id, amount))
    ensures WellFormed(SetItemQty(cart, id, newQty))
  {
    var m := Adjust(cart, id, Minus(amount));
    KeysOfSubsequence(RemoveFromCart(cart, id, amount), m, LineId);
    SetItemQtySpec(cart, id, newQty);
  }

  /** The "Remove" button (`removeFromCart(item.id, item.qty)`) deletes
      exactly that line. */
  lemma RemoveButtonDeletesLine(cart: seq<Line>, k: nat)
    requires WellFormed(cart) && k < |cart|
    ensures RemoveFromCart(cart, cart[k].product.id, cart[k].qty) == cart[..k] + cart[k + 1..]
  {
    RemoveFromCartSpec(cart, cart[k].product.id, cart[k].qty);
    OnlyLine(cart, cart[k].product.id, k);
    assert IndexOf(cart[k].product.id, Ids(cart)) == k;
  }

  /** The cart page's `+` (`addToCart(item, 1)`) and `−`
      (`removeFromCart(item.id, 1)`) undo each other on a well-formed cart. */
  lemma PlusMinusRoundTrip(cart: seq<Line>, k: nat)
    requires WellFormed(cart) && k < |cart|
    ensures RemoveFromCart(AddToCart(cart, cart[k].product, 1), cart[k].product.id, 1) == cart
  {
    var line := cart[k];
    var up := AddToCart(cart, line.product, 1);
    assert up == cart[k := line.(qty := line.qty + 1)] by {
      AddAt(cart, k, line.product, 1);
    }
    assert WellFormed(up) by {
      AddKeepsWellFormed(cart, line.product, 1);
    }
    assert up[k].product == line.product && up[k].qty == line.qty + 1 >= 2;
    RemoveAt(up, k, 1);
    assert up[k := up[k].(qty := up[k].qty - 1)] == cart;
  }

  // ---------------------------------------------------------------------
  // The total
  // ---------------------------------------------------------------------

  lemma {:induction false} TotalConcat(a: seq<Line>, b: seq<Line>)
    ensures Total(a + b) == Total(a) + Total(b)
  {
    if a != [] {
      assert (a + b)[1..] == a[1..] + b;
      TotalConcat(a[1..], b);
    } else {
      assert a + b == b;
    }
  }

  lemma TotalSplit(cart: seq<Line>, k: nat)
    requires k < |cart|
    ensures Total(cart) == Total(cart[..k]) + LineValue(cart[k]) + Total(cart[k + 1..])
  {
    var rest := [cart[k]] + cart[k + 1..];
    assert cart == cart[..k] + rest;
    TotalConcat(cart[..k], rest);
    assert Total(rest) == LineValue(cart[k]) + Total(cart[k + 1..]) by {
      assert rest[1..] == cart[k + 1..];
    }
  }

  /** Changing the quantity of line `k` by `n` changes the total by `n`
      units of that line's price, in either direction. */
  lemma TotalShift(cart: seq<Line>, k: nat, n: int)
    requires k < |cart|
    ensures Total(cart[k := cart[k].(qty := cart[k].qty + n)]) == Total(cart) + cart[k].product.price * n
    ensures Total(cart[k := cart[k].(qty := cart[k].qty - n)]) == Total(cart) - cart[k].product.price * n
  {
    var up := cart[k := cart[k].(qty := cart[k].qty + n)];
    var down := cart[k := cart[k].(qty := cart[k].qty - n)];
    TotalSplit(cart, k);
    TotalSplit(up, k);
    TotalSplit(down, k);
    assert up[..k] == down[..k] == cart[..k];
    assert up[k + 1..] == down[k + 1..] == cart[k + 1..];
    LineValueShift(cart[k], n);
  }

  /** Adding `qty` of a product already on line `k` raises that line only. */
  lemma AddAt(cart: seq<Line>, k: nat, p: Product, qty: int)
    requires NoDup(Ids(cart)) && k < |cart| && cart[k].product.id == p.id
    ensures AddToCart(cart, p, qty) == cart[k := cart[k].(qty := cart[k].qty + qty)]
  {
    var a := AddToCart(cart, p, qty);
    OnlyLine(cart, p.id, k);
    assert Ids(cart)[k] == p.id;
    assert forall i :: 0 <= i < |a| && i != k ==> a[i] == cart[i];
  }

  /** Adding `qty` of a product the cart lacks raises the total by `qty`
      units of the product's price. */
  lemma TotalAfterAddNew(cart: seq<Line>, p: Product, qty: int)
    requires p.id !in Ids(cart)
    ensures Total(AddToCart(cart, p, qty)) == Total(cart) + p.price * qty
  {
    TotalConcat(cart, [Line(p, qty)]);
    assert Total([Line(p, qty)]) == LineValue(Line(p, qty));
  }

  /** Adding `qty` of a product already on line `k` raises the total by
      `qty` units of the price stored on that line, which is the price the
      product had when it was first added. */
  lemma TotalAfterAddExisting(cart: seq<Line>, k: nat, p: Product, qty: int)
    requires NoDup(Ids(cart)) && k < |cart| && cart[k].product.id == p.id
    ensures Total(AddToCart(cart, p, qty)) == Total(cart) + cart[k].product.price * qty
  {
    AddAt(cart, k, p, qty);
    TotalShift(cart, k, qty);
  }

  /** Removing `amount` units of the line at `k` lowers the total by the
      price of the units actually taken away: the whole line when `amount`
      reaches its quantity, `amount` units otherwise. */
  lemma TotalAfterRemove(cart: seq<Line>, k: nat, amount: int)
    requires WellFormed(cart) && k < |cart|
    ensures amount >= cart[k].qty ==>
      Total(RemoveFromCart(cart, cart[k].product.id, amount)) == Total(cart) - LineValue(cart[k])
    ensures amount < cart[k].qty ==>
      Total(RemoveFromCart(cart, cart[k].product.id, amount)) == Total(cart) - cart[k].product.price * amount
  {
    RemoveAt(cart, k, amount);
    if amount >= cart[k].qty {
      TotalSplit(cart, k);
      TotalConcat(cart[..k], cart[k + 1..]);
    } else {
      TotalShift(cart, k, amount);
    }
  }

  // ---------------------------------------------------------------------
  // The category menu
  // ---------------------------------------------------------------------

  /** The categories the menu lists first, in this order, when present. */
  const BaseCategories: seq<string> := ["Audio", "Wearables", "Peripherals", "Accessories"]

  function CategoryOf(p: Product): string {
    p.category
  }

  /** `products.map(p => p.category || "")`. */
  function CategoryList(ps: seq<Product>): (cs: seq<string>)
    ensures |cs| == |ps| && forall i :: 0 <= i < |ps| ==> cs[i] == ps[i].category
  {
    Keys(ps, CategoryOf)
  }

  predicate NonEmpty(c: string) {
    c != []
  }

  /** `Array.from(new Set(<categories>.filter(Boolean)))`: the non-empty
      categories, each once, in order of first appearance. */
  function Found(ps: seq<Product>): seq<string> {
    Dedup(Filter(CategoryList(ps), NonEmpty))
  }

  /** `base.filter(b => found.includes(b))`. */
  function PresentBase(found: seq<string>): (r: seq<string>)
    ensures NoDup(r) && IsSubsequence(r, BaseCategories)
    ensures forall i :: 0 <= i < |r| ==> r[i] in found && r[i] in BaseCategories
    ensures forall i :: 0 <= i < |BaseCategories| && BaseCategories[i] in found ==> BaseCategories[i] in r
  {
    assert NoDup(BaseCategories);
    FilterNoDup(BaseCategories, c => c in found);
    Filter(BaseCategories, c => c in found)
  }

  /** `found.filter(c => !base.includes(c))`. */
  function Others(found: seq<string>): (r: seq<string>)
    requires NoDup(found)
    ensures NoDup(r) && IsSubsequence(r, found)
    ensures forall i :: 0 <= i < |r| ==> r[i] in found && r[i] !in BaseCategories
    ensures forall i :: 0 <= i < |found| && found[i] !in BaseCategories ==> found[i] in r
  {
    FilterNoDup(found, c => c !in BaseCategories);
    Filter(found, c => c !in BaseCategories)
  }

  /** The menu: the base categories some product has, in base order,
      followed by every other category in the order products introduce it. */
  function Categories(ps: seq<Product>): (r: seq<string>)
    ensures forall i :: 0 <= i < |r| ==> r[i] in Found(ps)
    ensures forall i :: 0 <= i < |Found(ps)| ==> Found(ps)[i] in r
  {
    var found := Found(ps);
    var base, rest := PresentBase(found), Others(found);
    forall i | 0 <= i < |found| ensures found[i] in base + rest {
      if found[i] in BaseCategories {
        assert BaseCategories[IndexOf(found[i], BaseCategories)] == found[i];
      }
    }
    base + rest
  }

  /** `Found` holds exactly the non-empty categories of the products. */
  lemma FoundMembers(ps: seq<Product>)
    ensures forall i :: 0 <= i < |Found(ps)| ==> Found(ps)[i] in CategoryList(ps) && Found(ps)[i] != []
    ensures forall i :: 0 <= i < |ps| && ps[i].category != [] ==> ps[i].category in Found(ps)
  {
    var cs := CategoryList(ps);
    var named := Filter(cs, NonEmpty);
    var f := Found(ps);
    assert forall i :: 0 <= i < |f| ==> f[i] in named;
    forall i | 0 <= i < |ps| && ps[i].category != [] ensures ps[i].category in f {
      assert cs[i] == ps[i].category;
      var k := IndexOf(cs[i], named);
      assert named[k] in f;
    }
  }

  /** `Found` lists categories in the order products first introduce them. */
  lemma FoundOrder(ps: seq<Product>)
    ensures forall i :: 0 <= i < |Found(ps)| ==> Found(ps)[i] in CategoryList(ps) && Found(ps)[i] != []
    ensures forall i :: 0 <= i < |ps| && ps[i].category != [] ==> ps[i].category in Found(ps)
    ensures forall i, j :: 0 <= i < j < |Found(ps)| ==>
      IndexOf(Found(ps)[i], CategoryList(ps)) < IndexOf(Found(ps)[j], CategoryList(ps))
  {
    FoundMembers(ps);
    var cs := CategoryList(ps);
    var named := Filter(cs, NonEmpty);
    var f := Found(ps);
    forall i, j | 0 <= i < j < |f| ensures IndexOf(f[i], cs) < IndexOf(f[j], cs) {
      var x, y := f[i], f[j];
      assert x in named && y in named && x != [] && y != [];
      assert IndexOf(x, named) < IndexOf(y, named);
      assert IndexOf(x, cs) != IndexOf(y, cs) by {
        assert x != y;
        assert cs[IndexOf(x, cs)] == x && cs[IndexOf(y, cs)] == y;
      }
      if IndexOf(y, cs) < IndexOf(x, cs) {
        FilterFirstOrder(cs, NonEmpty, y, x);
      }
    }
  }

  /** The menu has no duplicates and no empty entry, and it names
      exactly the categories some product has. */
  lemma CategoriesContents(ps: seq<Product>)
    ensures NoDup(Categories(ps))
    ensures forall i :: 0 <= i < |Categories(ps)| ==>
      Categories(ps)[i] != [] && Categories(ps)[i] in CategoryList(ps)
    ensures forall i :: 0 <= i < |ps| && ps[i].category != [] ==> ps[i].category in Categories(ps)
  {
    var f := Found(ps);
    var base, rest := PresentBase(f), Others(f);
    FoundOrder(ps);
    NoDupConcat(base, rest);
    forall i | 0 <= i < |ps| && ps[i].category != [] ensures ps[i].category in base + rest {
      var c := ps[i].category;
      if c in BaseCategories {
        assert BaseCategories[IndexOf(c, BaseCategories)] in base;
      } else {
        assert f[IndexOf(c, f)] in rest;
      }
    }
  }

  /** Base categories come first, in base order. */
  lemma CategoriesBaseFirst(ps: seq<Product>)
    ensures forall i, j :: 0 <= i < j < |Categories(ps)| && Categories(ps)[j] in BaseCategories ==>
      Categories(ps)[i] in BaseCategories &&
      IndexOf(Categories(ps)[i], BaseCategories) < IndexOf(Categories(ps)[j], BaseCategories)
  {
    var f := Found(ps);
    var base, rest := PresentBase(f), Others(f);
    var r := base + rest;
    assert NoDup(BaseCategories);
    SubsequenceOrder(base, BaseCategories);
    forall i, j | 0 <= i < j < |r| && r[j] in BaseCategories
      ensures r[i] in BaseCategories && IndexOf(r[i], BaseCategories) < IndexOf(r[j], BaseCategories)
    {
      assert j < |base|;
      assert r[i] == base[i] && r[j] == base[j];
    }
  }

  /** The other categories follow in the order products first introduce
      them. */
  lemma CategoriesRestOrder(ps: seq<Product>)
    ensures forall i, j :: 0 <= i < j < |Categories(ps)| && Categories(ps)[i] !in BaseCategories ==>
      Categories(ps)[j] !in BaseCategories &&
      Categories(ps)[i] in CategoryList(ps) && Categories(ps)[j] in CategoryList(ps) &&
      IndexOf(Categories(ps)[i], CategoryList(ps)) < IndexOf(Categories(ps)[j], CategoryList(ps))
  {
    var f := Found(ps);
    var base, rest := PresentBase(f), Others(f);
    var r := base + rest;
    FoundOrder(ps);
    SubsequenceOrder(rest, f);
    forall i, j | 0 <= i < j < |r| && r[i] !in BaseCategories
      ensures r[j] !in BaseCategories && r[i] in CategoryList(ps) && r[j] in CategoryList(ps)
      ensures IndexOf(r[i], CategoryList(ps)) < IndexOf(r[j], CategoryList(ps))
    {
      assert i >= |base|;
      var a, b := i - |base|, j - |base|;
      assert r[i] == rest[a] && r[j] == rest[b];
      var x, y := IndexOf(rest[a], f), IndexOf(rest[b], f);
      assert f[x] == rest[a] && f[y] == rest[b] && x < y;
    }
  }

  // ---------------------------------------------------------------------
  // The product-grid search
  // ---------------------------------------------------------------------

  /** `searchQuery.trim().toLowerCase()`. */
  function SearchKey(query: string): string {
    Text.Lower(Text.Trim(query))
  }

  /** `matchesQuery`: an empty key matches everything; otherwise it must
      occur in the lower-cased name or the lower-cased category. */
  predicate MatchesQuery(p: Product, key: string) {
    key == [] || Text.Contains(Text.Lower(p.name), key) || Text.Contains(Text.Lower(p.category), key)
  }

  /** `matchesCategory`: an empty selection or "All Categories" matches
      everything; otherwise the category must be exactly the selection. */
  predicate MatchesCategory(p: Product, selected: string) {
    selected == [] || selected == "All Categories" || p.category == selected
  }

  predicate OnGrid(p: Product, key: string, selected: string) {
    MatchesQuery(p, key) && MatchesCategory(p, selected)
  }

  /** The products the grid shows for a search box and a selected category. */
  function Visible(ps: seq<Product>, query: string, selected: string): (r: seq<Product>)
    ensures IsSubsequence(r, ps)
  {
    var key := SearchKey(query);
    Filter(ps, p => OnGrid(p, key, selected))
  }

  /** A product is shown exactly when it matches both the query and the
      category: the query as a substring, at some offset, of its
      lower-cased name or category. */
  lemma VisibleSpec(ps: seq<Product>, query: string, selected: string)
    ensures forall i :: 0 <= i < |Visible(ps, query, selected)| ==>
      Visible(ps, query, selected)[i] in ps &&
      OnGrid(Visible(ps, query, selected)[i], SearchKey(query), selected)
    ensures forall i :: 0 <= i < |ps| && OnGrid(ps[i], SearchKey(query), selected) ==>
      ps[i] in Visible(ps, query, selected)
    ensures forall p: Product :: MatchesQuery(p, SearchKey(query)) <==>
      SearchKey(query) == [] ||
      (exists k :: Text.OccursAt(Text.Lower(p.name), SearchKey(query), k)) ||
      (exists k :: Text.OccursAt(Text.Lower(p.category), SearchKey(query), k))
  {
    var key := SearchKey(query);
    forall p: Product ensures MatchesQuery(p, key) <==>
      key == [] ||
      (exists k :: Text.OccursAt(Text.Lower(p.name), key, k)) ||
      (exists k :: Text.OccursAt(Text.Lower(p.category), key, k))
    {
      Text.ContainsIffOccurs(Text.Lower(p.name), key);
      Text.ContainsIffOccurs(Text.Lower(p.category), key);
    }
  }

  /** A blank search box and "All Categories" show every product, in
      catalog order. */
  lemma BlankSearchShowsAll(ps: seq<Product>, query: string, selected: string)
    requires Text.IsBlank(query)
    requires selected == [] || selected == "All Categories"
    ensures Visible(ps, query, selected) == ps
  {
    var key := SearchKey(query);
    assert key == [];
    FilterAll(ps, p => OnGrid(p, key, selected));
  }

  /** The search ignores the case of what was typed. */
  lemma SearchIgnoresCase(ps: seq<Product>, query: string, selected: string)
    ensures Visible(ps, Text.Lower(query), selected) == Visible(ps, query, selected)
  {
    Text.TrimLowerCommute(query);
    Text.LowerIdempotent(Text.Trim(query));
    assert SearchKey(Text.Lower(query)) == SearchKey(query);
  }

  /** Running the same search on its own result changes nothing. */
  lemma SearchIdempotent(ps: seq<Product>, query: string, selected: string)
    ensures Visible(Visible(ps, query, selected), query, selected) == Visible(ps, query, selected)
  {
    var key := SearchKey(query);
    FilterIdempotent(ps, p => OnGrid(p, key, selected));
  }

  // ---------------------------------------------------------------------
  // Page state: the grid's quantities and checkout
  // ---------------------------------------------------------------------

  datatype Shop = Shop(cart: seq<Line>, quantities: map<int, int>, showCart: bool, showCheckout: bool)

  /** The grid's "Add to Cart": `addToCart(p, quantities[p.id] || 1)`. */
  function AddFromGrid(s: Shop, p: Product): (r: Shop)
    ensures r.quantities == s.quantities && r.showCart == s.showCart && r.showCheckout == s.showCheckout
    ensures r.cart == AddToCart(s.cart, p, QtyStepper.Shown(s.quantities, p.id))
  {
    s.(cart := AddToCart(s.cart, p, QtyStepper.Shown(s.quantities, p.id)))
  }

  /** Adding from the grid keeps a cart well formed whenever the stepper's
      quantities are all at least 1. */
  lemma AddFromGridKeepsWellFormed(s: Shop, p: Product)
    requires WellFormed(s.cart) && QtyStepper.AllPositive(s.quantities)
    ensures WellFormed(AddFromGrid(s, p).cart)
  {
    var n := QtyStepper.Shown(s.quantities, p.id);
    AddKeepsWellFormed(s.cart, p, n);
  }

  /** `handleCheckout`: the order is placed, the cart emptied and both the
      checkout modal and the cart page closed. */
  function HandleCheckout(s: Shop): (r: Shop)
    ensures r.cart == [] && Total(r.cart) == 0
    ensures !r.showCheckout && !r.showCart
    ensures r.quantities == s.quantities
  {
    Shop([], s.quantities, false, false)
  }
}
