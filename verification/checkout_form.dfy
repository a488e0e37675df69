/** The checkout modal of CheckoutModal.jsx: the field validator with its
    exact messages, the form -> slip -> form step machine, the order-id
    format and the amounts the slip shows. The clock and the random draw
    are parameters. */
module CheckoutForm {
  import opened Basics
  import opened Text
  import Storefront

  /** The form's thirteen inputs, all strings as the inputs deliver them. */
  datatype Form = Form(
    email: string, password: string, name: string, phone: string,
    addressType: string, address: string, city: string, pincode: string,
    paymentMethod: string, cardNumber: string, expiry: string, cvv: string,
    upiId: string)

  /** The initial form state. */
  const EmptyForm := Form("", "", "", "", "Home", "", "", "", "card", "", "", "", "")

  /** The fields that can carry an error message. */
  datatype Field = Email | Password | Name | Phone | Address | City | Pincode
                 | CardNumber | Expiry | Cvv | UpiId

  const AllFields: set<Field> :=
    {Email, Password, Name, Phone, Address, City, Pincode, CardNumber, Expiry, Cvv, UpiId}

  /** `AllFields` lists every field. */
  lemma FieldListed(field: Field)
    ensures field in AllFields
  {
    match field
    case Email => case Password => case Name => case Phone => case Address => case City =>
    case Pincode => case CardNumber => case Expiry => case Cvv => case UpiId =>
  }

  // ---------------------------------------------------------------------
  // The e-mail pattern ^[^\s@]+@[^\s@]+\.[^\s@]+$
  // ---------------------------------------------------------------------

  /** A character of `[^\s@]`. */
  predicate PlainChar(c: char) {
    !IsJsSpace(c) && c != '@'
  }

  predicate AllPlain(s: string) {
    forall k :: 0 <= k < |s| ==> PlainChar(s[k])
  }

  /** `s` splits as local part, '@' at `i`, domain, '.' at `j`, suffix,
      each part non-empty and made of `[^\s@]` (a '.' is one of those). */
  ghost predicate EmailSplit(s: string, i: int, j: int) {
    0 < i && i + 1 < j && j + 1 < |s| && s[i] == '@' && s[j] == '.' &&
    forall k :: 0 <= k < |s| && k != i ==> PlainChar(s[k])
  }

  /** The language of the pattern. */
  ghost predicate EmailShape(s: string) {
    exists i, j :: EmailSplit(s, i, j)
  }

  /** Some '.' sits strictly inside `r`, neither first nor last. */
  predicate InnerDot(r: string) {
    |r| >= 3 && '.' in r[1..|r| - 1]
  }

  /** The pattern test as a scan: one '@' with plain text before it, and
      plain text after it holding an inner '.'. */
  predicate MatchesEmail(s: string)
    ensures MatchesEmail(s) ==> |s| >= 5
  {
    '@' in s &&
    var i := IndexOf('@', s);
    i > 0 && AllPlain(s[..i]) && AllPlain(s[i + 1..]) && InnerDot(s[i + 1..])
  }

  /** The scan accepts exactly the strings the pattern describes. */
  lemma MatchesEmailIffShape(s: string)
    ensures MatchesEmail(s) <==> EmailShape(s)
  {
    if MatchesEmail(s) {
      var i := IndexOf('@', s);
      var r := s[i + 1..];
      var d := IndexOf('.', r[1..|r| - 1]);
      var j := i + 2 + d;
      assert s[j] == r[1..|r| - 1][d];
      forall k | 0 <= k < |s| && k != i ensures PlainChar(s[k]) {
        if k < i { assert s[k] == s[..i][k]; } else { assert s[k] == r[k - i - 1]; }
      }
      assert EmailSplit(s, i, j);
    }
    if EmailShape(s) {
      var i, j :| EmailSplit(s, i, j);
      assert '@' in s by { assert s[i] == '@'; }
      var at := IndexOf('@', s);
      assert at == i;
      var r := s[i + 1..];
      assert AllPlain(s[..i]) by {
        forall k | 0 <= k < i ensures PlainChar(s[..i][k]) { assert s[..i][k] == s[k]; }
      }
      assert AllPlain(r) by {
        forall k | 0 <= k < |r| ensures PlainChar(r[k]) { assert r[k] == s[i + 1 + k]; }
      }
      assert r[1..|r| - 1][j - i - 2] == '.';
    }
  }

  /** An address the pattern accepts is never blank. */
  lemma EmailShapeNotBlank(s: string)
    requires EmailShape(s)
    ensures !IsBlank(s)
  {
    var i, j :| EmailSplit(s, i, j);
    BlankIffAllSpace(s);
    assert !IsJsSpace(s[0]);
  }

  // ---------------------------------------------------------------------
  // The other patterns
  // ---------------------------------------------------------------------

  /** `^\d{2}\/\d{2}$`. */
  predicate ExpiryOk(s: string) {
    |s| == 5 && ExactDigits(s[..2], 2) && s[2] == '/' && ExactDigits(s[3..], 2)
  }

  lemma ExpiryOkShape(s: string)
    ensures ExpiryOk(s) <==>
      |s| == 5 && IsDigit(s[0]) && IsDigit(s[1]) && s[2] == '/' && IsDigit(s[3]) && IsDigit(s[4])
  {
    if |s| == 5 {
      assert s[..2][0] == s[0] && s[..2][1] == s[1];
      assert s[3..][0] == s[3] && s[3..][1] == s[4];
    }
  }

  // ---------------------------------------------------------------------
  // validate()
  // ---------------------------------------------------------------------

  /** The message `validate` records for one field, if any, in the order
      and with the wording of the source. */
  function Check(f: Form, field: Field): (r: Option<string>)
    ensures f.paymentMethod != "card" && field in {CardNumber, Expiry, Cvv} ==> r.None?
    ensures f.paymentMethod != "upi" && field == UpiId ==> r.None?
  {
    match field
    case Email =>
      if IsBlank(f.email) then Some("Email is required")
      else if !MatchesEmail(f.email) then Some("Invalid email")
      else None
    case Password =>
      if f.password == [] || Utf16Length(f.password) < 6 then Some("Enter password (min 6 chars)") else None
    case Name => if IsBlank(f.name) then Some("Full name required") else None
    case Phone => if !ExactDigits(f.phone, 10) then Some("Phone must be 10 digits") else None
    case Address => if IsBlank(f.address) then Some("Address required") else None
    case City => if IsBlank(f.city) then Some("City required") else None
    case Pincode => if !ExactDigits(f.pincode, 6) then Some("Pincode must be 6 digits") else None
    case CardNumber =>
      if f.paymentMethod == "card" && !ExactDigits(f.cardNumber, 16) then Some("Card number must be 16 digits")
      else None
    case Expiry =>
      if f.paymentMethod == "card" && !ExpiryOk(f.expiry) then Some("Expiry must be MM/YY") else None
    case Cvv =>
      if f.paymentMethod == "card" && !ExactDigits(f.cvv, 3) then Some("CVV must be 3 digits") else None
    case UpiId =>
      if f.paymentMethod == "upi" && IsBlank(f.upiId) then Some("Enter UPI ID") else None
  }

  /** `newErrors`: every field whose check fails, with its message. */
  function Errors(f: Form): (e: map<Field, string>)
    ensures forall field :: field in e <==> Check(f, field).Some?
    ensures forall field :: field in e ==> e[field] == Check(f, field).value
  {
    assert forall field :: field in AllFields by {
      forall field ensures field in AllFields { FieldListed(field); }
    }
    map field | field in AllFields && Check(f, field).Some? :: Check(f, field).value
  }

  /** The e-mail rule: an error exactly when the address is not in the
      pattern's language, reading "Email is required" exactly when it is
      all white space. */
  lemma EmailErrorSpec(f: Form)
    ensures Check(f, Email).Some? <==> !EmailShape(f.email)
    ensures Check(f, Email) == Some("Email is required") <==> AllSpace(f.email)
  {
    MatchesEmailIffShape(f.email);
    BlankIffAllSpace(f.email);
    if EmailShape(f.email) {
      EmailShapeNotBlank(f.email);
    }
  }

  /** The login and delivery rules: an error for a field exactly when its
      rule fails. */
  lemma ContactErrorsSpec(f: Form)
    ensures Check(f, Password).Some? <==> Utf16Length(f.password) < 6
    ensures Check(f, Name).Some? <==> AllSpace(f.name)
    ensures Check(f, Phone).Some? <==> !ExactDigits(f.phone, 10)
    ensures Check(f, Address).Some? <==> AllSpace(f.address)
    ensures Check(f, City).Some? <==> AllSpace(f.city)
    ensures Check(f, Pincode).Some? <==> !ExactDigits(f.pincode, 6)
  {
    BlankIffAllSpace(f.name);
    BlankIffAllSpace(f.address);
    BlankIffAllSpace(f.city);
  }

  /** The payment rules: card fields are checked only for "card", the UPI
      id only for "upi". */
  lemma PaymentErrorsSpec(f: Form)
    ensures Check(f, CardNumber).Some? <==> f.paymentMethod == "card" && !ExactDigits(f.cardNumber, 16)
    ensures Check(f, Expiry).Some? <==> (f.paymentMethod == "card" &&
      !(|f.expiry| == 5 && IsDigit(f.expiry[0]) && IsDigit(f.expiry[1]) && f.expiry[2] == '/' &&
        IsDigit(f.expiry[3]) && IsDigit(f.expiry[4])))
    ensures Check(f, Cvv).Some? <==> f.paymentMethod == "card" && !ExactDigits(f.cvv, 3)
    ensures Check(f, UpiId).Some? <==> f.paymentMethod == "upi" && AllSpace(f.upiId)
  {
    BlankIffAllSpace(f.upiId);
    ExpiryOkShape(f.expiry);
  }

  /** A form whose method is neither "card" nor "upi" (cash on delivery)
      gets no payment errors at all. */
  lemma OtherMethodNoPaymentErrors(f: Form)
    requires f.paymentMethod != "card" && f.paymentMethod != "upi"
    ensures CardNumber !in Errors(f) && Expiry !in Errors(f) && Cvv !in Errors(f) && UpiId !in Errors(f)
  {
  }

  /** `validate()`: true exactly when no field error was recorded. */
  function Validate(f: Form): (ok: bool)
    ensures ok <==> Errors(f) == map[]
    ensures ok <==> forall field :: Check(f, field).None?
  {
    if exists field :: Check(f, field).Some? then
      var field :| Check(f, field).Some?;
      assert field in Errors(f);
      false
    else
      true
  }

  /** Every check passes exactly when each of the eleven does. */
  lemma AllChecksPass(f: Form)
    ensures (forall field :: Check(f, field).None?) <==>
      Check(f, Email).None? && Check(f, Password).None? && Check(f, Name).None? &&
      Check(f, Phone).None? && Check(f, Address).None? && Check(f, City).None? &&
      Check(f, Pincode).None? && Check(f, CardNumber).None? && Check(f, Expiry).None? &&
      Check(f, Cvv).None? && Check(f, UpiId).None?
  {
    if Check(f, Email).None? && Check(f, Password).None? && Check(f, Name).None? &&
       Check(f, Phone).None? && Check(f, Address).None? && Check(f, City).None? &&
       Check(f, Pincode).None? && Check(f, CardNumber).None? && Check(f, Expiry).None? &&
       Check(f, Cvv).None? && Check(f, UpiId).None?
    {
      forall field ensures Check(f, field).None? {
        match field
        case Email =>
        case Password =>
        case Name =>
        case Phone =>
        case Address =>
        case City =>
        case Pincode =>
        case CardNumber =>
        case Expiry =>
        case Cvv =>
        case UpiId =>
      }
    }
  }

  /** `validate()` in the rules' own terms. */
  lemma ValidateSpec(f: Form)
    ensures Validate(f) <==>
      EmailShape(f.email) && Utf16Length(f.password) >= 6 &&
      !AllSpace(f.name) && ExactDigits(f.phone, 10) &&
      !AllSpace(f.address) && !AllSpace(f.city) && ExactDigits(f.pincode, 6) &&
      (f.paymentMethod == "card" ==>
        ExactDigits(f.cardNumber, 16) && ExpiryOk(f.expiry) && ExactDigits(f.cvv, 3)) &&
      (f.paymentMethod == "upi" ==> !AllSpace(f.upiId))
  {
    var pass := forall field :: Check(f, field).None?;
    assert Validate(f) <==> pass;
    AllChecksPass(f);
    EmailErrorSpec(f);
    ContactErrorsSpec(f);
    PaymentErrorsSpec(f);
  }

  /** With "card" preselected, the empty form fails on every field but the
      UPI id. */
  lemma EmptyFormErrors()
    ensures forall field :: field in Errors(EmptyForm) <==> field != UpiId
  {
    assert !EmailShape("") by { MatchesEmailIffShape(""); }
    EmailErrorSpec(EmptyForm);
    ContactErrorsSpec(EmptyForm);
    PaymentErrorsSpec(EmptyForm);
  }

  // ---------------------------------------------------------------------
  // The order id
  // ---------------------------------------------------------------------

  /** `ORD${Date.now().toString().slice(-6)}${r}` with
      `r = Math.floor(Math.random() * 9000) + 1000`; `draw` is the floor of
      the random product, so `r = draw + 1000`. */
  function OrderId(now: nat, draw: nat): (id: string)
    requires draw < 9000
    ensures |id| >= 3 && id[..3] == "ORD"
  {
    "ORD" + Last(NatToString(now), 6) + NatToString(draw + 1000)
  }

  /** For a clock of at least six digits the id is "ORD", then the clock's
      last six digits, then the four digits of `draw + 1000`; reading the
      digits back recovers both numbers. */
  lemma OrderIdShape(now: nat, draw: nat)
    requires draw < 9000 && now >= 100000
    ensures |OrderId(now, draw)| == 13
    ensures AllDigits(OrderId(now, draw)[3..])
    ensures DigitsValue(OrderId(now, draw)[3..9]) == now % 1000000
    ensures DigitsValue(OrderId(now, draw)[9..]) == draw + 1000
    ensures 1000 <= DigitsValue(OrderId(now, draw)[9..]) <= 9999
  {
    var id := OrderId(now, draw);
    var t := NatToString(now);
    var r := NatToString(draw + 1000);
    assert Pow10(5) == 100000;
    NatToStringAtLeast(now, 6);
    NatToStringLength(draw + 1000, 4);
    DigitsRoundTrip(draw + 1000);
    SuffixValue(now, 6);
    var tail := Last(t, 6);
    assert tail == Suffix(now, 6);
    assert Pow10(6) == 1000000;
    assert id == "ORD" + tail + r;
    assert id[3..9] == tail;
    assert id[9..] == r;
    assert id[3..] == tail + r;
  }

  // ---------------------------------------------------------------------
  // The amounts on the slip
  // ---------------------------------------------------------------------

  /** `(it.qty || 1)`: a missing or zero quantity counts as one. */
  function QtyOrOne(qty: int): int {
    if qty == 0 then 1 else qty
  }

  /** `itemTotal`: the sum of `(price || 0) * (qty || 1)`; a zero price is
      zero either way. */
  function ItemTotal(items: seq<Storefront.Line>): (t: int)
    ensures (forall i :: 0 <= i < |items| ==> items[i].product.price >= 0 && items[i].qty >= 0) ==> t >= 0
  {
    if items == [] then 0
    else items[0].product.price * QtyOrOne(items[0].qty) + ItemTotal(items[1..])
  }

  /** On a cart whose lines all hold units, the modal's own sum agrees with
      the shop's `getTotal()`. */
  lemma {:induction false} ItemTotalIsTotal(items: seq<Storefront.Line>)
    requires forall i :: 0 <= i < |items| ==> items[i].qty != 0
    ensures ItemTotal(items) == Storefront.Total(items)
  {
    if items != [] {
      ItemTotalIsTotal(items[1..]);
    }
  }

  /** A row of the slip's item list; the placeholder row has no quantity. */
  datatype DisplayItem = DisplayItem(name: string, price: int, qty: Option<int>)

  function AsDisplay(items: seq<Storefront.Line>): (r: seq<DisplayItem>)
    ensures |r| == |items|
    ensures forall i :: 0 <= i < |items| ==>
      r[i] == DisplayItem(items[i].product.name, items[i].product.price, Some(items[i].qty))
  {
    seq(|items|, i requires 0 <= i < |items| =>
      DisplayItem(items[i].product.name, items[i].product.price, Some(items[i].qty)))
  }

  /** `displayItems`: the items, or one "Items" row priced at the total
      when there are none. */
  function DisplayItems(items: seq<Storefront.Line>, total: int): (r: seq<DisplayItem>)
    ensures |r| >= 1
    ensures items != [] ==> |r| == |items|
    ensures items != [] ==> forall i :: 0 <= i < |items| ==>
      r[i] == DisplayItem(items[i].product.name, items[i].product.price, Some(items[i].qty))
    ensures items == [] ==> r == [DisplayItem("Items", total, None)]
  {
    if |items| > 0 then AsDisplay(items) else [DisplayItem("Items", total, None)]
  }

  /** What a displayed row contributes: price times `qty || 1`. */
  function RowsValue(rows: seq<DisplayItem>): int {
    if rows == [] then 0
    else
      var q := if rows[0].qty.Some? then QtyOrOne(rows[0].qty.value) else 1;
      rows[0].price * q + RowsValue(rows[1..])
  }

  /** The slip's rows add up to `itemTotal` when there are items and to
      the passed total for the placeholder. */
  lemma DisplayItemsValue(items: seq<Storefront.Line>, total: int)
    ensures RowsValue(DisplayItems(items, total)) == if items == [] then total else ItemTotal(items)
  {
    if items != [] {
      AsDisplayValue(items);
    }
  }

  lemma {:induction false} AsDisplayValue(items: seq<Storefront.Line>)
    ensures RowsValue(AsDisplay(items)) == ItemTotal(items)
  {
    if items != [] {
      AsDisplayValue(items[1..]);
      assert AsDisplay(items)[1..] == AsDisplay(items[1..]);
    }
  }

  /** The slip's "Subtotal" (`itemTotal || total`) and "Total"
      (`total || itemTotal`). */
  function SlipAmounts(items: seq<Storefront.Line>, total: int): (r: (int, int))
    ensures ItemTotal(items) != 0 ==> r.0 == ItemTotal(items)
    ensures total != 0 ==> r.1 == total
    ensures ItemTotal(items) == 0 ==> r.0 == total
    ensures total == 0 ==> r.1 == ItemTotal(items)
  {
    (if ItemTotal(items) != 0 then ItemTotal(items) else total,
     if total != 0 then total else ItemTotal(items))
  }

  /** As the shop opens the modal (`total = getTotal()`, `items = cart`)
      on a well-formed cart, subtotal and total both show the cart's
      total. */
  lemma SlipShowsCartTotal(cart: seq<Storefront.Line>)
    requires Storefront.WellFormed(cart)
    ensures SlipAmounts(cart, Storefront.Total(cart)) == (Storefront.Total(cart), Storefront.Total(cart))
  {
    ItemTotalIsTotal(cart);
  }

  // ---------------------------------------------------------------------
  // The step machine
  // ---------------------------------------------------------------------

  datatype Step = FormStep | SlipStep

  /** The modal's local state. */
  datatype Modal = Modal(step: Step, form: Form, errors: map<Field, string>,
                         orderId: Option<string>, orderTime: Option<nat>)

  const Opened := Modal(FormStep, EmptyForm, map[], None, None)

  /** `handlePlaceOrder`: validate; on failure stay on the form with the
      errors shown, on success record an order id and time and show the
      slip. The source reads the clock twice, `Date.now()` for the id and
      `new Date()` for the time, so the two readings are separate
      parameters and need not agree. */
  function PlaceOrder(m: Modal, idClock: nat, placedAt: nat, draw: nat): (r: Modal)
    requires draw < 9000
    ensures r.form == m.form && r.errors == Errors(m.form)
    ensures m.step == FormStep ==> (r.step == SlipStep <==> Validate(m.form))
    ensures !Validate(m.form) ==> r == m.(errors := Errors(m.form))
    ensures Validate(m.form) ==> r.orderId == Some(OrderId(idClock, draw)) && r.orderTime == Some(placedAt)
  {
    var errors := Errors(m.form);
    if !Validate(m.form) then m.(errors := errors)
    else m.(errors := errors, orderId := Some(OrderId(idClock, draw)), orderTime := Some(placedAt), step := SlipStep)
  }

  /** The slip's "Back": return to the form, everything else kept. */
  function Back(m: Modal): (r: Modal)
    ensures r.step == FormStep && r.form == m.form && r.errors == m.errors
    ensures r.orderId == m.orderId && r.orderTime == m.orderTime
  {
    m.(step := FormStep)
  }

  /** What `onSubmit` receives: the form plus the order metadata. */
  datatype Submission = Submission(form: Form, orderId: Option<string>, orderTime: nat,
                                   items: seq<Storefront.Line>, total: int)

  /** A call the modal makes on its parent: `onSubmit(order)` or `onClose()`. */
  datatype Effect = Submit(order: Submission) | Close

  /** `handleFinish`: submit the form with the order id and time (the
      current time when none was recorded), then ask to close, and reset
      the step. The calls on the parent are returned in the order made. */
  function Finish(m: Modal, items: seq<Storefront.Line>, total: int, now: nat): (r: (Modal, seq<Effect>))
    ensures r.0.step == FormStep && r.0.form == m.form
    ensures r.0.errors == m.errors && r.0.orderId == m.orderId && r.0.orderTime == m.orderTime
    ensures |r.1| == 2 && r.1[0].Submit? && r.1[1] == Close
    ensures r.1[0].order.form == m.form && r.1[0].order.orderId == m.orderId
    ensures r.1[0].order.items == items && r.1[0].order.total == total
    ensures r.1[0].order.orderTime == if m.orderTime.Some? then m.orderTime.value else now
  {
    var time := if m.orderTime.Some? then m.orderTime.value else now;
    (m.(step := FormStep), [Submit(Submission(m.form, m.orderId, time, items, total)), Close])
  }

  /** How the shop answers the modal's calls: `onSubmit` is
      `handleCheckout` and `onClose` hides the modal. */
  function Deliver(s: Storefront.Shop, e: Effect): (r: Storefront.Shop)
    ensures !r.showCheckout && r.quantities == s.quantities
    ensures e.Submit? ==> r.cart == [] && !r.showCart
    ensures e == Close ==> r.cart == s.cart && r.showCart == s.showCart
  {
    match e
    case Submit(_) => Storefront.HandleCheckout(s)
    case Close => s.(showCheckout := false)
  }

  /** The shop after the modal's calls, made one after another. */
  function DeliverAll(s: Storefront.Shop, effects: seq<Effect>): (r: Storefront.Shop)
    ensures r.quantities == s.quantities
    ensures effects != [] ==> !r.showCheckout
    ensures r.cart == s.cart || r.cart == []
    decreases |effects|
  {
    if effects == [] then s else DeliverAll(Deliver(s, effects[0]), effects[1..])
  }

  /** Back undoes the step change of a successful place-order, and the
      slip is reached only through a valid form. */
  lemma PlaceThenBack(m: Modal, idClock: nat, placedAt: nat, draw: nat)
    requires draw < 9000 && m.step == FormStep
    ensures Back(PlaceOrder(m, idClock, placedAt, draw)).step == FormStep
    ensures Back(PlaceOrder(m, idClock, placedAt, draw)).form == m.form
    ensures PlaceOrder(m, idClock, placedAt, draw).step == SlipStep ==> Validate(m.form)
  {
  }

  /** A finished order carries the id generated when the form was placed,
      a form that passed validation, and the time of placing. */
  lemma FinishAfterPlace(m: Modal, idClock: nat, placedAt: nat, draw: nat,
                         items: seq<Storefront.Line>, total: int, later: nat)
    requires draw < 9000 && Validate(m.form)
    ensures Finish(PlaceOrder(m, idClock, placedAt, draw), items, total, later).1[0] ==
      Submit(Submission(m.form, Some(OrderId(idClock, draw)), placedAt, items, total))
    ensures Finish(PlaceOrder(m, idClock, placedAt, draw), items, total, later).0.step == FormStep
  {
  }

  /** Finishing an order opened from the shop, which hands the modal its
      cart and `getTotal()`: the order submitted is that cart at its
      total, and afterwards the cart is empty, the cart drawer and the
      modal are both hidden, and the stepper is untouched. */
  lemma {:induction false} FinishFromShop(s: Storefront.Shop, m: Modal, now: nat)
    ensures var fin := Finish(m, s.cart, Storefront.Total(s.cart), now);
      fin.1[0].order.items == s.cart && fin.1[0].order.total == Storefront.Total(s.cart)
    ensures var fin := Finish(m, s.cart, Storefront.Total(s.cart), now);
      var after := DeliverAll(s, fin.1);
      after.cart == [] && !after.showCart && !after.showCheckout && after.quantities == s.quantities
  {
    var fin := Finish(m, s.cart, Storefront.Total(s.cart), now);
    var s1 := Deliver(s, fin.1[0]);
    assert fin.1[1..] == [Close];
    assert DeliverAll(s1, [Close]) == Deliver(s1, Close);
  }
}
