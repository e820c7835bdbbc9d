/** The guest order dialog opened from a product page: a customer without an
    account orders one product, giving contact details and a payment method. */
module GuestOrder {
  import opened Wrappers
  import opened Text
  import opened Constants
  import opened Types

  /** The seven text fields of the dialog. */
  datatype GuestForm = GuestForm(
    name: string,
    phone: string,
    address: string,
    city: string,
    notes: string,
    senderNumber: string,
    transactionId: string)

  const EmptyForm := GuestForm("", "", "", "", "", "", "")

  /** The dialog's state: the fields, the chosen method, and whether an order went through. */
  datatype GuestState = GuestState(form: GuestForm, payment: PaymentMethod, success: bool)

  const InitialState := GuestState(EmptyForm, Cod, false)

  /** Why a submission was refused, in the order the checks run. */
  datatype GuestError = MissingRequired | InvalidPhone | MissingPaymentDetails

  /** The pattern `^01[3-9]\d{8}$`: a Bangladeshi mobile number of eleven digits. */
  predicate IsBangladeshiMobile(s: string) {
    |s| == 11 && s[0] == '0' && s[1] == '1' && '3' <= s[2] <= '9' &&
    forall i :: 3 <= i < 11 ==> IsDigit(s[i])
  }

  /** The regular expression run over `s` left to right, failing at the first
      character the pattern does not allow. */
  method MatchPhonePattern(s: string) returns (ok: bool)
    ensures ok <==> IsBangladeshiMobile(s)
  {
    if |s| != 11 || s[0] != '0' || s[1] != '1' || !('3' <= s[2] <= '9') {
      return false;
    }
    var i := 3;
    while i < 11
      invariant 3 <= i <= 11
      invariant forall k :: 3 <= k < i ==> IsDigit(s[k])
    {
      if !IsDigit(s[i]) {
        return false;
      }
      i := i + 1;
    }
    return true;
  }

  /** The phone check: white space anywhere is ignored, the rest must match the pattern. */
  predicate PhoneAccepted(phone: string) {
    IsBangladeshiMobile(StripSpaces(phone))
  }

  /** The checks of `handleSubmit`, in source order; the first failure decides.
      A field fails `!field.trim()` exactly when it is blank (see `Text.Trim`). */
  function Validate(f: GuestForm, m: PaymentMethod): (r: Result<(), GuestError>)
    ensures r == Err(MissingRequired) <==> Blank(f.name) || Blank(f.phone) || Blank(f.address) || Blank(f.city)
    ensures r == Err(InvalidPhone) <==>
      !Blank(f.name) && !Blank(f.phone) && !Blank(f.address) && !Blank(f.city) && !PhoneAccepted(f.phone)
    ensures r == Err(MissingPaymentDetails) <==>
      !Blank(f.name) && !Blank(f.phone) && !Blank(f.address) && !Blank(f.city) && PhoneAccepted(f.phone) &&
      m.IsWallet() && (Blank(f.senderNumber) || Blank(f.transactionId))
    ensures r.Ok? <==>
      !Blank(f.name) && !Blank(f.phone) && !Blank(f.address) && !Blank(f.city) && PhoneAccepted(f.phone) &&
      (m.IsWallet() ==> !Blank(f.senderNumber) && !Blank(f.transactionId))
  {
    if Blank(f.name) || Blank(f.phone) || Blank(f.address) || Blank(f.city) then
      Err(MissingRequired)
    else if !PhoneAccepted(f.phone) then
      Err(InvalidPhone)
    else if (m == Bkash || m == Nagad) && (Blank(f.senderNumber) || Blank(f.transactionId)) then
      Err(MissingPaymentDetails)
    else
      Ok(())
  }

  /** The order's `notes`: for cash on delivery the customer's notes (or none);
      for a wallet, a payment line naming the wallet, the sender and the
      transaction, after the customer's notes when there are any. */
  function GuestNotes(f: GuestForm, m: PaymentMethod): (r: Option<string>)
    ensures m == Cod ==> (r.None? <==> Blank(f.notes))
    ensures m == Cod && r.Some? ==> r.value == Trim(f.notes)
    ensures m != Cod ==> r.Some?
    ensures m != Cod && Blank(f.notes) ==>
      r == Some(PaymentLine(f, m))
    ensures m != Cod && !Blank(f.notes) ==>
      StartsWith(r.value, Trim(f.notes) + " | ") && r.value[|Trim(f.notes)| + 3..] == PaymentLine(f, m)
  {
    var notes := Trim(f.notes);
    if m != Cod then
      if notes != [] then Some(notes + " | " + PaymentLine(f, m)) else Some(PaymentLine(f, m))
    else if notes != [] then Some(notes)
    else None
  }

  /** The wallet line; sender and transaction id are written as typed, untrimmed. */
  function PaymentLine(f: GuestForm, m: PaymentMethod): string {
    "Payment: " + m.Label() + " | Sender: " + f.senderNumber + " | TxnID: " + f.transactionId
  }

  /** The row handed to the backend for a validated form. */
  function BuildOrder(f: GuestForm, m: PaymentMethod, product: Product, quantity: int): (o: OrderData)
    ensures o.userId.None? && o.isGuest == Some(true)
    ensures o.status == Pending && o.paymentMethod == m.Code()
    ensures |o.items| == 1
    ensures o.items[0] == OrderItem(product.id, product.name, quantity, product.price)
    ensures o.total == o.items[0].price * o.items[0].quantity
    ensures o.guestName == Some(Trim(f.name)) && o.guestPhone == Some(Trim(f.phone))
    ensures o.shippingPhone == Trim(f.phone) && o.shippingAddress == Trim(f.address) && o.shippingCity == Trim(f.city)
    ensures o.notes == GuestNotes(f, m)
  {
    OrderData(
      userId := None,
      isGuest := Some(true),
      guestName := Some(Trim(f.name)),
      guestPhone := Some(Trim(f.phone)),
      items := [OrderItem(product.id, product.name, quantity, product.price)],
      total := product.price * quantity,
      status := Pending,
      paymentMethod := m.Code(),
      shippingAddress := Trim(f.address),
      shippingCity := Trim(f.city),
      shippingPhone := Trim(f.phone),
      notes := GuestNotes(f, m))
  }

  /** The dialog after a submission, and the row sent to the backend, if any. */
  datatype SubmitOutcome = SubmitOutcome(state: GuestState, sent: Option<OrderData>)

  /** `handleSubmit`: validate, then send the built order; `insertOk` is the
      backend's answer. Only a successful insert marks the dialog successful. */
  function Submit(st: GuestState, product: Product, quantity: int, insertOk: bool): (r: SubmitOutcome)
    ensures r.sent.Some? <==> Validate(st.form, st.payment).Ok?
    ensures r.sent.Some? ==> r.sent.value == BuildOrder(st.form, st.payment, product, quantity)
    ensures r.state.form == st.form && r.state.payment == st.payment
    ensures r.state.success <==> st.success || (r.sent.Some? && insertOk)
  {
    match Validate(st.form, st.payment)
    case Err(_) => SubmitOutcome(st, None)
    case Ok(_) =>
      var order := BuildOrder(st.form, st.payment, product, quantity);
      SubmitOutcome(st.(success := st.success || insertOk), Some(order))
  }

  /** `handleClose`: after a successful order every field is cleared and the
      method returns to cash on delivery; otherwise the form is kept as typed. */
  function Close(st: GuestState): (r: GuestState)
    ensures st.success ==> r.form == GuestForm("", "", "", "", "", "", "") && r.payment == Cod && !r.success
    ensures !st.success ==> r == st
  {
    if st.success then InitialState else st
  }

  /** After an order goes through, closing the dialog returns it to its initial
      state; a submission that fails keeps what was typed through the close;
      and closing twice is closing once. */
  lemma CloseAfterSubmit(st: GuestState, product: Product, quantity: int, insertOk: bool)
    ensures Validate(st.form, st.payment).Ok? && insertOk ==>
      Close(Submit(st, product, quantity, insertOk).state) == InitialState
    ensures !st.success && (Validate(st.form, st.payment).Err? || !insertOk) ==>
      Close(Submit(st, product, quantity, insertOk).state) == st
    ensures Close(Close(st)) == Close(st)
  {
  }

  /** A valid number typed with a space inside it passes the phone check, and
      the order stores it with the space still in it: only the ends are trimmed. */
  lemma SpacedPhoneIsStoredWithSpaces(f: GuestForm, m: PaymentMethod, product: Product, quantity: int, digits: string, k: nat)
    requires IsBangladeshiMobile(digits) && 0 < k < |digits|
    requires f.phone == digits[..k] + " " + digits[k..]
    ensures PhoneAccepted(f.phone)
    ensures BuildOrder(f, m, product, quantity).guestPhone == Some(f.phone)
    ensures ' ' in BuildOrder(f, m, product, quantity).guestPhone.value
  {
    var p := f.phone;
    OneGap(digits, k);
    StripSpacesOfOneGap(p, k);
    DigitIsNotSpace(p[0]);
    DigitIsNotSpace(p[|p| - 1]);
    TrimFixedPoint(p);
    assert BuildOrder(f, m, product, quantity).guestPhone == Some(p);
    assert p[k] == ' ';
  }

  /** A mobile number with a space put in at `k`: digits everywhere except at `k`. */
  lemma OneGap(digits: string, k: nat)
    requires IsBangladeshiMobile(digits) && 0 < k < |digits|
    ensures var p := digits[..k] + " " + digits[k..];
      |p| == 12 && p[k] == ' ' && p[..k] + p[k + 1..] == digits &&
      forall i :: 0 <= i < |p| && i != k ==> IsDigit(p[i])
  {
    var p := digits[..k] + " " + digits[k..];
    assert p[..k] == digits[..k] && p[k + 1..] == digits[k..];
    forall i | 0 <= i < |p| && i != k ensures IsDigit(p[i]) {
      var j := if i < k then i else i - 1;
      assert p[i] == digits[j];
    }
  }

  /** Deleting white space from a string of digits with one space at `k`. */
  lemma StripSpacesOfOneGap(s: string, k: nat)
    requires k < |s| && s[k] == ' '
    requires forall i :: 0 <= i < |s| && i != k ==> IsDigit(s[i])
    ensures StripSpaces(s) == s[..k] + s[k + 1..]
  {
    var a, gap, b := s[..k], [s[k]], s[k + 1..];
    assert s == a + (gap + b);
    forall i | 0 <= i < |a|
      ensures !IsSpace(a[i])
    {
      assert a[i] == s[i];
      DigitIsNotSpace(a[i]);
    }
    forall i | 0 <= i < |b|
      ensures !IsSpace(b[i])
    {
      assert b[i] == s[k + 1 + i];
      DigitIsNotSpace(b[i]);
    }
    StripSpacesPieces(a, gap + b);
    StripSpacesPieces(gap, b);
    StripSpacesPieces(b, []);
    assert b + [] == b;
  }
}
