/** The storefront's enumerations and the price formatter. */
module Constants {
  import opened Wrappers
  import opened Text
  import opened Seqs

  /** The three payment methods a customer can choose. */
  datatype PaymentMethod = Cod | Bkash | Nagad {
    /** The code stored in an order's `payment_method` column. */
    function Code(): string {
      match this
      case Cod => "cod"
      case Bkash => "bkash"
      case Nagad => "nagad"
    }

    /** The human-readable name shown to customers. */
    function Label(): string {
      match this
      case Cod => "Cash on Delivery"
      case Bkash => "bKash"
      case Nagad => "Nagad"
    }

    /** Mobile-wallet payments, which carry sender and transaction details. */
    predicate IsWallet() {
      Bkash? || Nagad?
    }
  }

  const PaymentMethods: seq<PaymentMethod> := [Cod, Bkash, Nagad]

  /** Reads a stored `payment_method` code back; unknown codes have no method. */
  function ParsePaymentMethod(code: string): (r: Option<PaymentMethod>)
    ensures r.Some? <==> code == Cod.Code() || code == Bkash.Code() || code == Nagad.Code()
    ensures r.Some? ==> r.value.Code() == code
  {
    if code == "cod" then Some(Cod)
    else if code == "bkash" then Some(Bkash)
    else if code == "nagad" then Some(Nagad)
    else None
  }

  /** `PAYMENT_METHOD_LABELS[code]`: the label of a known code, `undefined` otherwise. */
  function LabelOf(code: string): (r: Option<string>)
    ensures r.Some? <==> ParsePaymentMethod(code).Some?
    ensures forall m: PaymentMethod :: m.Code() == code ==> r == Some(m.Label())
  {
    match ParsePaymentMethod(code)
    case Some(m) => Some(m.Label())
    case None => None
  }

  /** Every method's code reads back as that method, and distinct methods have
      distinct codes and distinct labels. */
  lemma PaymentMethodsWellFormed()
    ensures |PaymentMethods| == 3
    ensures forall m: PaymentMethod :: m in PaymentMethods && ParsePaymentMethod(m.Code()) == Some(m)
    ensures forall m: PaymentMethod, n: PaymentMethod :: m != n ==> m.Code() != n.Code() && m.Label() != n.Label()
  {
    forall m: PaymentMethod
      ensures m in PaymentMethods && ParsePaymentMethod(m.Code()) == Some(m)
    {
      match m
      case Cod => assert PaymentMethods[0] == m;
      case Bkash => assert PaymentMethods[1] == m;
      case Nagad => assert PaymentMethods[2] == m;
    }
  }

  const Pending := "pending"
  const Processing := "processing"
  const Delivered := "delivered"
  const Cancelled := "cancelled"

  /** `ORDER_STATUS`: the four values of an order's `status` column. */
  const OrderStatuses: seq<string> := [Pending, Processing, Delivered, Cancelled]

  /** `PERFUME_CATEGORIES`: the product categories, "All" first. */
  const PerfumeCategories: seq<string> :=
    ["All", "For Him", "For Her", "Unisex", "Luxury", "Fresh", "Woody", "Floral"]

  /** The status list holds four distinct values; the category list eight, "All" first. */
  lemma EnumerationsDistinct()
    ensures |OrderStatuses| == 4
    ensures forall i, j :: 0 <= i < j < |OrderStatuses| ==> OrderStatuses[i] != OrderStatuses[j]
    ensures |PerfumeCategories| == 8 && PerfumeCategories[0] == "All"
    ensures forall i, j :: 0 <= i < j < |PerfumeCategories| ==> PerfumeCategories[i] != PerfumeCategories[j]
  {
  }

  /** `CURRENCY`: the taka sign. */
  const Currency: char := '\U{09F3}'

  /** The digit grouping `toLocaleString` applies: `primary` digits at the
      right end, then groups of `secondary`, separated by commas. Which sizes
      the `en-BD` locale uses comes from the runtime's locale data: three and
      three in the common English data, three and two in South Asian data. */
  datatype Grouping = Grouping(primary: nat, secondary: nat) {
    predicate Valid() { primary > 0 && secondary > 0 }
  }

  const Western := Grouping(3, 3)
  const SouthAsian := Grouping(3, 2)

  /** `s` cut into groups of `g` characters from the right, joined by commas. */
  function GroupFrom(s: string, g: nat): string
    requires g > 0
    decreases |s|
  {
    if |s| <= g then s else GroupFrom(s[..|s| - g], g) + "," + s[|s| - g..]
  }

  /** A digit string with the locale's grouping separators. */
  function GroupDigits(d: string, gr: Grouping): string
    requires gr.Valid()
  {
    if |d| <= gr.primary then d
    else GroupFrom(d[..|d| - gr.primary], gr.secondary) + "," + d[|d| - gr.primary..]
  }

  function NotComma(c: char): bool { c != ',' }

  /** The text with its grouping separators taken out. */
  function RemoveCommas(s: string): (r: string)
    ensures NoComma(r)
  {
    Filter(s, NotComma)
  }

  /** No grouping separator anywhere in `s`. */
  predicate NoComma(s: string) {
    forall i :: 0 <= i < |s| ==> s[i] != ','
  }

  lemma NoCommaSplit(s: string, k: nat)
    requires k <= |s| && NoComma(s)
    ensures NoComma(s[..k]) && NoComma(s[k..])
  {
    assert forall i :: 0 <= i < |s| - k ==> s[k..][i] == s[k + i];
  }

  /** Taking the separators out of a comma-joined pair takes them out of each half. */
  lemma RemoveCommasJoin(x: string, y: string)
    ensures RemoveCommas(x + "," + y) == RemoveCommas(x) + RemoveCommas(y)
  {
    FilterConcat(x + ",", y, NotComma);
    FilterConcat(x, ",", NotComma);
    assert Filter(",", NotComma) == [];
  }

  /** A string without separators is left as it is. */
  lemma RemoveCommasNone(s: string)
    requires NoComma(s)
    ensures RemoveCommas(s) == s
  {
    FilterKeepsAll(s, NotComma);
  }

  /** One grouping step undone: a grouped head, a separator and a plain tail
      lose their separators to give head and tail back. */
  lemma RemoveCommasStep(grouped: string, head: string, tail: string)
    requires RemoveCommas(grouped) == head && NoComma(tail)
    ensures RemoveCommas(grouped + "," + tail) == head + tail
  {
    RemoveCommasJoin(grouped, tail);
    RemoveCommasNone(tail);
  }

  /** Taking the separators out of a grouped digit string gives the digits back. */
  lemma {:induction false} GroupFromRemoveCommas(s: string, g: nat)
    requires g > 0 && NoComma(s)
    ensures RemoveCommas(GroupFrom(s, g)) == s
    decreases |s|
  {
    if |s| <= g {
      RemoveCommasNone(s);
    } else {
      var k := |s| - g;
      NoCommaSplit(s, k);
      GroupFromRemoveCommas(s[..k], g);
      RemoveCommasStep(GroupFrom(s[..k], g), s[..k], s[k..]);
      assert s[..k] + s[k..] == s;
    }
  }

  lemma GroupDigitsRemoveCommas(d: string, gr: Grouping)
    requires gr.Valid() && NoComma(d)
    ensures RemoveCommas(GroupDigits(d, gr)) == d
  {
    if |d| > gr.primary {
      var k := |d| - gr.primary;
      NoCommaSplit(d, k);
      GroupFromRemoveCommas(d[..k], gr.secondary);
      RemoveCommasStep(GroupFrom(d[..k], gr.secondary), d[..k], d[k..]);
      assert d[..k] + d[k..] == d;
    } else {
      RemoveCommasNone(d);
    }
  }

  /** The decimal rendering of an integer, with a leading minus sign when negative. */
  function ShowInt(i: int): string {
    if i < 0 then "-" + ShowNat(-i) else ShowNat(i)
  }

  /** `formatPrice(price)`: the taka sign, then the amount grouped as the locale
      groups it, with a minus sign before the digits when negative. */
  function FormatPrice(price: int, gr: Grouping): (r: string)
    requires gr.Valid()
    ensures |r| >= 2 && r[0] == Currency
  {
    var digits := ShowNat(if price < 0 then -price else price);
    [Currency] + (if price < 0 then "-" else "") + GroupDigits(digits, gr)
  }

  /** With the separators taken out, the amount after the taka sign reads back
      as the price, whatever the grouping. */
  lemma FormatPriceRoundTrip(price: int, gr: Grouping)
    requires gr.Valid()
    ensures ParseNumber(RemoveCommas(FormatPrice(price, gr)[1..])) == Num(price)
  {
    UngroupedAmount(price, gr);
    ShowIntTrimmed(price);
    ShowIntSigned(price);
  }

  /** The amount after the taka sign, separators taken out, is the plain rendering. */
  lemma UngroupedAmount(price: int, gr: Grouping)
    requires gr.Valid()
    ensures RemoveCommas(FormatPrice(price, gr)[1..]) == ShowInt(price)
  {
    var n: nat := if price < 0 then -price else price;
    var digits := ShowNat(n);
    var sign: string := if price < 0 then "-" else "";
    var grouped := GroupDigits(digits, gr);
    assert FormatPrice(price, gr) == [Currency] + (sign + grouped);
    assert FormatPrice(price, gr)[1..] == sign + grouped;
    DigitsHaveNoComma(digits);
    GroupDigitsRemoveCommas(digits, gr);
    FilterConcat(sign, grouped, NotComma);
    RemoveCommasNone(sign);
    assert ShowInt(price) == sign + digits;
  }

  lemma DigitsHaveNoComma(d: string)
    requires forall i :: 0 <= i < |d| ==> IsDigit(d[i])
    ensures NoComma(d)
  {
    forall i | 0 <= i < |d| ensures d[i] != ',' {
      assert IsDigit(d[i]);
    }
  }

  /** The two groupings part a seven-digit amount differently. */
  lemma GroupingsOfSevenDigits()
    ensures GroupDigits("1234567", Western) == "1,234,567"
    ensures GroupDigits("1234567", SouthAsian) == "12,34,567"
  {
    var d := "1234567";
    assert d[..4] == "1234" && d[4..] == "567";
    assert "1234"[..1] == "1" && "1234"[1..] == "234";
    assert GroupFrom("1", 3) == "1";
    assert GroupFrom("1234", 3) == "1,234";
    assert "1234"[..2] == "12" && "1234"[2..] == "34";
    assert GroupFrom("12", 2) == "12";
    assert GroupFrom("1234", 2) == "12,34";
  }

  /** Below a thousand there is nothing to group: the sign and the digits as they are. */
  lemma SmallPricesHaveNoSeparator(price: nat, gr: Grouping)
    requires gr.Valid() && gr.primary >= 3 && price < 1000
    ensures FormatPrice(price, gr) == [Currency] + ShowNat(price)
  {
    ShowNatBelowThousand(price);
  }

  lemma ShowNatBelowThousand(n: nat)
    requires n < 1000
    ensures |ShowNat(n)| <= 3
  {
    if n >= 10 {
      ShowNatBelowThousand(n / 10);
    }
  }

  lemma ShowIntTrimmed(i: int)
    ensures ShowInt(i) != [] && Trim(ShowInt(i)) == ShowInt(i)
  {
    var body := ShowInt(i);
    var digits := ShowNat(if i < 0 then -i else i);
    assert IsDigit(digits[0]) && IsDigit(body[|body| - 1]);
    assert !IsSpace(body[0]) && !IsSpace(body[|body| - 1]);
    TrimFixedPoint(body);
  }

  lemma ShowIntSigned(i: int)
    ensures ShowInt(i) != [] && ParseSigned(ShowInt(i)) == Num(i)
  {
    var n: nat := if i < 0 then -i else i;
    var digits := ShowNat(n);
    DigitsValueShowNat(n);
    assert IsDigit(digits[0]);
    if i < 0 {
      assert ShowInt(i)[1..] == digits;
    }
  }
}
