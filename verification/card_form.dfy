/** The card form of the payment modal: the card-number and expiry
    formatters, the change handlers that accept a formatted value only while
    it fits its field, and the pre-submit validator. */
module CardForm {
  import opened Basics
  import opened Text

  /** `digits.replace(/(\d{4})(?=\d)/g, '$1 ')`: a space after every group
      of four digits that another digit follows. */
  function GroupDigits(d: string): (r: string)
    requires AllDigits(d)
    ensures |r| == (if |d| == 0 then 0 else |d| + (|d| - 1) / 4)
    ensures forall i :: 0 <= i < |r| ==> (r[i] == ' ' <==> i % 5 == 4)
    ensures forall i :: 0 <= i < |r| ==> r[i] == ' ' || IsDigit(r[i])
    decreases |d|
  {
    if |d| <= 4 then d
    else
      var rest := GroupDigits(d[4..]);
      var r := d[..4] + " " + rest;
      assert forall i :: 5 <= i < |r| ==> r[i] == rest[i - 5];
      r
  }

  /** Keeping the characters a filter that keeps every digit and drops the
      space selects, from the grouped number, gives back the digits. */
  lemma {:induction false} UngroupWith(d: string, p: char -> bool)
    requires AllDigits(d)
    requires forall c :: IsDigit(c) ==> p(c)
    requires !p(' ')
    ensures Filter(GroupDigits(d), p) == d
    decreases |d|
  {
    if |d| <= 4 {
      FilterAll(d, p);
    } else {
      var head := d[..4];
      var rest := GroupDigits(d[4..]);
      UngroupWith(d[4..], p);
      FilterAll(head, p);
      assert GroupDigits(d) == (head + " ") + rest;
      FilterAppend(head + " ", rest, p);
      FilterAppend(head, " ", p);
      assert Filter(" ", p) == [];
      assert d == head + d[4..];
    }
  }

  /** Removing the spaces, or keeping only the digits, of the grouped
      number gives back the digits. */
  lemma UngroupDigits(d: string)
    requires AllDigits(d)
    ensures StripSpaces(GroupDigits(d)) == d
    ensures Digits(GroupDigits(d)) == d
  {
    UngroupWith(d, NotSpace);
    UngroupWith(d, IsDigit);
  }

  /** `formatCardNumber`: the digits of `value`, grouped by four. */
  function FormatCardNumber(value: string): (r: string)
    ensures forall i :: 0 <= i < |r| ==> r[i] == ' ' || IsDigit(r[i])
    ensures StripSpaces(r) == Digits(value)
    ensures forall i :: 0 <= i < |r| ==> (r[i] == ' ' <==> i % 5 == 4)
  {
    UngroupDigits(Digits(value));
    GroupDigits(Digits(value))
  }

  /** Formatting an already formatted number changes nothing. */
  lemma FormatCardNumberIdempotent(value: string)
    ensures FormatCardNumber(FormatCardNumber(value)) == FormatCardNumber(value)
  {
    UngroupDigits(Digits(value));
  }

  /** The formatted number never starts or ends with a space, and spaces are
      single. */
  lemma FormattedSpacesAreInner(value: string)
    ensures var r := FormatCardNumber(value);
            && (|r| > 0 ==> r[0] != ' ' && r[|r| - 1] != ' ')
            && forall i :: 0 <= i < |r| - 1 ==> !(r[i] == ' ' && r[i + 1] == ' ')
  {
    var r := FormatCardNumber(value);
    var n := |Digits(value)|;
    if |r| > 0 {
      assert |r| == n + (n - 1) / 4;
      assert (|r| - 1) % 5 != 4;
    }
  }

  /** `formatted.length <= 19` holds exactly when the input has at most
      sixteen digits. */
  lemma CardNumberFitsIff(value: string)
    ensures |FormatCardNumber(value)| <= 19 <==> |Digits(value)| <= 16
  {
  }

  /** `formatExpiryDate`: fewer than two digits are kept as they are;
      otherwise the first two digits, a slash, and at most two more. */
  function FormatExpiryDate(value: string): (r: string)
    ensures |Digits(value)| < 2 ==> r == Digits(value)
    ensures |Digits(value)| >= 2 ==> |r| >= 3
    ensures |Digits(value)| >= 2 ==>
      var d := Digits(value);
      && r[..2] == d[..2] && r[2] == '/' && r[3..] <= d[2..] && |r| == 3 + (if |d| < 4 then |d| - 2 else 2)
    ensures |r| <= 5
  {
    var d := Digits(value);
    if |d| >= 2 then d[..2] + "/" + d[2..if |d| < 4 then |d| else 4] else d
  }

  /** The expiry passes the validator's length check (`length >= 5`) exactly
      when the input has at least four digits. */
  lemma ExpiryCompleteIff(value: string)
    ensures |FormatExpiryDate(value)| >= 5 <==> |Digits(value)| >= 4
  {
  }

  datatype CardData = CardData(cardNumber: string, expiryDate: string, cvv: string, cardHolder: string,
                               billingAddress: string)

  const EmptyCard := CardData("", "", "", "", "")

  /** The fields edited through the plain `handleInputChange`. */
  datatype PlainField = Cvv | CardHolder | BillingAddress

  /** The value a plain field holds. */
  function PlainValue(f: CardData, field: PlainField): string {
    match field
    case Cvv => f.cvv
    case CardHolder => f.cardHolder
    case BillingAddress => f.billingAddress
  }

  datatype CardEvent =
    | CardNumberTyped(value: string)
    | ExpiryTyped(value: string)
    | PlainTyped(field: PlainField, value: string)

  /** The form after one input event: the card number and expiry are
      reformatted and kept only if they fit; other fields take the raw value. */
  function OnCardEvent(f: CardData, e: CardEvent): (r: CardData)
    ensures e.CardNumberTyped? ==>
      var formatted := FormatCardNumber(e.value);
      r == if |formatted| <= 19 then f.(cardNumber := formatted) else f
    ensures e.ExpiryTyped? ==> r == f.(expiryDate := FormatExpiryDate(e.value))
    ensures e.PlainTyped? ==> r.cardNumber == f.cardNumber && r.expiryDate == f.expiryDate
    ensures e.PlainTyped? ==>
      && PlainValue(r, e.field) == e.value
      && (e.field != Cvv ==> r.cvv == f.cvv)
      && (e.field != CardHolder ==> r.cardHolder == f.cardHolder)
      && (e.field != BillingAddress ==> r.billingAddress == f.billingAddress)
  {
    match e
    case CardNumberTyped(v) =>
      var formatted := FormatCardNumber(v);
      if |formatted| <= 19 then f.(cardNumber := formatted) else f
    case ExpiryTyped(v) =>
      var formatted := FormatExpiryDate(v);
      if |formatted| <= 5 then f.(expiryDate := formatted) else f
    case PlainTyped(Cvv, v) => f.(cvv := v)
    case PlainTyped(CardHolder, v) => f.(cardHolder := v)
    case PlainTyped(BillingAddress, v) => f.(billingAddress := v)
  }

  /** What the form keeps between events: a formatted card number of at
      most sixteen digits and an expiry of at most five characters. */
  predicate WellFormed(f: CardData) {
    && FormatCardNumber(f.cardNumber) == f.cardNumber
    && |Digits(f.cardNumber)| <= 16
    && |f.expiryDate| <= 5
  }

  lemma OnCardEventKeepsWellFormed(f: CardData, e: CardEvent)
    requires WellFormed(f)
    ensures WellFormed(OnCardEvent(f, e))
  {
    if e.CardNumberTyped? {
      var formatted := FormatCardNumber(e.value);
      if |formatted| <= 19 {
        FormatCardNumberIdempotent(e.value);
        CardNumberFitsIff(e.value);
        assert Digits(formatted) == Digits(e.value);
      }
    }
  }

  function ApplyCardEvents(f: CardData, events: seq<CardEvent>): CardData
    decreases |events|
  {
    if |events| == 0 then f else ApplyCardEvents(OnCardEvent(f, events[0]), events[1..])
  }

  /** Whatever is typed, the card number field holds at most 19 characters
      and the expiry at most 5. */
  lemma {:induction false} TypedFormStaysWellFormed(events: seq<CardEvent>, f: CardData)
    requires WellFormed(f)
    ensures WellFormed(ApplyCardEvents(f, events))
    ensures |ApplyCardEvents(f, events).cardNumber| <= 19
    decreases |events|
  {
    if |events| > 0 {
      OnCardEventKeepsWellFormed(f, events[0]);
      TypedFormStaysWellFormed(events[1..], OnCardEvent(f, events[0]));
    } else {
      CardNumberFitsIff(f.cardNumber);
    }
  }

  lemma EmptyCardWellFormed()
    ensures WellFormed(EmptyCard)
  {
    assert Digits("") == "";
  }

  datatype CardProblem = BadCardNumber | BadExpiry | BadCvv | NoHolder | NoBillingAddress

  function ProblemMessage(p: CardProblem): string {
    match p
    case BadCardNumber => "Please enter a valid card number"
    case BadExpiry => "Please enter a valid expiry date"
    case BadCvv => "Please enter a valid CVV"
    case NoHolder => "Please enter cardholder name"
    case NoBillingAddress => "Please enter billing address"
  }

  /** `validatePaymentData`: the first failing check, in the order card
      number, expiry, CVV, holder, billing address. */
  function ValidatePaymentData(f: CardData): (r: Option<CardProblem>)
    ensures r.None? <==>
      && |StripSpaces(f.cardNumber)| >= 16 && |f.expiryDate| >= 5 && |f.cvv| >= 3
      && !Blank(f.cardHolder) && !Blank(f.billingAddress)
    ensures r == Some(BadCardNumber) <==> |StripSpaces(f.cardNumber)| < 16
    ensures r == Some(BadExpiry) <==> |StripSpaces(f.cardNumber)| >= 16 && |f.expiryDate| < 5
    ensures r == Some(BadCvv) <==> |StripSpaces(f.cardNumber)| >= 16 && |f.expiryDate| >= 5 && |f.cvv| < 3
    ensures r == Some(NoHolder) <==>
      |StripSpaces(f.cardNumber)| >= 16 && |f.expiryDate| >= 5 && |f.cvv| >= 3 && Blank(f.cardHolder)
  {
    TrimEmptyIffBlank(f.cardHolder);
    TrimEmptyIffBlank(f.billingAddress);
    if |StripSpaces(f.cardNumber)| < 16 then Some(BadCardNumber)
    else if |f.expiryDate| < 5 then Some(BadExpiry)
    else if |f.cvv| < 3 then Some(BadCvv)
    else if Trim(f.cardHolder) == "" then Some(NoHolder)
    else if Trim(f.billingAddress) == "" then Some(NoBillingAddress)
    else None
  }

  /** A form filled through the handlers passes the card-number check
      exactly when sixteen digits were typed, and the expiry check exactly
      when four expiry digits were typed. */
  lemma HandlersDecideChecks(f: CardData, number: string, expiry: string)
    requires |FormatCardNumber(number)| <= 19
    ensures var g := OnCardEvent(OnCardEvent(f, CardNumberTyped(number)), ExpiryTyped(expiry));
            && (|StripSpaces(g.cardNumber)| >= 16 <==> |Digits(number)| == 16)
            && (|g.expiryDate| >= 5 <==> |Digits(expiry)| >= 4)
  {
    CardNumberFitsIff(number);
    ExpiryCompleteIff(expiry);
  }
}
