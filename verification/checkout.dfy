/** The checkout page: the shipping form and its validation, the address
    it composes, the total it shows, the three steps, and the payment
    component that validates bank credentials before it offers to pay.
    Server replies arrive as event parameters; lemmas tie them to the
    route models. */
module Checkout {
  import opened Basics
  import opened Text
  import opened Store
  import OrderRoutes
  import PaymentRoutes

  // ---- Shipping form -------------------------------------------------------

  datatype ShippingData = ShippingData(fullName: string, address: string, city: string, state: string,
                                       zipCode: string, phone: string)

  datatype Field = FullName | Address | City | StateField | ZipCode | Phone

  /** The order in which `validateShippingData` checks the fields. */
  const RequiredFields: seq<Field> := [FullName, Address, City, StateField, ZipCode, Phone]

  /** The property name of the field in `shippingData`. */
  function FieldKey(f: Field): string {
    match f
    case FullName => "fullName"
    case Address => "address"
    case City => "city"
    case StateField => "state"
    case ZipCode => "zipCode"
    case Phone => "phone"
  }

  function FieldValue(d: ShippingData, f: Field): string {
    match f
    case FullName => d.fullName
    case Address => d.address
    case City => d.city
    case StateField => d.state
    case ZipCode => d.zipCode
    case Phone => d.phone
  }

  /** `!shippingData[field].trim()`, which holds exactly when the field is
      only whitespace (`TrimEmptyIffBlank`). */
  function IsBlankIn(d: ShippingData): Field -> bool {
    (f: Field) => Blank(FieldValue(d, f))
  }

  /** The message for a missing field: a space before each capital of its
      name, lower-cased, then " is required". */
  function RequiredMessage(f: Field): string {
    ToLowerAscii(SpaceBeforeCapitals(FieldKey(f))) + " is required"
  }

  /** `validateShippingData`: the message for the first field, in form order,
      that is only whitespace; none when every field has content. */
  function ValidateShippingData(d: ShippingData): (r: Option<string>)
    ensures r.None? <==> forall k :: 0 <= k < |RequiredFields| ==> !Blank(FieldValue(d, RequiredFields[k]))
    ensures r.Some? ==>
      exists k :: && 0 <= k < |RequiredFields|
                  && Blank(FieldValue(d, RequiredFields[k]))
                  && (forall j :: 0 <= j < k ==> !Blank(FieldValue(d, RequiredFields[j])))
                  && r.value == RequiredMessage(RequiredFields[k])
  {
    match FirstIndex(RequiredFields, IsBlankIn(d))
    case None => None
    case Some(k) => Some(RequiredMessage(RequiredFields[k]))
  }

  lemma ZipCodeMessage()
    ensures RequiredMessage(ZipCode) == "zip code is required"
  {
    ZipCodeSpelling();
    MessageAtCapital(ZipCode, "zip", 'C', "ode", 'c');
  }

  lemma FullNameMessage()
    ensures RequiredMessage(FullName) == "full name is required"
  {
    FullNameSpelling();
    MessageAtCapital(FullName, "full", 'N', "ame", 'n');
  }

  /** The letters of `zipCode` around its capital, and the words they make. */
  lemma ZipCodeSpelling()
    ensures FieldKey(ZipCode) == "zip" + (['C'] + "ode")
    ensures forall i :: 0 <= i < |"zip"| ==> !IsUpper("zip"[i])
    ensures forall i :: 0 <= i < |"ode"| ==> !IsUpper("ode"[i])
    ensures "zip" + " " + (['c'] + "ode") + " is required" == "zip code is required"
  {
  }

  /** The letters of `fullName` around its capital, and the words they make. */
  lemma FullNameSpelling()
    ensures FieldKey(FullName) == "full" + (['N'] + "ame")
    ensures forall i :: 0 <= i < |"full"| ==> !IsUpper("full"[i])
    ensures forall i :: 0 <= i < |"ame"| ==> !IsUpper("ame"[i])
    ensures "full" + " " + (['n'] + "ame") + " is required" == "full name is required"
  {
  }

  /** The message for a field whose name has one capital, between two runs
      of lower-case letters, names it as two words. */
  lemma MessageAtCapital(f: Field, a: string, c: char, b: string, lower: char)
    requires FieldKey(f) == a + ([c] + b)
    requires forall i :: 0 <= i < |a| ==> !IsUpper(a[i])
    requires forall i :: 0 <= i < |b| ==> !IsUpper(b[i])
    requires IsUpper(c) && lower as int == c as int + 32
    ensures RequiredMessage(f) == a + " " + ([lower] + b) + " is required"
  {
    SplitAtCapital(a, c, b, lower);
  }

  /** A name with one capital, between two runs of lower-case letters, is
      reported as two words. */
  lemma SplitAtCapital(a: string, c: char, b: string, lower: char)
    requires forall i :: 0 <= i < |a| ==> !IsUpper(a[i])
    requires forall i :: 0 <= i < |b| ==> !IsUpper(b[i])
    requires IsUpper(c) && lower as int == c as int + 32
    ensures ToLowerAscii(SpaceBeforeCapitals(a + ([c] + b))) == a + " " + ([lower] + b)
  {
    SpacedAtCapital(a, c, b);
    NoCapitalsUnchanged(a);
    NoCapitalsUnchanged(b);
    LowerSpaced(a, c, b, lower);
  }

  /** The rewrite puts one space before the capital and changes nothing else. */
  lemma SpacedAtCapital(a: string, c: char, b: string)
    requires forall i :: 0 <= i < |a| ==> !IsUpper(a[i])
    requires forall i :: 0 <= i < |b| ==> !IsUpper(b[i])
    requires IsUpper(c)
    ensures SpaceBeforeCapitals(a + ([c] + b)) == a + ([' ', c] + b)
  {
    SpaceBeforeCapitalsAppend(a, [c] + b);
    NoCapitalsUnchanged(a);
    NoCapitalsUnchanged(b);
    SpaceBeforeCapitalsCons(c, b);
  }

  /** Lower-casing then changes only the capital. */
  lemma LowerSpaced(a: string, c: char, b: string, lower: char)
    requires ToLowerAscii(a) == a && ToLowerAscii(b) == b
    requires IsUpper(c) && lower as int == c as int + 32
    ensures ToLowerAscii(a + ([' ', c] + b)) == a + " " + ([lower] + b)
  {
    LowerAfterSpace(c, lower, b);
    ToLowerAsciiAppend(a, [' ', c] + b);
    var lowMid: string := [' ', lower];
    assert a + (lowMid + b) == a + " " + ([lower] + b);
  }

  /** Lower-casing a space, a capital and text that lower-casing keeps. */
  lemma LowerAfterSpace(c: char, lower: char, b: string)
    requires IsUpper(c) && lower as int == c as int + 32
    requires ToLowerAscii(b) == b
    ensures ToLowerAscii([' ', c] + b) == [' ', lower] + b
  {
    var mid: string := [' ', c];
    assert ToLowerAscii(mid) == [' ', lower] by {
      assert ToLowerAscii(mid)[1] as int == c as int + 32;
    }
    ToLowerAsciiAppend(mid, b);
  }

  /** A field with no capital in its name is reported by its name. */
  lemma PlainFieldMessage(f: Field)
    requires f in {Address, City, StateField, Phone}
    ensures RequiredMessage(f) == FieldKey(f) + " is required"
  {
    var key := FieldKey(f);
    assert SpaceBeforeCapitals(key[|key| - 1..]) == key[|key| - 1..];
    assert forall i :: 0 <= i < |key| ==> !IsUpper(key[i]);
    NoCapitalsUnchanged(key);
  }

  /** `lines.join('\n')`. */
  function JoinLines(lines: seq<string>): (r: string)
    requires |lines| >= 1
    ensures |r| >= |lines| - 1
    decreases |lines|
  {
    if |lines| == 1 then lines[0] else lines[0] + "\n" + JoinLines(lines[1..])
  }

  /** Splitting joined lines at newlines gives them back when none of them
      holds a newline of its own. */
  lemma {:induction false} SplitJoinLines(lines: seq<string>)
    requires |lines| >= 1
    requires forall i :: 0 <= i < |lines| ==> '\n' !in lines[i]
    ensures SplitLines(JoinLines(lines)) == lines
    decreases |lines|
  {
    if |lines| == 1 {
      SplitLinesSingle(lines[0]);
    } else {
      SplitJoinLines(lines[1..]);
      SplitLinesCons(lines[0], JoinLines(lines[1..]));
      assert lines == [lines[0]] + lines[1..];
    }
  }

  /** The four lines of the `shippingAddress` the page sends: name, street,
      "city, state zip" and "Phone: phone". */
  function AddressLines(d: ShippingData): (r: seq<string>)
    ensures |r| == 4
  {
    [d.fullName, d.address, d.city + ", " + d.state + " " + d.zipCode, "Phone: " + d.phone]
  }

  function ComposeShippingAddress(d: ShippingData): (r: string)
    ensures r != ""
  {
    JoinLines(AddressLines(d))
  }

  /** Splitting the composed address at newlines gives back the four lines
      when no field holds a newline of its own. */
  lemma ComposedAddressLines(d: ShippingData)
    requires '\n' !in d.fullName && '\n' !in d.address && '\n' !in d.city
    requires '\n' !in d.state && '\n' !in d.zipCode && '\n' !in d.phone
    ensures SplitLines(ComposeShippingAddress(d))
              == [d.fullName, d.address, d.city + ", " + d.state + " " + d.zipCode, "Phone: " + d.phone]
  {
    var lines := AddressLines(d);
    assert '\n' !in ", " && '\n' !in " " && '\n' !in "Phone: ";
    assert '\n' !in lines[2] && '\n' !in lines[3];
    SplitJoinLines(lines);
  }

  /** The server stores the composed address as sent: it is never empty,
      so the "No address provided" default does not apply. */
  lemma ComposedAddressIsStored(d: ShippingData)
    ensures OrderRoutes.AddressOrDefault(Some(ComposeShippingAddress(d))) == ComposeShippingAddress(d)
  {
  }

  /** What pressing "Continue to Payment" does: show an error, or send
      `POST /orders/create`. */
  datatype Submission = Blocked(message: string) | CreateRequest(shippingAddress: string, paymentMethod: string)

  const SelectMethodMessage: string := "Please select a payment method"

  /** `handleCreateOrder` up to the request. */
  function SubmitShipping(d: ShippingData, selectedMethod: string): (r: Submission)
    ensures r.CreateRequest? <==> ValidateShippingData(d).None? && selectedMethod != ""
    ensures ValidateShippingData(d).Some? ==> r == Blocked(ValidateShippingData(d).value)
    ensures ValidateShippingData(d).None? && selectedMethod == "" ==> r == Blocked(SelectMethodMessage)
    ensures r.CreateRequest? ==> r.paymentMethod == selectedMethod && r.shippingAddress == ComposeShippingAddress(d)
  {
    match ValidateShippingData(d)
    case Some(message) => Blocked(message)
    case None =>
      if selectedMethod == "" then Blocked(SelectMethodMessage)
      else CreateRequest(ComposeShippingAddress(d), selectedMethod)
  }

  /** `getOrderTotal`: nothing without a cart; otherwise the cart total, plus
      the cash-on-delivery charge when that method is selected. */
  function GetOrderTotal(cart: Option<Cart>, selectedMethod: string): (r: Money)
    ensures cart.None? ==> r == 0
    ensures cart.Some? ==> r - cart.value.total == (if selectedMethod == "cod" then CodSurcharge else 0)
    ensures cart.Some? && ParseMethod(selectedMethod).Some? ==>
      r == OrderRoutes.OrderTotal(cart.value.total, ParseMethod(selectedMethod).value)
  {
    if cart.None? then 0
    else if selectedMethod == "cod" then cart.value.total + CodSurcharge
    else cart.value.total
  }

  /** The total the page shows before the order exists is the total the
      server gives the order it creates from the same cart. */
  lemma ShownTotalIsOrderTotal(s: State, uid: nat, d: ShippingData, selectedMethod: string, now: Millis,
                               orderNumber: string)
    requires SubmitShipping(d, selectedMethod).CreateRequest?
    requires OrderRoutes.CreateOrder(s, uid, Some(ComposeShippingAddress(d)), selectedMethod, now, orderNumber).reply.Ok?
    ensures var r := OrderRoutes.CreateOrder(s, uid, Some(ComposeShippingAddress(d)), selectedMethod, now, orderNumber);
            && r.state.orders[|s.orders|].total == GetOrderTotal(Some(CartOf(s, uid)), selectedMethod)
            && r.state.orders[|s.orders|].shippingAddress == ComposeShippingAddress(d)
  {
  }

  // ---- Steps ---------------------------------------------------------------

  datatype Step = ShippingStep | PaymentStep | ConfirmationStep

  /** A created order as the create reply carries it. */
  datatype PlacedOrder = PlacedOrder(id: nat, order: Order)

  datatype Page = Page(step: Step, order: Option<PlacedOrder>, paymentResult: Option<PaymentRoutes.Receipt>)

  const StartPage := Page(ShippingStep, None, None)

  /** Which component the page renders. */
  datatype View = ShippingView | PaymentView(placed: PlacedOrder) | ConfirmationView(receipt: PaymentRoutes.Receipt)

  function Render(p: Page): (r: View)
    ensures r.PaymentView? <==> p.step == PaymentStep && p.order.Some?
    ensures r.ConfirmationView? <==> p.step == ConfirmationStep && p.order.Some? && p.paymentResult.Some?
  {
    if p.step == PaymentStep && p.order.Some? then PaymentView(p.order.value)
    else if p.step == ConfirmationStep && p.order.Some? && p.paymentResult.Some? then ConfirmationView(p.paymentResult.value)
    else ShippingView
  }

  /** The replies that move the page: a successful create (lines 77-78) and
      a successful payment (`handlePaymentSuccess`). Each comes from the
      component that is on screen; a reply for a component that is not
      shown changes nothing. */
  datatype PageEvent = OrderCreated(placed: PlacedOrder) | PaymentSucceeded(receipt: PaymentRoutes.Receipt)

  /** The step shown always has the data it needs. */
  predicate StepHasData(p: Page) {
    && (p.step == PaymentStep ==> p.order.Some?)
    && (p.step == ConfirmationStep ==> p.order.Some? && p.paymentResult.Some?)
  }

  function OnPageEvent(p: Page, e: PageEvent): (r: Page)
    ensures StepHasData(p) ==> StepHasData(r)
    ensures (p.order.Some? ==> r.order.Some?) && (p.paymentResult.Some? ==> r.paymentResult.Some?)
    ensures r.step != p.step ==>
      || (e.OrderCreated? && Render(p).ShippingView? && r.step == PaymentStep)
      || (e.PaymentSucceeded? && Render(p).PaymentView? && r.step == ConfirmationStep)
    ensures e.OrderCreated? && Render(p).ShippingView? ==> r == p.(order := Some(e.placed), step := PaymentStep)
    ensures e.PaymentSucceeded? && Render(p).PaymentView? ==>
      r == p.(paymentResult := Some(e.receipt), step := ConfirmationStep)
    ensures (e.OrderCreated? && !Render(p).ShippingView?) || (e.PaymentSucceeded? && !Render(p).PaymentView?) ==>
      r == p
  {
    match e
    case OrderCreated(o) => if Render(p).ShippingView? then p.(order := Some(o), step := PaymentStep) else p
    case PaymentSucceeded(rc) =>
      if Render(p).PaymentView? then p.(paymentResult := Some(rc), step := ConfirmationStep) else p
  }

  /** The page after a sequence of replies, the last one applied last. */
  function RunPage(events: seq<PageEvent>): Page
    decreases |events|
  {
    if |events| == 0 then StartPage else OnPageEvent(RunPage(events[..|events| - 1]), events[|events| - 1])
  }

  predicate CreatedAt(events: seq<PageEvent>, k: int) {
    0 <= k < |events| && events[k].OrderCreated?
  }

  predicate PaidAt(events: seq<PageEvent>, k: int) {
    0 <= k < |events| && events[k].PaymentSucceeded?
  }

  /** The payment step is shown only after an order was created, and the
      confirmation only after a payment succeeded on a created order. */
  lemma {:induction false} StepsFollowReplies(events: seq<PageEvent>)
    ensures Render(RunPage(events)).PaymentView? ==> exists k :: CreatedAt(events, k)
    ensures Render(RunPage(events)).ConfirmationView? ==>
      exists k, j :: PaidAt(events, k) && CreatedAt(events, j) && j < k
    ensures RunPage(events).order.Some? ==> exists k :: CreatedAt(events, k)
    ensures RunPage(events).paymentResult.Some? ==> exists k, j :: PaidAt(events, k) && CreatedAt(events, j) && j < k
    ensures RunPage(events).step == PaymentStep ==> RunPage(events).order.Some?
    ensures RunPage(events).step == ConfirmationStep ==>
      RunPage(events).order.Some? && RunPage(events).paymentResult.Some?
    decreases |events|
  {
    if |events| > 0 {
      var n := |events| - 1;
      var init := events[..n];
      StepsFollowReplies(init);
      var p := RunPage(init);
      assert forall k :: CreatedAt(init, k) ==> CreatedAt(events, k);
      assert forall k :: PaidAt(init, k) ==> PaidAt(events, k);
      if events[n].OrderCreated? && Render(p).ShippingView? {
        assert CreatedAt(events, n);
      }
      if events[n].PaymentSucceeded? && Render(p).PaymentView? {
        var j :| CreatedAt(init, j);
        assert PaidAt(events, n) && CreatedAt(events, j);
      }
    }
  }

  // ---- Payment component ---------------------------------------------------

  /** What the payment component shows above its buttons. */
  datatype Notice = NoNotice | Missing(message: string) | Rejected(error: Error)

  /** `paymentData` with the error text and the `validated` flag. */
  datatype PayForm = PayForm(cardAccount: string, cardPin: string, upiId: string, upiPin: string,
                             notice: Notice, validated: bool)

  const EmptyPayForm := PayForm("", "", "", "", NoNotice, false)

  datatype CredentialField = CardAccount | CardPin | UpiIdField | UpiPin

  const CardMissingMessage: string := "Please enter account number and PIN"
  const UpiMissingMessage: string := "Please enter UPI ID and PIN"

  /** `handleInputChange`: the field takes the value and validation is
      forgotten. */
  function EditField(f: PayForm, field: CredentialField, value: string): (r: PayForm)
    ensures !r.validated && r.notice == f.notice
    ensures Credential(r, field) == value
    ensures forall g :: g != field ==> Credential(r, g) == Credential(f, g)
  {
    match field
    case CardAccount => f.(cardAccount := value, validated := false)
    case CardPin => f.(cardPin := value, validated := false)
    case UpiIdField => f.(upiId := value, validated := false)
    case UpiPin => f.(upiPin := value, validated := false)
  }

  /** The value of one credential input. */
  function Credential(f: PayForm, field: CredentialField): string {
    match field
    case CardAccount => f.cardAccount
    case CardPin => f.cardPin
    case UpiIdField => f.upiId
    case UpiPin => f.upiPin
  }

  /** A call of `POST /payment/validate-card` or `validate-upi`. */
  datatype Check = Check(channel: PaymentRoutes.Channel, key: string, pin: string)

  /** The validation request `validatePayment` makes for the order's method,
      if any: none for a method other than card or UPI, and none when a
      credential is empty. */
  function CheckFor(f: PayForm, payMethod: string): (r: Option<Check>)
    ensures r.Some? <==>
      || (payMethod == "card" && f.cardAccount != "" && f.cardPin != "")
      || (payMethod == "upi" && f.upiId != "" && f.upiPin != "")
    ensures r.Some? && payMethod == "card" ==> r.value == Check(PaymentRoutes.ByAccountNumber, f.cardAccount, f.cardPin)
    ensures r.Some? && payMethod == "upi" ==> r.value == Check(PaymentRoutes.ByUpiId, f.upiId, f.upiPin)
  {
    if payMethod == "card" then
      if f.cardAccount == "" || f.cardPin == "" then None
      else Some(Check(PaymentRoutes.ByAccountNumber, f.cardAccount, f.cardPin))
    else if payMethod == "upi" then
      if f.upiId == "" || f.upiPin == "" then None else Some(Check(PaymentRoutes.ByUpiId, f.upiId, f.upiPin))
    else None
  }

  /** `validatePayment`; `reply` is what the server answers if a request
      is made. */
  function ValidateClick(f: PayForm, payMethod: string, reply: Reply<PaymentRoutes.Validation>): (r: PayForm)
    ensures r.cardAccount == f.cardAccount && r.cardPin == f.cardPin && r.upiId == f.upiId && r.upiPin == f.upiPin
    ensures payMethod == "card" && CheckFor(f, payMethod).None? ==> r == f.(notice := Missing(CardMissingMessage))
    ensures payMethod == "upi" && CheckFor(f, payMethod).None? ==> r == f.(notice := Missing(UpiMissingMessage))
    ensures CheckFor(f, payMethod).Some? ==>
      r == (if reply.Ok? then f.(notice := NoNotice, validated := true) else f.(notice := Rejected(reply.error)))
    ensures payMethod != "card" && payMethod != "upi" ==> r == f.(notice := NoNotice, validated := true)
  {
    if payMethod == "card" || payMethod == "upi" then
      match CheckFor(f, payMethod)
      case None => f.(notice := Missing(if payMethod == "card" then CardMissingMessage else UpiMissingMessage))
      case Some(_) =>
        if reply.Ok? then f.(notice := NoNotice, validated := true) else f.(notice := Rejected(reply.error))
    else f.(notice := NoNotice, validated := true)
  }

  /** The third button: "Confirm COD Order", "Validate Payment Details" or
      "Pay". */
  datatype PayButton = ConfirmCod | ValidateDetails | PayNow

  function ButtonFor(payMethod: string, validated: bool): (r: PayButton)
    ensures r == ConfirmCod <==> payMethod == "cod"
    ensures r == PayNow <==> payMethod != "cod" && validated
    ensures r == ValidateDetails <==> payMethod != "cod" && !validated
  {
    if payMethod == "cod" then ConfirmCod else if !validated then ValidateDetails else PayNow
  }

  /** The `paymentDetails` the pay request carries: the card or UPI fields
      for those methods, an empty object otherwise. */
  function PayDetails(f: PayForm, payMethod: string): (r: PaymentRoutes.Credentials)
    ensures payMethod == "card" ==> r == PaymentRoutes.Credentials(Some(f.cardAccount), None, Some(f.cardPin))
    ensures payMethod == "upi" ==> r == PaymentRoutes.Credentials(None, Some(f.upiId), Some(f.upiPin))
    ensures payMethod != "card" && payMethod != "upi" ==> r == PaymentRoutes.Credentials(None, None, None)
    ensures CheckFor(f, payMethod).Some? ==>
      var c := CheckFor(f, payMethod).value;
      var m := ParseMethod(payMethod).value;
      && m != Cod && PaymentRoutes.ChannelOf(m) == c.channel
      && PaymentRoutes.KeyIn(r, m) == Some(c.key) && r.pin == Some(c.pin)
  {
    if payMethod == "card" then PaymentRoutes.Credentials(Some(f.cardAccount), None, Some(f.cardPin))
    else if payMethod == "upi" then PaymentRoutes.Credentials(None, Some(f.upiId), Some(f.upiPin))
    else PaymentRoutes.Credentials(None, None, None)
  }

  /** The server answer to a check: the validate route on the same
      credentials. */
  function Answer(accounts: seq<Account>, c: Check, verify: Verifier): Reply<PaymentRoutes.Validation> {
    PaymentRoutes.Validate(accounts, c.channel, Some(c.key), Some(c.pin), verify)
  }

  /** Against the real validate route, a check of non-empty credentials
      for a matching active account succeeds exactly when its PIN hash
      verifies; the "required" error the route keeps for empty fields is
      never returned to this component. */
  lemma ClientCheckMatchesServer(accounts: seq<Account>, f: PayForm, payMethod: string, verify: Verifier, i: nat)
    requires CheckFor(f, payMethod).Some? && !f.validated
    requires UniqueAccounts(accounts)
    requires i < |accounts|
    requires PaymentRoutes.Matches(accounts[i], CheckFor(f, payMethod).value.channel, CheckFor(f, payMethod).value.key)
    ensures var c := CheckFor(f, payMethod).value;
            var r := ValidateClick(f, payMethod, Answer(accounts, c, verify));
            && (r.validated <==> verify(c.pin, accounts[i].pinHash))
            && Answer(accounts, c, verify) != Err(AccountAndPinRequired)
            && Answer(accounts, c, verify) != Err(UpiAndPinRequired)
  {
    var c := CheckFor(f, payMethod).value;
    assert c.key != "" && c.pin != "";
    assert PaymentRoutes.Given(Some(c.key)) && PaymentRoutes.Given(Some(c.pin));
  }

  /** A check for a key no active account holds is refused with the
      route's 404 and leaves the form unvalidated. */
  lemma ClientCheckWithoutAccount(accounts: seq<Account>, f: PayForm, payMethod: string, verify: Verifier)
    requires CheckFor(f, payMethod).Some? && !f.validated
    requires forall i :: 0 <= i < |accounts| ==>
      !PaymentRoutes.Matches(accounts[i], CheckFor(f, payMethod).value.channel, CheckFor(f, payMethod).value.key)
    ensures var c := CheckFor(f, payMethod).value;
            && Answer(accounts, c, verify)
               == Err(if c.channel == PaymentRoutes.ByAccountNumber then InvalidAccountNumber else InvalidUpiId)
            && !ValidateClick(f, payMethod, Answer(accounts, c, verify)).validated
  {
    var c := CheckFor(f, payMethod).value;
    assert PaymentRoutes.Given(Some(c.key)) && PaymentRoutes.Given(Some(c.pin));
  }

  /** The pay request carries exactly the credentials the last check sent,
      so a successful check predicts the payment route's authentication. */
  lemma PaySendsCheckedCredentials(f: PayForm, m: Method)
    requires m != Cod
    requires CheckFor(f, MethodName(m)).Some?
    ensures var d := PayDetails(f, MethodName(m));
            var c := CheckFor(f, MethodName(m)).value;
            && PaymentRoutes.ChannelOf(m) == c.channel
            && PaymentRoutes.KeyIn(d, m) == Some(c.key)
            && d.pin == Some(c.pin)
  {
  }

  datatype PayEvent = Edited(field: CredentialField, value: string) | ValidateClicked(reply: Reply<PaymentRoutes.Validation>)

  /** One user action; the validate button is on screen only while it is
      the third button. */
  function OnPayEvent(f: PayForm, payMethod: string, e: PayEvent): (r: PayForm)
    ensures e.Edited? ==> r == EditField(f, e.field, e.value)
    ensures e.ValidateClicked? && ButtonFor(payMethod, f.validated) == ValidateDetails ==>
      r == ValidateClick(f, payMethod, e.reply)
    ensures e.ValidateClicked? && ButtonFor(payMethod, f.validated) != ValidateDetails ==> r == f
    ensures e.Edited? ==> !r.validated
    ensures e.ValidateClicked? ==> SameCredentials(r, f)
    ensures (payMethod == "card" || payMethod == "upi") && r.validated && !f.validated ==>
      e.ValidateClicked? && e.reply.Ok? && CheckFor(f, payMethod).Some?
  {
    match e
    case Edited(field, value) => EditField(f, field, value)
    case ValidateClicked(reply) =>
      if ButtonFor(payMethod, f.validated) == ValidateDetails then ValidateClick(f, payMethod, reply) else f
  }

  function RunPay(f: PayForm, payMethod: string, events: seq<PayEvent>): PayForm
    decreases |events|
  {
    if |events| == 0 then f else OnPayEvent(RunPay(f, payMethod, events[..|events| - 1]), payMethod, events[|events| - 1])
  }

  predicate NoEditsAfter(events: seq<PayEvent>, k: int) {
    forall j :: 0 <= k < j < |events| ==> !events[j].Edited?
  }

  predicate SameCredentials(f: PayForm, g: PayForm) {
    f.cardAccount == g.cardAccount && f.cardPin == g.cardPin && f.upiId == g.upiId && f.upiPin == g.upiPin
  }

  /** Event `k` was a validation request that the server accepted, made
      with the credentials the form holds at the end, none edited since. */
  predicate AcceptedCheckAt(f: PayForm, payMethod: string, events: seq<PayEvent>, k: int) {
    && 0 <= k < |events|
    && events[k].ValidateClicked? && events[k].reply.Ok?
    && CheckFor(RunPay(f, payMethod, events[..k]), payMethod).Some?
    && SameCredentials(RunPay(f, payMethod, events[..k]), RunPay(f, payMethod, events))
    && NoEditsAfter(events, k)
  }

  /** For a card or UPI order, "Pay" is on screen only if some validation
      request succeeded and no field was edited since, so the pay request
      carries the credentials that were checked. */
  lemma {:induction false} PayOnlyAfterValidation(f: PayForm, payMethod: string, events: seq<PayEvent>)
    requires payMethod == "card" || payMethod == "upi"
    requires !f.validated
    ensures ButtonFor(payMethod, RunPay(f, payMethod, events).validated) == PayNow ==>
      exists k :: AcceptedCheckAt(f, payMethod, events, k)
    decreases |events|
  {
    var g := RunPay(f, payMethod, events);
    if |events| > 0 && g.validated {
      var n := |events| - 1;
      var init := events[..n];
      var p := RunPay(f, payMethod, init);
      assert g == OnPayEvent(p, payMethod, events[n]);
      assert !events[n].Edited?;
      assert SameCredentials(p, g);
      if p.validated {
        PayOnlyAfterValidation(f, payMethod, init);
        var k :| AcceptedCheckAt(f, payMethod, init, k);
        assert events[..k] == init[..k];
        assert AcceptedCheckAt(f, payMethod, events, k);
      } else {
        assert AcceptedCheckAt(f, payMethod, events, n);
      }
    }
  }

  /** With the credentials unchanged the pay request carries what was
      checked. */
  lemma CheckedCredentialsAreSent(f: PayForm, g: PayForm, payMethod: string)
    requires SameCredentials(f, g) && CheckFor(f, payMethod).Some?
    ensures CheckFor(g, payMethod) == CheckFor(f, payMethod)
    ensures PayDetails(g, payMethod) == PayDetails(f, payMethod)
  {
  }
}
