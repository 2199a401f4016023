/** The payment routes against the mock bank: `POST /validate-card`,
    `POST /validate-upi` and `POST /process/:orderId`. PIN checking is the
    `Verifier` parameter; the transaction id and the clock are inputs. */
module PaymentRoutes {
  import opened Basics
  import opened Store

  /** Which unique column a bank account is looked up by. */
  datatype Channel = ByAccountNumber | ByUpiId

  function KeyOf(a: Account, c: Channel): string {
    if c == ByAccountNumber then a.accountNumber else a.upiId
  }

  /** `Bank.findOne({ where: { <column>: key, isActive: true } })`. */
  predicate Matches(a: Account, c: Channel, key: string) {
    a.isActive && KeyOf(a, c) == key
  }

  function FindAccount(accounts: seq<Account>, c: Channel, key: string): (r: Option<nat>)
    ensures r.None? <==> forall i :: 0 <= i < |accounts| ==> !Matches(accounts[i], c, key)
    ensures r.Some? ==>
      && r.value < |accounts| && Matches(accounts[r.value], c, key)
      && forall j :: 0 <= j < r.value ==> !Matches(accounts[j], c, key)
  {
    FirstIndex(accounts, (a: Account) => Matches(a, c, key))
  }

  /** A request field that JavaScript treats as present: defined and not empty. */
  predicate Given(x: Option<string>) {
    x.Some? && x.value != ""
  }

  /** The outcome of looking up an account and checking a PIN against it. */
  datatype Auth = Authenticated(index: nat) | NoAccount | PinMissing | WrongPin

  /** The lookup-then-`bcrypt.compare` step shared by validation and
      processing; a missing PIN is noticed only after the lookup, when
      `pin.toString()` is called. */
  function Authenticate(accounts: seq<Account>, c: Channel, key: string, pin: Option<string>, verify: Verifier): (r: Auth)
    ensures r.NoAccount? <==> FindAccount(accounts, c, key).None?
    ensures r.Authenticated? ==>
      && r.index < |accounts| && Matches(accounts[r.index], c, key) && pin.Some?
      && verify(pin.value, accounts[r.index].pinHash)
    ensures FindAccount(accounts, c, key).Some? ==>
      var i := FindAccount(accounts, c, key).value;
      && (pin.None? <==> r.PinMissing?)
      && (pin.Some? ==> (r.Authenticated? <==> verify(pin.value, accounts[i].pinHash)))
      && (r.Authenticated? ==> r.index == i)
  {
    match FindAccount(accounts, c, key)
    case None => NoAccount
    case Some(i) =>
      if pin.None? then PinMissing
      else if !verify(pin.value, accounts[i].pinHash) then WrongPin
      else Authenticated(i)
  }

  /** `accountNumber.slice(0, 4) + '****' + accountNumber.slice(-4)`. */
  function Mask(n: string): (r: string)
    ensures |n| >= 4 ==> |r| == 12 && r[..4] == n[..4] && r[4..8] == "****" && r[8..] == n[|n| - 4..]
    ensures |n| < 4 ==> r == n + "****" + n
  {
    var k := if |n| < 4 then |n| else 4;
    n[..k] + "****" + n[|n| - k..]
  }

  /** The masked account number depends only on the first and last four
      characters: the digits in between are never revealed. */
  lemma MaskHidesMiddle(a: string, b: string)
    requires |a| >= 4 && |b| >= 4
    requires a[..4] == b[..4] && a[|a| - 4..] == b[|b| - 4..]
    ensures Mask(a) == Mask(b)
  {
  }

  /** The body of a successful validation: holder, bank, balance, and the
      masked account number or the UPI id. */
  datatype Validation = Validation(holderName: string, bankName: string, balance: Money, shown: string)

  /** `POST /validate-card` and `POST /validate-upi`. Both fields are
      required; the account must be active; the PIN must verify. Validation
      only reads, so its result is a reply alone. */
  function Validate(accounts: seq<Account>, c: Channel, key: Option<string>, pin: Option<string>, verify: Verifier): (r: Reply<Validation>)
    ensures !Given(key) || !Given(pin) ==>
      r == Err(if c == ByAccountNumber then AccountAndPinRequired else UpiAndPinRequired)
    ensures Given(key) && Given(pin) && (forall i :: 0 <= i < |accounts| ==> !Matches(accounts[i], c, key.value)) ==>
      r == Err(if c == ByAccountNumber then InvalidAccountNumber else InvalidUpiId)
    ensures r.Ok? ==>
      exists i :: && 0 <= i < |accounts| && Matches(accounts[i], c, key.value)
                  && verify(pin.value, accounts[i].pinHash)
                  && r.value == Validation(accounts[i].holderName, accounts[i].bankName, accounts[i].balance,
                                           if c == ByAccountNumber then Mask(key.value) else key.value)
    ensures Given(key) && Given(pin) && UniqueAccounts(accounts) ==>
      forall i :: 0 <= i < |accounts| && Matches(accounts[i], c, key.value) ==>
        (r.Ok? <==> verify(pin.value, accounts[i].pinHash))
        && (!r.Ok? ==> r == Err(if c == ByAccountNumber then InvalidPin else InvalidUpiPin))
  {
    if !Given(key) || !Given(pin) then
      Err(if c == ByAccountNumber then AccountAndPinRequired else UpiAndPinRequired)
    else
      match Authenticate(accounts, c, key.value, pin, verify)
      case NoAccount => Err(if c == ByAccountNumber then InvalidAccountNumber else InvalidUpiId)
      case PinMissing => Err(ServerError)
      case WrongPin => Err(if c == ByAccountNumber then InvalidPin else InvalidUpiPin)
      case Authenticated(i) =>
        var a := accounts[i];
        Ok(Validation(a.holderName, a.bankName, a.balance,
                      if c == ByAccountNumber then Mask(key.value) else key.value))
  }

  /** The `paymentDetails` body of a process request. */
  datatype Credentials = Credentials(accountNumber: Option<string>, upiId: Option<string>, pin: Option<string>)

  function ChannelOf(m: Method): Channel {
    if m == Upi then ByUpiId else ByAccountNumber
  }

  function KeyIn(d: Credentials, m: Method): Option<string> {
    if m == Upi then d.upiId else d.accountNumber
  }

  /** The `payment` part of a successful reply. */
  datatype Receipt = Receipt(
    message: string,
    order: Order,
    transactionId: string,
    via: string,
    amount: Money,
    currency: string,
    status: string,
    remainingBalance: Option<Money>)

  function SuccessMessage(m: Method): string {
    match m
    case Cod => "COD order confirmed"
    case Card => "Payment successful"
    case Upi => "UPI payment successful"
  }

  /** Five days for cash on delivery, three for prepaid orders. */
  function DeliveryDays(m: Method): nat {
    if m == Cod then 5 else 3
  }

  /** The order `findOne` selects: the caller's, and still pending on both
      the order status and the payment status. */
  predicate Payable(s: State, uid: nat, orderId: nat) {
    && orderId < |s.orders|
    && s.orders[orderId].userId == uid
    && s.orders[orderId].status == OrderPending
    && s.orders[orderId].paymentStatus == PaymentPending
  }

  /** The product table after the stock loop, and whether the loop ran to the end. */
  datatype StockUpdate = StockUpdate(products: seq<Product>, complete: bool)

  predicate Mentions(items: seq<OrderItem>, p: nat) {
    exists k :: 0 <= k < |items| && items[k].productId == p
  }

  /** The stock loop: each item's product gets the stock read when the order
      was looked up (`snapshot`) minus the item's quantity. A missing product
      stops the loop with the earlier writes kept. */
  function ApplyStock(snapshot: seq<Product>, current: seq<Product>, items: seq<OrderItem>): (r: StockUpdate)
    requires |snapshot| == |current|
    ensures |r.products| == |current|
    ensures r.complete <==> forall k :: 0 <= k < |items| ==> items[k].productId < |snapshot|
    ensures forall p :: 0 <= p < |current| && !Mentions(items, p) ==> r.products[p] == current[p]
    decreases |items|
  {
    if |items| == 0 then StockUpdate(current, true)
    else
      var it := items[0];
      if it.productId >= |snapshot| then StockUpdate(current, false)
      else
        var p := snapshot[it.productId];
        var rest := ApplyStock(snapshot, current[it.productId := p.(stock := p.stock - it.quantity)], items[1..]);
        assert forall q :: Mentions(items[1..], q) ==> Mentions(items, q) by {
          forall q | Mentions(items[1..], q) ensures Mentions(items, q) {
            var k :| 0 <= k < |items[1..]| && items[1..][k].productId == q;
            assert items[k + 1].productId == q;
          }
        }
        assert forall k :: 1 <= k < |items| ==> items[k] == items[1..][k - 1];
        rest
  }

  /** When every product exists and no product appears twice, each ordered
      product ends with its snapshot stock minus its ordered quantity. */
  lemma {:induction false} StockAfterPayment(snapshot: seq<Product>, current: seq<Product>, items: seq<OrderItem>, k: nat)
    requires |snapshot| == |current|
    requires DistinctItemProducts(items)
    requires k < |items| && items[k].productId < |snapshot|
    requires forall j :: 0 <= j < k ==> items[j].productId < |snapshot|
    ensures var p := snapshot[items[k].productId];
            ApplyStock(snapshot, current, items).products[items[k].productId] == p.(stock := p.stock - items[k].quantity)
    decreases k
  {
    var it := items[0];
    var p := snapshot[it.productId];
    var next := current[it.productId := p.(stock := p.stock - it.quantity)];
    assert ApplyStock(snapshot, current, items) == ApplyStock(snapshot, next, items[1..]);
    if k == 0 {
      assert !Mentions(items[1..], it.productId) by {
        forall j | 0 <= j < |items[1..]| ensures items[1..][j].productId != it.productId {
          assert items[1..][j] == items[j + 1];
        }
      }
    } else {
      assert DistinctItemProducts(items[1..]) by {
        forall a, b | 0 <= a < b < |items[1..]| ensures items[1..][a].productId != items[1..][b].productId {
          assert items[1..][a] == items[a + 1] && items[1..][b] == items[b + 1];
        }
      }
      assert items[1..][k - 1] == items[k];
      StockAfterPayment(snapshot, next, items[1..], k - 1);
    }
  }

  /** What no step of a payment changes: what each order contains, each
      account's keys, the line-id counter and the wishlist; a cart is either
      left as it was or emptied. */
  predicate KeepsContents(s: State, t: State) {
    && |t.orders| == |s.orders| && |t.accounts| == |s.accounts|
    && (forall k :: 0 <= k < |s.orders| ==> SameOrderContents(s.orders[k], t.orders[k]))
    && (forall i :: 0 <= i < |s.accounts| ==> t.accounts[i] == s.accounts[i].(balance := t.accounts[i].balance))
    && t.users == s.users
    && (forall u :: u in t.carts ==> u in s.carts && (t.carts[u] == s.carts[u] || t.carts[u] == Cart([], 0)))
    && t.nextLineId == s.nextLineId && t.wishlist == s.wishlist
  }

  /** Everything about an order except its status and payment fields:
      who placed it, its number, total, address, stored method, creation
      time and items. */
  predicate SameOrderContents(o: Order, o': Order) {
    o' == o.(status := o'.status, paymentStatus := o'.paymentStatus, transactionId := o'.transactionId,
             paymentDetails := o'.paymentDetails, estimatedDelivery := o'.estimatedDelivery)
  }

  /** The effect of a successful payment: the order becomes confirmed and
      paid with the transaction recorded, the caller's cart (if any) is
      emptied, and the stock loop runs. */
  function Settle(s: State, uid: nat, orderId: nat, m: Method, now: Millis, txnId: string,
                  deductedFrom: Option<string>, remaining: Option<Money>): (r: Outcome<Receipt>)
    requires orderId < |s.orders|
    ensures |r.state.orders| == |s.orders|
    ensures var o := s.orders[orderId];
            r.state.orders == s.orders[orderId := o.(
              paymentStatus := Paid, status := Confirmed, transactionId := Some(txnId),
              paymentDetails := Some(Settled(MethodName(m), txnId, now, deductedFrom)),
              estimatedDelivery := Some(now + DeliveryDays(m) * DayMillis))]
    ensures r.state.carts == if uid in s.carts then s.carts[uid := Cart([], 0)] else s.carts
    ensures r.state.products == ApplyStock(s.products, s.products, s.orders[orderId].items).products
    ensures r.state == s.(orders := r.state.orders, carts := r.state.carts, products := r.state.products)
    ensures r.reply.Ok? <==> ApplyStock(s.products, s.products, s.orders[orderId].items).complete
    ensures r.reply.Err? ==> r.reply.error == ServerError
    ensures r.reply.Ok? ==>
      r.reply.value == Receipt(SuccessMessage(m), r.state.orders[orderId], txnId, MethodName(m),
                               s.orders[orderId].total, "INR", "success", remaining)
  {
    var o := s.orders[orderId];
    var o' := o.(paymentStatus := Paid, status := Confirmed, transactionId := Some(txnId),
                 paymentDetails := Some(Settled(MethodName(m), txnId, now, deductedFrom)),
                 estimatedDelivery := Some(now + DeliveryDays(m) * DayMillis));
    var carts := if uid in s.carts then s.carts[uid := Cart([], 0)] else s.carts;
    var stock := ApplyStock(s.products, s.products, o.items);
    var s' := s.(orders := s.orders[orderId := o'], carts := carts, products := stock.products);
    if stock.complete then
      Outcome(s', Ok(Receipt(SuccessMessage(m), o', txnId, MethodName(m), o.total, "INR", "success", remaining)))
    else
      // `orderItem.Product.stock` throws for a deleted product.
      Outcome(s', Err(ServerError))
  }

  /** The card and UPI blocks, which differ only in the key they look up
      and the messages they send: the order total is debited and the order
      settled exactly when an active account has the key, the PIN verifies
      and the balance covers the total; otherwise nothing is written. */
  function PayFromAccount(s: State, uid: nat, orderId: nat, m: Method, key: string, pin: Option<string>,
                          verify: Verifier, now: Millis, txnId: string): (r: Outcome<Receipt>)
    requires Payable(s, uid, orderId) && m != Cod
    ensures var found := FindAccount(s.accounts, ChannelOf(m), key);
            var total := s.orders[orderId].total;
            if found.Some? && pin.Some? && verify(pin.value, s.accounts[found.value].pinHash)
               && s.accounts[found.value].balance >= total
            then
              var a := s.accounts[found.value];
              r == Settle(s.(accounts := s.accounts[found.value := a.(balance := a.balance - total)]),
                          uid, orderId, m, now, txnId, Some(a.holderName), Some(a.balance - total))
            else r.state == s && r.reply.Err?
  {
    var total := s.orders[orderId].total;
    match Authenticate(s.accounts, ChannelOf(m), key, pin, verify)
    case NoAccount => Outcome(s, Err(if m == Card then InvalidAccount else InvalidUpiId))
    case PinMissing => Outcome(s, Err(ServerError))
    case WrongPin => Outcome(s, Err(if m == Card then InvalidPin else InvalidUpiPin))
    case Authenticated(i) =>
      var a := s.accounts[i];
      if a.balance < total then Outcome(s, Err(InsufficientBalance))
      else
        var debited := s.(accounts := s.accounts[i := a.(balance := a.balance - total)]);
        Settle(debited, uid, orderId, m, now, txnId, Some(a.holderName), Some(a.balance - total))
  }

  const DeclineReason: string := "Payment processing failed"

  /** `POST /process/:orderId`. The branch is chosen by the request's
      `paymentMethod`, not the order's. Cash on delivery settles without the
      bank; card and UPI authenticate, check the balance, debit the account
      and settle; any other method marks the payment failed. A card or UPI
      rejection writes nothing. */
  function ProcessPayment(s: State, uid: nat, orderId: nat, paymentMethod: string, details: Option<Credentials>,
                          verify: Verifier, now: Millis, txnId: string): (r: Outcome<Receipt>)
    ensures !Payable(s, uid, orderId) ==> r == Outcome(s, Err(OrderNotFoundOrProcessed))
    ensures |r.state.orders| == |s.orders| && |r.state.accounts| == |s.accounts|
    ensures forall k :: 0 <= k < |s.orders| && k != orderId ==> r.state.orders[k] == s.orders[k]
    ensures r.reply.Err? && r.reply.error != PaymentFailed && r.reply.error != ServerError ==> r.state == s
    ensures Payable(s, uid, orderId) && ParseMethod(paymentMethod).None? ==>
      var o := s.orders[orderId];
      r == Outcome(s.(orders := s.orders[orderId := o.(paymentStatus := Failed,
                        paymentDetails := Some(Declined(paymentMethod, now, DeclineReason)))]),
                   Err(PaymentFailed))
    ensures r.reply.Ok? ==>
      && Payable(s, uid, orderId)
      && ParseMethod(paymentMethod).Some?
      && var o := r.state.orders[orderId];
      && o.paymentStatus == Paid && o.status == Confirmed && o.transactionId == Some(txnId)
      && o.items == s.orders[orderId].items && o.total == s.orders[orderId].total
      && o.estimatedDelivery == Some(now + (if paymentMethod == "cod" then 5 else 3) * DayMillis)
      && r.reply.value.amount == o.total
      && CartOf(r.state, uid) == Cart([], 0)
      && (forall u :: u in s.carts && u != uid ==> u in r.state.carts && r.state.carts[u] == s.carts[u])
    ensures paymentMethod == "cod" ==> r.state.accounts == s.accounts
    ensures r.reply.Ok? ==> r.state.products == ApplyStock(s.products, s.products, s.orders[orderId].items).products
    ensures r.reply.Ok? && paymentMethod == "cod" ==> r.reply.value.remainingBalance.None?
    ensures r.reply.Ok? && paymentMethod != "cod" ==>
      && details.Some? && details.value.pin.Some?
      && KeyIn(details.value, ParseMethod(paymentMethod).value).Some?
      && FindAccount(s.accounts, ChannelOf(ParseMethod(paymentMethod).value),
                     KeyIn(details.value, ParseMethod(paymentMethod).value).value).Some?
    ensures r.reply.Ok? && paymentMethod != "cod" ==>
      var m := ParseMethod(paymentMethod).value;
      var i := FindAccount(s.accounts, ChannelOf(m), KeyIn(details.value, m).value).value;
      var a := s.accounts[i];
      var total := s.orders[orderId].total;
      && verify(details.value.pin.value, a.pinHash)
      && a.balance >= total
      && r.state.accounts == s.accounts[i := a.(balance := a.balance - total)]
      && r.reply.value.remainingBalance == Some(a.balance - total)
  {
    if !Payable(s, uid, orderId) then Outcome(s, Err(OrderNotFoundOrProcessed))
    else
      var o := s.orders[orderId];
      match ParseMethod(paymentMethod)
      case None =>
        Outcome(s.(orders := s.orders[orderId := o.(paymentStatus := Failed,
                     paymentDetails := Some(Declined(paymentMethod, now, DeclineReason)))]),
                Err(PaymentFailed))
      case Some(m) =>
        if m == Cod then Settle(s, uid, orderId, Cod, now, txnId, None, None)
        // Destructuring a missing `paymentDetails`, or querying with an
        // undefined key, throws.
        else if details.None? || KeyIn(details.value, m).None? then Outcome(s, Err(ServerError))
        else PayFromAccount(s, uid, orderId, m, KeyIn(details.value, m).value, details.value.pin, verify, now, txnId)
  }

  /** A card or UPI request for a payable order that names a key is turned
      away, with nothing written, when no active account has the key, when
      the PIN does not verify, or when the balance is below the order total. */
  lemma CardAndUpiRejectionsWriteNothing(s: State, uid: nat, orderId: nat, m: Method, d: Credentials,
                                         verify: Verifier, now: Millis, txnId: string)
    requires m != Cod && Payable(s, uid, orderId) && KeyIn(d, m).Some?
    ensures var r := ProcessPayment(s, uid, orderId, MethodName(m), Some(d), verify, now, txnId);
            var found := FindAccount(s.accounts, ChannelOf(m), KeyIn(d, m).value);
            && (found.None? ==> r == Outcome(s, Err(if m == Card then InvalidAccount else InvalidUpiId)))
            && (found.Some? && d.pin.Some? && !verify(d.pin.value, s.accounts[found.value].pinHash) ==>
                  r == Outcome(s, Err(if m == Card then InvalidPin else InvalidUpiPin)))
            && (found.Some? && d.pin.Some? && verify(d.pin.value, s.accounts[found.value].pinHash)
                && s.accounts[found.value].balance < s.orders[orderId].total ==>
                  r == Outcome(s, Err(InsufficientBalance)))
  {
    ProcessPaymentDelegates(s, uid, orderId, m, d, verify, now, txnId);
  }

  /** A card or UPI request that names a key for a payable order is handled
      by the account branch alone. */
  lemma ProcessPaymentDelegates(s: State, uid: nat, orderId: nat, m: Method, d: Credentials,
                                verify: Verifier, now: Millis, txnId: string)
    requires m != Cod && Payable(s, uid, orderId) && KeyIn(d, m).Some?
    ensures ProcessPayment(s, uid, orderId, MethodName(m), Some(d), verify, now, txnId)
         == PayFromAccount(s, uid, orderId, m, KeyIn(d, m).value, d.pin, verify, now, txnId)
  {
    MethodNameParses(m);
  }

  /** A successful payment takes each ordered product's quantity off the
      stock read when the order was looked up, whatever the method, and
      leaves every other product as it was. */
  lemma PaymentTakesStock(s: State, uid: nat, orderId: nat, paymentMethod: string, details: Option<Credentials>,
                          verify: Verifier, now: Millis, txnId: string)
    requires Valid(s)
    requires ProcessPayment(s, uid, orderId, paymentMethod, details, verify, now, txnId).reply.Ok?
    ensures var r := ProcessPayment(s, uid, orderId, paymentMethod, details, verify, now, txnId);
            var items := s.orders[orderId].items;
            && |r.state.products| == |s.products|
            && (forall p :: 0 <= p < |s.products| && !Mentions(items, p) ==> r.state.products[p] == s.products[p])
            && (forall k :: 0 <= k < |items| ==>
                  items[k].productId < |s.products|
                  && r.state.products[items[k].productId].stock == s.products[items[k].productId].stock - items[k].quantity)
  {
    var r := ProcessPayment(s, uid, orderId, paymentMethod, details, verify, now, txnId);
    var items := s.orders[orderId].items;
    var u := ApplyStock(s.products, s.products, items);
    assert r.state.products == u.products;
    assert u.complete;
    assert DistinctItemProducts(items);
    forall k | 0 <= k < |items|
      ensures items[k].productId < |s.products|
      ensures r.state.products[items[k].productId].stock == s.products[items[k].productId].stock - items[k].quantity
    {
      StockAfterPayment(s.products, s.products, items, k);
    }
  }

  /** Σ balance over the bank's accounts. */
  function Balances(accounts: seq<Account>): Money
    decreases |accounts|
  {
    if |accounts| == 0 then 0 else accounts[0].balance + Balances(accounts[1..])
  }

  lemma {:induction false} BalancesUpdate(accounts: seq<Account>, i: nat, a: Account)
    requires i < |accounts|
    ensures Balances(accounts[i := a]) == Balances(accounts) - accounts[i].balance + a.balance
    decreases i
  {
    if i > 0 {
      assert accounts[i := a][1..] == accounts[1..][i - 1 := a];
      BalancesUpdate(accounts[1..], i - 1, a);
    }
  }

  /** A successful payment takes exactly the order total out of the bank:
      nothing for cash on delivery, the total from one account otherwise. */
  lemma PaymentMovesOrderTotal(s: State, uid: nat, orderId: nat, paymentMethod: string, details: Option<Credentials>,
                               verify: Verifier, now: Millis, txnId: string)
    requires ProcessPayment(s, uid, orderId, paymentMethod, details, verify, now, txnId).reply.Ok?
    ensures var r := ProcessPayment(s, uid, orderId, paymentMethod, details, verify, now, txnId);
            Balances(r.state.accounts)
              == Balances(s.accounts) - (if paymentMethod == "cod" then 0 else s.orders[orderId].total)
  {
    var r := ProcessPayment(s, uid, orderId, paymentMethod, details, verify, now, txnId);
    if paymentMethod != "cod" {
      var total := s.orders[orderId].total;
      var m := ParseMethod(paymentMethod).value;
      var i := FindAccount(s.accounts, ChannelOf(m), KeyIn(details.value, m).value).value;
      var a := s.accounts[i].(balance := s.accounts[i].balance - total);
      assert r.state.accounts == s.accounts[i := a];
      BalancesUpdate(s.accounts, i, a);
    } else {
      assert r.state.accounts == s.accounts;
    }
  }

  /** Once paid, an order is no longer selected: a second request is a 404. */
  lemma PaymentIsNotRepeatable(s: State, uid: nat, orderId: nat, paymentMethod: string, details: Option<Credentials>,
                               verify: Verifier, now: Millis, txnId: string,
                               method2: string, details2: Option<Credentials>, now2: Millis, txn2: string)
    requires ProcessPayment(s, uid, orderId, paymentMethod, details, verify, now, txnId).reply.Ok?
    ensures var s' := ProcessPayment(s, uid, orderId, paymentMethod, details, verify, now, txnId).state;
            ProcessPayment(s', uid, orderId, method2, details2, verify, now2, txn2)
              == Outcome(s', Err(OrderNotFoundOrProcessed))
  {
  }

  /** A successful card or UPI validation predicts the payment: with the
      same credentials and enough balance, processing a payable order whose
      products all exist succeeds and debits the validated account. */
  lemma ValidationPredictsPayment(s: State, uid: nat, orderId: nat, m: Method, d: Credentials,
                                  verify: Verifier, now: Millis, txnId: string)
    requires m != Cod
    requires Validate(s.accounts, ChannelOf(m), KeyIn(d, m), d.pin, verify).Ok?
    requires Payable(s, uid, orderId)
    requires Validate(s.accounts, ChannelOf(m), KeyIn(d, m), d.pin, verify).value.balance >= s.orders[orderId].total
    requires forall k :: 0 <= k < |s.orders[orderId].items| ==> s.orders[orderId].items[k].productId < |s.products|
    ensures var r := ProcessPayment(s, uid, orderId, MethodName(m), Some(d), verify, now, txnId);
            r.reply.Ok? && r.reply.value.remainingBalance
              == Some(Validate(s.accounts, ChannelOf(m), KeyIn(d, m), d.pin, verify).value.balance - s.orders[orderId].total)
  {
    var key := KeyIn(d, m).value;
    var i := ValidatedAccount(s.accounts, ChannelOf(m), key, d.pin, verify);
    PayFromAccountSucceeds(s, uid, orderId, m, key, d.pin, verify, now, txnId);
    ProcessPaymentDelegates(s, uid, orderId, m, d, verify, now, txnId);
  }

  /** A successful validation reports the balance of the account the
      payment blocks look up, whose PIN it has verified. */
  lemma ValidatedAccount(accounts: seq<Account>, c: Channel, key: string, pin: Option<string>, verify: Verifier)
      returns (i: nat)
    requires Validate(accounts, c, Some(key), pin, verify).Ok?
    ensures FindAccount(accounts, c, key) == Some(i) && i < |accounts| && pin.Some?
    ensures verify(pin.value, accounts[i].pinHash)
    ensures Validate(accounts, c, Some(key), pin, verify).value.balance == accounts[i].balance
  {
    i := FindAccount(accounts, c, key).value;
    assert Authenticate(accounts, c, key, pin, verify) == Authenticated(i);
  }

  lemma PayFromAccountSucceeds(s: State, uid: nat, orderId: nat, m: Method, key: string, pin: Option<string>,
                               verify: Verifier, now: Millis, txnId: string)
    requires Payable(s, uid, orderId) && m != Cod
    requires FindAccount(s.accounts, ChannelOf(m), key).Some? && pin.Some?
    requires var a := s.accounts[FindAccount(s.accounts, ChannelOf(m), key).value];
             verify(pin.value, a.pinHash) && a.balance >= s.orders[orderId].total
    requires forall k :: 0 <= k < |s.orders[orderId].items| ==> s.orders[orderId].items[k].productId < |s.products|
    ensures var r := PayFromAccount(s, uid, orderId, m, key, pin, verify, now, txnId);
            var a := s.accounts[FindAccount(s.accounts, ChannelOf(m), key).value];
            r.reply.Ok? && r.reply.value.remainingBalance == Some(a.balance - s.orders[orderId].total)
  {
  }

  lemma SettleKeepsContents(s: State, uid: nat, orderId: nat, m: Method, now: Millis, txnId: string,
                            deductedFrom: Option<string>, remaining: Option<Money>)
    requires orderId < |s.orders|
    ensures KeepsContents(s, Settle(s, uid, orderId, m, now, txnId, deductedFrom, remaining).state)
  {
  }

  lemma PayFromAccountKeepsContents(s: State, uid: nat, orderId: nat, m: Method, key: string, pin: Option<string>,
                                    verify: Verifier, now: Millis, txnId: string)
    requires Payable(s, uid, orderId) && m != Cod
    ensures KeepsContents(s, PayFromAccount(s, uid, orderId, m, key, pin, verify, now, txnId).state)
  {
    var found := FindAccount(s.accounts, ChannelOf(m), key);
    var total := s.orders[orderId].total;
    if found.Some? && pin.Some? && verify(pin.value, s.accounts[found.value].pinHash)
       && s.accounts[found.value].balance >= total {
      var a := s.accounts[found.value];
      var debited := s.(accounts := s.accounts[found.value := a.(balance := a.balance - total)]);
      SettleKeepsContents(debited, uid, orderId, m, now, txnId, Some(a.holderName), Some(a.balance - total));
    }
  }

  /** A payment never changes what an order contains, an account's keys,
      the line-id counter or the wishlist, and leaves every cart as it was
      or empty. */
  lemma ProcessPaymentFrame(s: State, uid: nat, orderId: nat, paymentMethod: string, details: Option<Credentials>,
                            verify: Verifier, now: Millis, txnId: string)
    ensures KeepsContents(s, ProcessPayment(s, uid, orderId, paymentMethod, details, verify, now, txnId).state)
  {
    if Payable(s, uid, orderId) {
      match ParseMethod(paymentMethod)
      case None =>
        var o := s.orders[orderId];
        var t := s.(orders := s.orders[orderId := o.(paymentStatus := Failed,
                      paymentDetails := Some(Declined(paymentMethod, now, DeclineReason)))]);
        assert KeepsContents(s, t);
      case Some(m) =>
        if m == Cod {
          SettleKeepsContents(s, uid, orderId, Cod, now, txnId, None, None);
        } else if details.Some? && KeyIn(details.value, m).Some? {
          PayFromAccountKeepsContents(s, uid, orderId, m, KeyIn(details.value, m).value, details.value.pin, verify, now, txnId);
        }
    }
  }

  lemma ProcessPaymentPreservesValid(s: State, uid: nat, orderId: nat, paymentMethod: string, details: Option<Credentials>,
                                     verify: Verifier, now: Millis, txnId: string)
    requires Valid(s)
    ensures Valid(ProcessPayment(s, uid, orderId, paymentMethod, details, verify, now, txnId).state)
  {
    var r := ProcessPayment(s, uid, orderId, paymentMethod, details, verify, now, txnId);
    ProcessPaymentFrame(s, uid, orderId, paymentMethod, details, verify, now, txnId);
    forall k | 0 <= k < |r.state.orders| ensures DistinctItemProducts(r.state.orders[k].items) {
      assert r.state.orders[k].items == s.orders[k].items;
    }
    forall a, b | 0 <= a < b < |r.state.accounts|
      ensures r.state.accounts[a].accountNumber != r.state.accounts[b].accountNumber
           && r.state.accounts[a].upiId != r.state.accounts[b].upiId
    {
      assert r.state.accounts[a].accountNumber == s.accounts[a].accountNumber
          && r.state.accounts[a].upiId == s.accounts[a].upiId;
      assert r.state.accounts[b].accountNumber == s.accounts[b].accountNumber
          && r.state.accounts[b].upiId == s.accounts[b].upiId;
    }
  }
}
