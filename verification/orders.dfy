/** The order routes: the `POST /create` handler that answers requests (the
    first one registered), and the older `POST /:id/pay` handler whose
    simulated gateway outcome is taken as an input. */
module OrderRoutes {
  import opened Basics
  import opened Store

  const NoAddress: string := "No address provided"

  /** `totalAmount`: the cart's stored total, plus 40 rupees for cash on delivery. */
  function OrderTotal(cartTotal: Money, m: Method): Money {
    if m == Cod then cartTotal + CodSurcharge else cartTotal
  }

  /** `shippingAddress || 'No address provided'`. */
  function AddressOrDefault(shippingAddress: Option<string>): string {
    if shippingAddress.None? || shippingAddress.value == "" then NoAddress else shippingAddress.value
  }

  /** The line's product exists and has at least the line's quantity. */
  predicate LineInStock(products: seq<Product>, l: CartLine) {
    l.productId < |products| && products[l.productId].stock >= l.quantity
  }

  /** The reply for a line that fails the stock re-check. */
  function ProblemOf(products: seq<Product>, l: CartLine): Error {
    if l.productId >= |products| then ProductMissingFromCart
    else InsufficientStockFor(products[l.productId].name, products[l.productId].stock, l.quantity)
  }

  /** The loop over the cart's lines: the error for the first line that
      fails, if any. */
  function StockProblem(products: seq<Product>, lines: seq<CartLine>): (r: Option<Error>)
    ensures r.None? <==> forall i :: 0 <= i < |lines| ==> LineInStock(products, lines[i])
    ensures r.Some? ==>
      exists i :: && 0 <= i < |lines| && !LineInStock(products, lines[i])
                  && (forall j :: 0 <= j < i ==> LineInStock(products, lines[j]))
                  && r.value == ProblemOf(products, lines[i])
  {
    match FirstIndex(lines, (l: CartLine) => !LineInStock(products, l))
    case None => None
    case Some(i) => Some(ProblemOf(products, lines[i]))
  }

  /** One order item per cart line, copying product id, quantity and the
      line's price, and the product's current name. */
  function ItemsFromLines(products: seq<Product>, lines: seq<CartLine>): (r: seq<OrderItem>)
    requires forall i :: 0 <= i < |lines| ==> lines[i].productId < |products|
    ensures |r| == |lines|
    ensures forall i :: 0 <= i < |lines| ==>
      r[i] == OrderItem(lines[i].productId, lines[i].quantity, lines[i].price, products[lines[i].productId].name)
  {
    seq(|lines|, i requires 0 <= i < |lines| =>
      OrderItem(lines[i].productId, lines[i].quantity, lines[i].price, products[lines[i].productId].name))
  }

  /** `POST /create`: rejects an unknown payment method before reading the
      cart, rejects a missing or empty cart, re-checks every line's stock,
      then writes one order (pending/pending) and its items. The cart and
      the stock are left as they were. */
  function CreateOrder(s: State, uid: nat, shippingAddress: Option<string>, paymentMethod: string,
                       now: Millis, orderNumber: string): (r: Outcome<nat>)
    ensures ParseMethod(paymentMethod).None? ==> r == Outcome(s, Err(InvalidPaymentMethod))
    ensures ParseMethod(paymentMethod).Some? && (uid !in s.carts || |s.carts[uid].lines| == 0) ==>
      r == Outcome(s, Err(CartEmpty))
    ensures r.reply.Err? ==> r.state == s
    ensures r.reply.Ok? <==>
      ParseMethod(paymentMethod).Some? && uid in s.carts && |s.carts[uid].lines| > 0
      && forall i :: 0 <= i < |s.carts[uid].lines| ==> LineInStock(s.products, s.carts[uid].lines[i])
    ensures ParseMethod(paymentMethod).Some? && uid in s.carts && r.reply.Err?
            && r.reply.error != InvalidPaymentMethod && r.reply.error != CartEmpty ==>
      var lines := s.carts[uid].lines;
      exists i :: 0 <= i < |lines| && !LineInStock(s.products, lines[i])
        && (forall j :: 0 <= j < i ==> LineInStock(s.products, lines[j]))
        && r.reply.error == ProblemOf(s.products, lines[i])
    ensures r.reply.Ok? ==> |r.state.orders| == |s.orders| + 1
    ensures r.reply.Ok? ==>
      var cart := s.carts[uid];
      var o := r.state.orders[|s.orders|];
      && r.reply.value == |s.orders|
      && r.state == s.(orders := s.orders + [o])
      && o.userId == uid
      && o.orderNumber == orderNumber
      && MethodName(o.paymentMethod) == paymentMethod
      && o.total == (if paymentMethod == "cod" then cart.total + CodSurcharge else cart.total)
      && o.status == OrderPending && o.paymentStatus == PaymentPending
      && o.transactionId.None? && o.paymentDetails.None? && o.estimatedDelivery.None?
      && o.createdAt == now
      && o.shippingAddress == (if shippingAddress.None? || shippingAddress.value == "" then NoAddress
                               else shippingAddress.value)
      && |o.items| == |cart.lines|
      && forall i :: 0 <= i < |cart.lines| ==>
           o.items[i] == OrderItem(cart.lines[i].productId, cart.lines[i].quantity, cart.lines[i].price,
                                   s.products[cart.lines[i].productId].name)
  {
    match ParseMethod(paymentMethod)
    case None => Outcome(s, Err(InvalidPaymentMethod))
    case Some(m) =>
      if uid !in s.carts || |s.carts[uid].lines| == 0 then Outcome(s, Err(CartEmpty))
      else
        var cart := s.carts[uid];
        match StockProblem(s.products, cart.lines)
        case Some(e) => Outcome(s, Err(e))
        case None =>
          var o := Order(uid, orderNumber, OrderTotal(cart.total, m), AddressOrDefault(shippingAddress), m,
                         OrderPending, PaymentPending, None, None, None, now,
                         ItemsFromLines(s.products, cart.lines));
          Outcome(s.(orders := s.orders + [o]), Ok(|s.orders|))
  }

  datatype LegacyReceipt = LegacyReceipt(order: Order, paymentId: string)

  /** `POST /:id/pay`: 404 for an order that is not the caller's, 400 when it
      is already paid; otherwise the gateway outcome `success` (a 90% coin
      flip in the source) decides between paid/processing and a failed
      payment status that leaves the order open to another attempt. */
  function PayLegacy(s: State, uid: nat, orderId: nat, success: bool, paymentId: string): (r: Outcome<LegacyReceipt>)
    ensures orderId >= |s.orders| || s.orders[orderId].userId != uid ==> r == Outcome(s, Err(OrderNotFound))
    ensures orderId < |s.orders| && s.orders[orderId].userId == uid && s.orders[orderId].paymentStatus == Paid ==>
      r == Outcome(s, Err(AlreadyPaid))
    ensures orderId < |s.orders| && s.orders[orderId].userId == uid && s.orders[orderId].paymentStatus != Paid ==>
      var o := s.orders[orderId];
      if success then
        var o' := o.(paymentStatus := Paid, status := Processing);
        r == Outcome(s.(orders := s.orders[orderId := o']), Ok(LegacyReceipt(o', paymentId)))
      else
        r == Outcome(s.(orders := s.orders[orderId := o.(paymentStatus := Failed)]), Err(PaymentFailed))
  {
    if orderId >= |s.orders| || s.orders[orderId].userId != uid then Outcome(s, Err(OrderNotFound))
    else
      var o := s.orders[orderId];
      if o.paymentStatus == Paid then Outcome(s, Err(AlreadyPaid))
      else if success then
        var o' := o.(paymentStatus := Paid, status := Processing);
        Outcome(s.(orders := s.orders[orderId := o']), Ok(LegacyReceipt(o', paymentId)))
      else
        Outcome(s.(orders := s.orders[orderId := o.(paymentStatus := Failed)]), Err(PaymentFailed))
  }

  /** Σ price × quantity over order items. */
  function ItemsTotal(items: seq<OrderItem>): Money
    decreases |items|
  {
    if |items| == 0 then 0 else items[0].price * items[0].quantity + ItemsTotal(items[1..])
  }

  lemma {:induction false} ItemsTotalOfLines(products: seq<Product>, lines: seq<CartLine>)
    requires forall i :: 0 <= i < |lines| ==> lines[i].productId < |products|
    ensures ItemsTotal(ItemsFromLines(products, lines)) == LinesTotal(lines)
    decreases |lines|
  {
    if |lines| > 0 {
      ItemsTotalOfLines(products, lines[1..]);
      assert ItemsFromLines(products, lines)[1..] == ItemsFromLines(products, lines[1..]);
    }
  }

  /** A created order's total is the sum over its own items, plus the COD
      charge when paid on delivery: the cached cart total it was computed
      from agrees with the lines it was copied from. */
  lemma CreatedOrderTotalMatchesItems(s: State, uid: nat, shippingAddress: Option<string>, paymentMethod: string,
                                      now: Millis, orderNumber: string)
    requires Valid(s)
    requires CreateOrder(s, uid, shippingAddress, paymentMethod, now, orderNumber).reply.Ok?
    ensures var r := CreateOrder(s, uid, shippingAddress, paymentMethod, now, orderNumber);
            var o := r.state.orders[r.reply.value];
            o.total == ItemsTotal(o.items) + (if o.paymentMethod == Cod then CodSurcharge else 0)
  {
    var r := CreateOrder(s, uid, shippingAddress, paymentMethod, now, orderNumber);
    var cart := s.carts[uid];
    assert CartWellFormed(cart, s.nextLineId);
    var o := r.state.orders[|s.orders|];
    assert o.items == ItemsFromLines(s.products, cart.lines);
    ItemsTotalOfLines(s.products, cart.lines);
  }

  lemma CreateOrderPreservesValid(s: State, uid: nat, shippingAddress: Option<string>, paymentMethod: string,
                                  now: Millis, orderNumber: string)
    requires Valid(s)
    ensures Valid(CreateOrder(s, uid, shippingAddress, paymentMethod, now, orderNumber).state)
  {
    var r := CreateOrder(s, uid, shippingAddress, paymentMethod, now, orderNumber);
    if r.reply.Ok? {
      var cart := s.carts[uid];
      assert CartWellFormed(cart, s.nextLineId);
      var o := r.state.orders[|s.orders|];
      assert DistinctItemProducts(o.items);
      forall k | 0 <= k < |r.state.orders| ensures DistinctItemProducts(r.state.orders[k].items) {
        if k < |s.orders| {
          assert r.state.orders[k] == s.orders[k];
        }
      }
    }
  }

  lemma PayLegacyPreservesValid(s: State, uid: nat, orderId: nat, success: bool, paymentId: string)
    requires Valid(s)
    ensures Valid(PayLegacy(s, uid, orderId, success, paymentId).state)
  {
    var r := PayLegacy(s, uid, orderId, success, paymentId);
    forall k | 0 <= k < |r.state.orders| ensures DistinctItemProducts(r.state.orders[k].items) {
      assert r.state.orders[k].items == s.orders[k].items;
    }
  }

  /** A failed legacy payment is not final: the same order can be paid by a
      later attempt whose gateway outcome is a success. */
  lemma LegacyFailureIsRetryable(s: State, uid: nat, orderId: nat, paymentId: string, paymentId': string)
    requires PayLegacy(s, uid, orderId, false, paymentId).reply == Err(PaymentFailed)
    ensures var s' := PayLegacy(s, uid, orderId, false, paymentId).state;
            var r := PayLegacy(s', uid, orderId, true, paymentId');
            r.reply.Ok? && r.state.orders[orderId].paymentStatus == Paid
              && r.state.orders[orderId].status == Processing
  {
  }

  /** Once paid through the legacy route, further attempts are refused. */
  lemma LegacyPaidIsFinal(s: State, uid: nat, orderId: nat, success: bool, paymentId: string, paymentId': string)
    requires PayLegacy(s, uid, orderId, true, paymentId).reply.Ok?
    ensures var s' := PayLegacy(s, uid, orderId, true, paymentId).state;
            PayLegacy(s', uid, orderId, success, paymentId') == Outcome(s', Err(AlreadyPaid))
  {
  }
}
