/** Properties of route sequences: a cash-on-delivery checkout from cart to
    confirmed order, the dead end left by an unknown payment method, the
    payment branch following the request, and two checkouts of the last
    units of a product. */
module Scenarios {
  import opened Basics
  import opened Store
  import OrderRoutes
  import PaymentRoutes

  /** The whole cart is in stock: order creation will go through. */
  predicate Orderable(s: State, uid: nat) {
    && uid in s.carts && |s.carts[uid].lines| > 0
    && forall i :: 0 <= i < |s.carts[uid].lines| ==> OrderRoutes.LineInStock(s.products, s.carts[uid].lines[i])
  }

  /** Every product an order names still exists, so the stock loop of a
      payment runs to the end. */
  predicate ItemsExist(s: State, orderId: nat) {
    orderId < |s.orders| && forall k :: 0 <= k < |s.orders[orderId].items| ==> s.orders[orderId].items[k].productId < |s.products|
  }

  /** Creating an order leaves it payable by its owner, with every item's
      product present. */
  lemma CreatedOrderIsPayable(s: State, uid: nat, address: Option<string>, payMethod: string, now: Millis,
                              orderNumber: string)
    requires OrderRoutes.CreateOrder(s, uid, address, payMethod, now, orderNumber).reply.Ok?
    ensures var r := OrderRoutes.CreateOrder(s, uid, address, payMethod, now, orderNumber);
            && PaymentRoutes.Payable(r.state, uid, |s.orders|)
            && ItemsExist(r.state, |s.orders|)
            && r.state.products == s.products
  {
    var r := OrderRoutes.CreateOrder(s, uid, address, payMethod, now, orderNumber);
    var lines := s.carts[uid].lines;
    forall k | 0 <= k < |r.state.orders[|s.orders|].items|
      ensures r.state.orders[|s.orders|].items[k].productId < |r.state.products|
    {
      assert OrderRoutes.LineInStock(s.products, lines[k]);
    }
  }

  /** Cash on delivery from cart to confirmed order: the order is created
      with the cart total plus the charge, and confirming it empties the
      cart, marks it paid and leaves every bank account alone. */
  lemma CodCheckout(s: State, uid: nat, address: Option<string>, now: Millis, orderNumber: string,
                    verify: Verifier, later: Millis, txnId: string)
    requires Orderable(s, uid)
    ensures var c := OrderRoutes.CreateOrder(s, uid, address, "cod", now, orderNumber);
            var id := |s.orders|;
            var p := PaymentRoutes.ProcessPayment(c.state, uid, id, "cod", None, verify, later, txnId);
            && c.reply == Ok(id)
            && p.reply.Ok?
            && p.reply.value.amount == s.carts[uid].total + CodSurcharge
            && p.state.orders[id].paymentStatus == Paid && p.state.orders[id].status == Confirmed
            && CartOf(p.state, uid) == Cart([], 0)
            && p.state.accounts == s.accounts
  {
    var c := OrderRoutes.CreateOrder(s, uid, address, "cod", now, orderNumber);
    assert ParseMethod("cod") == Some(Cod);
    CreatedOrderIsPayable(s, uid, address, "cod", now, orderNumber);
  }

  /** A request with an unknown method marks the order failed; after that
      the process route never selects it again, while the legacy pay route
      still accepts it. */
  lemma UnknownMethodStrandsOrder(s: State, uid: nat, orderId: nat, payMethod: string, details: Option<PaymentRoutes.Credentials>,
                                  verify: Verifier, now: Millis, txnId: string,
                                  method2: string, details2: Option<PaymentRoutes.Credentials>, now2: Millis, txn2: string,
                                  paymentId: string)
    requires PaymentRoutes.Payable(s, uid, orderId) && ParseMethod(payMethod).None?
    ensures var s1 := PaymentRoutes.ProcessPayment(s, uid, orderId, payMethod, details, verify, now, txnId).state;
            && s1.orders[orderId].paymentStatus == Failed && s1.orders[orderId].status == OrderPending
            && PaymentRoutes.ProcessPayment(s1, uid, orderId, method2, details2, verify, now2, txn2)
                 == Outcome(s1, Err(OrderNotFoundOrProcessed))
            && OrderRoutes.PayLegacy(s1, uid, orderId, true, paymentId).reply.Ok?
  {
  }

  /** The branch follows the request: a cash-on-delivery request settles a
      card or UPI order without touching the bank, at the order's stored
      total and with its stored method left as it was. */
  lemma CodRequestSettlesAnyOrder(s: State, uid: nat, orderId: nat, details: Option<PaymentRoutes.Credentials>,
                                  verify: Verifier, now: Millis, txnId: string)
    requires PaymentRoutes.Payable(s, uid, orderId) && ItemsExist(s, orderId)
    ensures var r := PaymentRoutes.ProcessPayment(s, uid, orderId, "cod", details, verify, now, txnId);
            && r.reply.Ok?
            && r.state.accounts == s.accounts
            && r.reply.value.amount == s.orders[orderId].total
            && r.state.orders[orderId].paymentMethod == s.orders[orderId].paymentMethod
            && r.state.orders[orderId].estimatedDelivery == Some(now + 5 * DayMillis)
  {
    assert ParseMethod("cod") == Some(Cod);
  }

  /** Stock is checked when an order is created but taken when it is paid,
      so two users can each order the last units and both pay: the stock
      ends at the old stock minus both quantities, below zero when their
      sum exceeds it. */
  lemma TwoCheckoutsCanOversell(s: State, u1: nat, u2: nat, pid: nat, now: Millis, n1: string, n2: string,
                                verify: Verifier, t1: string, t2: string)
    requires u1 != u2 && pid < |s.products|
    requires u1 in s.carts && |s.carts[u1].lines| == 1 && s.carts[u1].lines[0].productId == pid
    requires u2 in s.carts && |s.carts[u2].lines| == 1 && s.carts[u2].lines[0].productId == pid
    requires s.products[pid].stock >= s.carts[u1].lines[0].quantity
    requires s.products[pid].stock >= s.carts[u2].lines[0].quantity
    ensures var c1 := OrderRoutes.CreateOrder(s, u1, None, "cod", now, n1);
            var c2 := OrderRoutes.CreateOrder(c1.state, u2, None, "cod", now, n2);
            var p1 := PaymentRoutes.ProcessPayment(c2.state, u1, |s.orders|, "cod", None, verify, now, t1);
            var p2 := PaymentRoutes.ProcessPayment(p1.state, u2, |s.orders| + 1, "cod", None, verify, now, t2);
            && c1.reply.Ok? && c2.reply.Ok? && p1.reply.Ok? && p2.reply.Ok?
            && p2.state.products[pid].stock
                 == s.products[pid].stock - s.carts[u1].lines[0].quantity - s.carts[u2].lines[0].quantity
  {
    var q1 := s.carts[u1].lines[0].quantity;
    var q2 := s.carts[u2].lines[0].quantity;
    var a := |s.orders|;
    var c1 := OrderRoutes.CreateOrder(s, u1, None, "cod", now, n1);
    assert OrderRoutes.LineInStock(s.products, s.carts[u1].lines[0]);
    assert c1.reply.Ok?;
    CreatedOrderIsPayable(s, u1, None, "cod", now, n1);
    var c2 := OrderRoutes.CreateOrder(c1.state, u2, None, "cod", now, n2);
    assert c1.state.carts == s.carts && c1.state.products == s.products;
    assert OrderRoutes.LineInStock(c1.state.products, c1.state.carts[u2].lines[0]);
    assert c2.reply.Ok?;
    CreatedOrderIsPayable(c1.state, u2, None, "cod", now, n2);
    assert c2.state.orders[a] == c1.state.orders[a];
    var items1 := c2.state.orders[a].items;
    var items2 := c2.state.orders[a + 1].items;
    assert |items1| == 1 && items1[0].productId == pid && items1[0].quantity == q1;
    assert |items2| == 1 && items2[0].productId == pid && items2[0].quantity == q2;
    assert ParseMethod("cod") == Some(Cod);

    var p1 := PaymentRoutes.ProcessPayment(c2.state, u1, a, "cod", None, verify, now, t1);
    assert ItemsExist(c2.state, a);
    assert p1.state.products == PaymentRoutes.ApplyStock(c2.state.products, c2.state.products, items1).products;
    PaymentRoutes.StockAfterPayment(c2.state.products, c2.state.products, items1, 0);
    assert p1.state.products[pid].stock == s.products[pid].stock - q1;
    assert p1.reply.Ok?;

    assert p1.state.orders[a + 1] == c2.state.orders[a + 1];
    assert PaymentRoutes.Payable(p1.state, u2, a + 1);
    var p2 := PaymentRoutes.ProcessPayment(p1.state, u2, a + 1, "cod", None, verify, now, t2);
    assert p2.state.products == PaymentRoutes.ApplyStock(p1.state.products, p1.state.products, items2).products;
    PaymentRoutes.StockAfterPayment(p1.state.products, p1.state.products, items2, 0);
  }
}
