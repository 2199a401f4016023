/** The cart routes: `GET /`, `POST /add`, `PUT /update/:itemId`,
    `DELETE /remove/:itemId`, `DELETE /clear`, and `updateCartTotal`, which
    recomputes the stored total from the lines after every change. */
module CartRoutes {
  import opened Basics
  import opened Store

  /** `const { quantity = 1 } = req.body`. */
  function RequestedQuantity(quantity: Option<int>): int {
    if quantity.Some? then quantity.value else 1
  }

  /** The caller's cart with only its stored lines and total replaced. */
  function WithCart(s: State, uid: nat, lines: seq<CartLine>): (r: State)
    ensures uid in r.carts && r.carts[uid].lines == lines
    ensures r.carts[uid].total == LinesTotal(lines)
    ensures r.carts.Keys == s.carts.Keys + {uid}
    ensures forall u :: u in s.carts && u != uid ==> r.carts[u] == s.carts[u]
    ensures r == s.(carts := r.carts)
  {
    s.(carts := s.carts[uid := Cart(lines, LinesTotal(lines))])
  }

  /** `GET /`: the caller's cart, created empty on first access. */
  function GetCart(s: State, uid: nat): (r: Outcome<Cart>)
    ensures r.reply.Ok? && r.reply.value.lines == CartOf(s, uid).lines
    ensures uid in s.carts ==> r == Outcome(s, Ok(s.carts[uid]))
    ensures uid !in s.carts ==> r.reply.value == Cart([], 0) && r.state == WithCart(s, uid, [])
  {
    if uid in s.carts then Outcome(s, Ok(s.carts[uid]))
    else Outcome(s.(carts := s.carts[uid := Cart([], 0)]), Ok(Cart([], 0)))
  }

  /** `POST /add`: checks the product exists and has at least the requested
      quantity in stock, creates the cart if needed, then either raises the
      quantity of the line already holding the product (keeping its price)
      or appends a new line at the product's current price. */
  function AddToCart(s: State, uid: nat, productId: nat, quantity: Option<int>): (r: Outcome<CartLine>)
    ensures productId >= |s.products| ==> r == Outcome(s, Err(ProductNotFound))
    ensures productId < |s.products| && s.products[productId].stock < RequestedQuantity(quantity) ==>
      r == Outcome(s, Err(InsufficientStock))
    ensures productId < |s.products| && s.products[productId].stock >= RequestedQuantity(quantity) ==>
      r.reply.Ok?
    ensures r.reply.Ok? ==>
      var q := RequestedQuantity(quantity);
      var before := CartOf(s, uid).lines;
      && uid in r.state.carts
      && r.state.carts[uid].total == LinesTotal(r.state.carts[uid].lines)
      && r.state == WithCart(s, uid, r.state.carts[uid].lines).(nextLineId := r.state.nextLineId)
      && (HasLineFor(before, productId) ==>
            && r.state.nextLineId == s.nextLineId
            && exists i :: 0 <= i < |before| && before[i].productId == productId
                 && r.reply.value == before[i].(quantity := before[i].quantity + q)
                 && r.state.carts[uid].lines == before[i := r.reply.value])
      && (!HasLineFor(before, productId) ==>
            && r.state.nextLineId == s.nextLineId + 1
            && r.reply.value == CartLine(s.nextLineId, productId, q, s.products[productId].price)
            && r.state.carts[uid].lines == before + [r.reply.value])
  {
    var q := RequestedQuantity(quantity);
    if productId >= |s.products| then Outcome(s, Err(ProductNotFound))
    else
      var p := s.products[productId];
      if p.stock < q then Outcome(s, Err(InsufficientStock))
      else
        var before := CartOf(s, uid).lines;
        match LineFor(before, productId)
        case Some(i) =>
          var line := before[i].(quantity := before[i].quantity + q);
          Outcome(WithCart(s, uid, before[i := line]), Ok(line))
        case None =>
          var line := CartLine(s.nextLineId, productId, q, p.price);
          Outcome(WithCart(s, uid, before + [line]).(nextLineId := s.nextLineId + 1), Ok(line))
  }

  predicate HasLineId(lines: seq<CartLine>, itemId: nat) {
    exists i :: 0 <= i < |lines| && lines[i].id == itemId
  }

  /** The index of the caller's line with id `itemId`, if any. */
  function LineWithId(lines: seq<CartLine>, itemId: nat): (r: Option<nat>)
    ensures r.None? <==> !HasLineId(lines, itemId)
    ensures r.Some? ==> IsLineWithId(lines, itemId, r.value)
  {
    FirstIndex(lines, (l: CartLine) => l.id == itemId)
  }

  /** The index of the line already holding `productId`, if any. */
  function LineFor(lines: seq<CartLine>, productId: nat): (r: Option<nat>)
    ensures r.None? <==> !HasLineFor(lines, productId)
    ensures r.Some? ==> r.value < |lines| && lines[r.value].productId == productId
  {
    FirstIndex(lines, (l: CartLine) => l.productId == productId)
  }

  /** `i` is the line `CartItem.findOne({ where: { id: itemId } })` returns
      from the caller's cart: the first one with that id. */
  predicate IsLineWithId(lines: seq<CartLine>, itemId: nat, i: int) {
    0 <= i < |lines| && lines[i].id == itemId && forall j :: 0 <= j < i ==> lines[j].id != itemId
  }

  /** `PUT /update/:itemId`: the line must be in the caller's cart and its
      product must have at least `quantity` in stock; the quantity is then
      set as given, with no lower bound. */
  function UpdateCartItem(s: State, uid: nat, itemId: nat, quantity: int): (r: Outcome<CartLine>)
    ensures !HasLineId(CartOf(s, uid).lines, itemId) ==> r == Outcome(s, Err(CartItemNotFound))
    ensures r.reply.Err? ==> r.state == s
    ensures forall i :: IsLineWithId(CartOf(s, uid).lines, itemId, i) ==>
      var line := CartOf(s, uid).lines[i];
      && (line.productId >= |s.products| ==> r.reply == Err(ServerError))
      && (line.productId < |s.products| && s.products[line.productId].stock < quantity ==>
            r.reply == Err(InsufficientStock))
      && (line.productId < |s.products| && s.products[line.productId].stock >= quantity ==>
            && uid in s.carts
            && r.reply == Ok(line.(quantity := quantity))
            && r.state == WithCart(s, uid, CartOf(s, uid).lines[i := line.(quantity := quantity)]))
  {
    var before := CartOf(s, uid).lines;
    match LineWithId(before, itemId)
    case None => Outcome(s, Err(CartItemNotFound))
    case Some(i) =>
      var line := before[i];
      // `cartItem.Product.stock` throws when the product row is gone.
      if line.productId >= |s.products| then Outcome(s, Err(ServerError))
      else if s.products[line.productId].stock < quantity then Outcome(s, Err(InsufficientStock))
      else
        var updated := line.(quantity := quantity);
        Outcome(WithCart(s, uid, before[i := updated]), Ok(updated))
  }

  /** `DELETE /remove/:itemId`: deletes exactly the named line of the
      caller's cart and recomputes the total. */
  function RemoveCartItem(s: State, uid: nat, itemId: nat): (r: Outcome<()>)
    ensures !HasLineId(CartOf(s, uid).lines, itemId) <==> r == Outcome(s, Err(CartItemNotFound))
    ensures forall i :: IsLineWithId(CartOf(s, uid).lines, itemId, i) ==>
      && uid in s.carts
      && r == Outcome(WithCart(s, uid, RemoveAt(CartOf(s, uid).lines, i)), Ok(()))
  {
    var before := CartOf(s, uid).lines;
    match LineWithId(before, itemId)
    case None => Outcome(s, Err(CartItemNotFound))
    case Some(i) => Outcome(WithCart(s, uid, RemoveAt(before, i)), Ok(()))
  }

  /** `DELETE /clear`: 404 without a cart; otherwise no lines and total 0. */
  function ClearCart(s: State, uid: nat): (r: Outcome<()>)
    ensures uid !in s.carts <==> r == Outcome(s, Err(CartNotFound))
    ensures uid in s.carts ==> r.reply.Ok? && r.state == s.(carts := s.carts[uid := Cart([], 0)])
  {
    if uid !in s.carts then Outcome(s, Err(CartNotFound))
    else Outcome(s.(carts := s.carts[uid := Cart([], 0)]), Ok(()))
  }

  /** A successful add moves the cart total by the added quantity times the
      price of the line it touched: the line's original snapshot price when
      the product was already in the cart, the current price otherwise. */
  lemma AddToCartTotal(s: State, uid: nat, productId: nat, quantity: Option<int>)
    requires Valid(s)
    requires AddToCart(s, uid, productId, quantity).reply.Ok?
    ensures var r := AddToCart(s, uid, productId, quantity);
            r.state.carts[uid].total == CartOf(s, uid).total + r.reply.value.price * RequestedQuantity(quantity)
  {
    var r := AddToCart(s, uid, productId, quantity);
    var q := RequestedQuantity(quantity);
    var before := CartOf(s, uid).lines;
    var after := r.state.carts[uid].lines;
    var line := r.reply.value;
    assert CartOf(s, uid).total == LinesTotal(before);
    assert r.state.carts[uid].total == LinesTotal(after);
    AddToCartLines(s, uid, productId, quantity);
    if LineFor(before, productId).Some? {
      var i := LineFor(before, productId).value;
      assert line == before[i].(quantity := before[i].quantity + q);
      LinesTotalUpdate(before, i, line);
      SubtotalAdd(before[i], q);
    } else {
      assert line == CartLine(s.nextLineId, productId, q, s.products[productId].price);
      LinesTotalAppend(before, line);
    }
  }

  /** Adding `q` units to a line adds `q` times its price to its subtotal. */
  lemma SubtotalAdd(l: CartLine, q: int)
    ensures Subtotal(l.(quantity := l.quantity + q)) == Subtotal(l) + l.price * q
  {
    assert l.price * (l.quantity + q) == l.price * l.quantity + l.price * q;
  }

  /** Replacing the caller's lines with well-formed ones, and issuing ids
      from a counter that only grows, keeps the invariant. */
  lemma WithCartKeepsValid(s: State, uid: nat, lines: seq<CartLine>, next: nat)
    requires Valid(s) && next >= s.nextLineId
    requires DistinctLines(lines) && forall i :: 0 <= i < |lines| ==> lines[i].id < next
    ensures Valid(WithCart(s, uid, lines).(nextLineId := next))
  {
    var r := WithCart(s, uid, lines).(nextLineId := next);
    forall u | u in r.carts ensures CartWellFormed(r.carts[u], next) {
      if u != uid {
        assert CartWellFormed(s.carts[u], s.nextLineId);
      }
    }
  }

  /** The caller's lines after a successful add: the matching line bumped
      in place, or a fresh line with the next id appended. */
  lemma AddToCartLines(s: State, uid: nat, productId: nat, quantity: Option<int>)
    requires AddToCart(s, uid, productId, quantity).reply.Ok?
    ensures var r := AddToCart(s, uid, productId, quantity);
            var before := CartOf(s, uid).lines;
            var q := RequestedQuantity(quantity);
            && productId < |s.products|
            && (LineFor(before, productId).Some? ==>
                  var i := LineFor(before, productId).value;
                  r.state.carts[uid].lines == before[i := before[i].(quantity := before[i].quantity + q)])
            && (LineFor(before, productId).None? ==>
                  r.state.carts[uid].lines == before + [CartLine(s.nextLineId, productId, q, s.products[productId].price)])
  {
  }

  /** Changing a line's quantity keeps ids and products distinct. */
  lemma DistinctLinesBump(lines: seq<CartLine>, i: nat, quantity: int)
    requires DistinctLines(lines) && i < |lines|
    ensures DistinctLines(lines[i := lines[i].(quantity := quantity)])
  {
    var after := lines[i := lines[i].(quantity := quantity)];
    assert forall k :: 0 <= k < |lines| ==> after[k].id == lines[k].id && after[k].productId == lines[k].productId;
  }

  /** A line with a new id and a product not yet in the cart can be
      appended without breaking distinctness. */
  lemma DistinctLinesAppend(lines: seq<CartLine>, l: CartLine)
    requires DistinctLines(lines) && !HasLineFor(lines, l.productId)
    requires forall k :: 0 <= k < |lines| ==> lines[k].id < l.id
    ensures DistinctLines(lines + [l])
  {
    var after := lines + [l];
    forall a, b | 0 <= a < b < |after| ensures after[a].productId != after[b].productId && after[a].id != after[b].id {
      if b == |lines| {
        assert after[a] == lines[a];
      } else {
        assert after[a] == lines[a] && after[b] == lines[b];
      }
    }
  }

  lemma AddToCartPreservesValid(s: State, uid: nat, productId: nat, quantity: Option<int>)
    requires Valid(s)
    ensures Valid(AddToCart(s, uid, productId, quantity).state)
  {
    var r := AddToCart(s, uid, productId, quantity);
    if r.reply.Ok? {
      var before := CartOf(s, uid).lines;
      var after := r.state.carts[uid].lines;
      var q := RequestedQuantity(quantity);
      assert CartWellFormed(CartOf(s, uid), s.nextLineId);
      AddToCartLines(s, uid, productId, quantity);
      if LineFor(before, productId).Some? {
        var i := LineFor(before, productId).value;
        DistinctLinesBump(before, i, before[i].quantity + q);
      } else {
        DistinctLinesAppend(before, CartLine(s.nextLineId, productId, q, s.products[productId].price));
      }
      WithCartKeepsValid(s, uid, after, r.state.nextLineId);
    }
  }

  lemma UpdateCartItemPreservesValid(s: State, uid: nat, itemId: nat, quantity: int)
    requires Valid(s)
    ensures Valid(UpdateCartItem(s, uid, itemId, quantity).state)
  {
    var r := UpdateCartItem(s, uid, itemId, quantity);
    if r.reply.Ok? {
      var before := CartOf(s, uid).lines;
      var i := LineWithId(before, itemId).value;
      assert r.state.carts[uid].lines == before[i := before[i].(quantity := quantity)];
      assert DistinctLines(r.state.carts[uid].lines);
      assert CartWellFormed(r.state.carts[uid], r.state.nextLineId);
    }
  }

  lemma RemoveCartItemPreservesValid(s: State, uid: nat, itemId: nat)
    requires Valid(s)
    ensures Valid(RemoveCartItem(s, uid, itemId).state)
  {
    var r := RemoveCartItem(s, uid, itemId);
    if r.reply.Ok? {
      var before := CartOf(s, uid).lines;
      var i := LineWithId(before, itemId).value;
      var after := RemoveAt(before, i);
      forall a, b | 0 <= a < b < |after|
        ensures after[a].productId != after[b].productId && after[a].id != after[b].id
      {
        var a' := if a < i then a else a + 1;
        var b' := if b < i then b else b + 1;
        assert after[a] == before[a'] && after[b] == before[b'];
      }
      assert CartWellFormed(r.state.carts[uid], r.state.nextLineId);
    }
  }

  lemma ClearCartPreservesValid(s: State, uid: nat)
    requires Valid(s)
    ensures Valid(ClearCart(s, uid).state)
  {
  }

  lemma GetCartPreservesValid(s: State, uid: nat)
    requires Valid(s)
    ensures Valid(GetCart(s, uid).state)
  {
  }
}
