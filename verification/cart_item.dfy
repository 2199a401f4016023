/** One line of the cart page: the quantity buttons, the remove button and
    the displayed subtotal. The line shown is what `GET /cart` returned:
    the stored line and, when its product row still exists, the product's
    stock. */
module CartItemView {
  import opened Basics
  import opened Store
  import CartRoutes

  /** `item` as the component receives it; `stock` is `item.Product?.stock`. */
  datatype ItemView = ItemView(line: CartLine, stock: Option<int>)

  /** The view of line `l` in state `s`. */
  function ViewOf(s: State, l: CartLine): (r: ItemView)
    ensures r.line == l
    ensures r.stock.Some? <==> l.productId < |s.products|
    ensures r.stock.Some? ==> r.stock.value == s.products[l.productId].stock
  {
    ItemView(l, if l.productId < |s.products| then Some(s.products[l.productId].stock) else None)
  }

  /** `item.Product?.stock || 0`. */
  function ShownStock(v: ItemView): (r: int)
    ensures v.stock.Some? ==> r == v.stock.value
    ensures v.stock.None? ==> r == 0
  {
    if v.stock.Some? then v.stock.value else 0
  }

  datatype Button = Minus | Plus | Remove

  /** The `disabled` attributes, negated. */
  predicate Enabled(v: ItemView, updating: bool, b: Button) {
    match b
    case Minus => !(updating || v.line.quantity <= 1)
    case Plus => !(updating || v.line.quantity >= ShownStock(v))
    case Remove => !updating
  }

  /** The calls the component makes: `onUpdateQuantity(id, quantity)` and
      `onRemove(id)`, which become `PUT /update/:itemId` and
      `DELETE /remove/:itemId`. */
  datatype Request = SetQuantity(itemId: nat, quantity: int) | RemoveLine(itemId: nat)

  /** `handleQuantityChange`: a quantity below one is dropped. */
  function QuantityChange(v: ItemView, newQuantity: int): (r: Option<Request>)
    ensures newQuantity < 1 <==> r.None?
    ensures r.Some? ==> r.value == SetQuantity(v.line.id, newQuantity)
  {
    if newQuantity < 1 then None else Some(SetQuantity(v.line.id, newQuantity))
  }

  /** The request a click on `b` sends; a disabled button sends nothing. */
  function Press(v: ItemView, updating: bool, b: Button): (r: Option<Request>)
    ensures !Enabled(v, updating, b) ==> r.None?
    ensures b == Minus ==>
      (r.Some? <==> !updating && v.line.quantity > 1)
      && (r.Some? ==> r.value == SetQuantity(v.line.id, v.line.quantity - 1) && r.value.quantity >= 1)
    ensures b == Plus ==>
      (r.Some? <==> !updating && v.line.quantity < ShownStock(v) && v.line.quantity >= 0)
      && (r.Some? ==> r.value == SetQuantity(v.line.id, v.line.quantity + 1))
    ensures b == Remove ==> (r.Some? <==> !updating) && (r.Some? ==> r.value == RemoveLine(v.line.id))
  {
    if !Enabled(v, updating, b) then None
    else match b
      case Minus => QuantityChange(v, v.line.quantity - 1)
      case Plus => QuantityChange(v, v.line.quantity + 1)
      case Remove => Some(RemoveLine(v.line.id))
  }

  /** `item.price * item.quantity`, the number before `toFixed(2)`. */
  function ShownSubtotal(v: ItemView): Money {
    v.line.price * v.line.quantity
  }

  /** The subtotals of the shown lines, added left to right as a reader of
      the page would. */
  function SumShown(views: seq<ItemView>): Money
    decreases |views|
  {
    if |views| == 0 then 0 else SumShown(views[..|views| - 1]) + ShownSubtotal(views[|views| - 1])
  }

  function Views(s: State, lines: seq<CartLine>): (r: seq<ItemView>)
    ensures |r| == |lines|
    ensures forall i :: 0 <= i < |r| ==> r[i] == ViewOf(s, lines[i])
  {
    seq(|lines|, i requires 0 <= i < |lines| => ViewOf(s, lines[i]))
  }

  /** The subtotals shown for the lines of a cart add up to the lines'
      total, which for a well-formed cart is the stored `totalAmount`. */
  lemma {:induction false} SubtotalsAddUpToTotal(s: State, lines: seq<CartLine>)
    ensures SumShown(Views(s, lines)) == LinesTotal(lines)
    decreases |lines|
  {
    if |lines| > 0 {
      var init := lines[..|lines| - 1];
      var last := lines[|lines| - 1];
      assert Views(s, lines)[..|lines| - 1] == Views(s, init);
      SubtotalsAddUpToTotal(s, init);
      LinesTotalAppend(init, last);
      assert init + [last] == lines;
    }
  }

  lemma StoredTotalIsShownSum(s: State, uid: nat)
    requires Valid(s) && uid in s.carts
    ensures SumShown(Views(s, s.carts[uid].lines)) == s.carts[uid].total
  {
    SubtotalsAddUpToTotal(s, s.carts[uid].lines);
  }

  /** A line of a valid cart is the one `PUT /update/:itemId` finds. */
  lemma LineIsFoundById(s: State, uid: nat, i: nat)
    requires Valid(s) && uid in s.carts && i < |s.carts[uid].lines|
    ensures CartRoutes.IsLineWithId(CartOf(s, uid).lines, s.carts[uid].lines[i].id, i)
  {
    assert CartWellFormed(s.carts[uid], s.nextLineId);
  }

  /** When the page shows the server's current stock, the `+` button is
      enabled exactly when the server accepts the quantity it sends. */
  lemma PlusAgreesWithServer(s: State, uid: nat, i: nat)
    requires Valid(s) && uid in s.carts && i < |s.carts[uid].lines|
    requires s.carts[uid].lines[i].productId < |s.products|
    requires s.carts[uid].lines[i].quantity >= 0
    ensures var l := s.carts[uid].lines[i];
            Press(ViewOf(s, l), false, Plus).Some? <==>
              CartRoutes.UpdateCartItem(s, uid, l.id, l.quantity + 1).reply.Ok?
  {
    LineIsFoundById(s, uid, i);
  }

  /** The `-` button never asks for less than one, and the server accepts
      it whenever the product still has that many in stock. */
  lemma MinusIsAccepted(s: State, uid: nat, i: nat)
    requires Valid(s) && uid in s.carts && i < |s.carts[uid].lines|
    requires s.carts[uid].lines[i].productId < |s.products|
    requires Press(ViewOf(s, s.carts[uid].lines[i]), false, Minus).Some?
    requires s.products[s.carts[uid].lines[i].productId].stock >= s.carts[uid].lines[i].quantity - 1
    ensures var l := s.carts[uid].lines[i];
            var r := CartRoutes.UpdateCartItem(s, uid, l.id, l.quantity - 1);
            && r.reply == Ok(l.(quantity := l.quantity - 1))
            && r.reply.value.quantity >= 1
  {
    LineIsFoundById(s, uid, i);
  }

  /** A line whose product row is gone shows "Available: 0", so `+` stays
      disabled. */
  lemma MissingProductDisablesPlus(s: State, l: CartLine, updating: bool)
    requires l.productId >= |s.products| && l.quantity >= 0
    ensures ShownStock(ViewOf(s, l)) == 0
    ensures Press(ViewOf(s, l), updating, Plus).None?
  {
  }

  /** The remove button deletes exactly the line it is shown on. */
  lemma RemoveDeletesShownLine(s: State, uid: nat, i: nat)
    requires Valid(s) && uid in s.carts && i < |s.carts[uid].lines|
    ensures var l := s.carts[uid].lines[i];
            var r := CartRoutes.RemoveCartItem(s, uid, l.id);
            && Press(ViewOf(s, l), false, Remove) == Some(RemoveLine(l.id))
            && r.reply.Ok?
            && r.state.carts[uid].lines == RemoveAt(s.carts[uid].lines, i)
  {
    LineIsFoundById(s, uid, i);
  }
}
