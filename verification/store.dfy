/** The persistent state the route handlers read and write: the records of
    `products`, `carts`/`cart_items`, `orders`/`order_items`, `banks`,
    `users` and `wishlists`, with money as integer paise (the columns are
    `DECIMAL(…, 2)` rupees). Each handler is modelled as a pure transition
    from a `State` and the request to a new `State` and a reply. */
module Store {
  import opened Basics

  /** An amount in paise: one hundredth of a rupee. */
  type Money = int

  /** A timestamp in milliseconds, as `Date.now()` returns. */
  type Millis = int

  /** The fixed cash-on-delivery charge of 40 rupees. */
  const CodSurcharge: Money := 4000

  const DayMillis: int := 86_400_000

  datatype Product = Product(
    name: string,
    description: string,
    price: Money,
    stock: int,
    createdAt: Millis)

  /** A cart item: `price` is the product's price when the line was first
      added and is not re-read afterwards. */
  datatype CartLine = CartLine(id: nat, productId: nat, quantity: int, price: Money)

  /** A user's cart; `total` is the stored `totalAmount`, a cache. */
  datatype Cart = Cart(lines: seq<CartLine>, total: Money)

  datatype Method = Card | Upi | Cod

  function MethodName(m: Method): string {
    match m
    case Card => "card"
    case Upi => "upi"
    case Cod => "cod"
  }

  /** `['card', 'upi', 'cod'].includes(s)`, returning which one. */
  function ParseMethod(s: string): (r: Option<Method>)
    ensures r.Some? <==> s == "card" || s == "upi" || s == "cod"
    ensures r.Some? ==> MethodName(r.value) == s
  {
    if s == "card" then Some(Card)
    else if s == "upi" then Some(Upi)
    else if s == "cod" then Some(Cod)
    else None
  }

  /** Each method's name parses back to it, and only cash on delivery is
      named "cod". */
  lemma MethodNameParses(m: Method)
    ensures ParseMethod(MethodName(m)) == Some(m)
    ensures MethodName(m) == "cod" <==> m == Cod
  {
    match m
    case Card => assert |MethodName(m)| != |"cod"|;
    case Upi => assert MethodName(m)[0] != "cod"[0];
    case Cod =>
  }

  datatype OrderStatus = OrderPending | Confirmed | Processing | Shipped | Delivered | Cancelled

  function StatusName(st: OrderStatus): string {
    match st
    case OrderPending => "pending"
    case Confirmed => "confirmed"
    case Processing => "processing"
    case Shipped => "shipped"
    case Delivered => "delivered"
    case Cancelled => "cancelled"
  }

  datatype PaymentStatus = PaymentPending | Paid | Failed

  /** The JSON `paymentDetails` column written by payment processing. */
  datatype PaymentDetails =
    | Settled(via: string, transactionId: string, processedAt: Millis, deductedFrom: Option<string>)
    | Declined(via: string, failedAt: Millis, reason: string)

  datatype OrderItem = OrderItem(productId: nat, quantity: int, price: Money, productName: string)

  datatype Order = Order(
    userId: nat,
    orderNumber: string,
    total: Money,
    shippingAddress: string,
    paymentMethod: Method,
    status: OrderStatus,
    paymentStatus: PaymentStatus,
    transactionId: Option<string>,
    paymentDetails: Option<PaymentDetails>,
    estimatedDelivery: Option<Millis>,
    createdAt: Millis,
    items: seq<OrderItem>)

  /** A mock bank account; `pinHash` is the bcrypt hash stored as `password`. */
  datatype Account = Account(
    accountNumber: string,
    holderName: string,
    upiId: string,
    balance: Money,
    pinHash: string,
    bankName: string,
    ifscCode: string,
    isActive: bool)

  datatype User = User(name: string, email: string, passwordHash: string, createdAt: Millis)

  datatype WishEntry = WishEntry(userId: nat, productId: nat, addedAt: Millis)

  /** Products and orders are indexed by their id; carts by their owner. */
  datatype State = State(
    products: seq<Product>,
    carts: map<nat, Cart>,
    nextLineId: nat,
    orders: seq<Order>,
    accounts: seq<Account>,
    users: map<nat, User>,
    wishlist: seq<WishEntry>)

  /** `bcrypt.compare(plain, hash)`, which this model does not interpret. */
  type Verifier = (string, string) -> bool

  /** The distinct `{ message }` error replies of the handlers. */
  datatype Error =
    | ProductNotFound
    | InsufficientStock
    | CartItemNotFound
    | CartNotFound
    | InvalidPaymentMethod
    | CartEmpty
    | ProductMissingFromCart
    | InsufficientStockFor(name: string, available: int, requested: int)
    | OrderNotFound
    | AlreadyPaid
    | PaymentFailed
    | OrderNotFoundOrProcessed
    | AccountAndPinRequired
    | UpiAndPinRequired
    | InvalidAccount
    | InvalidAccountNumber
    | InvalidPin
    | InvalidUpiId
    | InvalidUpiPin
    | InsufficientBalance
    | AlreadyInWishlist
    | NotInWishlist
    | UserNotFound
    | EmailInUse
    | PasswordsRequired
    | WrongPassword
    | ServerError

  function Status(e: Error): nat {
    match e
    case ProductNotFound => 404
    case CartItemNotFound => 404
    case CartNotFound => 404
    case OrderNotFound => 404
    case OrderNotFoundOrProcessed => 404
    case InvalidAccount => 404
    case InvalidAccountNumber => 404
    case InvalidUpiId => 404
    case NotInWishlist => 404
    case UserNotFound => 404
    case InvalidPin => 401
    case InvalidUpiPin => 401
    case ServerError => 500
    case _ => 400
  }

  datatype Reply<+T> = Ok(value: T) | Err(error: Error)

  datatype Outcome<T> = Outcome(state: State, reply: Reply<T>)

  /** `item.price * item.quantity`. */
  function Subtotal(l: CartLine): Money {
    l.price * l.quantity
  }

  /** Σ price × quantity over the lines. */
  function LinesTotal(lines: seq<CartLine>): Money
    decreases |lines|
  {
    if |lines| == 0 then 0 else Subtotal(lines[0]) + LinesTotal(lines[1..])
  }

  lemma {:induction false} LinesTotalAppend(lines: seq<CartLine>, l: CartLine)
    ensures LinesTotal(lines + [l]) == LinesTotal(lines) + Subtotal(l)
    decreases |lines|
  {
    if |lines| > 0 {
      assert (lines + [l])[1..] == lines[1..] + [l];
      LinesTotalAppend(lines[1..], l);
    }
  }

  lemma {:induction false} LinesTotalUpdate(lines: seq<CartLine>, i: nat, l: CartLine)
    requires i < |lines|
    ensures LinesTotal(lines[i := l]) == LinesTotal(lines) - Subtotal(lines[i]) + Subtotal(l)
    decreases i
  {
    if i > 0 {
      assert lines[i := l][1..] == lines[1..][i - 1 := l];
      LinesTotalUpdate(lines[1..], i - 1, l);
    }
  }

  lemma {:induction false} LinesTotalRemove(lines: seq<CartLine>, i: nat)
    requires i < |lines|
    ensures LinesTotal(RemoveAt(lines, i)) == LinesTotal(lines) - Subtotal(lines[i])
    decreases i
  {
    if i == 0 {
      assert RemoveAt(lines, 0) == lines[1..];
    } else {
      assert RemoveAt(lines, i)[1..] == RemoveAt(lines[1..], i - 1);
      LinesTotalRemove(lines[1..], i - 1);
    }
  }

  /** The cart `Cart.findOne({ where: { userId } })` finds, or the empty cart
      `Cart.create({ userId })` would make. */
  function CartOf(s: State, uid: nat): Cart {
    if uid in s.carts then s.carts[uid] else Cart([], 0)
  }

  predicate HasLineFor(lines: seq<CartLine>, productId: nat) {
    exists i :: 0 <= i < |lines| && lines[i].productId == productId
  }

  /** At most one line per product and per line id. */
  ghost predicate DistinctLines(lines: seq<CartLine>) {
    forall i, j :: 0 <= i < j < |lines| ==>
      lines[i].productId != lines[j].productId && lines[i].id != lines[j].id
  }

  /** The stored total agrees with the lines, and line ids are below the
      next id to be issued. */
  ghost predicate CartWellFormed(c: Cart, nextLineId: nat) {
    && c.total == LinesTotal(c.lines)
    && DistinctLines(c.lines)
    && (forall i :: 0 <= i < |c.lines| ==> c.lines[i].id < nextLineId)
  }

  ghost predicate DistinctItemProducts(items: seq<OrderItem>) {
    forall i, j :: 0 <= i < j < |items| ==> items[i].productId != items[j].productId
  }

  ghost predicate NoDuplicateWishes(w: seq<WishEntry>) {
    forall i, j :: 0 <= i < j < |w| ==> w[i].userId != w[j].userId || w[i].productId != w[j].productId
  }

  /** The `unique` constraints on `accountNumber` and `upiId`. */
  ghost predicate UniqueAccounts(a: seq<Account>) {
    forall i, j :: 0 <= i < j < |a| ==> a[i].accountNumber != a[j].accountNumber && a[i].upiId != a[j].upiId
  }

  /** The invariant every handler preserves. */
  ghost predicate Valid(s: State) {
    && (forall u :: u in s.carts ==> CartWellFormed(s.carts[u], s.nextLineId))
    && (forall k :: 0 <= k < |s.orders| ==> DistinctItemProducts(s.orders[k].items))
    && NoDuplicateWishes(s.wishlist)
    && UniqueAccounts(s.accounts)
  }
}
