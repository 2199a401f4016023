/** The profile routes: `GET /`, `PUT /`, `PUT /password` and the paged
    `GET /orders`. Password hashing is abstracted: `verify` stands for
    `bcrypt.compare` and the new hash is an input. */
module ProfileRoutes {
  import opened Basics
  import opened Store
  import opened Sorting
  import opened Paging
  import OrderRoutes
  import WishlistRoutes

  /** A request field that JavaScript treats as present: defined and not empty. */
  predicate Given(x: Option<string>) {
    x.Some? && x.value != ""
  }

  function PlacedBy(uid: nat): Order -> bool {
    (o: Order) => o.userId == uid
  }

  datatype Profile = Profile(
    name: string,
    email: string,
    createdAt: Millis,
    totalOrders: nat,
    wishlistItems: nat)

  /** `GET /`: the caller's public fields and how many orders and wishlist
      rows they own; `memberSince` repeats `createdAt`. */
  function GetProfile(s: State, uid: nat): (r: Reply<Profile>)
    ensures uid !in s.users <==> r == Err(UserNotFound)
    ensures r.Ok? ==>
      && r.value.name == s.users[uid].name && r.value.email == s.users[uid].email
      && r.value.createdAt == s.users[uid].createdAt
      && r.value.totalOrders == |Filter(s.orders, PlacedBy(uid))|
      && r.value.wishlistItems == |Filter(s.wishlist, WishlistRoutes.OwnedBy(uid))|
  {
    if uid !in s.users then Err(UserNotFound)
    else
      var u := s.users[uid];
      Ok(Profile(u.name, u.email, u.createdAt,
                 |Filter(s.orders, PlacedBy(uid))|, |Filter(s.wishlist, WishlistRoutes.OwnedBy(uid))|))
  }

  /** Placing an order raises the caller's order count by one. */
  lemma OrderCountAfterCreate(s: State, uid: nat, shippingAddress: Option<string>, paymentMethod: string,
                              now: Millis, orderNumber: string)
    requires uid in s.users
    requires OrderRoutes.CreateOrder(s, uid, shippingAddress, paymentMethod, now, orderNumber).reply.Ok?
    ensures var s' := OrderRoutes.CreateOrder(s, uid, shippingAddress, paymentMethod, now, orderNumber).state;
            GetProfile(s', uid).value.totalOrders == GetProfile(s, uid).value.totalOrders + 1
  {
    var s' := OrderRoutes.CreateOrder(s, uid, shippingAddress, paymentMethod, now, orderNumber).state;
    var o := s'.orders[|s.orders|];
    FilterAppend(s.orders, [o], PlacedBy(uid));
  }

  /** Wishlisting a product raises the caller's wishlist count by one. */
  lemma WishlistCountAfterAdd(s: State, uid: nat, productId: nat, now: Millis)
    requires uid in s.users
    requires WishlistRoutes.AddToWishlist(s, uid, productId, now).reply.Ok?
    ensures var s' := WishlistRoutes.AddToWishlist(s, uid, productId, now).state;
            GetProfile(s', uid).value.wishlistItems == GetProfile(s, uid).value.wishlistItems + 1
  {
    var e := WishEntry(uid, productId, now);
    FilterAppend(s.wishlist, [e], WishlistRoutes.OwnedBy(uid));
  }

  /** Some other user already has `email`. */
  predicate EmailTaken(users: map<nat, User>, uid: nat, email: string) {
    exists v :: v in users && v != uid && users[v].email == email
  }

  /** No two users share an email address. */
  ghost predicate UniqueEmails(users: map<nat, User>) {
    forall u, v :: u in users && v in users && u != v ==> users[u].email != users[v].email
  }

  /** `PUT /`: a given email that differs from the caller's own must not
      belong to another user; fields left out of the request are kept. The
      reply carries the updated user, or nothing when the caller's row is
      gone. */
  function UpdateProfile(s: State, uid: nat, name: Option<string>, email: Option<string>): (r: Outcome<Option<User>>)
    ensures Given(email) && (uid !in s.users || email.value != s.users[uid].email)
            && EmailTaken(s.users, uid, email.value) ==>
      r == Outcome(s, Err(EmailInUse))
    ensures r.reply.Err? ==> r.state == s && r.reply.error == EmailInUse
    ensures r.reply.Ok? && uid !in s.users ==> r == Outcome(s, Ok(None))
    ensures r.reply.Ok? && uid in s.users ==>
      && r.reply.value.Some?
      && var u := r.reply.value.value;
      && r.state == s.(users := s.users[uid := u])
      && u.name == (if name.Some? then name.value else s.users[uid].name)
      && u.email == (if email.Some? then email.value else s.users[uid].email)
      && u.passwordHash == s.users[uid].passwordHash && u.createdAt == s.users[uid].createdAt
    ensures r.reply.Ok? <==>
      !(Given(email) && (uid !in s.users || email.value != s.users[uid].email) && EmailTaken(s.users, uid, email.value))
  {
    if Given(email) && (uid !in s.users || email.value != s.users[uid].email) && EmailTaken(s.users, uid, email.value) then
      Outcome(s, Err(EmailInUse))
    else if uid !in s.users then Outcome(s, Ok(None))
    else
      var before := s.users[uid];
      var u := before.(name := if name.Some? then name.value else before.name,
                       email := if email.Some? then email.value else before.email);
      Outcome(s.(users := s.users[uid := u]), Ok(Some(u)))
  }

  /** A profile update that names an email, or none, never makes two users
      share an email. (An empty email skips the check.) */
  lemma UpdateProfileKeepsEmailsUnique(s: State, uid: nat, name: Option<string>, email: Option<string>)
    requires UniqueEmails(s.users)
    requires email.None? || Given(email)
    ensures UniqueEmails(UpdateProfile(s, uid, name, email).state.users)
  {
    var r := UpdateProfile(s, uid, name, email);
    if r.reply.Ok? && uid in s.users {
      var users := r.state.users;
      forall u, v | u in users && v in users && u != v ensures users[u].email != users[v].email {
        if u == uid && email.Some? && email.value != s.users[uid].email {
          assert !EmailTaken(s.users, uid, email.value);
          assert s.users[v].email != email.value;
        } else if v == uid && email.Some? && email.value != s.users[uid].email {
          assert !EmailTaken(s.users, uid, email.value);
          assert s.users[u].email != email.value;
        }
      }
    }
  }

  /** `PUT /password`: both fields are required; a missing user row makes
      `user.password` throw; the current password must verify, and only then
      is the stored hash replaced by `newHash`. */
  function ChangePassword(s: State, uid: nat, current: Option<string>, newPassword: Option<string>,
                          verify: Verifier, newHash: string): (r: Outcome<()>)
    ensures !Given(current) || !Given(newPassword) ==> r == Outcome(s, Err(PasswordsRequired))
    ensures Given(current) && Given(newPassword) && uid !in s.users ==> r == Outcome(s, Err(ServerError))
    ensures r.reply.Err? ==> r.state == s
    ensures r.reply.Ok? <==>
      Given(current) && Given(newPassword) && uid in s.users && verify(current.value, s.users[uid].passwordHash)
    ensures Given(current) && Given(newPassword) && uid in s.users && !verify(current.value, s.users[uid].passwordHash) ==>
      r.reply == Err(WrongPassword)
    ensures r.reply.Ok? ==> r.state == s.(users := s.users[uid := s.users[uid].(passwordHash := newHash)])
  {
    if !Given(current) || !Given(newPassword) then Outcome(s, Err(PasswordsRequired))
    else if uid !in s.users then Outcome(s, Err(ServerError))
    else
      var u := s.users[uid];
      if !verify(current.value, u.passwordHash) then Outcome(s, Err(WrongPassword))
      else Outcome(s.(users := s.users[uid := u.(passwordHash := newHash)]), Ok(()))
  }

  /** After a change, the next change is accepted exactly for passwords
      that verify against the new hash. */
  lemma ChangedPasswordGovernsNextChange(s: State, uid: nat, current: Option<string>, newPassword: Option<string>,
                                         verify: Verifier, newHash: string,
                                         attempt: string, next: string, nextHash: string)
    requires ChangePassword(s, uid, current, newPassword, verify, newHash).reply.Ok?
    requires attempt != "" && next != ""
    ensures var s' := ChangePassword(s, uid, current, newPassword, verify, newHash).state;
            ChangePassword(s', uid, Some(attempt), Some(next), verify, nextHash).reply.Ok? <==> verify(attempt, newHash)
  {
  }

  /** The page of the caller's order history a request asks for. */
  datatype History = History(
    rows: seq<Order>,
    currentPage: int,
    totalPages: nat,
    totalOrders: nat,
    hasNext: bool,
    hasPrev: bool)

  /** The caller's orders, narrowed to one status when a status is given. */
  function HistoryFilter(uid: nat, status: Option<string>): Order -> bool {
    (o: Order) => o.userId == uid && (!Given(status) || StatusName(o.status) == status.value)
  }

  /** `ORDER BY createdAt DESC`. */
  function NewestOrderFirst(): (Order, Order) -> bool {
    (a: Order, b: Order) => a.createdAt >= b.createdAt
  }

  lemma NewestOrderFirstIsPreorder()
    ensures TotalPreorder(NewestOrderFirst())
  {
  }

  /** The filtered orders in result order, before `LIMIT`/`OFFSET`. */
  function OrderedHistory(s: State, uid: nat, status: Option<string>): (r: seq<Order>)
    ensures multiset(r) == multiset(Filter(s.orders, HistoryFilter(uid, status)))
    ensures Sorted(r, NewestOrderFirst())
    ensures |r| == |Filter(s.orders, HistoryFilter(uid, status))|
    ensures forall i :: 0 <= i < |r| ==> HistoryFilter(uid, status)(r[i]) && r[i] in s.orders
  {
    NewestOrderFirstIsPreorder();
    var mine := Filter(s.orders, HistoryFilter(uid, status));
    var r := SortBy(mine, NewestOrderFirst());
    assert forall i :: 0 <= i < |r| ==> r[i] in mine by {
      forall i | 0 <= i < |r| ensures r[i] in mine {
        assert r[i] in multiset(r);
      }
    }
    r
  }

  function PageOrDefault(page: Option<int>): int {
    if page.Some? then page.value else 1
  }

  function LimitOrDefault(limit: Option<int>): int {
    if limit.Some? then limit.value else 10
  }

  /** `GET /orders`: page `page` (default 1) of `limit` (default 10) rows
      of the caller's orders, newest first, with the pagination summary.
      The count behind `totalOrders`, `totalPages` and `hasNext` is the
      number of matching orders; the route's own count, taken over the
      orders joined with their items, is not modelled. */
  function OrderHistory(s: State, uid: nat, page: Option<int>, limit: Option<int>, status: Option<string>): (r: History)
    requires PageOrDefault(page) >= 1 && LimitOrDefault(limit) >= 1
    ensures r.rows == Window(OrderedHistory(s, uid, status), Offset(PageOrDefault(page), LimitOrDefault(limit)),
                             LimitOrDefault(limit))
    ensures r.totalOrders == |Filter(s.orders, HistoryFilter(uid, status))|
    ensures r.totalPages * LimitOrDefault(limit) >= r.totalOrders
    ensures r.totalPages == 0 || (r.totalPages - 1) * LimitOrDefault(limit) < r.totalOrders
    ensures r.currentPage == PageOrDefault(page)
    ensures r.hasNext <==> PageOrDefault(page) < r.totalPages
    ensures r.hasPrev <==> PageOrDefault(page) > 1
    ensures forall i :: 0 <= i < |r.rows| ==> HistoryFilter(uid, status)(r.rows[i])
  {
    var p := PageOrDefault(page);
    var l := LimitOrDefault(limit);
    var all := OrderedHistory(s, uid, status);
    var off := Offset(p, l);
    var rows := Window(all, off, l);
    HasNextIffBeforeLastPage(|all|, p, l);
    History(rows, p, TotalPages(|all|, l), |all|, off + |rows| < |all|, p > 1)
  }

  /** A window of a sorted sequence is sorted. */
  lemma WindowSorted<T>(xs: seq<T>, offset: nat, limit: nat, le: (T, T) -> bool)
    requires Sorted(xs, le)
    ensures Sorted(Window(xs, offset, limit), le)
  {
    var w := Window(xs, offset, limit);
    forall i, j | 0 <= i < j < |w| ensures le(w[i], w[j]) {
      assert w[i] == xs[offset + i] && w[j] == xs[offset + j];
    }
  }

  /** An explicit page and limit select the window they name. */
  lemma PageRows(s: State, uid: nat, p: int, l: int, status: Option<string>)
    requires p >= 1 && l >= 1
    ensures OrderHistory(s, uid, Some(p), Some(l), status).rows == Window(OrderedHistory(s, uid, status), Offset(p, l), l)
  {
    assert PageOrDefault(Some(p)) == p && LimitOrDefault(Some(l)) == l;
  }

  /** Each page is newest first, and page `p + 1` continues exactly where
      page `p` stops in the one ordered list both pages are cut from. That
      rules out skipped or repeated orders only when every query returns
      orders with equal creation times in the same relative order. */
  lemma PagesAreConsecutive(s: State, uid: nat, p: int, l: int, status: Option<string>)
    requires p >= 1 && l >= 1
    ensures var all := OrderedHistory(s, uid, status);
            var here := OrderHistory(s, uid, Some(p), Some(l), status).rows;
            var next := OrderHistory(s, uid, Some(p + 1), Some(l), status).rows;
            && Sorted(here, NewestOrderFirst())
            && here == Window(all, Offset(p, l), l)
            && next == Window(all, Offset(p, l) + l, l)
  {
    var all := OrderedHistory(s, uid, status);
    PageRows(s, uid, p, l, status);
    PageRows(s, uid, p + 1, l, status);
    OffsetNext(p, l);
    WindowSorted(all, Offset(p, l), l, NewestOrderFirst());
  }
}
