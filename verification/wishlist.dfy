/** The wishlist routes: `GET /` (also served as `GET /profile/wishlist`),
    `POST /add`, `DELETE /remove/:productId` and `GET /check/:productId`.
    The `(userId, productId)` pair is unique in the table. */
module WishlistRoutes {
  import opened Basics
  import opened Store
  import opened Sorting

  predicate IsEntry(e: WishEntry, uid: nat, productId: nat) {
    e.userId == uid && e.productId == productId
  }

  predicate InWishlist(w: seq<WishEntry>, uid: nat, productId: nat) {
    exists i :: 0 <= i < |w| && IsEntry(w[i], uid, productId)
  }

  function OwnedBy(uid: nat): WishEntry -> bool {
    (e: WishEntry) => e.userId == uid
  }

  /** Every row except the caller's row for `productId`. */
  function AllBut(uid: nat, productId: nat): WishEntry -> bool {
    (e: WishEntry) => !IsEntry(e, uid, productId)
  }

  /** `ORDER BY createdAt DESC`. */
  function NewestFirst(): (WishEntry, WishEntry) -> bool {
    (a: WishEntry, b: WishEntry) => a.addedAt >= b.addedAt
  }

  lemma NewestFirstIsPreorder()
    ensures TotalPreorder(NewestFirst())
  {
  }

  /** `GET /`: the caller's rows, newest first; rows added at the same
      instant may come in either order. */
  function ListWishlist(s: State, uid: nat): (r: seq<WishEntry>)
    ensures multiset(r) == multiset(Filter(s.wishlist, OwnedBy(uid)))
    ensures Sorted(r, NewestFirst())
    ensures forall i :: 0 <= i < |r| ==> r[i].userId == uid && r[i] in s.wishlist
    ensures forall i :: 0 <= i < |s.wishlist| && s.wishlist[i].userId == uid ==> s.wishlist[i] in r
  {
    NewestFirstIsPreorder();
    var mine := Filter(s.wishlist, OwnedBy(uid));
    var r := SortBy(mine, NewestFirst());
    assert forall i :: 0 <= i < |r| ==> r[i] in mine by {
      forall i | 0 <= i < |r| ensures r[i] in mine {
        assert r[i] in multiset(r);
      }
    }
    assert forall x :: x in mine ==> x in r by {
      forall x | x in mine ensures x in r {
        assert x in multiset(mine);
      }
    }
    r
  }

  /** `POST /add`: 404 for a missing product, 400 if the pair is already
      there; otherwise one row is appended. */
  function AddToWishlist(s: State, uid: nat, productId: nat, now: Millis): (r: Outcome<WishEntry>)
    ensures productId >= |s.products| ==> r == Outcome(s, Err(ProductNotFound))
    ensures productId < |s.products| && InWishlist(s.wishlist, uid, productId) ==>
      r == Outcome(s, Err(AlreadyInWishlist))
    ensures productId < |s.products| && !InWishlist(s.wishlist, uid, productId) ==>
      && r.reply == Ok(WishEntry(uid, productId, now))
      && r.state == s.(wishlist := s.wishlist + [WishEntry(uid, productId, now)])
  {
    if productId >= |s.products| then Outcome(s, Err(ProductNotFound))
    else if InWishlist(s.wishlist, uid, productId) then Outcome(s, Err(AlreadyInWishlist))
    else
      var e := WishEntry(uid, productId, now);
      Outcome(s.(wishlist := s.wishlist + [e]), Ok(e))
  }

  /** `DELETE /remove/:productId`: deletes the caller's rows for the
      product; 404 when none was deleted. */
  function RemoveFromWishlist(s: State, uid: nat, productId: nat): (r: Outcome<()>)
    ensures !InWishlist(s.wishlist, uid, productId) <==> r == Outcome(s, Err(NotInWishlist))
    ensures r.reply.Ok? ==>
      && !InWishlist(r.state.wishlist, uid, productId)
      && r.state == s.(wishlist := r.state.wishlist)
      && forall i :: 0 <= i < |s.wishlist| && !IsEntry(s.wishlist[i], uid, productId) ==>
           s.wishlist[i] in r.state.wishlist
    ensures forall i :: 0 <= i < |r.state.wishlist| ==> r.state.wishlist[i] in s.wishlist
  {
    if !InWishlist(s.wishlist, uid, productId) then Outcome(s, Err(NotInWishlist))
    else Outcome(s.(wishlist := Filter(s.wishlist, AllBut(uid, productId))), Ok(()))
  }

  /** `GET /check/:productId`. */
  function CheckWishlist(s: State, uid: nat, productId: nat): (r: bool)
    ensures r <==> exists e :: e in s.wishlist && e.userId == uid && e.productId == productId
  {
    InWishlist(s.wishlist, uid, productId)
  }

  /** After a successful add the product checks as wishlisted, and adding
      it again is refused. */
  lemma AddThenCheck(s: State, uid: nat, productId: nat, now: Millis, later: Millis)
    requires AddToWishlist(s, uid, productId, now).reply.Ok?
    ensures var s' := AddToWishlist(s, uid, productId, now).state;
            && CheckWishlist(s', uid, productId)
            && AddToWishlist(s', uid, productId, later) == Outcome(s', Err(AlreadyInWishlist))
  {
    var s' := AddToWishlist(s, uid, productId, now).state;
    assert IsEntry(s'.wishlist[|s.wishlist|], uid, productId);
  }

  /** After a successful remove the product no longer checks as wishlisted. */
  lemma RemoveThenCheck(s: State, uid: nat, productId: nat)
    requires RemoveFromWishlist(s, uid, productId).reply.Ok?
    ensures !CheckWishlist(RemoveFromWishlist(s, uid, productId).state, uid, productId)
  {
  }

  /** Removing what was just added gives back the wishlist as it was. */
  lemma AddThenRemoveRestores(s: State, uid: nat, productId: nat, now: Millis)
    requires AddToWishlist(s, uid, productId, now).reply.Ok?
    ensures RemoveFromWishlist(AddToWishlist(s, uid, productId, now).state, uid, productId)
              == Outcome(s, Ok(()))
  {
    var e := WishEntry(uid, productId, now);
    var s' := AddToWishlist(s, uid, productId, now).state;
    assert s'.wishlist == s.wishlist + [e];
    assert InWishlist(s'.wishlist, uid, productId) by {
      assert IsEntry(s'.wishlist[|s.wishlist|], uid, productId);
    }
    FilterAppend(s.wishlist, [e], AllBut(uid, productId));
    FilterAll(s.wishlist, AllBut(uid, productId));
    assert Filter([e], AllBut(uid, productId)) == [];
  }

  lemma AddToWishlistPreservesValid(s: State, uid: nat, productId: nat, now: Millis)
    requires Valid(s)
    ensures Valid(AddToWishlist(s, uid, productId, now).state)
  {
  }

  lemma RemoveFromWishlistPreservesValid(s: State, uid: nat, productId: nat)
    requires Valid(s)
    ensures Valid(RemoveFromWishlist(s, uid, productId).state)
  {
    var r := RemoveFromWishlist(s, uid, productId);
    if r.reply.Ok? {
      FilterKeepsDistinct(s.wishlist, AllBut(uid, productId));
    }
  }

  /** Filtering keeps each kept row once, so no pair becomes duplicated. */
  lemma {:induction false} FilterKeepsDistinct(w: seq<WishEntry>, p: WishEntry -> bool)
    requires NoDuplicateWishes(w)
    ensures NoDuplicateWishes(Filter(w, p))
    decreases |w|
  {
    if |w| > 0 {
      var tail := w[1..];
      assert NoDuplicateWishes(tail) by {
        forall i, j | 0 <= i < j < |tail|
          ensures tail[i].userId != tail[j].userId || tail[i].productId != tail[j].productId
        {
          assert tail[i] == w[i + 1] && tail[j] == w[j + 1];
        }
      }
      FilterKeepsDistinct(tail, p);
      if p(w[0]) {
        var f := Filter(w, p);
        forall j | 1 <= j < |f| ensures f[0].userId != f[j].userId || f[0].productId != f[j].productId {
          assert f[j] in tail;
        }
      }
    }
  }
}
