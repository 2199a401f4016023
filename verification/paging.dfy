/** Page arithmetic shared by the catalogue listing and the order history:
    `offset = (page - 1) * limit`, `LIMIT limit OFFSET offset`,
    `totalPages = Math.ceil(count / limit)`. */
module Paging {

  /** `(page - 1) * limit`: the rows before page `page`. */
  function Offset(page: int, limit: int): (r: int)
    ensures page >= 1 && limit >= 0 ==> r >= 0
    ensures page >= 1 && limit >= 0 ==> r + limit == page * limit
  {
    (page - 1) * limit
  }

  /** `Math.ceil(count / limit)`: the least number of `limit`-sized pages
      that hold `count` rows. */
  function TotalPages(count: nat, limit: nat): (r: nat)
    requires limit >= 1
    ensures r * limit >= count
    ensures r == 0 || (r - 1) * limit < count
  {
    var q := count / limit;
    var m := count % limit;
    assert count == q * limit + m;
    if m == 0 then q
    else
      assert (q + 1) * limit == q * limit + limit;
      q + 1
  }

  /** How many rows `LIMIT limit OFFSET offset` returns out of `count`. */
  function RowsOnPage(count: nat, offset: nat, limit: nat): nat {
    if offset >= count then 0
    else if offset + limit <= count then limit
    else count - offset
  }

  /** `LIMIT limit OFFSET offset` over an ordered result. */
  function Window<T>(xs: seq<T>, offset: nat, limit: nat): (r: seq<T>)
    ensures |r| == RowsOnPage(|xs|, offset, limit)
    ensures forall i :: 0 <= i < |r| ==> offset + i < |xs| && r[i] == xs[offset + i]
  {
    if offset >= |xs| then []
    else if offset + limit <= |xs| then xs[offset..offset + limit]
    else xs[offset..]
  }

  /** The first page starts at the first row and each next page starts
      `limit` rows later. */
  lemma OffsetNext(page: int, limit: int)
    ensures Offset(1, limit) == 0
    ensures Offset(page + 1, limit) == Offset(page, limit) + limit
  {
  }

  lemma MulMonotone(a: int, b: int, c: nat)
    requires a <= b
    ensures a * c <= b * c
  {
  }

  /** The `hasNext` flag, `offset + rows.length < count`, is true exactly
      when the requested page is before the last page. */
  lemma HasNextIffBeforeLastPage(count: nat, page: int, limit: int)
    requires page >= 1 && limit >= 1
    ensures var off := Offset(page, limit);
            off + RowsOnPage(count, off, limit) < count <==> page < TotalPages(count, limit)
  {
    var off := Offset(page, limit);
    var tp := TotalPages(count, limit);
    var rows := RowsOnPage(count, off, limit);
    assert off + limit == page * limit;
    if off + rows < count {
      assert rows == limit;
      if page >= tp {
        MulMonotone(tp, page, limit);
      }
    } else if page < tp {
      MulMonotone(page, tp - 1, limit);
    }
  }
}
