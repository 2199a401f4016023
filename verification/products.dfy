/** The catalogue routes: the filtered, sorted, paged `GET /` and the
    single-product `GET /:id`. Query prices arrive as text; `value` is what
    `parseFloat` makes of the text, in paise. */
module ProductRoutes {
  import opened Basics
  import opened Store
  import opened Sorting
  import opened Paging
  import opened Text

  /** A `minPrice` / `maxPrice` query parameter: its raw text and its
      numeric reading. */
  datatype PriceParam = PriceParam(raw: string, value: Money)

  datatype Query = Query(
    search: Option<string>,
    category: Option<string>,
    minPrice: Option<PriceParam>,
    maxPrice: Option<PriceParam>,
    sortBy: Option<string>,
    page: Option<int>,
    limit: Option<int>)

  predicate Given(x: Option<string>) {
    x.Some? && x.value != ""
  }

  /** A price bound applies when the parameter is present, non-empty and not
      the literal text "0". */
  function BoundOf(x: Option<PriceParam>): (r: Option<Money>)
    ensures r.Some? <==> x.Some? && x.value.raw != "" && x.value.raw != "0"
    ensures r.Some? ==> r.value == x.value.value
  {
    if x.Some? && x.value.raw != "" && x.value.raw != "0" then Some(x.value.value) else None
  }

  /** The `where` object the handler builds. */
  datatype Where = Where(search: Option<string>, category: Option<string>, min: Option<Money>, max: Option<Money>)

  function BuildWhere(q: Query): (r: Where)
    ensures r.search.Some? <==> Given(q.search)
    ensures r.category.Some? <==> Given(q.category)
    ensures r.min == BoundOf(q.minPrice) && r.max == BoundOf(q.maxPrice)
    ensures r.search.Some? ==> r.search == q.search
  {
    Where(if Given(q.search) then q.search else None,
          if Given(q.category) then q.category else None,
          BoundOf(q.minPrice), BoundOf(q.maxPrice))
  }

  /** What the `where` object selects, for a product table without a
      category column. */
  predicate Admits(w: Where, p: Product) {
    && (w.search.None? || Contains(p.name, w.search.value) || Contains(p.description, w.search.value))
    && (w.min.None? || p.price >= w.min.value)
    && (w.max.None? || p.price <= w.max.value)
  }

  /** A product is listed exactly when it contains the search term in its
      name or description (if a term is given) and lies within each price
      bound that applies, bounds included. */
  lemma AdmitsIff(q: Query, p: Product)
    ensures Admits(BuildWhere(q), p) <==>
      && (!Given(q.search) || Contains(p.name, q.search.value) || Contains(p.description, q.search.value))
      && (q.minPrice.None? || q.minPrice.value.raw in {"", "0"} || p.price >= q.minPrice.value.value)
      && (q.maxPrice.None? || q.maxPrice.value.raw in {"", "0"} || p.price <= q.maxPrice.value.value)
  {
  }

  /** A query with no search term and no applicable bound lists everything. */
  lemma NoFilterAdmitsAll(q: Query, p: Product)
    requires !Given(q.search) && BoundOf(q.minPrice).None? && BoundOf(q.maxPrice).None?
    ensures Admits(BuildWhere(q), p)
  {
  }

  /** The `ORDER BY` a `sortBy` value selects. */
  datatype Ordering = PriceLow | PriceHigh | NameAsc | NameDesc | ByRating | Newest

  function OrderingFor(sortBy: Option<string>): (r: Ordering)
    ensures sortBy == Some("price-low") <==> r == PriceLow
    ensures sortBy == Some("price-high") <==> r == PriceHigh
    ensures sortBy == Some("name-asc") <==> r == NameAsc
    ensures sortBy == Some("name-desc") <==> r == NameDesc
    ensures sortBy == Some("rating") <==> r == ByRating
  {
    if sortBy.None? then Newest
    else match sortBy.value
      case "price-low" => PriceLow
      case "price-high" => PriceHigh
      case "name-asc" => NameAsc
      case "name-desc" => NameDesc
      case "rating" => ByRating
      case _ => Newest
  }

  /** A listed product with its id. */
  datatype Row = Row(id: nat, product: Product)

  /** The comparator of an ordering: `le(a, b)` when `a` may come first. */
  function Le(o: Ordering): (Row, Row) -> bool {
    match o
    case PriceLow => (a: Row, b: Row) => a.product.price <= b.product.price
    case PriceHigh => (a: Row, b: Row) => a.product.price >= b.product.price
    case NameAsc => (a: Row, b: Row) => LexLe(a.product.name, b.product.name)
    case NameDesc => (a: Row, b: Row) => LexLe(b.product.name, a.product.name)
    case _ => (a: Row, b: Row) => a.product.createdAt >= b.product.createdAt
  }

  lemma LeIsPreorder(o: Ordering)
    ensures TotalPreorder(Le(o))
  {
    if o == NameAsc || o == NameDesc {
      forall a: Row, b: Row ensures Le(o)(a, b) || Le(o)(b, a) {
        LexLeTotal(a.product.name, b.product.name);
      }
      forall a: Row, b: Row, c: Row | Le(o)(a, b) && Le(o)(b, c) ensures Le(o)(a, c) {
        if o == NameAsc {
          LexLeTransitive(a.product.name, b.product.name, c.product.name);
        } else {
          LexLeTransitive(c.product.name, b.product.name, a.product.name);
        }
      }
    }
  }

  function AllRows(products: seq<Product>): (r: seq<Row>)
    ensures |r| == |products|
    ensures forall i :: 0 <= i < |r| ==> r[i] == Row(i, products[i])
  {
    seq(|products|, i requires 0 <= i < |products| => Row(i, products[i]))
  }

  function Selects(w: Where): Row -> bool {
    (r: Row) => Admits(w, r.product)
  }

  /** The rows the `where` object selects, in result order, before paging. */
  function Ordered(products: seq<Product>, w: Where, o: Ordering): (r: seq<Row>)
    ensures multiset(r) == multiset(Filter(AllRows(products), Selects(w)))
    ensures Sorted(r, Le(o))
    ensures |r| == |Filter(AllRows(products), Selects(w))|
    ensures forall i :: 0 <= i < |r| ==>
      Admits(w, r[i].product) && r[i].id < |products| && products[r[i].id] == r[i].product
  {
    LeIsPreorder(o);
    var chosen := Filter(AllRows(products), Selects(w));
    var r := SortBy(chosen, Le(o));
    assert forall i :: 0 <= i < |r| ==> r[i] in chosen by {
      forall i | 0 <= i < |r| ensures r[i] in chosen {
        assert r[i] in multiset(r);
      }
    }
    r
  }

  function PageOrDefault(page: Option<int>): int {
    if page.Some? then page.value else 1
  }

  function LimitOrDefault(limit: Option<int>): int {
    if limit.Some? then limit.value else 100
  }

  /** The `filters` echo of the reply. */
  datatype Echo = Echo(search: string, category: string, minPrice: Option<string>, maxPrice: Option<string>, sortBy: string)

  function OrEmpty(x: Option<string>): string {
    if x.Some? then x.value else ""
  }

  function RawOrNull(x: Option<PriceParam>): Option<string> {
    if x.Some? && x.value.raw != "" then Some(x.value.raw) else None
  }

  /** `minPrice || maxPrice` holds (any non-empty text, `"0"` included)
      but neither bound applies: the handler leaves `price: {}` in the
      `where` object, which the query builder rejects. */
  predicate EmptyPriceCondition(q: Query) {
    && (RawOrNull(q.minPrice).Some? || RawOrNull(q.maxPrice).Some?)
    && BoundOf(q.minPrice).None? && BoundOf(q.maxPrice).None?
  }

  datatype Listing = Listing(rows: seq<Row>, totalPages: nat, currentPage: int, totalProducts: nat, filters: Echo)

  /** `GET /`. A category filter or the `rating` sort names a column the
      product table does not have, and a price parameter of `"0"` with no
      other bound leaves an empty price condition; in each case the query
      fails. */
  function ListProducts(s: State, q: Query): (r: Reply<Listing>)
    requires PageOrDefault(q.page) >= 1 && LimitOrDefault(q.limit) >= 1
    ensures r.Err? <==> Given(q.category) || q.sortBy == Some("rating") || EmptyPriceCondition(q)
    ensures r.Err? ==> r.error == ServerError
    ensures r.Ok? ==>
      var w := BuildWhere(q);
      var all := Ordered(s.products, w, OrderingFor(q.sortBy));
      var l := LimitOrDefault(q.limit);
      && r.value.rows == Window(all, Offset(PageOrDefault(q.page), l), l)
      && r.value.totalProducts == |all|
      && r.value.totalPages * l >= |all|
      && (r.value.totalPages == 0 || (r.value.totalPages - 1) * l < |all|)
      && r.value.currentPage == PageOrDefault(q.page)
    ensures r.Ok? ==>
      && r.value.filters.search == OrEmpty(q.search)
      && r.value.filters.sortBy == OrEmpty(q.sortBy)
      && r.value.filters.minPrice == RawOrNull(q.minPrice)
      && r.value.filters.maxPrice == RawOrNull(q.maxPrice)
  {
    var w := BuildWhere(q);
    var o := OrderingFor(q.sortBy);
    if w.category.Some? || o == ByRating || EmptyPriceCondition(q) then Err(ServerError)
    else
      var p := PageOrDefault(q.page);
      var l := LimitOrDefault(q.limit);
      var all := Ordered(s.products, w, o);
      Ok(Listing(Window(all, Offset(p, l), l), TotalPages(|all|, l), p, |all|,
                 Echo(OrEmpty(q.search), OrEmpty(q.category), RawOrNull(q.minPrice), RawOrNull(q.maxPrice),
                      OrEmpty(q.sortBy))))
  }

  /** Every listed row passes the filter and shows the stored product; a
      product that passes the filter is listed on some page. */
  lemma ListedIffAdmitted(s: State, q: Query, id: nat)
    requires !Given(q.category) && q.sortBy != Some("rating")
    requires id < |s.products|
    ensures var all := Ordered(s.products, BuildWhere(q), OrderingFor(q.sortBy));
            Row(id, s.products[id]) in all <==> Admits(BuildWhere(q), s.products[id])
  {
    var w := BuildWhere(q);
    var all := Ordered(s.products, w, OrderingFor(q.sortBy));
    var rows := AllRows(s.products);
    var chosen := Filter(rows, Selects(w));
    if Admits(w, s.products[id]) {
      assert rows[id] == Row(id, s.products[id]);
      assert Row(id, s.products[id]) in chosen;
      assert Row(id, s.products[id]) in multiset(chosen);
    }
  }

  /** With `price-low`, the first row of the first page is a cheapest
      listed product. */
  lemma PriceLowStartsCheapest(s: State, q: Query, other: nat)
    requires q.sortBy == Some("price-low") && !Given(q.category) && !EmptyPriceCondition(q)
    requires PageOrDefault(q.page) == 1 && LimitOrDefault(q.limit) >= 1
    requires other < |s.products| && Admits(BuildWhere(q), s.products[other])
    ensures var r := ListProducts(s, q);
            r.Ok? && |r.value.rows| > 0 && r.value.rows[0].product.price <= s.products[other].price
  {
    var w := BuildWhere(q);
    var all := Ordered(s.products, w, PriceLow);
    ListedIffAdmitted(s, q, other);
    var k :| 0 <= k < |all| && all[k] == Row(other, s.products[other]);
    assert k == 0 || Le(PriceLow)(all[0], all[k]);
  }

  /** `GET /:id`. */
  function GetProduct(s: State, id: nat): (r: Reply<Row>)
    ensures id >= |s.products| <==> r == Err(ProductNotFound)
    ensures r.Ok? ==> r.value.id == id && r.value.product == s.products[id]
  {
    if id >= |s.products| then Err(ProductNotFound) else Ok(Row(id, s.products[id]))
  }
}
