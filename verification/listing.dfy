/**
 * The two catalogue listings: the shop listing (GET /products), which turns
 * query parameters into a filter, a sort order and a page, and the seller's
 * own listing (GET /seller/products).
 */
module Listing {
  import opened Base
  import opened Text
  import opened Pagination

  /** The product fields the listings filter and sort on. `sold` is `None` for a product stored without it. */
  datatype Product = Product(
    id: string,
    productName: string,
    brand: string,
    category: string,
    price: real,
    rating: real,
    discount: Option<real>,
    sellerId: Option<string>,
    sellerEmail: string,
    createdAt: int,
    sold: Option<int>)

  /**
   * The shop listing's query string. String parameters are `None` when absent.
   * `priceMin`, `priceMax` and `ratingGte` hold the number the parameter converts
   * to, and are `None` when absent or empty (an empty string is falsy and skips its
   * condition). `page` and `limit` are `None` only when absent, which is when the
   * defaults 1 and 12 apply; an empty one converts to `Some(0)`.
   */
  datatype ListingQuery = ListingQuery(
    category: Option<string>,
    search: Option<string>,
    priceMin: Option<real>,
    priceMax: Option<real>,
    ratingGte: Option<real>,
    seller: Option<string>,
    sort: Option<string>,
    flash: Option<string>,
    page: Option<int>,
    limit: Option<int>)

  datatype PriceBounds = PriceBounds(gte: Option<real>, lte: Option<real>)

  /** A product query document; a `None` or `false` field puts no condition on products. */
  datatype Filter = Filter(
    category: Option<string>,
    search: Option<string>,
    price: Option<PriceBounds>,
    ratingGte: Option<real>,
    discounted: bool,
    sellerId: Option<string>,
    sellerEmail: Option<string>)

  datatype SortField = Price | Rating | CreatedAt | Sold
  datatype Direction = Ascending | Descending
  datatype SortSpec = SortSpec(field: SortField, direction: Direction)

  datatype ListingPage = ListingPage(products: seq<Product>, total: nat, page: int, totalPages: Option<int>)

  /** The shop listing's catch-all failure reply. */
  datatype ListingError = LoadFailed

  /** The seller's listing query: page and limit hold `parseInt`'s result, `None` for NaN (an absent or empty parameter). */
  datatype SellerQuery = SellerQuery(email: Option<string>, page: Option<int>, limit: Option<int>)

  datatype SellerPage = SellerPage(products: seq<Product>, total: nat, totalPages: Option<int>, currentPage: int)

  /**
   * `SellerEmailRequired` is the 400 reply. `CursorFailed` is the store refusing the
   * cursor: the route has no catch, so the rejection escapes the handler. Under
   * Express 4 it goes unhandled and no reply is sent; under Express 5 the default
   * error handler replies 500.
   */
  datatype SellerListingError = SellerEmailRequired | CursorFailed

  const DefaultPage := 1
  const ShopPageSize := 12
  const SellerPageSize := 10

  /** The order that applies when the sort name is missing or unknown. */
  const NewestFirst := SortSpec(CreatedAt, Descending)

  // ---------------------------------------------------------------- filter

  /** A regex test, case-insensitive, of a search pattern against a field: supplied by the store. */
  type SearchTest = (string, string) -> bool

  /** Whether the store returns product `p` for filter `f`. */
  predicate Matches(p: Product, f: Filter, hit: SearchTest) {
    && (f.category.Some? ==> p.category == f.category.value)
    && (f.search.Some? ==> hit(p.productName, f.search.value) || hit(p.brand, f.search.value))
    && (f.price.Some? ==>
          && (f.price.value.gte.Some? ==> p.price >= f.price.value.gte.value)
          && (f.price.value.lte.Some? ==> p.price <= f.price.value.lte.value))
    && (f.ratingGte.Some? ==> p.rating >= f.ratingGte.value)
    && (f.discounted ==> p.discount.Some? && p.discount.value > 0.0)
    && (f.sellerId.Some? ==> p.sellerId == f.sellerId)
    && (f.sellerEmail.Some? ==> p.sellerEmail == f.sellerEmail.value)
  }

  /** The query document the shop listing builds from its parameters. */
  function BuildFilter(q: ListingQuery): (f: Filter)
    ensures f.category.Some? ==> IsLower(f.category.value)
    ensures f.sellerEmail.None?
  {
    var category := if Truthy(q.category) then Some(Lower(q.category.value)) else None;
    LowerNormalises(if Truthy(q.category) then q.category.value else "");
    Filter(
      category,
      if Truthy(q.search) then q.search else None,
      if q.priceMin.Some? || q.priceMax.Some? then Some(PriceBounds(q.priceMin, q.priceMax)) else None,
      q.ratingGte,
      q.flash == Some("true"),
      if Truthy(q.seller) then q.seller else None,
      None)
  }

  /** The products of `ps` the filter selects, in their order. */
  function Select(ps: seq<Product>, f: Filter, hit: SearchTest): (r: seq<Product>)
    ensures |r| <= |ps|
    ensures forall x :: x in r <==> x in ps && Matches(x, f, hit)
    ensures multiset(r) <= multiset(ps)
    ensures forall x :: multiset(r)[x] == if Matches(x, f, hit) then multiset(ps)[x] else 0
  {
    if |ps| == 0 then []
    else
      assert ps == [ps[0]] + ps[1..];
      if Matches(ps[0], f, hit) then [ps[0]] + Select(ps[1..], f, hit) else Select(ps[1..], f, hit)
  }

  // ---------------------------------------------------------------- sort

  /** The shop listing's table from sort name to sort order. */
  function SortFor(sort: Option<string>): SortSpec {
    match sort
    case Some("price_asc") => SortSpec(Price, Ascending)
    case Some("price_desc") => SortSpec(Price, Descending)
    case Some("rating_desc") => SortSpec(Rating, Descending)
    case Some("newest") => SortSpec(CreatedAt, Descending)
    case Some("sold_desc") => SortSpec(Sold, Descending)
    case _ => NewestFirst
  }

  /** A sort key; a field the document lacks sorts below every number. */
  datatype SortKey = Missing | Number(n: real)

  predicate KeyAtMost(a: SortKey, b: SortKey) {
    a.Missing? || (b.Number? && a.n <= b.n)
  }

  function Key(p: Product, field: SortField): SortKey {
    match field
    case Price => Number(p.price)
    case Rating => Number(p.rating)
    case CreatedAt => Number(p.createdAt as real)
    case Sold => if p.sold.Some? then Number(p.sold.value as real) else Missing
  }

  /** `a` may come before `b` under `s`. */
  predicate InOrder(a: Product, b: Product, s: SortSpec) {
    if s.direction == Ascending then KeyAtMost(Key(a, s.field), Key(b, s.field))
    else KeyAtMost(Key(b, s.field), Key(a, s.field))
  }

  predicate Sorted(ps: seq<Product>, s: SortSpec) {
    forall i, j :: 0 <= i < j < |ps| ==> InOrder(ps[i], ps[j], s)
  }

  lemma SortedTail(ps: seq<Product>, s: SortSpec)
    requires |ps| > 0 && Sorted(ps, s)
    ensures Sorted(ps[1..], s)
  {
    forall i, j | 0 <= i < j < |ps[1..]| ensures InOrder(ps[1..][i], ps[1..][j], s) {
      assert ps[1..][i] == ps[i + 1] && ps[1..][j] == ps[j + 1];
    }
  }

  lemma SortedCons(h: Product, rest: seq<Product>, s: SortSpec)
    requires Sorted(rest, s)
    requires forall y :: y in multiset(rest) ==> InOrder(h, y, s)
    ensures Sorted([h] + rest, s)
  {
    var r := [h] + rest;
    forall i, j | 0 <= i < j < |r| ensures InOrder(r[i], r[j], s) {
      assert r[j] == rest[j - 1];
      if i > 0 {
        assert r[i] == rest[i - 1];
      } else {
        assert rest[j - 1] in multiset(rest);
      }
    }
  }

  lemma HeadBeforeAll(ps: seq<Product>, p: Product, s: SortSpec)
    requires |ps| > 0 && Sorted(ps, s) && !InOrder(p, ps[0], s)
    ensures forall y :: y in multiset(ps[1..]) + multiset{p} ==> InOrder(ps[0], y, s)
  {
    forall y | y in multiset(ps[1..]) + multiset{p} ensures InOrder(ps[0], y, s) {
      if y != p {
        var k :| 0 <= k < |ps[1..]| && ps[1..][k] == y;
        assert ps[k + 1] == y;
      }
    }
  }

  function Insert(p: Product, ps: seq<Product>, s: SortSpec): (r: seq<Product>)
    requires Sorted(ps, s)
    ensures Sorted(r, s)
    ensures multiset(r) == multiset(ps) + multiset{p}
    ensures |r| == |ps| + 1
  {
    if |ps| == 0 then [p]
    else if InOrder(p, ps[0], s) then
      SortedCons(p, ps, s);
      [p] + ps
    else
      SortedTail(ps, s);
      var rest := Insert(p, ps[1..], s);
      HeadBeforeAll(ps, p, s);
      SortedCons(ps[0], rest, s);
      assert ps == [ps[0]] + ps[1..];
      [ps[0]] + rest
  }

  /** The products in the order the store returns them under `s`. */
  function SortBy(ps: seq<Product>, s: SortSpec): (r: seq<Product>)
    ensures Sorted(r, s)
    ensures multiset(r) == multiset(ps)
    ensures |r| == |ps|
  {
    if |ps| == 0 then []
    else
      assert ps == [ps[0]] + ps[1..];
      Insert(ps[0], SortBy(ps[1..], s), s)
  }

  // ---------------------------------------------------------------- listings

  /** The skip of a page: `(page - 1) * limit`. */
  function Skip(page: int, limit: int): int {
    (page - 1) * limit
  }

  /** Pages from 1 on with a positive page size never skip backwards. */
  lemma SkipNonNegative(page: int, limit: int)
    requires page >= 1 && limit > 0
    ensures Skip(page, limit) >= 0
  {
    MulMonotone(0, page - 1, limit);
  }

  /** `parseInt(x) || d`: NaN and 0 are falsy and fall back to `d`. */
  function ParsedOr(v: Option<int>, d: int): (r: int)
    ensures r != 0 || d == 0
    ensures v.Some? && v.value != 0 ==> r == v.value
    ensures v.None? || v.value == 0 ==> r == d
  {
    if v.None? || v.value == 0 then d else v.value
  }

  /** A window of a sorted list is sorted and takes its products from that list. */
  lemma WindowOfSorted(ordered: seq<Product>, skip: int, limit: int, s: SortSpec)
    requires Sorted(ordered, s) && skip >= 0
    ensures Sorted(Window(ordered, skip, limit).value, s)
    ensures forall p :: p in Window(ordered, skip, limit).value ==> p in ordered
  {
    var w := Window(ordered, skip, limit).value;
    forall i, j | 0 <= i < j < |w| ensures InOrder(w[i], w[j], s) {
      assert w[i] == ordered[skip + i] && w[j] == ordered[skip + j];
    }
    forall p | p in w ensures p in ordered {
      var k :| 0 <= k < |w| && w[k] == p;
      assert p == ordered[skip + k];
    }
  }

  /** Every product the shop listing query selects, in its sort order. */
  function ShopOrder(catalogue: seq<Product>, q: ListingQuery, hit: SearchTest): (r: seq<Product>)
    ensures |r| == |Select(catalogue, BuildFilter(q), hit)|
    ensures Sorted(r, SortFor(q.sort))
    ensures forall p :: p in r ==> p in catalogue && Matches(p, BuildFilter(q), hit)
    ensures multiset(r) == multiset(Select(catalogue, BuildFilter(q), hit))
  {
    var matching := Select(catalogue, BuildFilter(q), hit);
    var ordered := SortBy(matching, SortFor(q.sort));
    assert forall p :: p in ordered ==> p in matching by {
      forall p | p in ordered ensures p in matching {
        assert p in multiset(ordered);
      }
    }
    ordered
  }

  /** GET /products: filter, sort, count and cut out one page. */
  function ListProducts(catalogue: seq<Product>, q: ListingQuery, hit: SearchTest): (r: Result<ListingPage, ListingError>)
    ensures r.Err? <==> Skip(q.page.GetOr(DefaultPage), q.limit.GetOr(ShopPageSize)) < 0
    ensures r.Ok? ==> forall p :: p in r.value.products ==> p in catalogue && Matches(p, BuildFilter(q), hit)
    ensures r.Ok? ==> Sorted(r.value.products, SortFor(q.sort))
    ensures r.Ok? ==> r.value.page == q.page.GetOr(DefaultPage)
    ensures r.Ok? ==> r.value.total == |Select(catalogue, BuildFilter(q), hit)|
    ensures r.Ok? ==> r.value.totalPages == TotalPages(r.value.total, q.limit.GetOr(ShopPageSize))
    ensures r.Ok? && q.limit.GetOr(ShopPageSize) != 0 ==> |r.value.products| <= Abs(q.limit.GetOr(ShopPageSize))
    ensures r.Ok? ==> IsWindow(r.value.products, ShopOrder(catalogue, q, hit),
      Skip(q.page.GetOr(DefaultPage), q.limit.GetOr(ShopPageSize)), q.limit.GetOr(ShopPageSize))
    ensures r.Ok? ==> Window(ShopOrder(catalogue, q, hit),
      Skip(q.page.GetOr(DefaultPage), q.limit.GetOr(ShopPageSize)), q.limit.GetOr(ShopPageSize)) == Ok(r.value.products)
  {
    var page := q.page.GetOr(DefaultPage);
    var limit := q.limit.GetOr(ShopPageSize);
    var ordered := ShopOrder(catalogue, q, hit);
    match Window(ordered, Skip(page, limit), limit)
    case Err(_) => Err(LoadFailed)
    case Ok(items) =>
      WindowOfSorted(ordered, Skip(page, limit), limit, SortFor(q.sort));
      Ok(ListingPage(items, |ordered|, page, TotalPages(|ordered|, limit)))
  }

  /** The query document of the seller listing. */
  function SellerFilter(email: Option<string>): Filter {
    Filter(None, None, None, None, false, None, email)
  }

  /** A search test for filters without a search condition. */
  function NoSearch(field: string, pattern: string): bool {
    false
  }

  /** Every product of the seller, newest first. */
  function SellerOrder(catalogue: seq<Product>, email: Option<string>): (r: seq<Product>)
    ensures |r| == |Select(catalogue, SellerFilter(email), NoSearch)|
    ensures Sorted(r, NewestFirst)
    ensures forall p :: p in r ==> p in catalogue && Matches(p, SellerFilter(email), NoSearch)
    ensures multiset(r) == multiset(Select(catalogue, SellerFilter(email), NoSearch))
  {
    var matching := Select(catalogue, SellerFilter(email), NoSearch);
    var ordered := SortBy(matching, NewestFirst);
    assert forall p :: p in ordered ==> p in matching by {
      forall p | p in ordered ensures p in matching {
        assert p in multiset(ordered);
      }
    }
    ordered
  }

  /** GET /seller/products: one seller's products, newest first, ten to a page by default. */
  function SellerProducts(catalogue: seq<Product>, q: SellerQuery): (r: Result<SellerPage, SellerListingError>)
    ensures r == Err(SellerEmailRequired) <==> !Truthy(q.email)
    ensures r == Err(CursorFailed) <==> Truthy(q.email) && Skip(ParsedOr(q.page, DefaultPage), ParsedOr(q.limit, SellerPageSize)) < 0
    ensures r.Ok? ==> r.value.currentPage == ParsedOr(q.page, DefaultPage)
    ensures r.Ok? ==> r.value.total == |Select(catalogue, SellerFilter(q.email), NoSearch)|
    ensures r.Ok? ==> forall p :: p in r.value.products ==> p in catalogue && p.sellerEmail == q.email.value
    ensures r.Ok? ==> Sorted(r.value.products, NewestFirst)
    ensures r.Ok? ==> r.value.totalPages == TotalPages(r.value.total, ParsedOr(q.limit, SellerPageSize))
    ensures r.Ok? ==> IsWindow(r.value.products, SellerOrder(catalogue, q.email),
      Skip(ParsedOr(q.page, DefaultPage), ParsedOr(q.limit, SellerPageSize)), ParsedOr(q.limit, SellerPageSize))
    ensures r.Ok? ==> Window(SellerOrder(catalogue, q.email),
      Skip(ParsedOr(q.page, DefaultPage), ParsedOr(q.limit, SellerPageSize)), ParsedOr(q.limit, SellerPageSize)) == Ok(r.value.products)
  {
    var page := ParsedOr(q.page, DefaultPage);
    var limit := ParsedOr(q.limit, SellerPageSize);
    if !Truthy(q.email) then Err(SellerEmailRequired)
    else
      var ordered := SellerOrder(catalogue, q.email);
      match Window(ordered, Skip(page, limit), limit)
      case Err(_) => Err(CursorFailed)
      case Ok(items) =>
        WindowOfSorted(ordered, Skip(page, limit), limit, NewestFirst);
        Ok(SellerPage(items, |ordered|, TotalPages(|ordered|, limit), page))
  }
}
