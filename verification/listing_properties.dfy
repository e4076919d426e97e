/** What the listing handlers promise about their filters, sort table and default pages. */
module ListingProperties {
  import opened Base
  import opened Text
  import opened Pagination
  import opened Listing

  /** A product is listed exactly when it meets every condition whose parameter is given. */
  lemma ListingFilterMeaning(q: ListingQuery, p: Product, hit: SearchTest)
    ensures Matches(p, BuildFilter(q), hit) <==>
      && (Truthy(q.category) ==> p.category == Lower(q.category.value))
      && (Truthy(q.search) ==> hit(p.productName, q.search.value) || hit(p.brand, q.search.value))
      && (q.priceMin.Some? ==> p.price >= q.priceMin.value)
      && (q.priceMax.Some? ==> p.price <= q.priceMax.value)
      && (q.ratingGte.Some? ==> p.rating >= q.ratingGte.value)
      && (q.flash == Some("true") ==> p.discount.Some? && p.discount.value > 0.0)
      && (Truthy(q.seller) ==> p.sellerId == q.seller)
  {
  }

  /** The category parameter is case-insensitive: two spellings that lower-case alike give the same filter. */
  lemma CategoryCaseInsensitive(q: ListingQuery, a: string, b: string)
    requires Lower(a) == Lower(b)
    ensures BuildFilter(q.(category := Some(a))) == BuildFilter(q.(category := Some(b)))
  {
    assert |a| == |Lower(a)| == |Lower(b)| == |b|;
  }

  /** Sending an already lower-cased category changes nothing. */
  lemma CategoryAlreadyLowered(q: ListingQuery, c: string)
    ensures BuildFilter(q.(category := Some(Lower(c)))) == BuildFilter(q.(category := Some(c)))
  {
    LowerIdempotent(c);
    CategoryCaseInsensitive(q, Lower(c), c);
  }

  /** The five named sort orders, and the newest-first fallback for every other or missing name. */
  lemma SortTable(sort: Option<string>)
    ensures SortFor(Some("price_asc")) == SortSpec(Price, Ascending)
    ensures SortFor(Some("price_desc")) == SortSpec(Price, Descending)
    ensures SortFor(Some("rating_desc")) == SortSpec(Rating, Descending)
    ensures SortFor(Some("newest")) == SortSpec(CreatedAt, Descending)
    ensures SortFor(Some("sold_desc")) == SortSpec(Sold, Descending)
    ensures SortFor(sort) == NewestFirst <==>
      sort !in {Some("price_asc"), Some("price_desc"), Some("rating_desc"), Some("sold_desc")}
  {
  }

  /** The two price orders are each other's reverse. */
  lemma PriceOrdersReverse(a: Product, b: Product)
    ensures InOrder(a, b, SortFor(Some("price_asc"))) <==> InOrder(b, a, SortFor(Some("price_desc")))
  {
  }

  /** With no page or limit given, the shop listing shows the first twelve matching products in sort order. */
  lemma ShopDefaultPage(catalogue: seq<Product>, q: ListingQuery, hit: SearchTest)
    requires q.page.None? && q.limit.None?
    ensures ListProducts(catalogue, q, hit).Ok?
    ensures ListProducts(catalogue, q, hit).value.page == 1
    ensures ListProducts(catalogue, q, hit).value.products
      == ShopOrder(catalogue, q, hit)[..Min(12, |ShopOrder(catalogue, q, hit)|)]
  {
    var ordered := ShopOrder(catalogue, q, hit);
    var w := ListProducts(catalogue, q, hit).value.products;
    assert IsWindow(w, ordered, 0, 12);
    assert IsWindow(ordered[..Min(12, |ordered|)], ordered, 0, 12);
    IsWindowUnique(w, ordered[..Min(12, |ordered|)], ordered, 0, 12);
  }

  /** With a seller email and no (or zero) page and limit, the seller listing shows the seller's ten newest products. */
  lemma SellerDefaultPage(catalogue: seq<Product>, q: SellerQuery)
    requires Truthy(q.email)
    requires q.page.None? || q.page == Some(0)
    requires q.limit.None? || q.limit == Some(0)
    ensures SellerProducts(catalogue, q).Ok?
    ensures SellerProducts(catalogue, q).value.currentPage == 1
    ensures SellerProducts(catalogue, q).value.products
      == SellerOrder(catalogue, q.email)[..Min(10, |SellerOrder(catalogue, q.email)|)]
  {
    var ordered := SellerOrder(catalogue, q.email);
    var w := SellerProducts(catalogue, q).value.products;
    assert IsWindow(w, ordered, 0, 10);
    assert IsWindow(ordered[..Min(10, |ordered|)], ordered, 0, 10);
    IsWindowUnique(w, ordered[..Min(10, |ordered|)], ordered, 0, 10);
  }

  /** A shop page p >= 1 with a positive limit is answered with page p of the sorted matches. */
  lemma ShopPageIsWindow(catalogue: seq<Product>, q: ListingQuery, hit: SearchTest)
    requires q.page.GetOr(DefaultPage) >= 1 && q.limit.GetOr(ShopPageSize) > 0
    ensures ListProducts(catalogue, q, hit).Ok?
    ensures Window(ShopOrder(catalogue, q, hit), Skip(q.page.GetOr(DefaultPage), q.limit.GetOr(ShopPageSize)), q.limit.GetOr(ShopPageSize))
      == Ok(ListProducts(catalogue, q, hit).value.products)
  {
    SkipNonNegative(q.page.GetOr(DefaultPage), q.limit.GetOr(ShopPageSize));
  }

  /** Filter and order do not depend on the page asked for. */
  lemma ShopOrderIgnoresPage(catalogue: seq<Product>, q: ListingQuery, hit: SearchTest, page: Option<int>)
    ensures ShopOrder(catalogue, q.(page := page), hit) == ShopOrder(catalogue, q, hit)
  {
    assert BuildFilter(q.(page := page)) == BuildFilter(q);
  }

  /** Shop page `n` of a query is the `n`-th window of that query's sorted matches. */
  lemma ShopPageN(catalogue: seq<Product>, q: ListingQuery, hit: SearchTest, n: nat)
    requires n >= 1 && q.limit.GetOr(ShopPageSize) > 0
    ensures ListProducts(catalogue, q.(page := Some(n)), hit).Ok?
    ensures Window(ShopOrder(catalogue, q, hit), (n - 1) * q.limit.GetOr(ShopPageSize), q.limit.GetOr(ShopPageSize))
      == Ok(ListProducts(catalogue, q.(page := Some(n)), hit).value.products)
  {
    var qn, limit := q.(page := Some(n)), q.limit.GetOr(ShopPageSize);
    assert qn.page.GetOr(DefaultPage) == n && qn.limit.GetOr(ShopPageSize) == limit;
    assert ShopOrder(catalogue, qn, hit) == ShopOrder(catalogue, q, hit) by {
      ShopOrderIgnoresPage(catalogue, q, hit, Some(n));
    }
    assert Window(ShopOrder(catalogue, qn, hit), Skip(n, limit), limit) == Ok(ListProducts(catalogue, qn, hit).value.products) by {
      ShopPageIsWindow(catalogue, qn, hit);
    }
  }

  /** A page reply with these products and this totalPages is page number `page`, within the total, and shows `p` as entry `slot`. */
  predicate OnPage(products: seq<Product>, totalPages: Option<int>, page: int, slot: int, p: Product) {
    && totalPages.Some?
    && page <= totalPages.value
    && 0 <= slot < |products|
    && products[slot] == p
  }

  /** Page `n` of `ordered` shows item `i` of `ordered` when `i` falls on page `n`. */
  lemma PageShowsItem(products: seq<Product>, totalPages: Option<int>, ordered: seq<Product>, limit: int, i: int, n: int)
    requires limit > 0 && 0 <= i < |ordered| && n == i / limit + 1
    requires Window(ordered, (n - 1) * limit, limit) == Ok(products)
    requires totalPages == TotalPages(|ordered|, limit)
    ensures OnPage(products, totalPages, n, i % limit, ordered[i])
  {
    ItemOnPage(ordered, limit, i, n);
  }

  /**
   * With a positive limit, every matching product is shown by some page within totalPages:
   * the one at sort position `i` is entry `i % limit` of page `i / limit + 1`.
   */
  lemma ShopMatchOnPage(catalogue: seq<Product>, q: ListingQuery, hit: SearchTest, i: int)
    requires q.limit.GetOr(ShopPageSize) > 0 && 0 <= i < |ShopOrder(catalogue, q, hit)|
    ensures var reply := ListProducts(catalogue, q.(page := Some(i / q.limit.GetOr(ShopPageSize) + 1)), hit);
      && reply.Ok?
      && OnPage(reply.value.products, reply.value.totalPages,
        i / q.limit.GetOr(ShopPageSize) + 1, i % q.limit.GetOr(ShopPageSize), ShopOrder(catalogue, q, hit)[i])
  {
    var limit, ordered := q.limit.GetOr(ShopPageSize), ShopOrder(catalogue, q, hit);
    DivSplit(i, limit);
    var n := i / limit + 1;
    var reply := ListProducts(catalogue, q.(page := Some(n)), hit);
    assert reply.Ok? && Window(ordered, (n - 1) * limit, limit) == Ok(reply.value.products) by {
      ShopPageN(catalogue, q, hit, n);
    }
    assert reply.value.totalPages == TotalPages(|ordered|, limit) by {
      ShopOrderIgnoresPage(catalogue, q, hit, Some(n));
    }
    PageShowsItem(reply.value.products, reply.value.totalPages, ordered, limit, i, n);
  }

  /** Seller page `n` (from 1) with a positive limit is the `n`-th window of the seller's products, newest first. */
  lemma SellerPageN(catalogue: seq<Product>, q: SellerQuery, n: int)
    requires Truthy(q.email) && n >= 1 && ParsedOr(q.limit, SellerPageSize) > 0
    ensures SellerProducts(catalogue, q.(page := Some(n))).Ok?
    ensures Window(SellerOrder(catalogue, q.email), (n - 1) * ParsedOr(q.limit, SellerPageSize), ParsedOr(q.limit, SellerPageSize))
      == Ok(SellerProducts(catalogue, q.(page := Some(n))).value.products)
    ensures SellerProducts(catalogue, q.(page := Some(n))).value.totalPages
      == TotalPages(|SellerOrder(catalogue, q.email)|, ParsedOr(q.limit, SellerPageSize))
  {
    var qn := q.(page := Some(n));
    assert ParsedOr(qn.page, DefaultPage) == n && qn.limit == q.limit && qn.email == q.email;
    SkipNonNegative(n, ParsedOr(q.limit, SellerPageSize));
  }

  /** Seller page `n = i / limit + 1` shows the seller's product at position `i` as entry `slot = i % limit`. */
  lemma SellerItemOnPage(catalogue: seq<Product>, q: SellerQuery, i: int, n: int, slot: int)
    requires Truthy(q.email) && ParsedOr(q.limit, SellerPageSize) > 0 && 0 <= i < |SellerOrder(catalogue, q.email)|
    requires n == i / ParsedOr(q.limit, SellerPageSize) + 1 && slot == i % ParsedOr(q.limit, SellerPageSize)
    ensures SellerProducts(catalogue, q.(page := Some(n))).Ok?
    ensures OnPage(SellerProducts(catalogue, q.(page := Some(n))).value.products,
      SellerProducts(catalogue, q.(page := Some(n))).value.totalPages, n, slot, SellerOrder(catalogue, q.email)[i])
  {
    var limit, ordered := ParsedOr(q.limit, SellerPageSize), SellerOrder(catalogue, q.email);
    assert n >= 1 by {
      DivSplit(i, limit);
    }
    var reply := SellerProducts(catalogue, q.(page := Some(n)));
    assert && reply.Ok?
           && Window(ordered, (n - 1) * limit, limit) == Ok(reply.value.products)
           && reply.value.totalPages == TotalPages(|ordered|, limit) by {
      SellerPageN(catalogue, q, n);
    }
    PageShowsItem(reply.value.products, reply.value.totalPages, ordered, limit, i, n);
  }

  /**
   * With a seller email and a positive limit, every product of the seller is shown by some page
   * within totalPages: the one at position `i`, newest first, is entry `i % limit` of page `i / limit + 1`.
   */
  lemma SellerMatchOnPage(catalogue: seq<Product>, q: SellerQuery, i: int)
    requires Truthy(q.email) && ParsedOr(q.limit, SellerPageSize) > 0 && 0 <= i < |SellerOrder(catalogue, q.email)|
    ensures var reply := SellerProducts(catalogue, q.(page := Some(i / ParsedOr(q.limit, SellerPageSize) + 1)));
      && reply.Ok?
      && OnPage(reply.value.products, reply.value.totalPages,
        i / ParsedOr(q.limit, SellerPageSize) + 1, i % ParsedOr(q.limit, SellerPageSize), SellerOrder(catalogue, q.email)[i])
  {
    var limit := ParsedOr(q.limit, SellerPageSize);
    SellerItemOnPage(catalogue, q, i, i / limit + 1, i % limit);
  }
}
