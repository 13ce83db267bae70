/**
 * The three list endpoints as functions of the store's documents (taken in the
 * store's natural order): the filtered, sorted, paged product list with its
 * statistics, the low-stock list and the per-category list.
 */
module Listing {
  import opened Wrappers
  import opened ProductModel
  import opened Sequences
  import opened Query

  /** The listing's query string: filters, sort and the two paging parameters, parsed. */
  datatype ListRequest = ListRequest(filters: Filters, sort: Option<string>, page: Option<int>, limit: Option<int>)

  datatype PageStats = PageStats(totalProducts: nat, totalPages: nat, currentPage: int, productsPerPage: int)

  /** The listing's answer: the page's size, the statistics and the page itself. */
  datatype ListPage = ListPage(count: nat, stats: PageStats, data: seq<Product>)

  function PageOf(req: ListRequest): int { req.page.GetOr(DefaultPage) }

  function LimitOf(req: ListRequest): int { req.limit.GetOr(DefaultLimit) }

  /** Paging values the listing handles without degenerating: both at least 1. */
  predicate PagingInRange(req: ListRequest) {
    PageOf(req) >= 1 && LimitOf(req) >= 1
  }

  /** The filter as a test on one document. */
  function Selects(f: Filters): Product -> bool {
    (p: Product) => MatchesQuery(p, BuildQuery(f))
  }

  /** All matching documents, ordered by the request's sort option. */
  function Ordered(store: seq<Product>, req: ListRequest): seq<Product> {
    SortBy(Filter(store, Selects(req.filters)), PrecedesBy(SortSpec(req.sort)))
  }

  /** The product list: one page of the ordered matches plus the statistics. */
  function GetProducts(store: seq<Product>, req: ListRequest): (r: ListPage)
    requires PagingInRange(req)
    ensures r.count == |r.data| <= LimitOf(req)
    ensures r.stats.totalProducts == CountWhere(store, Selects(req.filters))
    ensures r.stats.totalPages == CeilDiv(r.stats.totalProducts, LimitOf(req))
    ensures r.stats.currentPage == PageOf(req) && r.stats.productsPerPage == LimitOf(req)
    ensures forall p :: p in r.data ==> p in store && MatchesQuery(p, BuildQuery(req.filters))
    ensures r.data == Window(Ordered(store, req), Skip(PageOf(req), LimitOf(req)), LimitOf(req))
  {
    var page, limit := PageOf(req), LimitOf(req);
    var ordered := Ordered(store, req);
    var matches := Filter(store, Selects(req.filters));
    var data := Window(ordered, Skip(page, limit), limit);
    CountIsFilterLength(store, Selects(req.filters));
    forall p | p in data ensures p in store && MatchesQuery(p, BuildQuery(req.filters)) {
      SortByMembers(matches, PrecedesBy(SortSpec(req.sort)), p);
    }
    var total := CountWhere(store, Selects(req.filters));
    ListPage(|data|, PageStats(total, CeilDiv(total, limit), page, limit), data)
  }

  /** A window of a sorted sequence is sorted. */
  lemma WindowSorted<T>(s: seq<T>, skip: nat, limit: nat, le: (T, T) -> bool)
    requires Sorted(s, le)
    ensures Sorted(Window(s, skip, limit), le)
  {
    var w := Window(s, skip, limit);
    forall i, j | 0 <= i < j < |w| ensures le(w[i], w[j]) {
      assert w[i] == s[skip + i] && w[j] == s[skip + j];
    }
  }

  /** Every page is in the order the sort option asks for. */
  lemma GetProductsSorted(store: seq<Product>, req: ListRequest)
    requires PagingInRange(req)
    ensures Sorted(GetProducts(store, req).data, PrecedesBy(SortSpec(req.sort)))
  {
    var le := PrecedesBy(SortSpec(req.sort));
    PrecedesByTotalPreorder(SortSpec(req.sort));
    SortBySorted(Filter(store, Selects(req.filters)), le);
    WindowSorted(Ordered(store, req), Skip(PageOf(req), LimitOf(req)), LimitOf(req), le);
  }

  /** Paging arithmetic: a page before the last is full, a page past the last is empty,
      and every page up to the last holds something. */
  lemma {:induction false} WindowSizes<T>(s: seq<T>, page: int, limit: int)
    requires page >= 1 && limit >= 1
    ensures var w := Window(s, Skip(page, limit), limit);
      var pages := CeilDiv(|s|, limit);
      && (page < pages ==> |w| == limit)
      && (page > pages ==> |w| == 0)
      && (page <= pages ==> |w| >= 1)
  {
    var pages := CeilDiv(|s|, limit);
    var skip := Skip(page, limit);
    assert skip + limit == page * limit;
    if page < pages {
      MulMonotonic(page, pages - 1, limit);
      assert (pages - 1) * limit == pages * limit - limit;
      assert skip + limit <= |s|;
    }
    if page > pages {
      MulMonotonic(pages, page - 1, limit);
      assert skip >= |s|;
    }
    if page <= pages {
      MulMonotonic(page - 1, pages - 1, limit);
      assert (pages - 1) * limit == pages * limit - limit;
      assert skip < |s|;
    }
  }

  lemma MulMonotonic(a: int, b: int, k: nat)
    requires a <= b
    ensures a * k <= b * k
  {
  }

  /** The same for the product list: pages before the last are full, pages past it are
      empty, and `totalProducts` counts the ordered matches on all pages. */
  lemma PageSizes(store: seq<Product>, req: ListRequest)
    requires PagingInRange(req)
    ensures var r := GetProducts(store, req);
      && (PageOf(req) < r.stats.totalPages ==> r.count == LimitOf(req))
      && (PageOf(req) > r.stats.totalPages ==> r.count == 0)
      && (PageOf(req) <= r.stats.totalPages ==> r.count >= 1)
      && r.stats.totalProducts == |Ordered(store, req)|
  {
    CountIsFilterLength(store, Selects(req.filters));
    WindowSizes(Ordered(store, req), PageOf(req), LimitOf(req));
  }

  /** The low-stock test the low-stock list and the dashboard share. */
  predicate ActiveLowStock(p: Product) {
    p.isActive && IsLowStock(p)
  }

  const ByStock: seq<SortRule> := [SortRule("stock", Asc)]
  const ByName: seq<SortRule> := [SortRule("name", Asc)]

  /** The low-stock list: active products at or under their threshold, by ascending stock. */
  function GetLowStockProducts(store: seq<Product>): seq<Product> {
    SortBy(Filter(store, ActiveLowStock), PrecedesBy(ByStock))
  }

  /** It holds exactly the active low-stock products, each as often as the store does,
      in ascending stock order. */
  lemma LowStockListing(store: seq<Product>)
    ensures var r := GetLowStockProducts(store);
      && (forall p :: p in r <==> p in store && p.isActive && p.stock <= p.minStock)
      && multiset(r) == multiset(Filter(store, ActiveLowStock))
      && forall i, j :: 0 <= i < j < |r| ==> r[i].stock <= r[j].stock
  {
    var r := GetLowStockProducts(store);
    forall p ensures p in r <==> p in store && p.isActive && p.stock <= p.minStock {
      SortByMembers(Filter(store, ActiveLowStock), PrecedesBy(ByStock), p);
    }
    PrecedesByTotalPreorder(ByStock);
    SortBySorted(Filter(store, ActiveLowStock), PrecedesBy(ByStock));
    forall i, j | 0 <= i < j < |r| ensures r[i].stock <= r[j].stock {
      PrecedesByStock(r[i], r[j]);
    }
  }

  function InCategory(category: string): Product -> bool {
    (p: Product) => p.isActive && CategoryName(p.category) == category
  }

  /** The category list: the active products of the named category, by ascending name. */
  function GetProductsByCategory(store: seq<Product>, category: string): seq<Product> {
    SortBy(Filter(store, InCategory(category)), PrecedesBy(ByName))
  }

  /** It holds exactly the active products of that category, in ascending name order;
      a name that is not a category yields the empty list. */
  lemma CategoryListing(store: seq<Product>, category: string)
    ensures var r := GetProductsByCategory(store, category);
      && (forall p :: p in r <==> p in store && p.isActive && CategoryName(p.category) == category)
      && multiset(r) == multiset(Filter(store, InCategory(category)))
      && (forall i, j :: 0 <= i < j < |r| ==> Text.StrCmp(r[i].name, r[j].name) <= 0)
      && (ParseCategory(category).None? ==> r == [])
  {
    var r := GetProductsByCategory(store, category);
    forall p ensures p in r <==> p in store && p.isActive && CategoryName(p.category) == category {
      SortByMembers(Filter(store, InCategory(category)), PrecedesBy(ByName), p);
    }
    PrecedesByTotalPreorder(ByName);
    SortBySorted(Filter(store, InCategory(category)), PrecedesBy(ByName));
    forall i, j | 0 <= i < j < |r| ensures Text.StrCmp(r[i].name, r[j].name) <= 0 {
      PrecedesByName(r[i], r[j]);
    }
  }
}
