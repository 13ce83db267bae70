/**
 * The dashboard statistics as folds over the store's documents: counts of active,
 * low-stock and recently created products, the stock valuation, and the
 * per-category breakdown ordered by count.
 */
module Dashboard {
  import opened ProductModel
  import opened Sequences
  import Listing

  /** The trailing window for "recent" products, in milliseconds (seven days). */
  const RecentWindowMs := 7 * 24 * 60 * 60 * 1000

  datatype CategoryStat = CategoryStat(category: Category, count: nat, totalStock: int)

  datatype DashboardStats = DashboardStats(
    totalProducts: nat,
    lowStockCount: nat,
    totalStockValue: real,
    recentProducts: nat,
    productsByCategory: seq<CategoryStat>)

  predicate IsActive(p: Product) { p.isActive }

  function One(p: Product): int { 1 }

  function StockOf(p: Product): int { p.stock }

  function CountOf(g: CategoryStat): int { g.count }

  function TotalStockOf(g: CategoryStat): int { g.totalStock }

  /** Sum of `w` over the active products. */
  function ActiveTally(s: seq<Product>, w: Product -> int): int {
    if s == [] then 0 else (if s[0].isActive then w(s[0]) else 0) + ActiveTally(s[1..], w)
  }

  /** Sum of `w` over the active products of one category (a `$group` accumulator). */
  function Tally(s: seq<Product>, c: Category, w: Product -> int): int {
    if s == [] then 0
    else (if s[0].isActive && s[0].category == c then w(s[0]) else 0) + Tally(s[1..], c, w)
  }

  /** Sum of the per-category tallies over a list of categories. */
  function TallyAmong(s: seq<Product>, cats: seq<Category>, w: Product -> int): int {
    if cats == [] then 0 else Tally(s, cats[0], w) + TallyAmong(s, cats[1..], w)
  }

  lemma {:induction false} TallyAmongStep(s: seq<Product>, cats: seq<Category>, w: Product -> int)
    requires s != [] && NoDuplicates(cats)
    ensures TallyAmong(s, cats, w)
         == (if s[0].isActive && s[0].category in cats then w(s[0]) else 0) + TallyAmong(s[1..], cats, w)
  {
    if cats != [] {
      TallyAmongStep(s, cats[1..], w);
      assert cats[0] !in cats[1..];
    }
  }

  /** The category list names every category once. */
  lemma CategoriesListed(c: Category)
    ensures c in AllCategories
    ensures NoDuplicates(AllCategories)
  {
    match c
    case Electronics => assert AllCategories[0] == c;
    case Clothing => assert AllCategories[1] == c;
    case FoodAndBeverage => assert AllCategories[2] == c;
    case Furniture => assert AllCategories[3] == c;
    case Stationery => assert AllCategories[4] == c;
    case Hardware => assert AllCategories[5] == c;
    case Other => assert AllCategories[6] == c;
  }

  lemma {:induction false} TallyAmongEmpty(cats: seq<Category>, w: Product -> int)
    ensures TallyAmong([], cats, w) == 0
  {
    if cats != [] {
      TallyAmongEmpty(cats[1..], w);
    }
  }

  /** Every active product falls in exactly one category, so the category tallies add
      up to the tally over all active products. */
  lemma {:induction false} TallyPartition(s: seq<Product>, w: Product -> int)
    ensures TallyAmong(s, AllCategories, w) == ActiveTally(s, w)
  {
    if s == [] {
      TallyAmongEmpty(AllCategories, w);
    } else {
      CategoriesListed(s[0].category);
      TallyAmongStep(s, AllCategories, w);
      TallyPartition(s[1..], w);
    }
  }

  /** A category has a positive count exactly when an active product of it exists. */
  lemma {:induction false} CountPositive(s: seq<Product>, c: Category)
    ensures Tally(s, c, One) >= 0
    ensures Tally(s, c, One) > 0 <==> exists p :: p in s && p.isActive && p.category == c
  {
    if s != [] {
      CountPositive(s[1..], c);
      if exists p :: p in s && p.isActive && p.category == c {
        var p :| p in s && p.isActive && p.category == c;
        if p != s[0] {
          assert p in s[1..];
        }
      }
    }
  }

  /** A category no active product belongs to has no stock either. */
  lemma {:induction false} NoCountNoStock(s: seq<Product>, c: Category)
    requires Tally(s, c, One) == 0
    ensures Tally(s, c, StockOf) == 0
  {
    if s != [] {
      CountPositive(s[1..], c);
      NoCountNoStock(s[1..], c);
    }
  }

  /** One row per category of `cats` that has active products, before ordering. */
  function Rows(s: seq<Product>, cats: seq<Category>): seq<CategoryStat> {
    if cats == [] then []
    else
      var c := cats[0];
      (if Tally(s, c, One) > 0 then [CategoryStat(c, Tally(s, c, One), Tally(s, c, StockOf))] else [])
      + Rows(s, cats[1..])
  }

  lemma SumOfCons<T>(x: T, r: seq<T>, f: T -> int)
    ensures SumOf([x] + r, f) == f(x) + SumOf(r, f)
  {
    assert ([x] + r)[1..] == r;
  }

  lemma {:induction false} RowsSums(s: seq<Product>, cats: seq<Category>)
    ensures SumOf(Rows(s, cats), CountOf) == TallyAmong(s, cats, One)
    ensures SumOf(Rows(s, cats), TotalStockOf) == TallyAmong(s, cats, StockOf)
  {
    if cats != [] {
      var c := cats[0];
      RowsSums(s, cats[1..]);
      CountPositive(s, c);
      if Tally(s, c, One) > 0 {
        var row := CategoryStat(c, Tally(s, c, One), Tally(s, c, StockOf));
        SumOfCons(row, Rows(s, cats[1..]), CountOf);
        SumOfCons(row, Rows(s, cats[1..]), TotalStockOf);
      } else {
        NoCountNoStock(s, c);
        assert Rows(s, cats) == Rows(s, cats[1..]);
      }
    }
  }

  /** What a row holds: a listed category with active products, and its true tallies. */
  lemma {:induction false} RowsMembers(s: seq<Product>, cats: seq<Category>, g: CategoryStat)
    ensures g in Rows(s, cats) <==>
      && g.category in cats
      && Tally(s, g.category, One) > 0
      && g == CategoryStat(g.category, Tally(s, g.category, One), Tally(s, g.category, StockOf))
  {
    if cats != [] {
      RowsMembers(s, cats[1..], g);
    }
  }

  lemma {:induction false} RowsNoDuplicates(s: seq<Product>, cats: seq<Category>)
    requires NoDuplicates(cats)
    ensures NoDuplicates(Rows(s, cats))
  {
    if cats != [] {
      RowsNoDuplicates(s, cats[1..]);
      var rest := Rows(s, cats[1..]);
      forall g | g in rest ensures g.category != cats[0] {
        RowsMembers(s, cats[1..], g);
        assert cats[0] !in cats[1..];
      }
    }
  }

  /** `$sort: { count: -1 }`: larger counts first. */
  function MoreOrEqual(a: CategoryStat, b: CategoryStat): bool {
    a.count >= b.count
  }

  function ProductsByCategory(s: seq<Product>): seq<CategoryStat> {
    SortBy(Rows(s, AllCategories), MoreOrEqual)
  }

  /** `$sum` of `stock * cost` over the active products (0 when there are none). */
  function StockValue(s: seq<Product>): real {
    if s == [] then 0.0
    else (if s[0].isActive then s[0].stock as real * s[0].cost else 0.0) + StockValue(s[1..])
  }

  /** Created within the trailing window ending at `now`. */
  predicate IsRecent(p: Product, now: int) {
    p.isActive && p.createdAt >= now - RecentWindowMs
  }

  /** The dashboard statistics at time `now`. */
  function GetDashboardStats(s: seq<Product>, now: int): DashboardStats {
    DashboardStats(
      totalProducts := CountWhere(s, IsActive),
      lowStockCount := CountWhere(s, Listing.ActiveLowStock),
      totalStockValue := StockValue(s),
      recentProducts := CountWhere(s, (p: Product) => IsRecent(p, now)),
      productsByCategory := ProductsByCategory(s))
  }

  lemma {:induction false} ActiveTallyOne(s: seq<Product>)
    ensures ActiveTally(s, One) == CountWhere(s, IsActive)
  {
    if s != [] {
      ActiveTallyOne(s[1..]);
    }
  }

  /** The counts: the low-stock count is the length of the low-stock list and never
      exceeds the active count, and so does the recent count. */
  lemma DashboardCounts(s: seq<Product>, now: int)
    ensures var d := GetDashboardStats(s, now);
      && d.totalProducts == |Filter(s, IsActive)|
      && d.lowStockCount == |Listing.GetLowStockProducts(s)|
      && d.lowStockCount <= d.totalProducts
      && d.recentProducts <= d.totalProducts
  {
    CountIsFilterLength(s, IsActive);
    CountIsFilterLength(s, Listing.ActiveLowStock);
    CountWhereMonotonic(s, Listing.ActiveLowStock, IsActive);
    CountWhereMonotonic(s, (p: Product) => IsRecent(p, now), IsActive);
  }

  predicate HasRow(rows: seq<CategoryStat>, c: Category) {
    exists g :: g in rows && g.category == c
  }

  predicate HasActive(s: seq<Product>, c: Category) {
    exists p :: p in s && p.isActive && p.category == c
  }

  /** The breakdown has a row for a category exactly when an active product of that
      category exists. */
  lemma BreakdownPresence(s: seq<Product>, c: Category)
    ensures HasRow(ProductsByCategory(s), c) <==> HasActive(s, c)
  {
    var base := Rows(s, AllCategories);
    var rows := ProductsByCategory(s);
    CountPositive(s, c);
    CategoriesListed(c);
    var g := CategoryStat(c, Tally(s, c, One), Tally(s, c, StockOf));
    RowsMembers(s, AllCategories, g);
    SortByMembers(base, MoreOrEqual, g);
    if HasRow(rows, c) {
      var h :| h in rows && h.category == c;
      SortByMembers(base, MoreOrEqual, h);
      RowsMembers(s, AllCategories, h);
    }
  }

  /** Each row carries its category's count of active products and their total stock,
      and no category has two rows. */
  lemma BreakdownRows(s: seq<Product>)
    ensures var rows := ProductsByCategory(s);
      && (forall g :: g in rows ==>
            && g.count == CountWhere(s, (p: Product) => p.isActive && p.category == g.category)
            && g.totalStock == Tally(s, g.category, StockOf))
      && (forall i, j :: 0 <= i < j < |rows| ==> rows[i].category != rows[j].category)
  {
    var base := Rows(s, AllCategories);
    var rows := ProductsByCategory(s);
    forall g | g in rows
      ensures g.count == CountWhere(s, (p: Product) => p.isActive && p.category == g.category)
      ensures g.totalStock == Tally(s, g.category, StockOf)
    {
      SortByMembers(base, MoreOrEqual, g);
      RowsMembers(s, AllCategories, g);
      TallyOneIsCount(s, g.category);
    }
    CategoriesListed(Other);
    RowsNoDuplicates(s, AllCategories);
    PermutationKeepsNoDuplicates(rows, base);
    forall i, j | 0 <= i < j < |rows| ensures rows[i].category != rows[j].category {
      SortByMembers(base, MoreOrEqual, rows[i]);
      SortByMembers(base, MoreOrEqual, rows[j]);
      RowsMembers(s, AllCategories, rows[i]);
      RowsMembers(s, AllCategories, rows[j]);
    }
  }

  /** The row counts add up to the active count, the row stocks to the active stock. */
  lemma BreakdownSums(s: seq<Product>, now: int)
    ensures SumOf(ProductsByCategory(s), CountOf) == GetDashboardStats(s, now).totalProducts
    ensures SumOf(ProductsByCategory(s), TotalStockOf) == ActiveTally(s, StockOf)
  {
    var base := Rows(s, AllCategories);
    SortBySum(base, MoreOrEqual, CountOf);
    SortBySum(base, MoreOrEqual, TotalStockOf);
    RowsSums(s, AllCategories);
    TallyPartition(s, One);
    TallyPartition(s, StockOf);
    ActiveTallyOne(s);
  }

  /** The rows come by non-increasing count. */
  lemma BreakdownOrdered(s: seq<Product>)
    ensures var rows := ProductsByCategory(s);
      forall i, j :: 0 <= i < j < |rows| ==> rows[i].count >= rows[j].count
  {
    assert TotalPreorder(MoreOrEqual);
    SortBySorted(Rows(s, AllCategories), MoreOrEqual);
  }

  lemma {:induction false} TallyOneIsCount(s: seq<Product>, c: Category)
    ensures Tally(s, c, One) == CountWhere(s, (p: Product) => p.isActive && p.category == c)
  {
    if s != [] {
      TallyOneIsCount(s[1..], c);
    }
  }

  /** With every product valid, the stock valuation is never negative. */
  lemma {:induction false} StockValueNonNegative(s: seq<Product>)
    requires forall p :: p in s ==> Valid(p)
    ensures StockValue(s) >= 0.0
  {
    if s != [] {
      assert s[0] in s;
      StockValueNonNegative(s[1..]);
    }
  }

  /** With no active product every statistic is zero and the breakdown is empty. */
  lemma {:induction false} NoActiveProducts(s: seq<Product>, now: int)
    requires forall p :: p in s ==> !p.isActive
    ensures GetDashboardStats(s, now) == DashboardStats(0, 0, 0.0, 0, [])
  {
    if s != [] {
      assert forall p :: p in s[1..] ==> p in s;
      NoActiveProducts(s[1..], now);
      assert !s[0].isActive;
      forall c ensures Tally(s, c, One) == 0 {
        CountPositive(s, c);
      }
      EmptyRows(s, AllCategories);
    }
  }

  lemma {:induction false} EmptyRows(s: seq<Product>, cats: seq<Category>)
    requires forall c :: Tally(s, c, One) == 0
    ensures Rows(s, cats) == []
  {
    if cats != [] {
      EmptyRows(s, cats[1..]);
    }
  }
}
