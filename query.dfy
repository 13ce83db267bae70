/**
 * The three builders behind the product listing: the predicate builder (query
 * parameters to a conjunction of constraints), the sort composer (a comma list
 * with `-` prefixes to ordered (field, direction) rules) and the pager.
 */
module Query {
  import opened Wrappers
  import opened Text
  import opened ProductModel
  import opened Sequences

  // ---------------------------------------------------------------- predicate builder

  /** The listing's filter parameters, already parsed. `None` stands for a parameter that
      is absent; for the numeric bounds it also stands for the empty string. */
  datatype Filters = Filters(
    category: Option<string>,
    minPrice: Option<real>,
    maxPrice: Option<real>,
    minStock: Option<int>,
    maxStock: Option<int>,
    isActive: Option<string>,
    search: Option<string>)

  /** One field of the query object the builder assembles. */
  datatype Constraint =
    | CategoryIs(name: string)
    | PriceAtLeast(minPrice: real)
    | PriceAtMost(maxPrice: real)
    | StockAtLeast(minStock: int)
    | StockAtMost(maxStock: int)
    | ActiveIs(active: bool)
    | TextMatches(term: string)

  /** JavaScript truthiness of an optional query string: present and not empty. */
  predicate Supplied(o: Option<string>) {
    o.Some? && o.value != ""
  }

  /** A constraint the builder adds only when its parameter is supplied. */
  function When(supplied: bool, c: Constraint): seq<Constraint> {
    if supplied then [c] else []
  }

  /** The query object, one constraint per supplied parameter, in the order they are added. */
  function BuildQuery(f: Filters): (q: seq<Constraint>)
    ensures |q| <= 7
  {
    When(Supplied(f.category), CategoryIs(f.category.GetOr("")))
    + When(f.minPrice.Some?, PriceAtLeast(f.minPrice.GetOr(0.0)))
    + When(f.maxPrice.Some?, PriceAtMost(f.maxPrice.GetOr(0.0)))
    + When(f.minStock.Some?, StockAtLeast(f.minStock.GetOr(0)))
    + When(f.maxStock.Some?, StockAtMost(f.maxStock.GetOr(0)))
    + When(f.isActive.Some?, ActiveIs(f.isActive.GetOr("") == "true"))
    + When(Supplied(f.search), TextMatches(f.search.GetOr("")))
  }

  /** A case-insensitive match of the search term against name, SKU or description. */
  predicate SearchHit(p: Product, term: string) {
    || ContainsIgnoreCase(p.name, term)
    || ContainsIgnoreCase(p.sku, term)
    || (p.description.Some? && ContainsIgnoreCase(p.description.value, term))
  }

  /** What the store does with one field of the query object. */
  predicate Satisfies(p: Product, c: Constraint) {
    match c
    case CategoryIs(name) => CategoryName(p.category) == name
    case PriceAtLeast(lo) => p.price >= lo
    case PriceAtMost(hi) => p.price <= hi
    case StockAtLeast(lo) => p.stock >= lo
    case StockAtMost(hi) => p.stock <= hi
    case ActiveIs(a) => p.isActive == a
    case TextMatches(term) => SearchHit(p, term)
  }

  /** A document matches the query object when it meets every field of it. */
  predicate MatchesQuery(p: Product, q: seq<Constraint>) {
    forall i :: 0 <= i < |q| ==> Satisfies(p, q[i])
  }

  lemma MatchesQueryAppend(p: Product, a: seq<Constraint>, b: seq<Constraint>)
    ensures MatchesQuery(p, a + b) <==> MatchesQuery(p, a) && MatchesQuery(p, b)
  {
    if MatchesQuery(p, a) && MatchesQuery(p, b) {
      forall i | 0 <= i < |a + b| ensures Satisfies(p, (a + b)[i]) {
        if i >= |a| { assert (a + b)[i] == b[i - |a|]; }
      }
    }
    if MatchesQuery(p, a + b) {
      forall i | 0 <= i < |a| ensures Satisfies(p, a[i]) {
        assert (a + b)[i] == a[i];
      }
      forall i | 0 <= i < |b| ensures Satisfies(p, b[i]) {
        assert (a + b)[|a| + i] == b[i];
      }
    }
  }

  /** An optional piece constrains exactly when it was supplied. */
  lemma MatchesWhen(p: Product, supplied: bool, c: Constraint)
    ensures MatchesQuery(p, When(supplied, c)) <==> (supplied ==> Satisfies(p, c))
  {
    if supplied {
      assert When(supplied, c)[0] == c;
    }
  }

  /** The filter's meaning, parameter by parameter: every supplied parameter constrains,
      an omitted one (or an empty category or search string) does not; `isActive` is
      tri-state, and the search is a three-way disjunction joined to the rest by AND. */
  lemma {:induction false} BuildQueryMeaning(p: Product, f: Filters)
    ensures MatchesQuery(p, BuildQuery(f)) <==>
      && (Supplied(f.category) ==> CategoryName(p.category) == f.category.value)
      && (f.minPrice.Some? ==> p.price >= f.minPrice.value)
      && (f.maxPrice.Some? ==> p.price <= f.maxPrice.value)
      && (f.minStock.Some? ==> p.stock >= f.minStock.value)
      && (f.maxStock.Some? ==> p.stock <= f.maxStock.value)
      && (f.isActive.Some? ==> p.isActive == (f.isActive.value == "true"))
      && (Supplied(f.search) ==> SearchHit(p, f.search.value))
  {
    BuildQueryPieces(p, f);
    MatchesWhen(p, Supplied(f.category), CategoryIs(f.category.GetOr("")));
    MatchesWhen(p, f.minPrice.Some?, PriceAtLeast(f.minPrice.GetOr(0.0)));
    MatchesWhen(p, f.maxPrice.Some?, PriceAtMost(f.maxPrice.GetOr(0.0)));
    MatchesWhen(p, f.minStock.Some?, StockAtLeast(f.minStock.GetOr(0)));
    MatchesWhen(p, f.maxStock.Some?, StockAtMost(f.maxStock.GetOr(0)));
    MatchesWhen(p, f.isActive.Some?, ActiveIs(f.isActive.GetOr("") == "true"));
    MatchesWhen(p, Supplied(f.search), TextMatches(f.search.GetOr("")));
  }

  /** Matching the whole query is matching each of its seven optional pieces. */
  lemma BuildQueryPieces(p: Product, f: Filters)
    ensures MatchesQuery(p, BuildQuery(f)) <==>
      && MatchesQuery(p, When(Supplied(f.category), CategoryIs(f.category.GetOr(""))))
      && MatchesQuery(p, When(f.minPrice.Some?, PriceAtLeast(f.minPrice.GetOr(0.0))))
      && MatchesQuery(p, When(f.maxPrice.Some?, PriceAtMost(f.maxPrice.GetOr(0.0))))
      && MatchesQuery(p, When(f.minStock.Some?, StockAtLeast(f.minStock.GetOr(0))))
      && MatchesQuery(p, When(f.maxStock.Some?, StockAtMost(f.maxStock.GetOr(0))))
      && MatchesQuery(p, When(f.isActive.Some?, ActiveIs(f.isActive.GetOr("") == "true")))
      && MatchesQuery(p, When(Supplied(f.search), TextMatches(f.search.GetOr(""))))
  {
    var q1 := When(Supplied(f.category), CategoryIs(f.category.GetOr("")));
    var q2 := When(f.minPrice.Some?, PriceAtLeast(f.minPrice.GetOr(0.0)));
    var q3 := When(f.maxPrice.Some?, PriceAtMost(f.maxPrice.GetOr(0.0)));
    var q4 := When(f.minStock.Some?, StockAtLeast(f.minStock.GetOr(0)));
    var q5 := When(f.maxStock.Some?, StockAtMost(f.maxStock.GetOr(0)));
    var q6 := When(f.isActive.Some?, ActiveIs(f.isActive.GetOr("") == "true"));
    var q7 := When(Supplied(f.search), TextMatches(f.search.GetOr("")));
    MatchesQueryAppend(p, q1, q2);
    MatchesQueryAppend(p, q1 + q2, q3);
    MatchesQueryAppend(p, q1 + q2 + q3, q4);
    MatchesQueryAppend(p, q1 + q2 + q3 + q4, q5);
    MatchesQueryAppend(p, q1 + q2 + q3 + q4 + q5, q6);
    MatchesQueryAppend(p, q1 + q2 + q3 + q4 + q5 + q6, q7);
  }

  /** With no parameters at all, every product matches. */
  lemma NoFiltersMatchAll(p: Product)
    ensures MatchesQuery(p, BuildQuery(Filters(None, None, None, None, None, None, None)))
  {
  }

  // ---------------------------------------------------------------- sort composer

  datatype Direction = Asc | Desc

  datatype SortRule = SortRule(field: string, dir: Direction)

  const DefaultSort: seq<SortRule> := [SortRule("createdAt", Desc)]

  /** One comma-separated piece: a leading `-` is stripped and means descending. */
  function ParseSortField(piece: string): SortRule {
    if |piece| > 0 && piece[0] == '-' then SortRule(piece[1..], Desc) else SortRule(piece, Asc)
  }

  /** How a rule is written in the `sort` parameter. */
  function SortPiece(r: SortRule): string {
    match r.dir
    case Desc => "-" + r.field
    case Asc => r.field
  }

  /** Parsing loses nothing: writing the parsed rule back gives the piece. Every
      descending rule, and every ascending rule whose field does not itself start
      with `-`, is read back from its written form. */
  lemma ParseSortFieldInverse(piece: string, r: SortRule)
    ensures SortPiece(ParseSortField(piece)) == piece
    ensures r.dir == Desc || r.field == [] || r.field[0] != '-' ==> ParseSortField(SortPiece(r)) == r
  {
    if |piece| > 0 && piece[0] == '-' {
      assert piece == "-" + piece[1..];
    }
    if r.dir == Desc {
      assert ("-" + r.field)[1..] == r.field;
    }
  }

  /** No field is named twice, as in the keys of an object. */
  predicate DistinctFields(rules: seq<SortRule>) {
    forall i, j :: 0 <= i < j < |rules| ==> rules[i].field != rules[j].field
  }

  /** `sortOption[field] = dir` on an object: a key already present keeps its place and
      takes the new direction; a new key is appended. */
  function Assign(rules: seq<SortRule>, r: SortRule): seq<SortRule> {
    if rules == [] then [r]
    else if rules[0].field == r.field then [r] + rules[1..]
    else [rules[0]] + Assign(rules[1..], r)
  }

  /** Assigning a field the object already has replaces that entry where it stands. */
  lemma {:induction false} AssignReplaces(rules: seq<SortRule>, r: SortRule, i: nat)
    requires DistinctFields(rules) && i < |rules| && rules[i].field == r.field
    ensures Assign(rules, r) == rules[i := r]
  {
    if i > 0 {
      assert rules[0].field != r.field;
      assert DistinctFields(rules[1..]) by {
        forall a, b | 0 <= a < b < |rules| - 1 ensures rules[1..][a].field != rules[1..][b].field {
          assert rules[1..][a] == rules[a + 1] && rules[1..][b] == rules[b + 1];
        }
      }
      AssignReplaces(rules[1..], r, i - 1);
      assert [rules[0]] + rules[1..][i - 1 := r] == rules[i := r];
    }
  }

  /** Assigning a field the object lacks appends it at the end. */
  lemma {:induction false} AssignAppends(rules: seq<SortRule>, r: SortRule)
    requires forall x :: x in rules ==> x.field != r.field
    ensures Assign(rules, r) == rules + [r]
  {
    if rules != [] {
      assert rules[0] in rules;
      assert forall x :: x in rules[1..] ==> x in rules;
      AssignAppends(rules[1..], r);
      assert [rules[0]] + (rules[1..] + [r]) == rules + [r];
    }
  }

  /** The assigned rule is present afterwards, every rule for another field survives, and
      nothing else is new. */
  lemma {:induction false} AssignKeeps(rules: seq<SortRule>, r: SortRule)
    ensures r in Assign(rules, r)
    ensures forall x :: x in rules && x.field != r.field ==> x in Assign(rules, r)
    ensures forall x :: x in Assign(rules, r) ==> x == r || x in rules
  {
    if rules != [] && rules[0].field != r.field {
      AssignKeeps(rules[1..], r);
      assert forall x :: x in rules ==> x == rules[0] || x in rules[1..];
    }
  }

  /** Keys stay distinct: the object never holds two entries for one field. */
  lemma AssignKeepsDistinct(rules: seq<SortRule>, r: SortRule)
    requires DistinctFields(rules)
    ensures DistinctFields(Assign(rules, r))
    ensures forall x :: x in Assign(rules, r) ==> x == r || (x in rules && x.field != r.field)
  {
    if i :| 0 <= i < |rules| && rules[i].field == r.field {
      AssignReplaces(rules, r, i);
      var out := rules[i := r];
      forall x | x in out ensures x == r || (x in rules && x.field != r.field) {
        var j :| 0 <= j < |out| && out[j] == x;
        if j != i {
          assert x == rules[j];
        }
      }
    } else {
      forall x | x in rules ensures x.field != r.field {
        var j :| 0 <= j < |rules| && rules[j] == x;
      }
      AssignAppends(rules, r);
    }
  }

  /** The object the `forEach` over the pieces leaves behind. */
  function AssignAll(pieces: seq<string>): (out: seq<SortRule>)
    ensures DistinctFields(out)
  {
    if pieces == [] then []
    else
      var before := AssignAll(pieces[..|pieces| - 1]);
      var r := ParseSortField(pieces[|pieces| - 1]);
      AssignKeepsDistinct(before, r);
      Assign(before, r)
  }

  /** One more piece: the object so far, with that piece's field assigned. */
  lemma AssignAllStep(pieces: seq<string>, i: nat)
    requires i < |pieces|
    ensures AssignAll(pieces[..i + 1]) == Assign(AssignAll(pieces[..i]), ParseSortField(pieces[i]))
  {
    var p := pieces[..i + 1];
    assert p[..|p| - 1] == pieces[..i] && p[|p| - 1] == pieces[i];
  }

  /** The sort option for an optional `sort` parameter. */
  function SortSpec(sort: Option<string>): (rules: seq<SortRule>)
    ensures DistinctFields(rules)
  {
    if !Supplied(sort) then DefaultSort else AssignAll(Split(sort.value, ','))
  }

  /** Builds the sort option field by field, as the listing does. */
  method ComposeSort(sort: Option<string>) returns (rules: seq<SortRule>)
    ensures rules == SortSpec(sort)
    ensures |rules| >= 1
  {
    if !Supplied(sort) {
      return DefaultSort;
    }
    var pieces := Split(sort.value, ',');
    rules := [];
    var i := 0;
    while i < |pieces|
      invariant 0 <= i <= |pieces|
      invariant rules == AssignAll(pieces[..i])
      invariant i > 0 ==> rules != []
    {
      var r := ParseSortField(pieces[i]);
      AssignAllStep(pieces, i);
      assert Assign(rules, r) != [] by {
        AssignKeeps(rules, r);
      }
      rules := Assign(rules, r);
      i := i + 1;
    }
    assert pieces[..|pieces|] == pieces;
  }

  /** Every piece's field is in the sort option. */
  lemma {:induction false} AssignAllCovers(pieces: seq<string>, k: nat)
    requires k < |pieces|
    ensures exists r :: r in AssignAll(pieces) && r.field == ParseSortField(pieces[k]).field
  {
    var n := |pieces| - 1;
    var init := pieces[..n];
    var before := AssignAll(init);
    var last := ParseSortField(pieces[n]);
    assert AssignAll(pieces) == Assign(before, last);
    AssignKeeps(before, last);
    if k < n && last.field != ParseSortField(pieces[k]).field {
      assert init[k] == pieces[k];
      AssignAllCovers(init, k);
      var r :| r in before && r.field == ParseSortField(init[k]).field;
      assert r in AssignAll(pieces);
    }
  }

  /** Every field in the sort option comes from some piece. */
  lemma {:induction false} AssignAllSound(pieces: seq<string>, r: SortRule)
    requires r in AssignAll(pieces)
    ensures exists k :: 0 <= k < |pieces| && ParseSortField(pieces[k]).field == r.field
  {
    var n := |pieces| - 1;
    var init := pieces[..n];
    var before := AssignAll(init);
    var last := ParseSortField(pieces[n]);
    assert AssignAll(pieces) == Assign(before, last);
    AssignKeeps(before, last);
    if r != last {
      AssignAllSound(init, r);
      var k :| 0 <= k < |init| && ParseSortField(init[k]).field == r.field;
      assert pieces[k] == init[k];
    }
  }

  /** A field is in the sort option exactly when some piece names it. */
  lemma AssignAllFields(pieces: seq<string>, f: string)
    ensures (exists r :: r in AssignAll(pieces) && r.field == f)
        <==> (exists k :: 0 <= k < |pieces| && ParseSortField(pieces[k]).field == f)
  {
    if k :| 0 <= k < |pieces| && ParseSortField(pieces[k]).field == f {
      AssignAllCovers(pieces, k);
    }
    if r :| r in AssignAll(pieces) && r.field == f {
      AssignAllSound(pieces, r);
    }
  }

  /** The last piece naming a field decides that field's direction: its rule is in the
      sort option (and, fields being distinct there, it is the only rule for the field). */
  lemma {:induction false} AssignAllLastWins(pieces: seq<string>, k: nat)
    requires k < |pieces|
    requires forall j :: k < j < |pieces| ==> ParseSortField(pieces[j]).field != ParseSortField(pieces[k]).field
    ensures ParseSortField(pieces[k]) in AssignAll(pieces)
  {
    var init := pieces[..|pieces| - 1];
    AssignKeeps(AssignAll(init), ParseSortField(pieces[|pieces| - 1]));
    if k < |pieces| - 1 {
      assert init[k] == pieces[k];
      AssignAllLastWins(init, k);
    }
  }

  /** When the pieces name distinct fields, each yields one rule, in left-to-right order. */
  lemma {:induction false} AssignAllDistinct(pieces: seq<string>)
    requires forall i, j :: 0 <= i < j < |pieces| ==> ParseSortField(pieces[i]).field != ParseSortField(pieces[j]).field
    ensures |AssignAll(pieces)| == |pieces|
    ensures forall k :: 0 <= k < |pieces| ==> AssignAll(pieces)[k] == ParseSortField(pieces[k])
  {
    if pieces != [] {
      var n := |pieces| - 1;
      var init := pieces[..n];
      forall i, j | 0 <= i < j < n
        ensures ParseSortField(init[i]).field != ParseSortField(init[j]).field
      {
        assert init[i] == pieces[i] && init[j] == pieces[j];
      }
      AssignAllDistinct(init);
      var before := AssignAll(init);
      var last := ParseSortField(pieces[n]);
      forall x | x in before ensures x.field != last.field {
        var k :| 0 <= k < |before| && before[k] == x;
        assert x == ParseSortField(init[k]) && init[k] == pieces[k];
      }
      AssignAppends(before, last);
      var all := AssignAll(pieces);
      assert all == before + [last];
      forall k | 0 <= k < |pieces| ensures all[k] == ParseSortField(pieces[k]) {
        if k < n {
          assert all[k] == before[k] && init[k] == pieces[k];
        }
      }
    }
  }

  /** An absent or empty `sort` means newest first. */
  lemma SortSpecDefault(sort: Option<string>)
    requires sort.None? || sort.value == ""
    ensures SortSpec(sort) == [SortRule("createdAt", Desc)]
  {
  }

  lemma SplitExample()
    ensures Split("-stock,name", ',') == ["-stock", "name"]
  {
    assert "-stock,name" == "-stock" + [','] + "name";
    SplitAtFirstSeparator("-stock", "name", ',');
    SplitWithoutSeparator("name", ',');
  }

  /** The two pieces of `"-stock,name"`, applied to an empty object in turn. */
  lemma AssignAllExample()
    ensures AssignAll(["-stock", "name"]) == [SortRule("stock", Desc), SortRule("name", Asc)]
  {
    var pieces := ["-stock", "name"];
    var stockDesc := ParseSortField(pieces[0]);
    var nameAsc := ParseSortField(pieces[1]);
    assert stockDesc == SortRule("stock", Desc) && nameAsc == SortRule("name", Asc);
    assert pieces[..1] == ["-stock"] && pieces[..1][..0] == [];
    assert AssignAll(pieces[..1]) == [stockDesc];
    assert Assign([stockDesc], nameAsc) == [stockDesc, nameAsc];
  }

  /** `"-stock,name"` is stock descending, then name ascending. */
  lemma SortSpecExample()
    ensures SortSpec(Some("-stock,name")) == [SortRule("stock", Desc), SortRule("name", Asc)]
  {
    SplitExample();
    AssignAllExample();
  }

  // ---------------------------------------------------------------- store ordering

  /** A sortable value: the store orders missing values first, then numbers, then
      strings, then booleans. */
  datatype Key = KNone | KNum(n: real) | KStr(s: string) | KBool(b: bool)

  function Rank(k: Key): int {
    match k
    case KNone => 0
    case KNum(_) => 1
    case KStr(_) => 2
    case KBool(_) => 3
  }

  /** The value of a product's field under a sort key (identifiers compare as numbers);
      unknown fields, and the supplier object as a whole, read as missing. */
  function KeyOf(p: Product, field: string): Key {
    if field == "name" then KStr(p.name)
    else if field == "sku" then KStr(p.sku)
    else if field == "description" then (if p.description.Some? then KStr(p.description.value) else KNone)
    else if field == "category" then KStr(CategoryName(p.category))
    else if field == "unit" then KStr(UnitName(p.unit))
    else if field == "price" then KNum(p.price)
    else if field == "cost" then KNum(p.cost)
    else if field == "stock" then KNum(p.stock as real)
    else if field == "minStock" then KNum(p.minStock as real)
    else if field == "isActive" then KBool(p.isActive)
    else if field == "createdAt" then KNum(p.createdAt as real)
    else if field == "updatedAt" then KNum(p.updatedAt as real)
    else if field == "_id" then KNum(p.id as real)
    else if field == "createdBy" then KNum(p.createdBy as real)
    else if field == "updatedBy" then (if p.updatedBy.Some? then KNum(p.updatedBy.value as real) else KNone)
    else if field == "supplier.name" then (if p.supplier.name.Some? then KStr(p.supplier.name.value) else KNone)
    else if field == "supplier.contact" then (if p.supplier.contact.Some? then KStr(p.supplier.contact.value) else KNone)
    else KNone
  }

  function CmpNum(x: real, y: real): int {
    if x < y then -1 else if x > y then 1 else 0
  }

  /** The store's comparison of two keys: -1, 0 or 1. */
  function CmpKey(a: Key, b: Key): int {
    if Rank(a) != Rank(b) then (if Rank(a) < Rank(b) then -1 else 1)
    else match a
      case KNone => 0
      case KNum(x) => CmpNum(x, b.n)
      case KStr(s) => StrCmp(s, b.s)
      case KBool(x) => if x == b.b then 0 else if !x then -1 else 1
  }

  /** Keys compare as a total order: equal exactly when equal, antisymmetric, transitive. */
  lemma CmpKeyOrder(a: Key, b: Key, c: Key)
    ensures CmpKey(a, b) == 0 <==> a == b
    ensures CmpKey(b, a) == -CmpKey(a, b)
    ensures CmpKey(a, b) <= 0 && CmpKey(b, c) <= 0 ==> CmpKey(a, c) <= 0
  {
    if a.KStr? && b.KStr? {
      StrCmpZero(a.s, b.s);
      StrCmpAntisymmetric(a.s, b.s);
      if c.KStr? && CmpKey(a, b) <= 0 && CmpKey(b, c) <= 0 {
        StrCmpTransitive(a.s, b.s, c.s);
      }
    }
  }

  /** One rule's comparison: the key comparison, reversed for a descending rule. */
  function RuleCmp(a: Product, b: Product, r: SortRule): int {
    if r.dir == Asc then CmpKey(KeyOf(a, r.field), KeyOf(b, r.field))
    else CmpKey(KeyOf(b, r.field), KeyOf(a, r.field))
  }

  /** The sort option as a comparison: the first rule that tells two documents apart decides. */
  function Compare(a: Product, b: Product, rules: seq<SortRule>): int {
    if rules == [] then 0
    else
      var c := RuleCmp(a, b, rules[0]);
      if c != 0 then c else Compare(a, b, rules[1..])
  }

  /** "`a` may come before `b`" under a sort option. */
  function PrecedesBy(rules: seq<SortRule>): (Product, Product) -> bool {
    (a: Product, b: Product) => Compare(a, b, rules) <= 0
  }

  lemma RuleCmpOrder(a: Product, b: Product, c: Product, r: SortRule)
    ensures RuleCmp(b, a, r) == -RuleCmp(a, b, r)
    ensures RuleCmp(a, b, r) == 0 && RuleCmp(b, c, r) == 0 ==> RuleCmp(a, c, r) == 0
    ensures RuleCmp(a, b, r) <= 0 && RuleCmp(b, c, r) <= 0 ==> RuleCmp(a, c, r) <= 0
    ensures RuleCmp(a, b, r) <= 0 && RuleCmp(b, c, r) <= 0 && (RuleCmp(a, b, r) < 0 || RuleCmp(b, c, r) < 0)
            ==> RuleCmp(a, c, r) < 0
  {
    var ka, kb, kc := KeyOf(a, r.field), KeyOf(b, r.field), KeyOf(c, r.field);
    CmpKeyOrder(ka, kb, kc);
    CmpKeyOrder(kc, kb, ka);
    CmpKeyOrder(kb, kc, ka);
    CmpKeyOrder(ka, kc, kb);
    CmpKeyOrder(kb, ka, kc);
    CmpKeyOrder(kc, ka, kb);
  }

  lemma {:induction false} CompareAntisymmetric(a: Product, b: Product, rules: seq<SortRule>)
    ensures Compare(b, a, rules) == -Compare(a, b, rules)
  {
    if rules != [] {
      RuleCmpOrder(a, b, b, rules[0]);
      CompareAntisymmetric(a, b, rules[1..]);
    }
  }

  lemma {:induction false} CompareTransitive(a: Product, b: Product, c: Product, rules: seq<SortRule>)
    requires Compare(a, b, rules) <= 0 && Compare(b, c, rules) <= 0
    ensures Compare(a, c, rules) <= 0
  {
    if rules != [] {
      RuleCmpOrder(a, b, c, rules[0]);
      if RuleCmp(a, b, rules[0]) == 0 && RuleCmp(b, c, rules[0]) == 0 {
        CompareTransitive(a, b, c, rules[1..]);
      }
    }
  }

  /** Every sort option orders documents totally, so sorting by it is well defined. */
  lemma PrecedesByTotalPreorder(rules: seq<SortRule>)
    ensures TotalPreorder(PrecedesBy(rules))
  {
    var le := PrecedesBy(rules);
    forall a, b ensures le(a, b) || le(b, a) {
      CompareAntisymmetric(a, b, rules);
    }
    forall a, b, c | le(a, b) && le(b, c) ensures le(a, c) {
      CompareTransitive(a, b, c, rules);
    }
  }

  lemma CompareSingle(a: Product, b: Product, r: SortRule)
    ensures Compare(a, b, [r]) == RuleCmp(a, b, r)
  {
    assert [r][1..] == [];
  }

  /** Under a single ascending rule on `stock`, order is stock order. */
  lemma PrecedesByStock(a: Product, b: Product)
    ensures PrecedesBy([SortRule("stock", Asc)])(a, b) <==> a.stock <= b.stock
  {
    CompareSingle(a, b, SortRule("stock", Asc));
    assert KeyOf(a, "stock") == KNum(a.stock as real);
    assert KeyOf(b, "stock") == KNum(b.stock as real);
  }

  /** Under a single ascending rule on `name`, order is the binary string order of names. */
  lemma PrecedesByName(a: Product, b: Product)
    ensures PrecedesBy([SortRule("name", Asc)])(a, b) <==> StrCmp(a.name, b.name) <= 0
  {
    CompareSingle(a, b, SortRule("name", Asc));
    StrCmpZero(a.name, b.name);
    assert KeyOf(a, "name") == KStr(a.name);
    assert KeyOf(b, "name") == KStr(b.name);
  }

  // ---------------------------------------------------------------- pager

  const DefaultPage := 1
  const DefaultLimit := 10

  /** `Math.ceil(total / limit)` for a positive limit. */
  function CeilDiv(total: nat, limit: nat): (pages: nat)
    requires limit >= 1
    ensures pages * limit >= total
    ensures pages * limit < total + limit
    ensures pages == 0 <==> total == 0
  {
    var q := total / limit;
    var r := total % limit;
    assert total == q * limit + r;
    if r == 0 then q
    else
      assert (q + 1) * limit == q * limit + limit;
      q + 1
  }

  /** The number of documents the pager skips. */
  function Skip(page: int, limit: int): nat
    requires page >= 1 && limit >= 1
  {
    (page - 1) * limit
  }

  /** `.skip(skip).limit(limit)` on an ordered result: the slice `[skip, skip + limit)`,
      cut off at the end. */
  function Window<T>(s: seq<T>, skip: nat, limit: nat): (w: seq<T>)
    ensures |w| <= limit
    ensures skip <= |s| ==> w == s[skip..if skip + limit <= |s| then skip + limit else |s|]
    ensures skip >= |s| ==> w == []
  {
    if skip >= |s| then [] else if skip + limit <= |s| then s[skip..skip + limit] else s[skip..]
  }

  /** Paging loses nothing: the item at position `j` of the ordered result is shown on
      page `j / limit + 1`, at position `j % limit`. */
  lemma PageShows<T>(s: seq<T>, limit: nat, j: nat)
    requires limit >= 1 && j < |s|
    ensures var w := Window(s, Skip(j / limit + 1, limit), limit);
      j % limit < |w| && w[j % limit] == s[j]
  {
    var skip := Skip(j / limit + 1, limit);
    assert skip + j % limit == j;
  }
}
