/**
 * The product record: its enumerations, field constraints, defaults, the
 * normalisation the schema applies on write (trimming, upper-cased SKU), the
 * two derived values (profit margin and the low-stock flag), and the way a
 * request body becomes a new record or updates an existing one.
 */
module ProductModel {
  import opened Wrappers
  import opened Text

  /** Opaque identifiers: a product's own id and the id of a user (creator or editor). */
  type Id = nat
  type UserId = nat

  datatype Category = Electronics | Clothing | FoodAndBeverage | Furniture | Stationery | Hardware | Other

  const AllCategories: seq<Category> :=
    [Electronics, Clothing, FoodAndBeverage, Furniture, Stationery, Hardware, Other]

  function CategoryName(c: Category): string {
    match c
    case Electronics => "Electronics"
    case Clothing => "Clothing"
    case FoodAndBeverage => "Food & Beverage"
    case Furniture => "Furniture"
    case Stationery => "Stationery"
    case Hardware => "Hardware"
    case Other => "Other"
  }

  /** The enum check: a string names a category exactly when it is one of the seven names. */
  function ParseCategory(s: string): (r: Option<Category>)
    ensures r.Some? ==> CategoryName(r.value) == s
    ensures r.None? ==> forall c :: CategoryName(c) != s
  {
    if s == "Electronics" then Some(Electronics)
    else if s == "Clothing" then Some(Clothing)
    else if s == "Food & Beverage" then Some(FoodAndBeverage)
    else if s == "Furniture" then Some(Furniture)
    else if s == "Stationery" then Some(Stationery)
    else if s == "Hardware" then Some(Hardware)
    else if s == "Other" then Some(Other)
    else None
  }

  datatype Unit = Pcs | Box | Kg | Liter | Meter | Set

  function UnitName(u: Unit): string {
    match u
    case Pcs => "pcs"
    case Box => "box"
    case Kg => "kg"
    case Liter => "liter"
    case Meter => "meter"
    case Set => "set"
  }

  /** The enum check for units. */
  function ParseUnit(s: string): (r: Option<Unit>)
    ensures r.Some? ==> UnitName(r.value) == s
    ensures r.None? ==> forall u :: UnitName(u) != s
  {
    if s == "pcs" then Some(Pcs)
    else if s == "box" then Some(Box)
    else if s == "kg" then Some(Kg)
    else if s == "liter" then Some(Liter)
    else if s == "meter" then Some(Meter)
    else if s == "set" then Some(Set)
    else None
  }

  /** Every category and every unit survives a trip through its name. */
  lemma EnumNamesRoundTrip(c: Category, u: Unit)
    ensures ParseCategory(CategoryName(c)) == Some(c)
    ensures ParseUnit(UnitName(u)) == Some(u)
  {
  }

  datatype Supplier = Supplier(name: Option<string>, contact: Option<string>)

  datatype Product = Product(
    id: Id,
    name: string,
    sku: string,
    description: Option<string>,
    category: Category,
    price: real,
    cost: real,
    stock: int,
    minStock: int,
    unit: Unit,
    supplier: Supplier,
    isActive: bool,
    createdBy: UserId,
    updatedBy: Option<UserId>,
    createdAt: int,
    updatedAt: int)

  /** The schema's length bounds, counted as JavaScript counts `length`: in UTF-16 code units. */
  const NameMinLength := 3
  const NameMaxLength := 100
  const DescriptionMaxLength := 500
  const DefaultStock := 0
  const DefaultMinStock := 10
  const DefaultUnit := Pcs
  const DefaultIsActive := true

  /** No lower-case ASCII letter. */
  predicate IsUpper(s: string) {
    forall i :: 0 <= i < |s| ==> UpperChar(s[i]) == s[i]
  }

  /** Upper-casing maps spaces to spaces and non-spaces to non-spaces. */
  lemma UpperCharKeepsSpace(c: char)
    ensures IsSpace(UpperChar(c)) <==> IsSpace(c)
  {
  }

  /** An upper-cased string is upper-case, and trimmed if its input was. */
  lemma UpperShape(t: string)
    ensures IsUpper(Upper(t))
    ensures Trimmed(t) ==> Trimmed(Upper(t))
  {
    var u := Upper(t);
    forall i | 0 <= i < |u| ensures UpperChar(u[i]) == u[i] {
      assert u[i] == UpperChar(t[i]);
    }
    if t != [] {
      UpperCharKeepsSpace(t[0]);
      UpperCharKeepsSpace(t[|t| - 1]);
    }
  }

  /** The stored form of a SKU: trimmed and upper-cased. */
  function NormalizeSku(s: string): (r: string)
    ensures Trimmed(r) && IsUpper(r)
    ensures |r| <= |s|
  {
    var t := Trim(s);
    UpperShape(t);
    Upper(t)
  }

  /** A trimmed, upper-case SKU is already in stored form. */
  lemma NormalizedSkuFixed(s: string)
    requires Trimmed(s) && IsUpper(s)
    ensures NormalizeSku(s) == s
  {
    TrimOfTrimmed(s);
  }

  /** Normalising a stored SKU again changes nothing. */
  lemma NormalizeSkuIdempotent(s: string)
    ensures NormalizeSku(NormalizeSku(s)) == NormalizeSku(s)
  {
    NormalizedSkuFixed(NormalizeSku(s));
  }

  /** Upper-casing keeps the count of leading whitespace. */
  lemma {:induction false} LeadingSpacesUpper(s: string)
    ensures LeadingSpaces(Upper(s)) == LeadingSpaces(s)
  {
    if s != [] {
      UpperCharKeepsSpace(s[0]);
      assert Upper(s)[1..] == Upper(s[1..]);
      LeadingSpacesUpper(s[1..]);
    }
  }

  /** Upper-casing keeps the count of trailing whitespace. */
  lemma {:induction false} TrailingSpacesUpper(s: string)
    ensures TrailingSpaces(Upper(s)) == TrailingSpaces(s)
  {
    if s != [] {
      UpperCharKeepsSpace(s[|s| - 1]);
      assert Upper(s)[..|s| - 1] == Upper(s[..|s| - 1]);
      TrailingSpacesUpper(s[..|s| - 1]);
    }
  }

  lemma TrimStartUpper(s: string)
    ensures TrimStart(Upper(s)) == Upper(TrimStart(s))
  {
    LeadingSpacesUpper(s);
    var n := LeadingSpaces(s);
    assert Upper(s)[n..] == Upper(s[n..]);
  }

  lemma TrimEndUpper(s: string)
    ensures TrimEnd(Upper(s)) == Upper(TrimEnd(s))
  {
    TrailingSpacesUpper(s);
    var n := |s| - TrailingSpaces(s);
    assert Upper(s)[..n] == Upper(s[..n]);
  }

  /** The two SKU setters commute: trimming then upper-casing is upper-casing then trimming. */
  lemma NormalizeSkuOrderFree(s: string)
    ensures NormalizeSku(s) == Trim(Upper(s))
  {
    TrimStartUpper(s);
    TrimEndUpper(TrimStart(s));
  }

  /** The schema's field constraints, with the stored (normalised) forms. */
  predicate Valid(p: Product) {
    && Trimmed(p.name) && NameMinLength <= Utf16Length(p.name) <= NameMaxLength
    && p.sku != [] && Trimmed(p.sku) && IsUpper(p.sku)
    && (p.description.Some? ==> Trimmed(p.description.value) && Utf16Length(p.description.value) <= DescriptionMaxLength)
    && p.price >= 0.0
    && p.cost >= 0.0
    && p.stock >= 0
    && p.minStock >= 0
    && (p.supplier.name.Some? ==> Trimmed(p.supplier.name.value))
    && (p.supplier.contact.Some? ==> Trimmed(p.supplier.contact.value))
  }

  /** The `isLowStock` virtual. */
  predicate IsLowStock(p: Product) {
    p.stock <= p.minStock
  }

  /** The `profitMargin` virtual: 0 for a zero cost, otherwise the margin over cost in percent. */
  function ProfitMargin(p: Product): (m: real)
    ensures p.cost == 0.0 ==> m == 0.0
    ensures p.cost != 0.0 ==> m * p.cost == (p.price - p.cost) * 100.0
    ensures p.cost > 0.0 ==> (m >= 0.0 <==> p.price >= p.cost)
  {
    if p.cost == 0.0 then 0.0 else (p.price - p.cost) / p.cost * 100.0
  }

  /** Selling at 150 what cost 100 is a 50 percent margin. */
  lemma ProfitMarginExample(p: Product)
    requires p.price == 150.0 && p.cost == 100.0
    ensures ProfitMargin(p) == 50.0
  {
  }

  /** What a request body may carry; every field may be missing. Numbers arrive parsed. */
  datatype SupplierBody = SupplierBody(name: Option<string>, contact: Option<string>)

  datatype ProductBody = ProductBody(
    name: Option<string>,
    sku: Option<string>,
    description: Option<string>,
    category: Option<string>,
    price: Option<real>,
    cost: Option<real>,
    stock: Option<int>,
    minStock: Option<int>,
    unit: Option<string>,
    supplier: Option<SupplierBody>,
    isActive: Option<bool>)

  /** Why a request fails. */
  datatype Failure = NotFound | InsufficientStock | InvalidOperation | ValidationFailed | DuplicateSku

  function TrimOpt(o: Option<string>): (r: Option<string>)
    ensures r.Some? <==> o.Some?
    ensures r.Some? ==> Trimmed(r.value)
  {
    match o
    case None => None
    case Some(s) => Some(Trim(s))
  }

  function SupplierOf(b: SupplierBody): (s: Supplier)
    ensures s.name.Some? ==> Trimmed(s.name.value)
    ensures s.contact.Some? ==> Trimmed(s.contact.value)
  {
    Supplier(TrimOpt(b.name), TrimOpt(b.contact))
  }

  /** The fields `Product.create` cannot do without: those the schema marks required
      and gives no default, and an enumerated value for category and unit. */
  predicate Complete(b: ProductBody) {
    && b.name.Some? && b.sku.Some? && b.category.Some? && b.price.Some? && b.cost.Some?
    && ParseCategory(b.category.value).Some?
    && (b.unit.Some? ==> ParseUnit(b.unit.value).Some?)
  }

  /** The record `Product.create` builds from a complete body: setters applied, defaults filled in. */
  function Draft(b: ProductBody, actor: UserId, id: Id, now: int): Product
    requires Complete(b)
  {
    Product(
      id := id,
      name := Trim(b.name.value),
      sku := NormalizeSku(b.sku.value),
      description := TrimOpt(b.description),
      category := ParseCategory(b.category.value).value,
      price := b.price.value,
      cost := b.cost.value,
      stock := b.stock.GetOr(DefaultStock),
      minStock := b.minStock.GetOr(DefaultMinStock),
      unit := if b.unit.Some? then ParseUnit(b.unit.value).value else DefaultUnit,
      supplier := if b.supplier.Some? then SupplierOf(b.supplier.value) else Supplier(None, None),
      isActive := b.isActive.GetOr(DefaultIsActive),
      createdBy := actor,
      updatedBy := None,
      createdAt := now,
      updatedAt := now)
  }

  /** The body's fields meet the schema's constraints for a new record: the required
      fields are present and every field present is in range. */
  predicate CreateAcceptable(b: ProductBody) {
    && Complete(b)
    && NameMinLength <= Utf16Length(Trim(b.name.value)) <= NameMaxLength
    && NormalizeSku(b.sku.value) != []
    && (b.description.Some? ==> Utf16Length(Trim(b.description.value)) <= DescriptionMaxLength)
    && b.price.value >= 0.0 && b.cost.value >= 0.0
    && (b.stock.Some? ==> b.stock.value >= 0)
    && (b.minStock.Some? ==> b.minStock.value >= 0)
  }

  /** `Product.create(body)` with `createdBy` forced to the acting user: the new record,
      or a validation failure when a required field is missing or a constraint fails. */
  function CreateRecord(b: ProductBody, actor: UserId, id: Id, now: int): (r: Result<Product, Failure>)
    ensures r.Success? <==> CreateAcceptable(b)
    ensures r.Failure? ==> r.error == ValidationFailed
    ensures r.Success? ==> Valid(r.value)
    ensures r.Success? ==> && r.value.id == id && r.value.createdBy == actor && r.value.updatedBy.None?
                           && r.value.createdAt == now && r.value.updatedAt == now
    ensures r.Success? ==> && r.value.name == Trim(b.name.value)
                           && r.value.sku == NormalizeSku(b.sku.value)
                           && CategoryName(r.value.category) == b.category.value
                           && r.value.price == b.price.value && r.value.cost == b.cost.value
    ensures r.Success? ==> && (b.stock.None? ==> r.value.stock == 0)
                           && (b.minStock.None? ==> r.value.minStock == 10)
                           && (b.unit.None? ==> r.value.unit == Pcs)
                           && (b.isActive.None? ==> r.value.isActive)
    ensures r.Success? ==> && r.value.description == TrimOpt(b.description)
                           && (b.stock.Some? ==> r.value.stock == b.stock.value)
                           && (b.minStock.Some? ==> r.value.minStock == b.minStock.value)
                           && (b.unit.Some? ==> UnitName(r.value.unit) == b.unit.value)
                           && (b.supplier.Some? ==> r.value.supplier == SupplierOf(b.supplier.value))
                           && (b.supplier.None? ==> r.value.supplier == Supplier(None, None))
                           && (b.isActive.Some? ==> r.value.isActive == b.isActive.value)
  {
    if !Complete(b) then Failure(ValidationFailed)
    else
      DraftValidity(b, actor, id, now);
      var p := Draft(b, actor, id, now);
      if Valid(p) then Success(p) else Failure(ValidationFailed)
  }

  /** A complete body's draft passes the schema exactly when its fields are in range. */
  lemma DraftValidity(b: ProductBody, actor: UserId, id: Id, now: int)
    requires Complete(b)
    ensures Valid(Draft(b, actor, id, now)) <==> CreateAcceptable(b)
  {
    var p := Draft(b, actor, id, now);
    assert Trimmed(p.name) && Trimmed(p.sku) && IsUpper(p.sku);
    assert p.description.Some? ==> Trimmed(p.description.value);
    assert p.supplier.name.Some? ==> Trimmed(p.supplier.name.value);
    assert p.supplier.contact.Some? ==> Trimmed(p.supplier.contact.value);
    assert p.stock >= 0 <==> (b.stock.Some? ==> b.stock.value >= 0);
    assert p.minStock >= 0 <==> (b.minStock.Some? ==> b.minStock.value >= 0);
    assert (p.description.Some? ==> Utf16Length(p.description.value) <= DescriptionMaxLength)
       <==> (b.description.Some? ==> Utf16Length(Trim(b.description.value)) <= DescriptionMaxLength);
  }

  /** The fields of an update body are acceptable to the schema validators that
      `runValidators` runs on the paths the update sets. */
  predicate UpdateAcceptable(b: ProductBody) {
    && (b.name.Some? ==> NameMinLength <= Utf16Length(Trim(b.name.value)) <= NameMaxLength)
    && (b.sku.Some? ==> NormalizeSku(b.sku.value) != [])
    && (b.description.Some? ==> Utf16Length(Trim(b.description.value)) <= DescriptionMaxLength)
    && (b.category.Some? ==> ParseCategory(b.category.value).Some?)
    && (b.price.Some? ==> b.price.value >= 0.0)
    && (b.cost.Some? ==> b.cost.value >= 0.0)
    && (b.stock.Some? ==> b.stock.value >= 0)
    && (b.minStock.Some? ==> b.minStock.value >= 0)
    && (b.unit.Some? ==> ParseUnit(b.unit.value).Some?)
  }

  /** The record after a body's fields replace the stored ones (setters applied). */
  function Patched(p: Product, b: ProductBody, actor: UserId, now: int): Product
    requires UpdateAcceptable(b)
  {
    p.(
      name := if b.name.Some? then Trim(b.name.value) else p.name,
      sku := if b.sku.Some? then NormalizeSku(b.sku.value) else p.sku,
      description := if b.description.Some? then TrimOpt(b.description) else p.description,
      category := if b.category.Some? then ParseCategory(b.category.value).value else p.category,
      price := b.price.GetOr(p.price),
      cost := b.cost.GetOr(p.cost),
      stock := b.stock.GetOr(p.stock),
      minStock := b.minStock.GetOr(p.minStock),
      unit := if b.unit.Some? then ParseUnit(b.unit.value).value else p.unit,
      supplier := if b.supplier.Some? then SupplierOf(b.supplier.value) else p.supplier,
      isActive := b.isActive.GetOr(p.isActive),
      updatedBy := Some(actor),
      updatedAt := now)
  }

  /** An acceptable update keeps a valid record valid. */
  lemma PatchedValid(p: Product, b: ProductBody, actor: UserId, now: int)
    requires Valid(p) && UpdateAcceptable(b)
    ensures Valid(Patched(p, b, actor, now))
  {
    var q := Patched(p, b, actor, now);
    if b.name.Some? {
      assert q.name == Trim(b.name.value);
    } else {
      assert q.name == p.name;
    }
    assert q.sku != [] && Trimmed(q.sku) && IsUpper(q.sku);
    assert q.description.Some? ==> Trimmed(q.description.value) && Utf16Length(q.description.value) <= DescriptionMaxLength;
    assert q.price >= 0.0 && q.cost >= 0.0 && q.stock >= 0 && q.minStock >= 0;
    assert q.supplier.name.Some? ==> Trimmed(q.supplier.name.value);
    assert q.supplier.contact.Some? ==> Trimmed(q.supplier.contact.value);
  }

  /** `findByIdAndUpdate(id, body + {updatedBy})`: the fields the body carries replace the
      stored ones (after the setters), every other field is kept, and the editor is stamped. */
  function UpdateRecord(p: Product, b: ProductBody, actor: UserId, now: int): (r: Result<Product, Failure>)
    requires Valid(p)
    ensures r.Success? <==> UpdateAcceptable(b)
    ensures r.Failure? ==> r.error == ValidationFailed
    ensures r.Success? ==> Valid(r.value)
    ensures r.Success? ==> && r.value.id == p.id && r.value.createdBy == p.createdBy
                           && r.value.createdAt == p.createdAt
                           && r.value.updatedBy == Some(actor) && r.value.updatedAt == now
    ensures r.Success? ==> && (b.name.None? ==> r.value.name == p.name)
                           && (b.sku.None? ==> r.value.sku == p.sku)
                           && (b.stock.None? ==> r.value.stock == p.stock)
                           && (b.minStock.None? ==> r.value.minStock == p.minStock)
                           && (b.isActive.None? ==> r.value.isActive == p.isActive)
                           && (b.stock.Some? ==> r.value.stock == b.stock.value)
                           && (b.sku.Some? ==> r.value.sku == NormalizeSku(b.sku.value))
    ensures r.Success? ==> && (b.name.Some? ==> r.value.name == Trim(b.name.value))
                           && (b.description.Some? ==> r.value.description == Some(Trim(b.description.value)))
                           && (b.category.Some? ==> CategoryName(r.value.category) == b.category.value)
                           && (b.price.Some? ==> r.value.price == b.price.value)
                           && (b.cost.Some? ==> r.value.cost == b.cost.value)
                           && (b.minStock.Some? ==> r.value.minStock == b.minStock.value)
                           && (b.unit.Some? ==> UnitName(r.value.unit) == b.unit.value)
                           && (b.supplier.Some? ==> r.value.supplier == SupplierOf(b.supplier.value))
                           && (b.isActive.Some? ==> r.value.isActive == b.isActive.value)
    ensures r.Success? ==> && (b.description.None? ==> r.value.description == p.description)
                           && (b.category.None? ==> r.value.category == p.category)
                           && (b.price.None? ==> r.value.price == p.price)
                           && (b.cost.None? ==> r.value.cost == p.cost)
                           && (b.unit.None? ==> r.value.unit == p.unit)
                           && (b.supplier.None? ==> r.value.supplier == p.supplier)
  {
    if !UpdateAcceptable(b) then Failure(ValidationFailed)
    else
      var q := Patched(p, b, actor, now);
      assert Valid(q) by {
        PatchedValid(p, b, actor, now);
      }
      Success(q)
  }
}
