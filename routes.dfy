/**
 * The product router: the body validators that run before create, update and the
 * stock change, the ordered route table with its role requirements, first-match
 * dispatch, and the middleware order (authenticate, authorise, validate, handle).
 */
module Routes {
  import opened Wrappers
  import opened Text
  import opened ProductModel
  import Store

  // ---------------------------------------------------------------- product body validation

  /** One failed check of the product validator, in chain order. */
  datatype FieldError =
    | NameLength | SkuRequired | SkuLength | BadCategory | BadPrice | BadCost
    | BadStock | BadMinStock | BadUnit | BadQuantity | BadOperation

  const SkuMinLength := 3
  const SkuMaxLength := 20

  function Check(ok: bool, e: FieldError): seq<FieldError> {
    if ok then [] else [e]
  }

  /** The errors the product validator collects; every chain runs, so an empty SKU
      fails both its presence and its length check. Missing strings read as empty. */
  function ProductErrors(b: ProductBody): seq<FieldError> {
    NameErrors(b) + SkuErrors(b) + OtherErrors(b)
  }

  function NameErrors(b: ProductBody): seq<FieldError> {
    var name := Trim(b.name.GetOr(""));
    Check(NameMinLength <= |name| <= NameMaxLength, NameLength)
  }

  function SkuErrors(b: ProductBody): seq<FieldError> {
    var sku := Trim(b.sku.GetOr(""));
    Check(sku != "", SkuRequired) + Check(SkuMinLength <= |sku| <= SkuMaxLength, SkuLength)
  }

  function OtherErrors(b: ProductBody): seq<FieldError> {
    Check(b.category.Some? && ParseCategory(b.category.value).Some?, BadCategory)
    + Check(b.price.Some? && b.price.value >= 0.0, BadPrice)
    + Check(b.cost.Some? && b.cost.value >= 0.0, BadCost)
    + Check(b.stock.Some? && b.stock.value >= 0, BadStock)
    + Check(b.minStock.None? || b.minStock.value >= 0, BadMinStock)
    + Check(b.unit.Some? && ParseUnit(b.unit.value).Some?, BadUnit)
  }

  /** The body the controller receives: the validator's `trim()` sanitizers have
      written the trimmed name and SKU back. */
  function Sanitized(b: ProductBody): ProductBody {
    b.(name := if b.name.Some? then Some(Trim(b.name.value)) else None,
       sku := if b.sku.Some? then Some(Trim(b.sku.value)) else None)
  }

  /** Every field of a product body meets the validator's rule. */
  predicate ProductAccepted(b: ProductBody) {
    && b.name.Some? && NameMinLength <= |Trim(b.name.value)| <= NameMaxLength
    && b.sku.Some? && SkuMinLength <= |Trim(b.sku.value)| <= SkuMaxLength
    && b.category.Some? && ParseCategory(b.category.value).Some?
    && b.price.Some? && b.price.value >= 0.0
    && b.cost.Some? && b.cost.value >= 0.0
    && b.stock.Some? && b.stock.value >= 0
    && (b.minStock.None? || b.minStock.value >= 0)
    && b.unit.Some? && ParseUnit(b.unit.value).Some?
  }

  /** The validator collects no error exactly when every field meets its rule. */
  lemma ProductValidationMeaning(b: ProductBody)
    ensures ProductErrors(b) == [] <==> ProductAccepted(b)
  {
  }

  /** Trimming a SKU before it is normalised changes nothing. */
  lemma SanitizedSku(sku: string)
    ensures NormalizeSku(Trim(sku)) == NormalizeSku(sku)
  {
    var t := Trim(sku);
    TrimIdempotent(sku);
    assert NormalizeSku(t) == Upper(Trim(t));
  }

  /** Normalising keeps the trimmed SKU's length. */
  lemma NormalizedSkuLength(sku: string)
    ensures |NormalizeSku(sku)| == |Trim(sku)|
  {
    var t := Trim(sku);
    assert NormalizeSku(sku) == Upper(t);
  }

  /** The sanitizers leave the name the schema would store. */
  lemma SanitizedName(b: ProductBody)
    requires b.name.Some?
    ensures Sanitized(b).name.Some? && Trim(Sanitized(b).name.value) == Trim(b.name.value)
  {
    TrimIdempotent(b.name.value);
  }

  /** The sanitizers leave the SKU the schema would store. */
  lemma SanitizedSkuField(b: ProductBody)
    requires b.sku.Some?
    ensures Sanitized(b).sku.Some? && NormalizeSku(Sanitized(b).sku.value) == NormalizeSku(b.sku.value)
  {
    SanitizedSku(b.sku.value);
  }

  /** A body the validator accepts creates a record, provided its name and description
      fit the schema's bounds in UTF-16 units (the validator counts a surrogate pair as
      one character, the schema as two): the record has the trimmed name and the
      normalised SKU of the original body. */
  lemma ValidatedBodyCreates(b: ProductBody, actor: UserId, id: Id, now: int)
    requires ProductErrors(b) == []
    requires b.name.None? || Utf16Length(Trim(b.name.value)) <= NameMaxLength
    requires b.description.None? || Utf16Length(Trim(b.description.value)) <= DescriptionMaxLength
    ensures var r := CreateRecord(Sanitized(b), actor, id, now);
      && r.Success?
      && r.value.name == Trim(b.name.value)
      && r.value.sku == NormalizeSku(b.sku.value)
      && r.value.createdBy == actor
  {
    assert CreateAcceptable(Sanitized(b)) by {
      ProductValidationMeaning(b);
      SanitizedName(b);
      SanitizedSkuField(b);
      NormalizedSkuLength(b.sku.value);
    }
    SanitizedName(b);
    SanitizedSkuField(b);
  }

  /** A body the validator accepts, whose name and description fit the schema's bounds in
      UTF-16 units, passes the update validators. */
  lemma ValidatedBodyUpdates(b: ProductBody)
    requires ProductErrors(b) == []
    requires b.name.None? || Utf16Length(Trim(b.name.value)) <= NameMaxLength
    requires b.description.None? || Utf16Length(Trim(b.description.value)) <= DescriptionMaxLength
    ensures UpdateAcceptable(Sanitized(b))
  {
    ProductValidationMeaning(b);
    SanitizedName(b);
    SanitizedSkuField(b);
    NormalizedSkuLength(b.sku.value);
  }

  /** Sixty copies of U+1F600, a character outside the Basic Multilingual Plane. */
  function SixtyEmoji(): string {
    seq(60, _ => '\U{1F600}')
  }

  lemma SixtyEmojiLengths()
    ensures Trim(SixtyEmoji()) == SixtyEmoji()
    ensures |SixtyEmoji()| == 60 && Utf16Length(SixtyEmoji()) == 120
  {
    var name := SixtyEmoji();
    assert forall i :: 0 <= i < |name| ==> IsAstral(name[i]);
    Utf16LengthPlanes(name);
    AstralTrimmed(name);
    TrimOfTrimmed(name);
  }

  /** A complete body whose name is sixty emoji. */
  function AstralNameBody(): ProductBody {
    ProductBody(Some(SixtyEmoji()), Some("ABC"), None, Some(CategoryName(Other)), Some(1.0),
                Some(1.0), Some(0), None, Some(UnitName(Pcs)), None, None)
  }

  lemma AstralNameBodyAccepted()
    ensures ProductErrors(AstralNameBody()) == []
  {
    var b := AstralNameBody();
    SixtyEmojiLengths();
    assert Trim("ABC") == "ABC" by {
      assert !IsSpace('A') && !IsSpace('C');
      TrimOfTrimmed("ABC");
    }
    EnumNamesRoundTrip(Other, Pcs);
    assert ProductAccepted(b);
    ProductValidationMeaning(b);
  }

  /** The validator and the schema measure a name in different units: a name of sixty
      emoji passes the route's 3-100 rule (sixty characters) and is refused by the
      schema's `maxlength` (120 UTF-16 code units). */
  lemma AstralNameRefused(actor: UserId, id: Id, now: int)
    ensures ProductErrors(AstralNameBody()) == []
    ensures CreateRecord(Sanitized(AstralNameBody()), actor, id, now).Failure?
  {
    AstralNameBodyAccepted();
    SixtyEmojiLengths();
    assert !CreateAcceptable(Sanitized(AstralNameBody()));
  }

  /** The route's SKU rule is stricter than the schema's: a stored SKU longer than 20
      characters, sent back unchanged, is refused by the validator. */
  lemma SkuRuleStricterThanSchema(p: Product, b: ProductBody)
    requires Valid(p) && |p.sku| > SkuMaxLength && b.sku == Some(p.sku)
    ensures SkuLength in ProductErrors(b)
  {
    var e := SkuErrors(b);
    assert SkuLength in e by {
      TrimOfTrimmed(p.sku);
    }
    assert ProductErrors(b) == NameErrors(b) + e + OtherErrors(b);
  }

  // ---------------------------------------------------------------- stock body validation

  /** A JSON scalar as the body carries it: the validator accepts a number or a string. */
  datatype JsonValue = JNum(n: int) | JStr(s: string)

  predicate IsDigit(c: char) { '0' <= c <= '9' }

  predicate AllDigits(s: string) {
    forall i :: 0 <= i < |s| ==> IsDigit(s[i])
  }

  /** `Number(s)` for a string of decimal digits. */
  function ParseDigits(s: string): nat
    requires AllDigits(s)
  {
    if s == [] then 0 else ParseDigits(s[..|s| - 1]) * 10 + (s[|s| - 1] as int - '0' as int)
  }

  /** `isInt({ min: 1 })` on the quantity. */
  predicate QuantityOk(q: JsonValue) {
    match q
    case JNum(n) => n >= 1
    case JStr(s) => |s| >= 1 && AllDigits(s) && ParseDigits(s) >= 1
  }

  /** The number an accepted quantity stands for. */
  function QuantityValue(q: JsonValue): (v: int)
    requires QuantityOk(q)
    ensures v >= 1
  {
    match q
    case JNum(n) => n
    case JStr(s) => ParseDigits(s)
  }

  /** The errors of the stock-change validator. */
  function StockErrors(quantity: Option<JsonValue>, operation: Option<string>): seq<FieldError> {
    Check(quantity.Some? && QuantityOk(quantity.value), BadQuantity)
    + Check(operation == Some("add") || operation == Some("subtract"), BadOperation)
  }

  /** A stock request the validator accepts never reaches the invalid-operation branch,
      and from a non-negative stock it either is refused for insufficient stock or
      leaves a non-negative stock. */
  lemma ValidatedStockChange(stock: int, quantity: Option<JsonValue>, operation: Option<string>)
    requires StockErrors(quantity, operation) == [] && stock >= 0
    ensures var r := Store.StockChange(stock, QuantityValue(quantity.value), operation.value);
      && (r.Failure? ==> r.error == InsufficientStock && operation.value == "subtract")
      && (r.Success? ==> r.value >= 0)
      && (operation.value == "add" ==> r.Success? && r.value > stock)
  {
  }

  // ---------------------------------------------------------------- the string quantity bug

  function DigitChar(d: nat): char
    requires d < 10
  {
    ('0' as int + d) as char
  }

  /** `String(n)` for a non-negative integer. */
  function Decimal(n: nat): (s: string)
    ensures |s| >= 1 && AllDigits(s)
  {
    if n < 10 then [DigitChar(n)] else Decimal(n / 10) + [DigitChar(n % 10)]
  }

  function Pow10(k: nat): nat {
    if k == 0 then 1 else 10 * Pow10(k - 1)
  }

  lemma {:induction false} ParseDecimal(n: nat)
    ensures ParseDigits(Decimal(n)) == n
  {
    if n >= 10 {
      ParseDecimal(n / 10);
      var s := Decimal(n);
      assert s[..|s| - 1] == Decimal(n / 10);
    }
  }

  lemma ShiftDigit(x: int, y: int, p: int, d: int)
    ensures (x * y + p) * 10 + d == x * (y * 10) + (p * 10 + d)
  {
  }

  /** Reading digits after digits: the first part is shifted by the second's length. */
  lemma {:induction false} ParseConcat(a: string, b: string)
    requires AllDigits(a) && AllDigits(b)
    ensures AllDigits(a + b)
    ensures ParseDigits(a + b) == ParseDigits(a) * Pow10(|b|) + ParseDigits(b)
  {
    assert AllDigits(a + b);
    if b == [] {
      assert a + b == a;
    } else {
      var b' := b[..|b| - 1];
      var d := b[|b| - 1] as int - '0' as int;
      ParseConcat(a, b');
      assert ParseDigits(a + b) == ParseDigits(a + b') * 10 + d by {
        assert (a + b)[..|a + b| - 1] == a + b';
      }
      assert ParseDigits(b) == ParseDigits(b') * 10 + d;
      assert Pow10(|b|) == Pow10(|b'|) * 10;
      ShiftDigit(ParseDigits(a), Pow10(|b'|), ParseDigits(b'), d);
    }
  }

  /** `product.stock += quantity` as written: a number adds, but a string is appended to
      the decimal form of the stock, and saving casts that text back to a number. */
  function AddAsWritten(stock: nat, q: JsonValue): int
    requires QuantityOk(q)
  {
    match q
    case JNum(n) => stock + n
    case JStr(s) => ParseDigits(Decimal(stock) + s)
  }

  /** A quantity sent as a string is concatenated: the stock is shifted left by the
      quantity's digits instead of being increased by it. */
  lemma AddAsWrittenConcatenates(stock: nat, s: string)
    requires QuantityOk(JStr(s))
    ensures AddAsWritten(stock, JStr(s)) == stock * Pow10(|s|) + ParseDigits(s)
  {
    ParseDecimal(stock);
    ParseConcat(Decimal(stock), s);
  }

  /** Stock 10 with `{ "quantity": "5", "operation": "add" }`: the validator accepts the
      request, and the stock becomes 105 instead of 15. */
  lemma AddAsWrittenCounterexample()
    ensures StockErrors(Some(JStr("5")), Some("add")) == []
    ensures AddAsWritten(10, JStr("5")) == 105
    ensures 10 + QuantityValue(JStr("5")) == 15
  {
    assert ParseDigits("5") == 5 by {
      assert "5"[..0] == [];
    }
    AddAsWrittenConcatenates(10, "5");
  }

  /** The addition intended: the stock grows by the number the quantity stands for. */
  function AddCorrected(stock: nat, q: JsonValue): int
    requires QuantityOk(q)
  {
    stock + QuantityValue(q)
  }

  /** The corrected addition is the stock change `add` computes, whatever form the
      quantity took, and it agrees with the code as written for numeric quantities. */
  lemma AddCorrectedIsStockChange(stock: nat, q: JsonValue)
    requires QuantityOk(q)
    ensures Store.StockChange(stock, QuantityValue(q), "add") == Success(AddCorrected(stock, q))
    ensures AddCorrected(stock, q) > stock
    ensures q.JNum? ==> AddCorrected(stock, q) == AddAsWritten(stock, q)
  {
  }

  // ---------------------------------------------------------------- route table

  datatype HttpMethod = GET | POST | PUT | PATCH | DELETE

  /** A path segment pattern: a literal, or a `:name` parameter. */
  datatype Segment = Lit(text: string) | Param(name: string)

  datatype Handler =
    | GetProducts | GetProduct | CreateProduct | UpdateProduct | DeleteProduct
    | GetLowStockProducts | GetProductsByCategory | GetDashboardStats | UpdateStock

  /** Which body validator runs on the route. */
  datatype BodyCheck = NoCheck | ProductCheck | StockCheck

  /** A registered route: method, path pattern, the roles `authorize` admits (None when
      any signed-in user may call it), the body validator and the handler. */
  datatype Route = Route(verb: HttpMethod, pattern: seq<Segment>, roles: Option<seq<string>>,
                         check: BodyCheck, handler: Handler)

  const Staff: Option<seq<string>> := Some(["admin", "staff"])
  const AdminOnly: Option<seq<string>> := Some(["admin"])

  /** The routes in registration order; the literal paths come before `/:id`. */
  const Table: seq<Route> := [
    Route(GET, [Lit("low-stock")], None, NoCheck, GetLowStockProducts),
    Route(GET, [Lit("stats"), Lit("dashboard")], None, NoCheck, GetDashboardStats),
    Route(GET, [Lit("category"), Param("category")], None, NoCheck, GetProductsByCategory),
    Route(GET, [], None, NoCheck, GetProducts),
    Route(POST, [], Staff, ProductCheck, CreateProduct),
    Route(GET, [Param("id")], None, NoCheck, GetProduct),
    Route(PUT, [Param("id")], Staff, ProductCheck, UpdateProduct),
    Route(DELETE, [Param("id")], AdminOnly, NoCheck, DeleteProduct),
    Route(PATCH, [Param("id"), Lit("stock")], Staff, StockCheck, UpdateStock)
  ]

  /** A segment matches a pattern segment: literals compare case-insensitively (the
      router's default), parameters take any non-empty segment. */
  predicate SegmentMatches(pat: Segment, seg: string) {
    match pat
    case Lit(t) => Lower(seg) == Lower(t)
    case Param(_) => seg != ""
  }

  predicate PathMatches(pattern: seq<Segment>, path: seq<string>) {
    |pattern| == |path| && forall i :: 0 <= i < |path| ==> SegmentMatches(pattern[i], path[i])
  }

  predicate RouteMatches(r: Route, verb: HttpMethod, path: seq<string>) {
    r.verb == verb && PathMatches(r.pattern, path)
  }

  /** First-match dispatch over a list of routes. */
  function FirstMatch(routes: seq<Route>, verb: HttpMethod, path: seq<string>): (r: Option<nat>)
    ensures r.Some? ==> r.value < |routes| && RouteMatches(routes[r.value], verb, path)
    ensures r.Some? ==> forall k :: 0 <= k < r.value ==> !RouteMatches(routes[k], verb, path)
    ensures r.None? ==> forall k :: 0 <= k < |routes| ==> !RouteMatches(routes[k], verb, path)
  {
    if routes == [] then None
    else if RouteMatches(routes[0], verb, path) then Some(0)
    else match FirstMatch(routes[1..], verb, path)
      case None => None
      case Some(k) => Some(k + 1)
  }

  /** The route a request reaches, if any. */
  function Dispatch(verb: HttpMethod, path: seq<string>): Option<Route> {
    match FirstMatch(Table, verb, path)
    case None => None
    case Some(k) => Some(Table[k])
  }

  lemma LowerLiteral(s: string)
    requires forall i :: 0 <= i < |s| ==> !('A' <= s[i] <= 'Z')
    ensures Lower(s) == s
  {
  }

  /** `GET /<id>` reaches `getProduct` exactly when the id is one segment that does not
      spell `low-stock`: the literal route registered first takes that path. */
  lemma GetProductShadowed(path: seq<string>)
    ensures (Dispatch(GET, path).Some? && Dispatch(GET, path).value.handler == GetProduct)
        <==> (|path| == 1 && path[0] != "" && Lower(path[0]) != "low-stock")
  {
    LowerLiteral("low-stock");
    var d := Dispatch(GET, path);
    if |path| == 1 && path[0] != "" && Lower(path[0]) != "low-stock" {
      assert !RouteMatches(Table[0], GET, path);
      assert RouteMatches(Table[5], GET, path);
    }
    if d.Some? && d.value.handler == GetProduct {
      var k := FirstMatch(Table, GET, path).value;
      assert k == 5;
      assert !RouteMatches(Table[0], GET, path);
    }
  }

  /** The literal paths reach their own handlers, never `getProduct`. */
  lemma LiteralRoutesWin(category: string)
    requires category != ""
    ensures Dispatch(GET, ["low-stock"]) == Some(Table[0])
    ensures Dispatch(GET, ["stats", "dashboard"]) == Some(Table[1])
    ensures Dispatch(GET, ["category", category]) == Some(Table[2])
  {
    LowStockRoute();
    StatsRoute();
    CategoryRoute(category);
  }

  lemma LowStockRoute()
    ensures Dispatch(GET, ["low-stock"]) == Some(Table[0])
  {
    LowerLiteral("low-stock");
    assert RouteMatches(Table[0], GET, ["low-stock"]);
  }

  lemma StatsRoute()
    ensures Dispatch(GET, ["stats", "dashboard"]) == Some(Table[1])
  {
    LowerLiteral("stats");
    LowerLiteral("dashboard");
    assert RouteMatches(Table[1], GET, ["stats", "dashboard"]);
    assert !RouteMatches(Table[0], GET, ["stats", "dashboard"]);
  }

  lemma CategoryRoute(category: string)
    requires category != ""
    ensures Dispatch(GET, ["category", category]) == Some(Table[2])
  {
    LowerLiteral("category");
    assert RouteMatches(Table[2], GET, ["category", category]);
    assert !RouteMatches(Table[0], GET, ["category", category]);
    assert !RouteMatches(Table[1], GET, ["category", category]) by {
      assert |Lower("category")| == 8 && |Lower("stats")| == 5;
      assert !SegmentMatches(Table[1].pattern[0], "category");
    }
  }

  // ---------------------------------------------------------------- middleware order

  /** Who is calling: nobody signed in, or a user with a role. */
  datatype Caller = Anonymous | User(id: UserId, role: string)

  datatype Request = Request(
    verb: HttpMethod,
    path: seq<string>,
    caller: Caller,
    body: ProductBody,
    quantity: Option<JsonValue>,
    operation: Option<string>)

  /** What becomes of a request before any handler logic runs. */
  datatype Decision =
    | NoRoute
    | Unauthenticated
    | Forbidden
    | Rejected(errors: seq<FieldError>)
    | Invoke(handler: Handler)

  function BodyErrors(check: BodyCheck, req: Request): seq<FieldError> {
    match check
    case NoCheck => []
    case ProductCheck => ProductErrors(req.body)
    case StockCheck => StockErrors(req.quantity, req.operation)
  }

  /** Route lookup, then `protect`, then `authorize`, then the validators and `validate`. */
  function Gate(req: Request): Decision {
    match Dispatch(req.verb, req.path)
    case None => NoRoute
    case Some(route) =>
      if req.caller.Anonymous? then Unauthenticated
      else if route.roles.Some? && req.caller.role !in route.roles.value then Forbidden
      else if BodyErrors(route.check, req) != [] then Rejected(BodyErrors(route.check, req))
      else Invoke(route.handler)
  }

  lemma TableRoles(k: nat)
    requires k < |Table|
    ensures Table[k].handler in {CreateProduct, UpdateProduct, UpdateStock} ==> Table[k].roles == Staff
    ensures Table[k].handler == DeleteProduct ==> Table[k].roles == AdminOnly
    ensures Table[k].handler !in {CreateProduct, UpdateProduct, UpdateStock, DeleteProduct} ==> Table[k].roles.None?
    ensures Table[k].handler in {CreateProduct, UpdateProduct} ==> Table[k].check == ProductCheck
    ensures Table[k].handler == UpdateStock ==> Table[k].check == StockCheck
    ensures Table[k].handler !in {CreateProduct, UpdateProduct, UpdateStock} ==> Table[k].check == NoCheck
  {
  }

  /** The role table: every handler needs a signed-in caller; create, update and the
      stock change need admin or staff; delete needs admin; and a body that reaches
      create, update or the stock change has passed its validator. Conversely, every
      signed-in user reaches the read routes, and a caller with the route's role and a
      valid body reaches its handler. */
  lemma RoleTable(req: Request)
    ensures Gate(req).Invoke? ==> req.caller.User?
    ensures Gate(req).Invoke? && Gate(req).handler in {CreateProduct, UpdateProduct, UpdateStock}
            ==> req.caller.role in ["admin", "staff"]
    ensures Gate(req).Invoke? && Gate(req).handler == DeleteProduct ==> req.caller.role == "admin"
    ensures Gate(req).Invoke? && Gate(req).handler in {CreateProduct, UpdateProduct}
            ==> ProductErrors(req.body) == []
    ensures Gate(req).Invoke? && Gate(req).handler == UpdateStock
            ==> StockErrors(req.quantity, req.operation) == []
    ensures Dispatch(req.verb, req.path).Some? && req.caller.User? && req.caller.role == "admin"
            && BodyErrors(Dispatch(req.verb, req.path).value.check, req) == []
            ==> Gate(req).Invoke?
    ensures (&& Dispatch(req.verb, req.path).Some? && req.caller.User?
             && Dispatch(req.verb, req.path).value.handler !in {CreateProduct, UpdateProduct, UpdateStock, DeleteProduct})
            ==> Gate(req) == Invoke(Dispatch(req.verb, req.path).value.handler)
    ensures (&& Dispatch(req.verb, req.path).Some? && req.caller.User?
             && (Dispatch(req.verb, req.path).value.handler in {CreateProduct, UpdateProduct, UpdateStock} ==>
                   req.caller.role in ["admin", "staff"])
             && (Dispatch(req.verb, req.path).value.handler == DeleteProduct ==> req.caller.role == "admin")
             && BodyErrors(Dispatch(req.verb, req.path).value.check, req) == [])
            ==> Gate(req) == Invoke(Dispatch(req.verb, req.path).value.handler)
  {
    match FirstMatch(Table, req.verb, req.path)
    case None =>
    case Some(k) => TableRoles(k);
  }
}
