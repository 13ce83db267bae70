/**
 * The product collection and the by-id operations on it: fetch, create, update,
 * delete and the stock adjustment, each a read-modify-write of one record.
 */
module Store {
  import opened Wrappers
  import opened ProductModel

  /** The stock that `add` or `subtract` of `quantity` leaves, or why it is refused. */
  function StockChange(stock: int, quantity: int, operation: string): (r: Result<int, Failure>)
    ensures r.Failure? <==> (operation != "add" && operation != "subtract")
                            || (operation == "subtract" && stock < quantity)
    ensures r.Failure? ==> r.error == (if operation == "subtract" then InsufficientStock else InvalidOperation)
    ensures r.Success? ==> r.value == stock + (if operation == "add" then quantity else -quantity)
    ensures r.Success? && operation == "subtract" ==> 0 <= r.value
  {
    if operation == "add" then Success(stock + quantity)
    else if operation == "subtract" then
      if stock < quantity then Failure(InsufficientStock) else Success(stock - quantity)
    else Failure(InvalidOperation)
  }

  /** Stock 5: subtracting 5 leaves 0, subtracting 6 is refused, adding 3 gives 8, and an
      unknown operation is refused whatever the quantity. */
  lemma StockChangeExamples(q: int)
    ensures StockChange(5, 5, "subtract") == Success(0)
    ensures StockChange(5, 6, "subtract") == Failure(InsufficientStock)
    ensures StockChange(5, 3, "add") == Success(8)
    ensures StockChange(5, q, "multiply") == Failure(InvalidOperation)
  {
  }

  /** The outcome of `n` one-unit subtractions run one after another on stock `k`:
      the final stock and how many succeeded. */
  function SubtractOneRepeatedly(k: int, n: nat): (int, nat) {
    if n == 0 then (k, 0)
    else
      match StockChange(k, 1, "subtract")
      case Success(k') =>
        var (final, ok) := SubtractOneRepeatedly(k', n - 1);
        (final, ok + 1)
      case Failure(_) => SubtractOneRepeatedly(k, n - 1)
  }

  /** Serialised one-unit subtractions never overdraw: from stock `k` with `n >= k`
      requests, exactly `k` succeed and the stock ends at 0. */
  lemma {:induction false} SubtractsNeverOverdraw(k: nat, n: nat)
    requires k <= n
    ensures SubtractOneRepeatedly(k, n) == (0, k)
  {
    if n > 0 {
      if k == 0 {
        SubtractsNeverOverdraw(0, n - 1);
      } else {
        SubtractsNeverOverdraw(k - 1, n - 1);
      }
    }
  }

  /** No two records share a (normalised) SKU. */
  ghost predicate SkusUnique(m: map<Id, Product>) {
    forall a, b :: a in m && b in m && a != b ==> m[a].sku != m[b].sku
  }

  /** Some record other than `except` already uses `sku`. */
  predicate SkuTaken(m: map<Id, Product>, sku: string, except: Option<Id>) {
    exists id :: id in m && Some(id) != except && m[id].sku == sku
  }

  /** The collection's invariant: every record is filed under its own id, is valid,
      was issued an id below `nextId`, and has its own SKU. */
  ghost predicate RecordsValid(m: map<Id, Product>, nextId: Id) {
    && (forall id :: id in m ==> m[id].id == id && ProductModel.Valid(m[id]) && id < nextId)
    && SkusUnique(m)
  }

  /** Filing a valid record whose SKU no other record uses keeps the invariant. */
  lemma PutKeepsValid(m: map<Id, Product>, nextId: Id, p: Product)
    requires RecordsValid(m, nextId)
    requires p.id < nextId && ProductModel.Valid(p) && !SkuTaken(m, p.sku, Some(p.id))
    ensures RecordsValid(m[p.id := p], nextId)
  {
    var m' := m[p.id := p];
    forall id | id in m' ensures m'[id].id == id && ProductModel.Valid(m'[id]) && id < nextId {
      if id != p.id {
        assert m'[id] == m[id];
      }
    }
    forall a, b | a in m' && b in m' && a != b ensures m'[a].sku != m'[b].sku {
      if a == p.id {
        assert !(b in m && Some(b) != Some(p.id) && m[b].sku == p.sku);
      } else if b == p.id {
        assert !(a in m && Some(a) != Some(p.id) && m[a].sku == p.sku);
      }
    }
  }

  /** Removing a record keeps the invariant. */
  lemma RemoveKeepsValid(m: map<Id, Product>, nextId: Id, id: Id)
    requires RecordsValid(m, nextId)
    ensures RecordsValid(m - {id}, nextId)
  {
  }

  /** A larger `nextId` keeps the invariant. */
  lemma BumpKeepsValid(m: map<Id, Product>, nextId: Id)
    requires RecordsValid(m, nextId)
    ensures RecordsValid(m, nextId + 1)
  {
  }

  /** Changing only the stock (to a non-negative value) and the editor stamp keeps a
      record valid. */
  lemma StockEditKeepsValid(p: Product, n: int, actor: UserId, now: int)
    requires ProductModel.Valid(p) && n >= 0
    ensures ProductModel.Valid(p.(stock := n, updatedBy := Some(actor), updatedAt := now))
  {
  }

  class Inventory {
    /** The collection, by id. */
    var records: map<Id, Product>
    /** The next id to hand out. */
    var nextId: Id

    ghost predicate Valid()
      reads this
    {
      RecordsValid(records, nextId)
    }

    constructor ()
      ensures Valid() && records == map[] && nextId == 0
    {
      records := map[];
      nextId := 0;
    }

    /** `findById`: the record, or not found. */
    method GetProduct(id: Id) returns (r: Result<Product, Failure>)
      ensures id in records ==> r == Success(records[id])
      ensures id !in records ==> r == Failure(NotFound)
    {
      if id in records {
        r := Success(records[id]);
      } else {
        r := Failure(NotFound);
      }
    }

    /** `Product.create` with the actor as creator: a fresh id, the schema's
        validation, then the unique index on the SKU. */
    method CreateProduct(body: ProductBody, actor: UserId, now: int) returns (r: Result<Product, Failure>)
      requires Valid()
      modifies this
      ensures Valid()
      ensures r.Failure? ==> records == old(records) && r.error in {ValidationFailed, DuplicateSku}
      ensures r.Success? ==> && r.value.id !in old(records)
                             && records == old(records)[r.value.id := r.value]
                             && r.value.createdBy == actor
                             && CreateRecord(body, actor, r.value.id, now) == r
      ensures r.Failure? && r.error == DuplicateSku ==>
                CreateRecord(body, actor, old(nextId), now).Success?
                && SkuTaken(records, CreateRecord(body, actor, old(nextId), now).value.sku, None)
      ensures r.Failure? && r.error == ValidationFailed ==> CreateRecord(body, actor, old(nextId), now).Failure?
      ensures (&& CreateRecord(body, actor, old(nextId), now).Success?
               && !SkuTaken(old(records), CreateRecord(body, actor, old(nextId), now).value.sku, None))
              ==> r.Success?
      ensures r.Success? ==> r.value.id == old(nextId) && nextId == old(nextId) + 1
      ensures r.Failure? ==> nextId == old(nextId)
    {
      var id := nextId;
      var made := CreateRecord(body, actor, id, now);
      if made.Failure? {
        return made;
      }
      if SkuTaken(records, made.value.sku, None) {
        return Failure(DuplicateSku);
      }
      BumpKeepsValid(records, nextId);
      PutKeepsValid(records, nextId + 1, made.value);
      records := records[id := made.value];
      nextId := nextId + 1;
      r := made;
    }

    /** `findByIdAndUpdate` with the actor as editor, after the existence check. */
    method UpdateProduct(id: Id, body: ProductBody, actor: UserId, now: int) returns (r: Result<Product, Failure>)
      requires Valid()
      modifies this
      ensures Valid() && nextId == old(nextId)
      ensures id !in old(records) ==> r == Failure(NotFound)
      ensures r.Failure? ==> records == old(records)
      ensures r.Success? ==> && id in old(records)
                             && r == UpdateRecord(old(records)[id], body, actor, now)
                             && r.value.updatedBy == Some(actor)
                             && records == old(records)[id := r.value]
      ensures id in old(records) && UpdateRecord(old(records)[id], body, actor, now).Failure? ==> r == Failure(ValidationFailed)
      ensures r.Failure? && r.error == DuplicateSku ==>
                && id in old(records) && UpdateRecord(old(records)[id], body, actor, now).Success?
                && SkuTaken(old(records), UpdateRecord(old(records)[id], body, actor, now).value.sku, Some(id))
      ensures (&& id in old(records) && UpdateRecord(old(records)[id], body, actor, now).Success?
               && !SkuTaken(old(records), UpdateRecord(old(records)[id], body, actor, now).value.sku, Some(id)))
              ==> r.Success?
      ensures (&& id in old(records) && UpdateRecord(old(records)[id], body, actor, now).Success?
               && SkuTaken(old(records), UpdateRecord(old(records)[id], body, actor, now).value.sku, Some(id)))
              ==> r == Failure(DuplicateSku)
      ensures r.Failure? && r.error == NotFound ==> id !in old(records)
    {
      if id !in records {
        return Failure(NotFound);
      }
      var updated := UpdateRecord(records[id], body, actor, now);
      if updated.Failure? {
        return updated;
      }
      if SkuTaken(records, updated.value.sku, Some(id)) {
        return Failure(DuplicateSku);
      }
      PutKeepsValid(records, nextId, updated.value);
      records := records[id := updated.value];
      r := updated;
    }

    /** `deleteOne` after the existence check: removes that record and nothing else. */
    method DeleteProduct(id: Id) returns (r: Result<Id, Failure>)
      requires Valid()
      modifies this
      ensures Valid() && nextId == old(nextId)
      ensures id in old(records) ==> r == Success(id) && records == old(records) - {id}
      ensures id !in old(records) ==> r == Failure(NotFound) && records == old(records)
    {
      if id !in records {
        return Failure(NotFound);
      }
      RemoveKeepsValid(records, nextId, id);
      records := records - {id};
      r := Success(id);
    }

    /** The stock adjustment: load the record, change its stock in place, stamp the
        editor and save, where saving re-checks the schema. */
    method UpdateStock(id: Id, quantity: int, operation: string, actor: UserId, now: int)
      returns (r: Result<Product, Failure>)
      requires Valid()
      modifies this
      ensures Valid() && nextId == old(nextId)
      ensures r.Failure? ==> records == old(records)
      ensures id !in old(records) ==> r == Failure(NotFound)
      ensures id in old(records) ==>
        var change := StockChange(old(records)[id].stock, quantity, operation);
        && (change.Failure? ==> r == Failure(change.error))
        && (change.Success? && change.value < 0 ==> r == Failure(ValidationFailed))
        && (change.Success? && change.value >= 0 ==>
              r == Success(old(records)[id].(stock := change.value, updatedBy := Some(actor), updatedAt := now)))
      ensures r.Success? ==> id in old(records) && records == old(records)[id := r.value] && r.value.stock >= 0
    {
      if id !in records {
        return Failure(NotFound);
      }
      var product := records[id];
      if operation == "add" {
        product := product.(stock := product.stock + quantity);
      } else if operation == "subtract" {
        if product.stock < quantity {
          return Failure(InsufficientStock);
        }
        product := product.(stock := product.stock - quantity);
      } else {
        return Failure(InvalidOperation);
      }
      product := product.(updatedBy := Some(actor), updatedAt := now);
      if product.stock < 0 {
        return Failure(ValidationFailed);
      }
      StockEditKeepsValid(records[id], product.stock, actor, now);
      PutKeepsValid(records, nextId, product);
      records := records[id := product];
      r := Success(product);
    }
  }
}
