/**
 * The product routes (app/routes/products.py): creating a product with its product-level row
 * and optional INITIAL movement, editing it under the barcode rules, and the soft-delete and
 * restore flags.
 */
module Products {
  import opened Wrappers
  import opened Models
  import opened Store

  /** Some product other than `except` carries the barcode; with `liveOnly`, only non-deleted
      products count. Product ids start at 1, so except = 0 excludes nothing. */
  predicate BarcodeHeld(products: seq<Product>, barcode: string, except: nat, liveOnly: bool)
  {
    exists i :: 0 <= i < |products| && i + 1 != except && products[i].barcode == Some(barcode)
                && (liveOnly ==> !products[i].deleted)
  }

  /** Why a product form is refused before and at the INSERT or UPDATE: an empty name, a barcode
      a live product already uses (the route's own check), or one any product uses (the UNIQUE
      constraint on products.barcode, which counts deleted products too). */
  function ProductRefusal(products: seq<Product>, name: string, barcode: Option<string>, except: nat)
    : (refusal: Option<Error>)
    ensures refusal.None? <==> (name != [] && (barcode.Some? ==> !BarcodeHeld(products, barcode.value, except, false)))
    ensures refusal == Some(DuplicateBarcode) <==>
      (name != [] && barcode.Some? && BarcodeHeld(products, barcode.value, except, true))
  {
    if name == [] then Some(NameRequired)
    else if barcode.Some? && BarcodeHeld(products, barcode.value, except, true) then Some(DuplicateBarcode)
    else if barcode.Some? && BarcodeHeld(products, barcode.value, except, false) then Some(BarcodeConstraint)
    else None
  }

  /** A row passing the barcode checks keeps the barcodes unique. */
  lemma {:induction false} FreshBarcodeKeepsUnique(products: seq<Product>, at: nat, p: Product)
    requires BarcodesUnique(products)
    requires 1 <= at <= |products| + 1
    requires p.barcode.Some? ==> !BarcodeHeld(products, p.barcode.value, at, false)
    ensures BarcodesUnique(if at <= |products| then products[at - 1 := p] else products + [p])
  {
    var updated := if at <= |products| then products[at - 1 := p] else products + [p];
    forall i, j | 0 <= i < j < |updated| && updated[i].barcode.Some?
      ensures updated[i].barcode != updated[j].barcode
    {
      if i == at - 1 {
        assert products[j].barcode == updated[j].barcode;
      } else if j == at - 1 {
        assert products[i].barcode == updated[i].barcode;
      } else {
        assert products[i] == updated[i] && products[j] == updated[j];
      }
    }
  }

  /** Creates a product: an empty name and a taken barcode are refused, and so is a negative
      opening quantity. The new product gets a product-level row holding the opening quantity,
      and an INITIAL movement from 0 when that quantity is positive. */
  method AddProduct(db: Db, name: string, category: Option<nat>, unit: Option<nat>,
                    barcode: Option<string>, description: Option<string>,
                    packageSize: Option<string>, minStockLevel: int, initial: int)
    returns (r: Result<ProductId>)
    requires db.Valid()
    modifies db`products, db`inventory, db`movements
    ensures db.Valid()
    ensures r.Err? <==> ProductRefusal(old(db.products), name, barcode, 0).Some? || initial < 0
    ensures r.Err? ==> r.error == (if ProductRefusal(old(db.products), name, barcode, 0).Some?
                                   then ProductRefusal(old(db.products), name, barcode, 0).value
                                   else InvalidQuantity)
    ensures r.Err? ==> db.products == old(db.products) && db.inventory == old(db.inventory)
                       && db.movements == old(db.movements)
    ensures r.Ok? ==>
      && r.value == |old(db.products)| + 1
      && db.products == old(db.products)
         + [Product(name, category, unit, barcode, description, packageSize, minStockLevel, false)]
      && db.inventory == old(db.inventory)[r.value := initial]
      && db.movements == old(db.movements)
         + (if initial > 0
            then [Movement(r.value, Initial, initial, 0, initial, None, None, None, None,
                           Some("Kezdőkészlet felvitele"))]
            else [])
  {
    var refusal := ProductRefusal(db.products, name, barcode, 0);
    if refusal.Some? {
      return Err(refusal.value);
    }
    if initial < 0 {
      return Err(InvalidQuantity);
    }
    var product := Product(name, category, unit, barcode, description, packageSize, minStockLevel, false);
    FreshBarcodeKeepsUnique(db.products, |db.products| + 1, product);
    LogGrowsProducts(db.movements, |db.products|, |db.products| + 1);
    db.products := db.products + [product];
    var id := |db.products|;
    db.inventory := db.inventory[id := initial];
    if initial > 0 {
      var m := Movement(id, Initial, initial, 0, initial, None, None, None, None,
                        Some("Kezdőkészlet felvitele"));
      ReplayUnlocated(db.locationStock, db.movements, m);
      LogAppend(db.movements, |db.products|, m);
      db.movements := db.movements + [m];
    }
    return Ok(id);
  }

  /** The product form as written: the opening quantity is not checked, so a negative one is
      stored in the product-level row, and no movement is logged for it. */
  method AddProductAsWritten(db: Db, name: string, category: Option<nat>, unit: Option<nat>,
                             barcode: Option<string>, description: Option<string>,
                             packageSize: Option<string>, minStockLevel: int, initial: int)
    returns (r: Result<ProductId>)
    modifies db`products, db`inventory, db`movements
    ensures old(db.Ledger()) ==> db.Ledger()
    ensures r.Err? <==> ProductRefusal(old(db.products), name, barcode, 0).Some?
    ensures r.Err? ==> r.error == ProductRefusal(old(db.products), name, barcode, 0).value
    ensures r.Err? ==> db.products == old(db.products) && db.inventory == old(db.inventory)
                       && db.movements == old(db.movements)
    ensures r.Ok? ==>
      && r.value == |old(db.products)| + 1
      && db.products == old(db.products)
         + [Product(name, category, unit, barcode, description, packageSize, minStockLevel, false)]
      && db.inventory == old(db.inventory)[r.value := initial]
      && db.movements == old(db.movements)
         + (if initial > 0
            then [Movement(r.value, Initial, initial, 0, initial, None, None, None, None,
                           Some("Kezdőkészlet felvitele"))]
            else [])
  {
    var refusal := ProductRefusal(db.products, name, barcode, 0);
    if refusal.Some? {
      return Err(refusal.value);
    }
    if db.Ledger() {
      LogGrowsProducts(db.movements, |db.products|, |db.products| + 1);
    }
    db.products := db.products
      + [Product(name, category, unit, barcode, description, packageSize, minStockLevel, false)];
    var id := |db.products|;
    db.inventory := db.inventory[id := initial];
    if initial > 0 {
      var m := Movement(id, Initial, initial, 0, initial, None, None, None, None,
                        Some("Kezdőkészlet felvitele"));
      if db.Ledger() {
        ReplayUnlocated(db.locationStock, db.movements, m);
        LogAppend(db.movements, |db.products|, m);
      }
      db.movements := db.movements + [m];
    }
    return Ok(id);
  }

  /** Creating "Cola" with opening quantity -3 in an empty store succeeds, stores -3 and logs
      nothing: the product-level ledger now holds a negative row. */
  method AddProductNegativeInitial() returns (db: Db, r: Result<ProductId>)
    ensures r == Ok(1)
    ensures db.inventory == map[1 := -3] && db.movements == []
    ensures db.Ledger() && !db.Valid()
  {
    db := new Db();
    r := AddProductAsWritten(db, "Cola", None, None, None, None, None, 0, -3);
    assert db.inventory[1] < 0;
  }

  /** Edits a product's fields; the deleted flag is kept, and the barcode checks skip the
      product itself (and, in the route's own check, deleted products). */
  method EditProduct(db: Db, id: ProductId, name: string, category: Option<nat>, unit: Option<nat>,
                     barcode: Option<string>, description: Option<string>,
                     packageSize: Option<string>, minStockLevel: int)
    returns (r: Result<ProductId>)
    requires db.Ledger()
    modifies db`products
    ensures db.Ledger()
    ensures old(db.Valid()) ==> db.Valid()
    ensures r.Err? <==> !IsRow(old(db.products), id) || ProductRefusal(old(db.products), name, barcode, id).Some?
    ensures r.Err? ==> r.error == (if !IsRow(old(db.products), id) then NotFound
                                   else ProductRefusal(old(db.products), name, barcode, id).value)
    ensures r.Err? ==> db.products == old(db.products)
    ensures r.Ok? ==>
      && r.value == id
      && db.products == old(db.products)[id - 1 := Product(name, category, unit, barcode, description,
                                                           packageSize, minStockLevel,
                                                           old(db.products)[id - 1].deleted)]
  {
    if !IsRow(db.products, id) {
      return Err(NotFound);
    }
    var refusal := ProductRefusal(db.products, name, barcode, id);
    if refusal.Some? {
      return Err(refusal.value);
    }
    var product := Product(name, category, unit, barcode, description, packageSize, minStockLevel,
                           db.products[id - 1].deleted);
    if db.Valid() {
      FreshBarcodeKeepsUnique(db.products, id, product);
    }
    db.products := db.products[id - 1 := product];
    return Ok(id);
  }

  /** Sets the deleted flag of product id and nothing else. */
  method SetProductDeleted(db: Db, id: ProductId, deleted: bool) returns (r: Result<ProductId>)
    requires db.Ledger()
    modifies db`products
    ensures db.Ledger()
    ensures old(db.Valid()) ==> db.Valid()
    ensures r.Err? <==> !IsRow(old(db.products), id)
    ensures r.Err? ==> r.error == NotFound && db.products == old(db.products)
    ensures r.Ok? ==> (r.value == id
      && db.products == old(db.products)[id - 1 := old(db.products)[id - 1].(deleted := deleted)])
  {
    if !IsRow(db.products, id) {
      return Err(NotFound);
    }
    var product := db.products[id - 1].(deleted := deleted);
    if db.Valid() {
      FreshBarcodeKeepsUnique(db.products, id, product);
    }
    db.products := db.products[id - 1 := product];
    return Ok(id);
  }

  /** Soft delete: the row stays, only its flag is set. */
  method DeleteProduct(db: Db, id: ProductId) returns (r: Result<ProductId>)
    requires db.Ledger()
    modifies db`products
    ensures db.Ledger()
    ensures old(db.Valid()) ==> db.Valid()
    ensures r.Err? <==> !IsRow(old(db.products), id)
    ensures r.Err? ==> r.error == NotFound && db.products == old(db.products)
    ensures r.Ok? ==> (r.value == id
      && db.products == old(db.products)[id - 1 := old(db.products)[id - 1].(deleted := true)])
  {
    r := SetProductDeleted(db, id, true);
  }

  /** Restore: the flag is cleared and nothing else changes. */
  method RestoreProduct(db: Db, id: ProductId) returns (r: Result<ProductId>)
    requires db.Ledger()
    modifies db`products
    ensures db.Ledger()
    ensures old(db.Valid()) ==> db.Valid()
    ensures r.Err? <==> !IsRow(old(db.products), id)
    ensures r.Err? ==> r.error == NotFound && db.products == old(db.products)
    ensures r.Ok? ==> (r.value == id
      && db.products == old(db.products)[id - 1 := old(db.products)[id - 1].(deleted := false)])
  {
    r := SetProductDeleted(db, id, false);
  }

  /** Deleting a live product and restoring it gives back the table it started from. */
  method DeleteThenRestore(db: Db, id: ProductId) returns (deleted: Result<ProductId>, restored: Result<ProductId>)
    requires db.Ledger()
    requires IsRow(db.products, id) && !db.products[id - 1].deleted
    modifies db`products
    ensures db.Ledger()
    ensures old(db.Valid()) ==> db.Valid()
    ensures deleted == Ok(id) && restored == Ok(id)
    ensures db.products == old(db.products)
  {
    deleted := DeleteProduct(db, id);
    restored := RestoreProduct(db, id);
    assert db.products[id - 1] == old(db.products)[id - 1];
  }
}
