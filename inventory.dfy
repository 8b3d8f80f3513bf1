/**
 * The product-level ledger routes (app/routes/inventory.py): a movement form with a sign rule
 * per type, the quick stock-out and stock-in buttons, the stock-taking overwrite, and the
 * filters of the stock list and of the movement history.
 */
module Inventory {
  import opened Wrappers
  import opened Models
  import opened Store
  import opened Ordering

  /** The signed change of a movement form: STOCK_OUT and LOSS take stock away, every other type
      (ADJUSTMENT and CONSUMPTION included) adds it. */
  function SignedChange(kind: MovementType, quantity: int): (change: int)
    ensures change == quantity || change == -quantity
    ensures quantity > 0 ==> (change < 0 <==> kind.StockOut? || kind.Loss?)
  {
    if kind.StockOut? || kind.Loss? then -quantity else quantity
  }

  /** Why the movement form is refused, checked in its order; the last is the foreign key on
      product_id rejecting the write for an id with no product. */
  function MovementRefusal(inventory: map<ProductId, int>, productCount: nat,
                           product: Option<ProductId>, kind: Option<MovementType>, quantity: int)
    : (refusal: Option<Error>)
    ensures refusal.None? <==> (product.Some? && kind.Some? && quantity > 0
      && Current(inventory, product.value) + SignedChange(kind.value, quantity) >= 0
      && 1 <= product.value <= productCount)
  {
    if product.None? || kind.None? || quantity <= 0 then Some(MissingField)
    else if Current(inventory, product.value) + SignedChange(kind.value, quantity) < 0 then Some(InsufficientStock)
    else if !(1 <= product.value <= productCount) then Some(UnknownProduct)
    else None
  }

  /** Records a product-level movement: the row moves by the signed change, never below zero,
      and a movement without a location logs the quantity before and after. */
  method AddMovement(db: Db, product: Option<ProductId>, kind: Option<MovementType>, quantity: int,
                     note: Option<string>)
    returns (r: Result<MovementId>)
    requires db.Ledger()
    modifies db`inventory, db`movements
    ensures db.Ledger()
    ensures old(db.Valid()) ==> db.Valid()
    ensures r.Err? <==> MovementRefusal(old(db.inventory), |db.products|, product, kind, quantity).Some?
    ensures r.Err? ==> r.error == MovementRefusal(old(db.inventory), |db.products|, product, kind, quantity).value
    ensures r.Err? ==> db.inventory == old(db.inventory) && db.movements == old(db.movements)
    ensures r.Ok? ==>
      var p, change := product.value, SignedChange(kind.value, quantity);
      var before := Current(old(db.inventory), p);
      && r.value == |old(db.movements)|
      && db.inventory == old(db.inventory)[p := before + change]
      && db.movements == old(db.movements)
         + [Movement(p, kind.value, change, before, before + change, None, None, None, None, note)]
  {
    if product.None? || kind.None? || quantity <= 0 {
      return Err(MissingField);
    }
    var p := product.value;
    var current := Current(db.inventory, p);
    var change := SignedChange(kind.value, quantity);
    var updated := current + change;
    if updated < 0 {
      return Err(InsufficientStock);
    }
    if !(1 <= p <= |db.products|) {
      return Err(UnknownProduct);
    }
    // an UPDATE of the existing row, or an INSERT when there is none
    db.inventory := db.inventory[p := updated];
    var m := Movement(p, kind.value, change, current, updated, None, None, None, None, note);
    ReplayUnlocated(db.locationStock, db.movements, m);
    LogAppend(db.movements, |db.products|, m);
    r := Ok(|db.movements|);
    db.movements := db.movements + [m];
  }

  /** The stock-out button with the quantity check the other forms make: a non-positive
      quantity is refused, as is more than the product holds. */
  method QuickStockOut(db: Db, p: ProductId, quantity: int) returns (r: Result<int>)
    requires db.Valid()
    modifies db`inventory, db`movements
    ensures db.Valid()
    ensures r.Err? <==> quantity <= 0 || Current(old(db.inventory), p) < quantity
    ensures r.Err? ==> r.error == (if quantity <= 0 then InvalidQuantity else InsufficientStock)
    ensures r.Err? ==> db.inventory == old(db.inventory) && db.movements == old(db.movements)
    ensures r.Ok? ==>
      var before := Current(old(db.inventory), p);
      && r.value == before - quantity
      && db.inventory == old(db.inventory)[p := before - quantity]
      && db.movements == old(db.movements) + [Movement(p, StockOut, -quantity, before,
           before - quantity, None, None, None, None, Some("Gyors kivételezés"))]
  {
    if quantity <= 0 {
      return Err(InvalidQuantity);
    }
    var current := Current(db.inventory, p);
    if current < quantity {
      return Err(InsufficientStock);
    }
    // the product holds stock, so it has a row and exists
    var m := Movement(p, StockOut, -quantity, current, current - quantity, None, None, None, None,
                      Some("Gyors kivételezés"));
    db.inventory := db.inventory[p := current - quantity];
    ReplayUnlocated(db.locationStock, db.movements, m);
    LogAppend(db.movements, |db.products|, m);
    db.movements := db.movements + [m];
    return Ok(current - quantity);
  }

  /** The stock-out button as written: only `current < quantity` is refused, so a zero or
      negative quantity is logged as a STOCK_OUT that does not lower the stock. The UPDATE touches
      no row when the product has none; the log insert still needs the product to exist. */
  method QuickStockOutAsWritten(db: Db, p: ProductId, quantity: int) returns (r: Result<int>)
    modifies db`inventory, db`movements
    ensures old(db.Ledger()) ==> db.Ledger()
    ensures r.Err? <==> Current(old(db.inventory), p) < quantity || !IsRow(db.products, p)
    ensures r.Err? ==> r.error == (if Current(old(db.inventory), p) < quantity then InsufficientStock
                                   else UnknownProduct)
    ensures r.Err? ==> db.inventory == old(db.inventory) && db.movements == old(db.movements)
    ensures r.Ok? ==>
      var before := Current(old(db.inventory), p);
      && r.value == before - quantity
      && db.inventory == (if p in old(db.inventory) then old(db.inventory)[p := before - quantity]
                          else old(db.inventory))
      && db.movements == old(db.movements) + [Movement(p, StockOut, -quantity, before,
           before - quantity, None, None, None, None, Some("Gyors kivételezés"))]
  {
    var current := Current(db.inventory, p);
    if current < quantity {
      return Err(InsufficientStock);
    }
    if !IsRow(db.products, p) {
      // the foreign key fails the log insert and the rollback undoes the UPDATE
      return Err(UnknownProduct);
    }
    if p in db.inventory {
      db.inventory := db.inventory[p := current - quantity];
    }
    var m := Movement(p, StockOut, -quantity, current, current - quantity, None, None, None, None,
                      Some("Gyors kivételezés"));
    if db.Ledger() {
      ReplayUnlocated(db.locationStock, db.movements, m);
      LogAppend(db.movements, |db.products|, m);
    }
    db.movements := db.movements + [m];
    return Ok(current - quantity);
  }

  /** The stock-in button with a positive-quantity check: it adds the quantity and logs it. */
  method QuickStockIn(db: Db, p: ProductId, quantity: int) returns (r: Result<int>)
    requires db.Valid()
    modifies db`inventory, db`movements
    ensures db.Valid()
    ensures r.Err? <==> quantity <= 0 || !IsRow(db.products, p)
    ensures r.Err? ==> r.error == (if quantity <= 0 then InvalidQuantity else UnknownProduct)
    ensures r.Err? ==> db.inventory == old(db.inventory) && db.movements == old(db.movements)
    ensures r.Ok? ==>
      var before := Current(old(db.inventory), p);
      && r.value == before + quantity
      && db.inventory == old(db.inventory)[p := before + quantity]
      && db.movements == old(db.movements) + [Movement(p, StockIn, quantity, before,
           before + quantity, None, None, None, None, Some("Gyors bevételezés"))]
  {
    if quantity <= 0 {
      return Err(InvalidQuantity);
    }
    if !IsRow(db.products, p) {
      return Err(UnknownProduct);
    }
    var current := Current(db.inventory, p);
    var m := Movement(p, StockIn, quantity, current, current + quantity, None, None, None, None,
                      Some("Gyors bevételezés"));
    db.inventory := db.inventory[p := current + quantity];
    ReplayUnlocated(db.locationStock, db.movements, m);
    LogAppend(db.movements, |db.products|, m);
    db.movements := db.movements + [m];
    return Ok(current + quantity);
  }

  /** The stock-in button as written: no check at all, so any quantity is added, a negative one
      included. Only the foreign key refuses an id with no product. */
  method QuickStockInAsWritten(db: Db, p: ProductId, quantity: int) returns (r: Result<int>)
    modifies db`inventory, db`movements
    ensures old(db.Ledger()) ==> db.Ledger()
    ensures r.Err? <==> !IsRow(db.products, p)
    ensures r.Err? ==> r.error == UnknownProduct
    ensures r.Err? ==> db.inventory == old(db.inventory) && db.movements == old(db.movements)
    ensures r.Ok? ==>
      var before := Current(old(db.inventory), p);
      && r.value == before + quantity
      && db.inventory == old(db.inventory)[p := before + quantity]
      && db.movements == old(db.movements) + [Movement(p, StockIn, quantity, before,
           before + quantity, None, None, None, None, Some("Gyors bevételezés"))]
  {
    if !IsRow(db.products, p) {
      return Err(UnknownProduct);
    }
    var current := Current(db.inventory, p);
    db.inventory := db.inventory[p := current + quantity];
    var m := Movement(p, StockIn, quantity, current, current + quantity, None, None, None, None,
                      Some("Gyors bevételezés"));
    if db.Ledger() {
      ReplayUnlocated(db.locationStock, db.movements, m);
      LogAppend(db.movements, |db.products|, m);
    }
    db.movements := db.movements + [m];
    return Ok(current + quantity);
  }

  /** A store with one product, "Cola", holding 0 in the product-level ledger. */
  method OneEmptyProduct() returns (db: Db)
    ensures fresh(db) && db.Valid()
    ensures |db.products| == 1 && db.inventory == map[1 := 0] && db.movements == []
  {
    db := new Db();
    db.products := [Product("Cola", None, None, None, None, None, 0, false)];
    db.inventory := map[1 := 0];
  }

  /** Pressing stock-out with quantity -5 on a product holding 0 succeeds, raises its stock to 5
      and logs a STOCK_OUT of +5, which no valid log holds. */
  method QuickStockOutNegative() returns (db: Db, r: Result<int>)
    ensures r == Ok(5)
    ensures db.inventory == map[1 := 5]
    ensures |db.movements| == 1 && db.movements[0].kind == StockOut && db.movements[0].change == 5
    ensures db.Ledger() && !db.Valid()
  {
    db := OneEmptyProduct();
    assert Current(db.inventory, 1) == 0 && 1 in db.inventory;
    r := QuickStockOutAsWritten(db, 1, -5);
    assert db.inventory == map[1 := 0][1 := 5];
    assert !SignAgrees(db.movements[0]);
  }

  /** Pressing stock-in with quantity -5 on a product holding 0 succeeds and leaves -5 in stock. */
  method QuickStockInNegative() returns (db: Db, r: Result<int>)
    ensures r == Ok(-5)
    ensures db.inventory == map[1 := -5]
    ensures db.Ledger() && !db.Valid()
  {
    db := OneEmptyProduct();
    r := QuickStockInAsWritten(db, 1, -5);
    assert db.inventory[1] < 0;
  }

  /** A fresh database after quantity −5 was pressed on stock-in for its one empty product. */
  method NegativeStockIn() returns (db: Db)
    ensures fresh(db) && db.Ledger() && |db.products| == 1
    ensures db.inventory == map[1 := -5] && |db.movements| == 1 && !SignAgrees(db.movements[0])
  {
    db := OneEmptyProduct();
    assert Current(db.inventory, 1) == 0 && 1 in db.inventory;
    var stockIn := QuickStockInAsWritten(db, 1, -5);
    assert db.inventory == map[1 := 0][1 := -5];
  }

  /** Stock-taking repairs the row a negative stock-in left behind: counting 0 succeeds, logs an
      ADJUSTMENT of +5 and brings the row back to 0. The STOCK_IN of −5 stays in the log, so the
      state still breaks Valid(). */
  method RepairByStockTaking() returns (db: Db, r: Result<MovementId>)
    ensures r == Ok(1)
    ensures db.inventory == map[1 := 0]
    ensures |db.movements| == 2 && db.movements[1].kind == Adjustment && db.movements[1].change == 5
    ensures db.Ledger() && !db.Valid()
  {
    db := NegativeStockIn();
    assert Current(db.inventory, 1) == -5 && IsRow(db.products, 1);
    r := SetQuantity(db, 1, 0, None);
    assert db.inventory == map[1 := -5][1 := 0];
    assert !SignAgrees(db.movements[0]);
  }

  /** Stock-taking: sets the row to the counted quantity and logs an ADJUSTMENT of the difference. */
  method SetQuantity(db: Db, p: ProductId, counted: int, note: Option<string>) returns (r: Result<MovementId>)
    requires db.Ledger()
    modifies db`inventory, db`movements
    ensures db.Ledger()
    ensures old(db.Valid()) ==> db.Valid()
    ensures r.Err? <==> counted < 0 || !IsRow(db.products, p)
    ensures r.Err? ==> r.error == (if counted < 0 then InvalidQuantity else UnknownProduct)
    ensures r.Err? ==> db.inventory == old(db.inventory) && db.movements == old(db.movements)
    ensures r.Ok? ==>
      var before := Current(old(db.inventory), p);
      && r.value == |old(db.movements)|
      && db.inventory == old(db.inventory)[p := counted]
      && db.movements == old(db.movements) + [Movement(p, Adjustment, counted - before, before, counted,
           None, None, None, None, Some(if note.Some? then note.value else "Leltározás/korrekció"))]
  {
    if counted < 0 {
      return Err(InvalidQuantity);
    }
    if !IsRow(db.products, p) {
      return Err(UnknownProduct);
    }
    var current := Current(db.inventory, p);
    var m := Movement(p, Adjustment, counted - current, current, counted, None, None, None, None,
                      Some(if note.Some? then note.value else "Leltározás/korrekció"));
    db.inventory := db.inventory[p := counted];
    ReplayUnlocated(db.locationStock, db.movements, m);
    LogAppend(db.movements, |db.products|, m);
    r := Ok(|db.movements|);
    db.movements := db.movements + [m];
  }

  // ---------------------------------------------------------------- the stock list

  /** The stock filter of the list: 'low' keeps rows strictly between 0 and the minimum level,
      'zero' keeps a 0 row or a product with no row; any other value keeps everything. A missing
      row compares as NULL, which no comparison accepts. */
  predicate PassesStockFilter(stockFilter: string, row: Option<int>, minLevel: int)
  {
    if stockFilter == "low" then row.Some? && row.value < minLevel && row.value > 0
    else if stockFilter == "zero" then row.None? || row.value == 0
    else true
  }

  /** No product is both low and out of stock. */
  lemma LowAndZeroDisjoint(row: Option<int>, minLevel: int)
    ensures !(PassesStockFilter("low", row, minLevel) && PassesStockFilter("zero", row, minLevel))
  {
  }

  /** The row of product p in the product-level ledger, NULL when it has none. */
  function RowOf(inventory: map<ProductId, int>, p: ProductId): Option<int>
  {
    if p in inventory then Some(inventory[p]) else None
  }

  predicate Listed(products: seq<Product>, inventory: map<ProductId, int>, stockFilter: string, id: nat)
  {
    IsRow(products, id) && !products[id - 1].deleted
      && PassesStockFilter(stockFilter, RowOf(inventory, id), products[id - 1].minStockLevel)
  }

  /** The stock list's rows among the first n products, in id order: live products that pass the filter. */
  function StockListing(products: seq<Product>, inventory: map<ProductId, int>, stockFilter: string,
                        n: nat): (rows: seq<Entry>)
    requires n <= |products|
    ensures |rows| <= n
  {
    if n == 0 then []
    else
      var earlier := StockListing(products, inventory, stockFilter, n - 1);
      if Listed(products, inventory, stockFilter, n) then earlier + [Entry(n, products[n - 1].name)]
      else earlier
  }

  /** Entry e is a row the stock list shows among the first n products. */
  predicate ListedEntry(products: seq<Product>, inventory: map<ProductId, int>, stockFilter: string,
                        n: nat, e: Entry)
  {
    e.id <= n && Listed(products, inventory, stockFilter, e.id) && e.name == products[e.id - 1].name
  }

  /** The stock list holds exactly the live products passing the filter, each once, by id. */
  lemma {:induction false} StockListingRows(products: seq<Product>, inventory: map<ProductId, int>,
                                            stockFilter: string, n: nat)
    requires n <= |products|
    ensures var rows := StockListing(products, inventory, stockFilter, n);
      && (forall e :: e in rows <==> ListedEntry(products, inventory, stockFilter, n, e))
      && (forall i, j :: 0 <= i < j < |rows| ==> rows[i].id < rows[j].id)
  {
    if n > 0 {
      StockListingRows(products, inventory, stockFilter, n - 1);
      var earlier := StockListing(products, inventory, stockFilter, n - 1);
      var rows := StockListing(products, inventory, stockFilter, n);
      forall e
        ensures e in rows <==> ListedEntry(products, inventory, stockFilter, n, e)
      {
        assert e in earlier <==> ListedEntry(products, inventory, stockFilter, n - 1, e);
      }
      if Listed(products, inventory, stockFilter, n) {
        forall i, j | 0 <= i < j < |rows|
          ensures rows[i].id < rows[j].id
        {
          if j == |rows| - 1 {
            assert rows[i] in earlier;
          }
        }
      }
    }
  }

  /** The stock list: the live products passing the stock filter, ordered by name. */
  method InventoryList(db: Db, stockFilter: string) returns (list: seq<Entry>)
    ensures SortedByName(list)
    ensures multiset(list) == multiset(StockListing(db.products, db.inventory, stockFilter, |db.products|))
  {
    var rows := [];
    var id := 1;
    while id <= |db.products|
      invariant 1 <= id <= |db.products| + 1
      invariant rows == StockListing(db.products, db.inventory, stockFilter, id - 1)
    {
      if Listed(db.products, db.inventory, stockFilter, id) {
        rows := rows + [Entry(id, db.products[id - 1].name)];
      }
      id := id + 1;
    }
    list := SortByName(rows);
  }

  // ---------------------------------------------------------------- the movement history

  /** The history's filters; an empty type string or an absent value means no filter. Dates are
      day numbers of created_at. */
  datatype HistoryFilter = HistoryFilter(
    product: Option<ProductId>,
    kind: string,
    dateFrom: Option<int>,
    dateTo: Option<int>)

  /** The history shows at most this many movements. */
  const HistoryLimit := 500

  /** All filters AND-combined; `day` gives the date on which a movement was logged. */
  predicate Matches(f: HistoryFilter, m: Movement, day: int)
  {
    && (f.product.None? || m.product == f.product.value)
    && (f.kind == "" || MovementTypeName(m.kind) == f.kind)
    && (f.dateFrom.None? || day >= f.dateFrom.value)
    && (f.dateTo.None? || day <= f.dateTo.value)
  }

  /** Movement id is in the log and passes the filters. */
  predicate Hit(log: seq<Movement>, f: HistoryFilter, day: MovementId -> int, id: nat)
  {
    id < |log| && Matches(f, log[id], day(id))
  }

  /** The movement history: the ids of the newest matching movements, newest first, at most
      HistoryLimit of them; a matching movement is left out only when the list is full of newer ones. */
  method MovementHistory(db: Db, f: HistoryFilter, day: MovementId -> int) returns (ids: seq<MovementId>)
    ensures |ids| <= HistoryLimit
    ensures forall j :: 0 <= j < |ids| ==> Hit(db.movements, f, day, ids[j])
    ensures forall j, k :: 0 <= j < k < |ids| ==> ids[j] > ids[k]
    ensures forall id :: Hit(db.movements, f, day, id) && id !in ids ==>
              |ids| == HistoryLimit && id < ids[|ids| - 1]
  {
    ids := [];
    var n := |db.movements|;
    while n > 0 && |ids| < HistoryLimit
      invariant 0 <= n <= |db.movements|
      invariant |ids| <= HistoryLimit
      invariant forall j :: 0 <= j < |ids| ==> n <= ids[j] && Hit(db.movements, f, day, ids[j])
      invariant forall j, k :: 0 <= j < k < |ids| ==> ids[j] > ids[k]
      invariant forall id :: n <= id && Hit(db.movements, f, day, id) ==> id in ids
    {
      n := n - 1;
      if Hit(db.movements, f, day, n) {
        ids := ids + [n];
      }
    }
    forall id | Hit(db.movements, f, day, id) && id !in ids
      ensures |ids| == HistoryLimit && id < ids[|ids| - 1]
    {
      assert ids[|ids| - 1] >= n;
    }
  }
}
