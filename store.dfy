/**
 * The database the routes share: the per-location ledger (location_inventory), the product-level
 * ledger (inventory), the movement log (inventory_movements), and the product and location
 * tables. Also the invariants every route keeps, and the sums the routes read with SQL SUM.
 */
module Store {
  import opened Wrappers
  import opened Models

  type ProductId = nat
  type LocationId = nat
  /** A movement's id is its position in the log. */
  type MovementId = nat

  /** The key of a location_inventory row: at most one row per (product, location). */
  datatype StockKey = StockKey(product: ProductId, location: LocationId)

  /** One row of inventory_movements. `location` is the place whose quantity changed (absent for
      product-level movements); `source` and `target` are filled in on transfer legs. */
  datatype Movement = Movement(
    product: ProductId,
    kind: MovementType,
    change: int,
    before: int,
    after: int,
    location: Option<LocationId>,
    source: Option<LocationId>,
    target: Option<LocationId>,
    reference: Option<MovementId>,
    note: Option<string>)

  datatype Product = Product(
    name: string,
    category: Option<nat>,
    unit: Option<nat>,
    barcode: Option<string>,
    description: Option<string>,
    packageSize: Option<string>,
    minStockLevel: int,
    deleted: bool)

  datatype Location = Location(
    name: string,
    kind: LocationType,
    description: Option<string>,
    address: Option<string>,
    active: bool,
    deleted: bool)

  /** Why a route refused to write. */
  datatype Error =
    | MissingField         // a required form field is empty or zero
    | InvalidQuantity      // a quantity that must be positive (or non-negative) is not
    | SameLocation         // a transfer whose source and target coincide
    | InsufficientStock    // the change would make a quantity negative
    | NotFound             // the row named by the request does not exist
    | AlreadyReversed      // a REVERSAL of this movement is already logged
    | NameRequired         // an empty product name
    | DuplicateBarcode     // a live product already carries the barcode
    | BarcodeConstraint    // the UNIQUE constraint on products.barcode rejected the write
    | InvalidLocationType  // a location type outside WAREHOUSE, CAR, VENDING
    | LocationHasStock     // deleting a location that still holds stock
    | UnknownProduct       // the foreign key on product_id rejected the write
    | MissingLocation      // a location_inventory row without a location

  datatype Result<T> = Ok(value: T) | Err(error: Error)

  /** Table ids start at 1, as SQLite's autoincrement does; row `id` is element `id - 1`. */
  predicate IsRow<T>(table: seq<T>, id: nat)
  {
    1 <= id <= |table|
  }

  /** The number a string of decimal digits spells, most significant digit first. */
  function DigitsValue(s: string): nat
  {
    if s == [] then 0
    else DigitsValue(s[..|s| - 1]) * 10
         + (if '0' <= s[|s| - 1] <= '9' then (s[|s| - 1] - '0') as nat else 0)
  }

  /** The decimal digits of n, as the source's f-strings print ids: digits only, no leading zero,
      and they spell n. */
  function DecimalString(n: nat): (s: string)
    ensures |s| >= 1
    ensures forall i :: 0 <= i < |s| ==> '0' <= s[i] <= '9'
    ensures |s| > 1 ==> s[0] != '0'
    ensures DigitsValue(s) == n
    decreases n
  {
    var digit := ['0' + (n % 10) as char];
    if n < 10 then digit
    else
      var prefix := DecimalString(n / 10);
      assert (prefix + digit)[..|prefix + digit| - 1] == prefix;
      prefix + digit
  }

  /** Different ids are printed differently. */
  lemma DecimalStringInjective(a: nat, b: nat)
    requires DecimalString(a) == DecimalString(b)
    ensures a == b
  {
  }

  /** Python truthiness of an integer form field: missing, unparsable or zero count as not given. */
  predicate Given(field: Option<int>)
  {
    field.Some? && field.value != 0
  }

  // ---------------------------------------------------------------- the per-location ledger

  /** The quantity a ledger reads for a key: the row's value, or 0 when there is no row. */
  function Get(stock: map<StockKey, int>, k: StockKey): int
  {
    if k in stock then stock[k] else 0
  }

  /** The ledger after adding `delta` to key k, inserting the row when it is missing. */
  function Applied(stock: map<StockKey, int>, k: StockKey, delta: int): (r: map<StockKey, int>)
    ensures r.Keys == stock.Keys + {k}
    ensures Get(r, k) == Get(stock, k) + delta
    ensures forall j :: j != k ==> Get(r, j) == Get(stock, j)
  {
    stock[k := Get(stock, k) + delta]
  }

  ghost predicate NonNegative(stock: map<StockKey, int>)
  {
    forall k :: k in stock ==> stock[k] >= 0
  }

  /** Which rows a SQL SUM over location_inventory takes. */
  datatype RowFilter =
    | OfProduct(product: ProductId)                             // WHERE product_id = ?
    | AtLocation(location: LocationId)                          // WHERE location_id = ?
    | OfProductAt(product: ProductId, within: set<LocationId>)  // product_id = ? joined to some locations

  predicate Keeps(f: RowFilter, k: StockKey)
  {
    match f
    case OfProduct(p) => k.product == p
    case AtLocation(l) => k.location == l
    case OfProductAt(p, ls) => k.product == p && k.location in ls
  }

  /** What row k adds to a sum under filter f. */
  function Share(stock: map<StockKey, int>, f: RowFilter, k: StockKey): int
    requires k in stock
  {
    if Keeps(f, k) then stock[k] else 0
  }

  /** The sum of the quantities of the rows f keeps. */
  ghost function Sum(stock: map<StockKey, int>, f: RowFilter): int
    decreases |stock|
  {
    if stock == map[] then 0
    else
      var k :| k in stock;
      Share(stock, f, k) + Sum(stock - {k}, f)
  }

  /** A sum can be split at any row, not only at the one its definition happens to pick. */
  lemma {:induction false} SumRemove(stock: map<StockKey, int>, f: RowFilter, k: StockKey)
    requires k in stock
    ensures Sum(stock, f) == Share(stock, f, k) + Sum(stock - {k}, f)
    decreases |stock|
  {
    var j :| j in stock && Sum(stock, f) == Share(stock, f, j) + Sum(stock - {j}, f);
    if j != k {
      SumRemove(stock - {j}, f, k);
      SumRemove(stock - {k}, f, j);
      assert stock - {j} - {k} == stock - {k} - {j};
      assert Share(stock - {j}, f, k) == Share(stock, f, k);
      assert Share(stock - {k}, f, j) == Share(stock, f, j);
    }
  }

  /** Adding delta to one row moves every sum that keeps the row by delta, and no other sum. */
  lemma SumApplied(stock: map<StockKey, int>, f: RowFilter, k: StockKey, delta: int)
    ensures Sum(Applied(stock, k, delta), f) == Sum(stock, f) + (if Keeps(f, k) then delta else 0)
  {
    var updated := Applied(stock, k, delta);
    SumRemove(updated, f, k);
    assert updated - {k} == stock - {k};
    if k in stock {
      SumRemove(stock, f, k);
    } else {
      assert stock - {k} == stock;
    }
  }

  /** A sum of non-negative rows is non-negative. */
  lemma {:induction false} SumNonNegative(stock: map<StockKey, int>, f: RowFilter)
    requires NonNegative(stock)
    ensures Sum(stock, f) >= 0
    decreases |stock|
  {
    if stock != map[] {
      var k :| k in stock;
      SumRemove(stock, f, k);
      SumNonNegative(stock - {k}, f);
    }
  }

  /** Over non-negative rows, a sum is positive exactly when some kept row is. */
  lemma {:induction false} SumPositive(stock: map<StockKey, int>, f: RowFilter)
    requires NonNegative(stock)
    ensures Sum(stock, f) > 0 <==> exists k :: k in stock && Keeps(f, k) && stock[k] > 0
    decreases |stock|
  {
    if stock != map[] {
      var k :| k in stock;
      SumRemove(stock, f, k);
      SumNonNegative(stock - {k}, f);
      SumPositive(stock - {k}, f);
      if exists j :: j in stock && Keeps(f, j) && stock[j] > 0 {
        var j :| j in stock && Keeps(f, j) && stock[j] > 0;
        if j != k {
          assert j in stock - {k};
        }
      }
    }
  }

  // ---------------------------------------------------------------- the movement log

  /** What movement m contributes to the ledger row k. */
  function Contribution(m: Movement, k: StockKey): int
  {
    if m.product == k.product && m.location == Some(k.location) then m.change else 0
  }

  /** The quantity of row k obtained by replaying the log from an empty ledger. */
  ghost function LogSum(log: seq<Movement>, k: StockKey): int
  {
    if log == [] then 0 else LogSum(log[..|log| - 1], k) + Contribution(log[|log| - 1], k)
  }

  lemma LogSumAppend(log: seq<Movement>, m: Movement, k: StockKey)
    ensures LogSum(log + [m], k) == LogSum(log, k) + Contribution(m, k)
  {
    assert (log + [m])[..|log|] == log;
  }

  /** The ledger is what replaying the log gives. */
  ghost predicate Replays(stock: map<StockKey, int>, log: seq<Movement>)
  {
    forall k :: Get(stock, k) == LogSum(log, k)
  }

  /** Logging a movement at a location and applying its change there keeps the ledger replayable. */
  lemma ReplayStep(stock: map<StockKey, int>, log: seq<Movement>, m: Movement)
    requires Replays(stock, log)
    requires m.location.Some?
    ensures Replays(Applied(stock, StockKey(m.product, m.location.value), m.change), log + [m])
  {
    var k := StockKey(m.product, m.location.value);
    forall j
      ensures Get(Applied(stock, k, m.change), j) == LogSum(log + [m], j)
    {
      LogSumAppend(log, m, j);
    }
  }

  /** Logging a product-level movement (no location) leaves the per-location replay intact. */
  lemma ReplayUnlocated(stock: map<StockKey, int>, log: seq<Movement>, m: Movement)
    requires Replays(stock, log)
    requires m.location.None?
    ensures Replays(stock, log + [m])
  {
    forall j
      ensures Get(stock, j) == LogSum(log + [m], j)
    {
      LogSumAppend(log, m, j);
    }
  }

  /** Movement types whose direction no writer ever varies. */
  predicate SignAgrees(m: Movement)
  {
    && (m.kind.StockOut? || m.kind.Loss? ==> m.change < 0)
    && (m.kind.StockIn? || m.kind.Initial? || m.kind.Return? ==> m.change > 0)
  }

  /** Movement `id` of a log over `productCount` products: balanced, of a known product, and
      referring only to an earlier movement. Every writer of the log keeps this. */
  predicate WellFormed(m: Movement, id: MovementId, productCount: nat)
  {
    && m.after == m.before + m.change
    && 1 <= m.product <= productCount
    && (m.reference.Some? ==> m.reference.value < id)
  }

  ghost predicate LogWellFormed(log: seq<Movement>, productCount: nat)
  {
    forall i :: 0 <= i < |log| ==> WellFormed(log[i], i, productCount)
  }

  /** Every movement of the log points the way its type says. */
  ghost predicate LogSigned(log: seq<Movement>)
  {
    forall i :: 0 <= i < |log| ==> SignAgrees(log[i])
  }

  lemma SignedAppend(log: seq<Movement>, m: Movement)
    requires LogSigned(log) && SignAgrees(m)
    ensures LogSigned(log + [m])
  {
    assert forall i :: 0 <= i < |log| ==> (log + [m])[i] == log[i];
  }

  /** A row with a non-zero replayed quantity belongs to a product of the products table: the
      foreign key on the log's product_id reaches the per-location ledger through the replay. */
  lemma {:induction false} StockedProductExists(log: seq<Movement>, productCount: nat, k: StockKey)
    requires LogWellFormed(log, productCount)
    requires LogSum(log, k) != 0
    ensures 1 <= k.product <= productCount
  {
    if log != [] {
      var prefix := log[..|log| - 1];
      assert LogWellFormed(prefix, productCount) by {
        forall i | 0 <= i < |prefix|
          ensures WellFormed(prefix[i], i, productCount)
        {
          assert prefix[i] == log[i];
        }
      }
      if LogSum(prefix, k) != 0 {
        StockedProductExists(prefix, productCount, k);
      } else {
        assert WellFormed(log[|log| - 1], |log| - 1, productCount);
      }
    }
  }

  lemma LogAppend(log: seq<Movement>, productCount: nat, m: Movement)
    requires LogWellFormed(log, productCount)
    requires WellFormed(m, |log|, productCount)
    ensures LogWellFormed(log + [m], productCount)
  {
  }

  lemma LogGrowsProducts(log: seq<Movement>, productCount: nat, more: nat)
    requires LogWellFormed(log, productCount)
    requires productCount <= more
    ensures LogWellFormed(log, more)
  {
  }

  // ---------------------------------------------------------------- the product tables

  /** inventory holds exactly one row per product, and no row is negative. */
  ghost predicate InventoryRows(inventory: map<ProductId, int>, productCount: nat)
  {
    && (forall id :: id in inventory <==> 1 <= id <= productCount)
    && (forall id :: id in inventory ==> inventory[id] >= 0)
  }

  /** The UNIQUE constraint on products.barcode; absent barcodes are not constrained. */
  ghost predicate BarcodesUnique(products: seq<Product>)
  {
    forall i, j :: 0 <= i < j < |products| && products[i].barcode.Some? ==>
      products[i].barcode != products[j].barcode
  }

  /** The quantity the product-level ledger reads for p: the row's value, or 0 without a row. */
  function Current(inventory: map<ProductId, int>, p: ProductId): int
  {
    if p in inventory then inventory[p] else 0
  }

  /** The connection the routes share. */
  class Db {
    var locationStock: map<StockKey, int>
    var inventory: map<ProductId, int>
    var movements: seq<Movement>
    var products: seq<Product>
    var locations: seq<Location>

    /** The per-location ledger: no negative row, every row equals its replay from the log, and
        every logged movement is well formed. Every route of the program keeps it, the product-level
        forms as written included. */
    ghost predicate Ledger()
      reads this
    {
      && NonNegative(locationStock)
      && Replays(locationStock, movements)
      && LogWellFormed(movements, |products|)
    }

    /** The ledger together with the product-level conditions: one non-negative row per product,
        unique barcodes, and movement signs that agree with their types. The product-level forms
        as written can break the latter two. */
    ghost predicate Valid()
      reads this
    {
      && Ledger()
      && InventoryRows(inventory, |products|)
      && BarcodesUnique(products)
      && LogSigned(movements)
    }

    constructor ()
      ensures Valid()
      ensures locationStock == map[] && inventory == map[] && movements == []
      ensures products == [] && locations == []
    {
      locationStock, inventory, movements := map[], map[], [];
      products, locations := [], [];
    }
  }

  /** SQL SUM(quantity) over the location_inventory rows f keeps, evaluated row by row. */
  method SumStock(db: Db, f: RowFilter) returns (total: int)
    ensures total == Sum(db.locationStock, f)
  {
    var rest := db.locationStock;
    total := 0;
    while rest != map[]
      invariant total + Sum(rest, f) == Sum(db.locationStock, f)
      decreases |rest|
    {
      var k :| k in rest;
      SumRemove(rest, f, k);
      total := total + Share(rest, f, k);
      rest := rest - {k};
    }
  }
}
