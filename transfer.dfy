/**
 * The location ledger routes (app/routes/transfer.py): reading and updating one
 * (product, location) quantity, appending to the movement log, the two-legged transfer, the
 * compensating reversal of a logged movement, and the car-consumption debit.
 */
module Transfer {
  import opened Wrappers
  import opened Models
  import opened Store

  /** The quantity stored for product p at location l, or 0 when the ledger has no such row. */
  function GetLocationStock(db: Db, p: ProductId, l: LocationId): (q: int)
    reads db
    ensures StockKey(p, l) in db.locationStock ==> q == db.locationStock[StockKey(p, l)]
    ensures StockKey(p, l) !in db.locationStock ==> q == 0
    ensures db.Ledger() ==> q >= 0 && q == LogSum(db.movements, StockKey(p, l))
  {
    Get(db.locationStock, StockKey(p, l))
  }

  /** Adds `change` to the quantity of p at l and returns the quantity before and after, or
      refuses without writing when the result would be negative. */
  method UpdateLocationStock(db: Db, p: ProductId, l: LocationId, change: int)
    returns (r: Result<(int, int)>)
    modifies db`locationStock
    ensures r.Ok? <==> Get(old(db.locationStock), StockKey(p, l)) + change >= 0
    ensures r.Err? ==> r.error == InsufficientStock && db.locationStock == old(db.locationStock)
    ensures r.Ok? ==> r.value.0 == Get(old(db.locationStock), StockKey(p, l))
    ensures r.Ok? ==> r.value.1 == r.value.0 + change
    ensures r.Ok? ==> db.locationStock == Applied(old(db.locationStock), StockKey(p, l), change)
    ensures r.Ok? && NonNegative(old(db.locationStock)) ==> NonNegative(db.locationStock)
  {
    var current := GetLocationStock(db, p, l);
    var updated := current + change;
    if updated < 0 {
      return Err(InsufficientStock);
    }
    // an UPDATE of the existing row, or an INSERT when the pair has none: one row per pair
    db.locationStock := db.locationStock[StockKey(p, l) := updated];
    return Ok((current, updated));
  }

  /** Appends a movement to the log; its id is its position. */
  method RecordMovement(db: Db, m: Movement) returns (id: MovementId)
    modifies db`movements
    ensures db.movements == old(db.movements) + [m]
    ensures id == |old(db.movements)| && db.movements[id] == m
  {
    id := |db.movements|;
    db.movements := db.movements + [m];
  }

  // ---------------------------------------------------------------- transfers

  /** Why execute_transfer refuses to move q of p from source to target, checked in its order. */
  function TransferRefusal(stock: map<StockKey, int>, p: ProductId, source: LocationId,
                           target: LocationId, q: int): (refusal: Option<Error>)
    ensures refusal.None? <==> q > 0 && source != target && Get(stock, StockKey(p, source)) >= q
  {
    if q <= 0 then Some(InvalidQuantity)
    else if source == target then Some(SameLocation)
    else if Get(stock, StockKey(p, source)) < q then Some(InsufficientStock)
    else None
  }

  /** The ledger after debiting the source and crediting the target by q. */
  function Transferred(stock: map<StockKey, int>, p: ProductId, source: LocationId,
                       target: LocationId, q: int): map<StockKey, int>
  {
    Applied(Applied(stock, StockKey(p, source), -q), StockKey(p, target), q)
  }

  /** The TRANSFER_OUT and TRANSFER_IN records a transfer appends when the OUT record gets id
      outId; the IN record refers to the OUT record, and the OUT record to `outReference`. */
  function TransferLegs(stock: map<StockKey, int>, p: ProductId, source: LocationId,
                        target: LocationId, q: int, outId: MovementId, note: Option<string>,
                        outReference: Option<MovementId>)
    : (legs: seq<Movement>)
    ensures |legs| == 2
  {
    var sourceBefore := Get(stock, StockKey(p, source));
    var targetBefore := Get(stock, StockKey(p, target));
    [ Movement(p, TransferOut, -q, sourceBefore, sourceBefore - q, Some(source),
               Some(source), Some(target), outReference, note),
      Movement(p, TransferIn, q, targetBefore, targetBefore + q, Some(target),
               Some(source), Some(target), Some(outId), note) ]
  }

  /** A transfer lowers the source by q, raises the target by q and touches no other row. */
  lemma TransferMoves(stock: map<StockKey, int>, p: ProductId, source: LocationId,
                      target: LocationId, q: int)
    requires source != target
    ensures Get(Transferred(stock, p, source, target, q), StockKey(p, source))
            == Get(stock, StockKey(p, source)) - q
    ensures Get(Transferred(stock, p, source, target, q), StockKey(p, target))
            == Get(stock, StockKey(p, target)) + q
    ensures forall k :: k != StockKey(p, source) && k != StockKey(p, target) ==>
              Get(Transferred(stock, p, source, target, q), k) == Get(stock, k)
  {
  }

  /** A transfer conserves every total that counts both ends or neither, in particular the
      product's total over all locations (f = OfProduct(p)). */
  lemma TransferConservesTotal(stock: map<StockKey, int>, p: ProductId, source: LocationId,
                               target: LocationId, q: int, f: RowFilter)
    requires Keeps(f, StockKey(p, source)) == Keeps(f, StockKey(p, target))
    ensures Sum(Transferred(stock, p, source, target, q), f) == Sum(stock, f)
  {
    SumApplied(stock, f, StockKey(p, source), -q);
    SumApplied(Applied(stock, StockKey(p, source), -q), f, StockKey(p, target), q);
  }

  /** Transferring q back from target to source undoes a transfer row by row. */
  lemma TransferBackRestores(stock: map<StockKey, int>, p: ProductId, source: LocationId,
                             target: LocationId, q: int)
    requires source != target
    ensures forall k :: Get(Transferred(Transferred(stock, p, source, target, q), p, target, source, q), k)
                        == Get(stock, k)
  {
    var there := Transferred(stock, p, source, target, q);
    TransferMoves(stock, p, source, target, q);
    TransferMoves(there, p, target, source, q);
  }

  /** The atomic transfer: every check runs before the first write; on success the source is
      debited, the target credited, and a linked TRANSFER_OUT/TRANSFER_IN pair is logged. */
  method ExecuteTransfer(db: Db, p: ProductId, source: LocationId, target: LocationId, q: int,
                         note: Option<string>)
    returns (r: Result<(MovementId, MovementId)>)
    requires db.Ledger()
    modifies db`locationStock, db`movements
    ensures db.Ledger()
    ensures old(db.Valid()) ==> db.Valid()
    ensures r.Err? <==> TransferRefusal(old(db.locationStock), p, source, target, q).Some?
    ensures r.Err? ==> r.error == TransferRefusal(old(db.locationStock), p, source, target, q).value
    ensures r.Err? ==> db.locationStock == old(db.locationStock) && db.movements == old(db.movements)
    ensures r.Ok? ==> r.value == (|old(db.movements)|, |old(db.movements)| + 1)
    ensures r.Ok? ==> db.locationStock == Transferred(old(db.locationStock), p, source, target, q)
    ensures r.Ok? ==> (db.movements == old(db.movements)
              + TransferLegs(old(db.locationStock), p, source, target, q, |old(db.movements)|, note, None))
  {
    r := ExecuteLinkedTransfer(db, p, source, target, q, note, None);
  }

  /** The transfer with the OUT record referring to an earlier movement `reference`. */
  method ExecuteLinkedTransfer(db: Db, p: ProductId, source: LocationId, target: LocationId, q: int,
                               note: Option<string>, reference: Option<MovementId>)
    returns (r: Result<(MovementId, MovementId)>)
    requires db.Ledger()
    requires reference.Some? ==> reference.value < |db.movements|
    modifies db`locationStock, db`movements
    ensures db.Ledger()
    ensures old(db.Valid()) ==> db.Valid()
    ensures r.Err? <==> TransferRefusal(old(db.locationStock), p, source, target, q).Some?
    ensures r.Err? ==> r.error == TransferRefusal(old(db.locationStock), p, source, target, q).value
    ensures r.Err? ==> db.locationStock == old(db.locationStock) && db.movements == old(db.movements)
    ensures r.Ok? ==> r.value == (|old(db.movements)|, |old(db.movements)| + 1)
    ensures r.Ok? ==> db.locationStock == Transferred(old(db.locationStock), p, source, target, q)
    ensures r.Ok? ==> (db.movements == old(db.movements)
              + TransferLegs(old(db.locationStock), p, source, target, q, |old(db.movements)|, note, reference))
  {
    if q <= 0 {
      return Err(InvalidQuantity);
    }
    if source == target {
      return Err(SameLocation);
    }
    var sourceStock := GetLocationStock(db, p, source);
    if sourceStock < q {
      return Err(InsufficientStock);
    }
    r := ApplyTransfer(db, p, source, target, q, note, reference);
  }

  /** The writes of a transfer whose checks passed: debit, credit, then the two linked records. */
  method ApplyTransfer(db: Db, p: ProductId, source: LocationId, target: LocationId, q: int,
                       note: Option<string>, reference: Option<MovementId>)
    returns (r: Result<(MovementId, MovementId)>)
    requires db.Ledger()
    requires TransferRefusal(db.locationStock, p, source, target, q).None?
    requires reference.Some? ==> reference.value < |db.movements|
    modifies db`locationStock, db`movements
    ensures db.Ledger()
    ensures old(db.Valid()) ==> db.Valid()
    ensures r == Ok((|old(db.movements)|, |old(db.movements)| + 1))
    ensures db.locationStock == Transferred(old(db.locationStock), p, source, target, q)
    ensures db.movements == old(db.movements)
              + TransferLegs(old(db.locationStock), p, source, target, q, |old(db.movements)|, note, reference)
  {
    ghost var stock0, log0 := db.locationStock, db.movements;
    // stock at the source means the product exists: the foreign key cannot fire
    StockedProductExists(log0, |db.products|, StockKey(p, source));
    TransferKeepsLedger(stock0, log0, |db.products|, p, source, target, q, note, reference);

    var debit := UpdateLocationStock(db, p, source, -q);
    assert debit.Ok? && Get(db.locationStock, StockKey(p, target)) == Get(stock0, StockKey(p, target));
    var credit := UpdateLocationStock(db, p, target, q);
    assert credit.Ok? && db.locationStock == Transferred(stock0, p, source, target, q);

    var outLeg := Movement(p, TransferOut, -q, debit.value.0, debit.value.1, Some(source),
                           Some(source), Some(target), reference, note);
    var outId := RecordMovement(db, outLeg);
    var inLeg := Movement(p, TransferIn, q, credit.value.0, credit.value.1, Some(target),
                          Some(source), Some(target), Some(outId), note);
    var inId := RecordMovement(db, inLeg);
    assert [outLeg, inLeg] == TransferLegs(stock0, p, source, target, q, |log0|, note, reference);
    assert db.movements == log0 + [outLeg, inLeg];
    return Ok((outId, inId));
  }

  /** A transfer that passes its checks keeps the per-location ledger valid: no row goes
      negative, the rows still replay from the log, and both new records are well formed. */
  lemma TransferKeepsLedger(stock: map<StockKey, int>, log: seq<Movement>, productCount: nat,
                            p: ProductId, source: LocationId, target: LocationId, q: int,
                            note: Option<string>, reference: Option<MovementId>)
    requires NonNegative(stock) && Replays(stock, log) && LogWellFormed(log, productCount)
    requires TransferRefusal(stock, p, source, target, q).None?
    requires 1 <= p <= productCount
    requires reference.Some? ==> reference.value < |log|
    ensures var moved := Transferred(stock, p, source, target, q);
            var logged := log + TransferLegs(stock, p, source, target, q, |log|, note, reference);
            NonNegative(moved) && Replays(moved, logged) && LogWellFormed(logged, productCount)
            && (LogSigned(log) ==> LogSigned(logged))
  {
    var legs := TransferLegs(stock, p, source, target, q, |log|, note, reference);
    var debited := Applied(stock, StockKey(p, source), -q);
    assert log + legs == log + [legs[0]] + [legs[1]];
    ReplayStep(stock, log, legs[0]);
    ReplayStep(debited, log + [legs[0]], legs[1]);
    LogAppend(log, productCount, legs[0]);
    LogAppend(log + [legs[0]], productCount, legs[1]);
  }

  /** The refusals of the quick-transfer form, checked in its order before the transfer's own. */
  function QuickTransferRefusal(stock: map<StockKey, int>, product: Option<ProductId>,
                                source: Option<LocationId>, target: Option<LocationId>,
                                quantity: Option<int>): (refusal: Option<Error>)
    ensures refusal.None? <==> (Given(product) && Given(source) && Given(target) && Given(quantity)
      && TransferRefusal(stock, product.value, source.value, target.value, quantity.value).None?)
    ensures refusal == Some(MissingField) <==>
      !(Given(product) && Given(source) && Given(target) && Given(quantity))
  {
    if !(Given(product) && Given(source) && Given(target) && Given(quantity)) then Some(MissingField)
    else if source.value == target.value then Some(SameLocation)
    else if quantity.value <= 0 then Some(InvalidQuantity)
    else TransferRefusal(stock, product.value, source.value, target.value, quantity.value)
  }

  /** The quick-transfer form: all four fields must be given, the ends must differ and the
      quantity must be positive; then it runs the atomic transfer. */
  method ExecuteQuickTransfer(db: Db, product: Option<ProductId>, source: Option<LocationId>,
                              target: Option<LocationId>, quantity: Option<int>,
                              note: Option<string>)
    returns (r: Result<(MovementId, MovementId)>)
    requires db.Ledger()
    modifies db`locationStock, db`movements
    ensures db.Ledger()
    ensures old(db.Valid()) ==> db.Valid()
    ensures r.Err? <==> QuickTransferRefusal(old(db.locationStock), product, source, target, quantity).Some?
    ensures r.Err? ==>
      r.error == QuickTransferRefusal(old(db.locationStock), product, source, target, quantity).value
    ensures r.Err? ==> db.locationStock == old(db.locationStock) && db.movements == old(db.movements)
    ensures r.Ok? ==> (db.locationStock
              == Transferred(old(db.locationStock), product.value, source.value, target.value, quantity.value))
    ensures r.Ok? ==> (db.movements == old(db.movements)
              + TransferLegs(old(db.locationStock), product.value, source.value, target.value,
                             quantity.value, |old(db.movements)|, note, None))
  {
    if !(Given(product) && Given(source) && Given(target) && Given(quantity)) {
      return Err(MissingField);
    }
    if source.value == target.value {
      return Err(SameLocation);
    }
    if quantity.value <= 0 {
      return Err(InvalidQuantity);
    }
    r := ExecuteTransfer(db, product.value, source.value, target.value, quantity.value, note);
  }

  // ---------------------------------------------------------------- car consumption

  /** The locations the product-level total is summed over: rows of the table not soft-deleted. */
  function LiveLocations(locations: seq<Location>): (live: set<LocationId>)
    ensures forall l :: l in live <==> IsRow(locations, l) && !locations[l - 1].deleted
  {
    set i | 0 <= i < |locations| && !locations[i].deleted :: i + 1
  }

  /** Why car_consumption refuses, checked in its order. */
  function ConsumptionRefusal(stock: map<StockKey, int>, source: Option<LocationId>,
                              product: Option<ProductId>, quantity: Option<int>)
    : (refusal: Option<Error>)
    ensures refusal.None? <==> (Given(source) && Given(product) && Given(quantity) &&
      quantity.value > 0 && Get(stock, StockKey(product.value, source.value)) >= quantity.value)
  {
    if !(Given(source) && Given(product) && Given(quantity)) then Some(MissingField)
    else if quantity.value <= 0 then Some(InvalidQuantity)
    else if Get(stock, StockKey(product.value, source.value)) < quantity.value then Some(InsufficientStock)
    else None
  }

  /** A product leaves a car: the car's quantity drops by q, a CONSUMPTION of -q is logged, and
      the product-level row is overwritten with the product's total over live locations. */
  method CarConsumption(db: Db, source: Option<LocationId>, product: Option<ProductId>,
                        quantity: Option<int>, note: Option<string>)
    returns (r: Result<int>)
    requires db.Ledger()
    modifies db`locationStock, db`movements, db`inventory
    ensures db.Ledger()
    ensures old(db.Valid()) ==> db.Valid()
    ensures r.Err? <==> ConsumptionRefusal(old(db.locationStock), source, product, quantity).Some?
    ensures r.Err? ==> r.error == ConsumptionRefusal(old(db.locationStock), source, product, quantity).value
    ensures r.Err? ==> db.locationStock == old(db.locationStock) && db.movements == old(db.movements)
                       && db.inventory == old(db.inventory)
    ensures r.Ok? ==>
      var k := StockKey(product.value, source.value);
      var before := Get(old(db.locationStock), k);
      && r.value == before - quantity.value
      && db.locationStock == Applied(old(db.locationStock), k, -quantity.value)
      && db.movements == old(db.movements)
         + [Movement(product.value, Consumption, -quantity.value, before, before - quantity.value,
                     Some(source.value), None, None, None,
                     Some(if note.Some? && note.value != "" then note.value else "Autó kiadás"))]
      && db.inventory == old(db.inventory)[product.value :=
           Sum(db.locationStock, OfProductAt(product.value, LiveLocations(db.locations)))]
  {
    if !(Given(source) && Given(product) && Given(quantity)) {
      return Err(MissingField);
    }
    var s, p, q := source.value, product.value, quantity.value;
    if q <= 0 {
      return Err(InvalidQuantity);
    }
    if GetLocationStock(db, p, s) < q {
      return Err(InsufficientStock);
    }
    var text := if note.Some? && note.value != "" then note.value else "Autó kiadás";
    var after := ApplyConsumption(db, p, s, q, text);
    SyncProductRow(db, p);
    return Ok(after);
  }

  /** The writes of a consumption whose checks passed: the car's row drops by q and a
      CONSUMPTION record of -q is logged. */
  method ApplyConsumption(db: Db, p: ProductId, s: LocationId, q: int, note: string)
    returns (after: int)
    requires db.Ledger()
    requires q > 0 && Get(db.locationStock, StockKey(p, s)) >= q
    modifies db`locationStock, db`movements
    ensures db.Ledger()
    ensures old(db.Valid()) ==> db.Valid()
    ensures 1 <= p <= |db.products|
    ensures var before := Get(old(db.locationStock), StockKey(p, s));
      && after == before - q
      && db.locationStock == Applied(old(db.locationStock), StockKey(p, s), -q)
      && db.movements == old(db.movements)
         + [Movement(p, Consumption, -q, before, before - q, Some(s), None, None, None, Some(note))]
  {
    ghost var stock0, log0 := db.locationStock, db.movements;
    StockedProductExists(log0, |db.products|, StockKey(p, s));
    var u := UpdateLocationStock(db, p, s, -q);
    var consumption := Movement(p, Consumption, -q, u.value.0, u.value.1, Some(s), None, None, None,
                                Some(note));
    var _ := RecordMovement(db, consumption);
    LocatedStepKeepsLedger(stock0, log0, |db.products|, consumption);
    assert db.locationStock == Applied(stock0, StockKey(p, s), -q) && db.movements == log0 + [consumption];
    return u.value.1;
  }

  /** Overwrites product p's product-level row with p's total over the live locations. */
  method SyncProductRow(db: Db, p: ProductId)
    requires db.Ledger()
    requires 1 <= p <= |db.products|
    modifies db`inventory
    ensures db.Ledger()
    ensures old(db.Valid()) ==> db.Valid()
    ensures db.inventory == old(db.inventory)[p := Sum(db.locationStock, OfProductAt(p, LiveLocations(db.locations)))]
  {
    var total := SumStock(db, OfProductAt(p, LiveLocations(db.locations)));
    SumNonNegative(db.locationStock, OfProductAt(p, LiveLocations(db.locations)));
    // the product-level row exists for every product: an UPDATE
    db.inventory := db.inventory[p := total];
  }

  /** Logging a well-formed located movement and applying it to a row it leaves non-negative
      keeps the per-location ledger valid. */
  lemma LocatedStepKeepsLedger(stock: map<StockKey, int>, log: seq<Movement>, productCount: nat,
                               m: Movement)
    requires NonNegative(stock) && Replays(stock, log) && LogWellFormed(log, productCount)
    requires m.location.Some? && WellFormed(m, |log|, productCount)
    requires Get(stock, StockKey(m.product, m.location.value)) + m.change >= 0
    ensures var moved := Applied(stock, StockKey(m.product, m.location.value), m.change);
            NonNegative(moved) && Replays(moved, log + [m]) && LogWellFormed(log + [m], productCount)
    ensures LogSigned(log) && SignAgrees(m) ==> LogSigned(log + [m])
  {
    ReplayStep(stock, log, m);
    LogAppend(log, productCount, m);
  }

  /** Consuming q of p at a live location lowers p's product-level total by exactly q. */
  lemma ConsumptionLowersTotal(stock: map<StockKey, int>, p: ProductId, s: LocationId, q: int,
                               live: set<LocationId>)
    requires s in live
    ensures Sum(Applied(stock, StockKey(p, s), -q), OfProductAt(p, live))
            == Sum(stock, OfProductAt(p, live)) - q
  {
    SumApplied(stock, OfProductAt(p, live), StockKey(p, s), -q);
  }
}
