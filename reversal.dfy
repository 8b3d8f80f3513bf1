/**
 * The compensating transaction of app/routes/transfer.py (create_reversal): a logged movement is
 * never altered or removed; it is undone by new movements. A transfer leg is undone by a
 * transfer the other way, any other movement by a REVERSAL of the opposite change.
 */
module Reversal {
  import opened Wrappers
  import opened Models
  import opened Store
  import opened Transfer

  predicate IsTransferLeg(m: Movement)
  {
    m.kind.TransferOut? || m.kind.TransferIn?
  }

  /** The log holds a REVERSAL that refers to movement id: the route's already-reversed guard. */
  predicate HasReversal(log: seq<Movement>, id: MovementId)
  {
    exists i :: 0 <= i < |log| && log[i].kind.Reversal? && log[i].reference == Some(id)
  }

  function Abs(x: int): (a: int)
    ensures a >= 0 && (a == x || a == -x)
  {
    if x < 0 then -x else x
  }

  /** The note written on every compensating movement. */
  function ReversalNote(id: MovementId): string
  {
    "Visszavonás: #" + DecimalString(id)
  }

  /** The note names the movement it compensates: different movements get different notes. */
  lemma ReversalNoteInjective(a: MovementId, b: MovementId)
    requires ReversalNote(a) == ReversalNote(b)
    ensures a == b
  {
    var prefix := "Visszavonás: #";
    assert DecimalString(a) == ReversalNote(a)[|prefix|..];
    assert DecimalString(b) == ReversalNote(b)[|prefix|..];
    DecimalStringInjective(a, b);
  }

  /** Why the swapped transfer of a reversal is refused. The ends come from nullable columns;
      a NULL end reads as no row (quantity 0), and writing a row at a NULL location fails. */
  function SwapRefusal(stock: map<StockKey, int>, p: ProductId, source: Option<LocationId>,
                       target: Option<LocationId>, q: int): (refusal: Option<Error>)
    ensures source.Some? && target.Some? ==>
      refusal == TransferRefusal(stock, p, source.value, target.value, q)
    ensures refusal.None? <==> (source.Some? && target.Some? &&
      TransferRefusal(stock, p, source.value, target.value, q).None?)
  {
    if q <= 0 then Some(InvalidQuantity)
    else if source == target then Some(SameLocation)
    else if source.None? then Some(InsufficientStock)
    else if Get(stock, StockKey(p, source.value)) < q then Some(InsufficientStock)
    else if target.None? then Some(MissingLocation)
    else None
  }

  /** Why applying -change at a movement's own location is refused; without a location the row
      read is empty (0) and the row written cannot be stored. */
  function UndoRefusal(stock: map<StockKey, int>, p: ProductId, location: Option<LocationId>,
                       change: int): (refusal: Option<Error>)
    ensures refusal.None? <==> (location.Some? && Get(stock, StockKey(p, location.value)) - change >= 0)
  {
    match location
    case None => if -change < 0 then Some(InsufficientStock) else Some(MissingLocation)
    case Some(l) => if Get(stock, StockKey(p, l)) - change < 0 then Some(InsufficientStock) else None
  }

  /** Why movement id cannot be compensated once the already-reversed guard has passed. */
  function CompensationRefusal(stock: map<StockKey, int>, m: Movement): (refusal: Option<Error>)
  {
    if IsTransferLeg(m) then SwapRefusal(stock, m.product, m.target, m.source, Abs(m.change))
    else UndoRefusal(stock, m.product, m.location, m.change)
  }

  /** What a successful reversal appended. */
  datatype ReversalOutcome =
    | ReversedTransfer(outId: MovementId, inId: MovementId)
    | ReversedMovement(reversalId: MovementId)

  /** (stock1, log1) is (stock0, log0) after compensating movement id with `outcome`: a transfer
      leg by the swapped transfer of |change| (its OUT record referring to `outReference`),
      another movement by a REVERSAL of -change at its location that refers to id. */
  predicate Compensates(stock0: map<StockKey, int>, log0: seq<Movement>, id: MovementId,
                        outReference: Option<MovementId>, stock1: map<StockKey, int>,
                        log1: seq<Movement>, outcome: ReversalOutcome)
  {
    id < |log0| &&
    var m := log0[id];
    if IsTransferLeg(m) then
      && m.source.Some? && m.target.Some?
      && outcome == ReversedTransfer(|log0|, |log0| + 1)
      && stock1 == Transferred(stock0, m.product, m.target.value, m.source.value, Abs(m.change))
      && log1 == log0 + TransferLegs(stock0, m.product, m.target.value, m.source.value,
                                     Abs(m.change), |log0|, Some(ReversalNote(id)), outReference)
    else
      && m.location.Some?
      && var before := Get(stock0, StockKey(m.product, m.location.value));
      && outcome == ReversedMovement(|log0|)
      && stock1 == Applied(stock0, StockKey(m.product, m.location.value), -m.change)
      && log1 == log0 + [Movement(m.product, Reversal, -m.change, before, before - m.change,
                                  m.location, None, None, Some(id), Some(ReversalNote(id)))]
  }

  /** The compensation proper, after the guard: the swapped transfer or the REVERSAL record. */
  method Compensate(db: Db, id: MovementId, outReference: Option<MovementId>)
    returns (r: Result<ReversalOutcome>)
    requires db.Ledger()
    requires id < |db.movements|
    requires outReference.Some? ==> outReference.value < |db.movements|
    modifies db`locationStock, db`movements
    ensures db.Ledger()
    ensures old(db.Valid()) ==> db.Valid()
    ensures r.Err? <==> CompensationRefusal(old(db.locationStock), old(db.movements)[id]).Some?
    ensures r.Err? ==> r.error == CompensationRefusal(old(db.locationStock), old(db.movements)[id]).value
    ensures r.Err? ==> db.locationStock == old(db.locationStock) && db.movements == old(db.movements)
    ensures r.Ok? ==> Compensates(old(db.locationStock), old(db.movements), id, outReference,
                                  db.locationStock, db.movements, r.value)
  {
    var original := db.movements[id];
    ghost var stock0, log0 := db.locationStock, db.movements;
    if IsTransferLeg(original) {
      var q := Abs(original.change);
      var refusal := SwapRefusal(db.locationStock, original.product, original.target, original.source, q);
      if refusal.Some? {
        return Err(refusal.value);
      }
      var t := ExecuteLinkedTransfer(db, original.product, original.target.value, original.source.value,
                                     q, Some(ReversalNote(id)), outReference);
      return Ok(ReversedTransfer(t.value.0, t.value.1));
    } else {
      var refusal := UndoRefusal(db.locationStock, original.product, original.location, original.change);
      if refusal.Some? {
        return Err(refusal.value);
      }
      var l := original.location.value;
      var u := UpdateLocationStock(db, original.product, l, -original.change);
      var reversal := Movement(original.product, Reversal, -original.change, u.value.0, u.value.1,
                               Some(l), None, None, Some(id), Some(ReversalNote(id)));
      var reversalId := RecordMovement(db, reversal);
      assert WellFormed(log0[id], id, |db.products|);
      LocatedStepKeepsLedger(stock0, log0, |db.products|, reversal);
      return Ok(ReversedMovement(reversalId));
    }
  }

  // ---------------------------------------------------------------- the route as written

  /** Why create_reversal refuses to compensate movement id, checked in its order. */
  function ReversalRefusal(stock: map<StockKey, int>, log: seq<Movement>, id: MovementId)
    : (refusal: Option<Error>)
    ensures id >= |log| ==> refusal == Some(NotFound)
    ensures id < |log| && HasReversal(log, id) ==> refusal == Some(AlreadyReversed)
    ensures id < |log| && !HasReversal(log, id) ==> refusal == CompensationRefusal(stock, log[id])
  {
    if id >= |log| then Some(NotFound)
    else if HasReversal(log, id) then Some(AlreadyReversed)
    else CompensationRefusal(stock, log[id])
  }

  /** The compensating transaction as the route runs it. The guard looks for a REVERSAL record,
      which only the non-transfer branch writes: a reversed transfer leg can be reversed again. */
  method CreateReversal(db: Db, id: MovementId) returns (r: Result<ReversalOutcome>)
    requires db.Ledger()
    modifies db`locationStock, db`movements
    ensures db.Ledger()
    ensures old(db.Valid()) ==> db.Valid()
    ensures r.Err? <==> ReversalRefusal(old(db.locationStock), old(db.movements), id).Some?
    ensures r.Err? ==> r.error == ReversalRefusal(old(db.locationStock), old(db.movements), id).value
    ensures r.Err? ==> db.locationStock == old(db.locationStock) && db.movements == old(db.movements)
    ensures r.Ok? ==> Compensates(old(db.locationStock), old(db.movements), id, None,
                                  db.locationStock, db.movements, r.value)
    ensures r.Ok? ==> (HasReversal(db.movements, id) <==> !IsTransferLeg(old(db.movements)[id]))
  {
    if id >= |db.movements| {
      return Err(NotFound);
    }
    if HasReversal(db.movements, id) {
      return Err(AlreadyReversed);
    }
    ghost var log0 := db.movements;
    r := Compensate(db, id, None);
    if r.Ok? {
      ReversalGuardAfter(log0, db.movements[|log0|..], id);
      assert log0 + db.movements[|log0|..] == db.movements;
    }
  }

  /** After appending a compensation for id, the REVERSAL guard fires exactly when the appended
      records hold a REVERSAL referring to id. */
  lemma ReversalGuardAfter(log: seq<Movement>, added: seq<Movement>, id: MovementId)
    ensures HasReversal(log + added, id) <==> HasReversal(log, id) || HasReversal(added, id)
  {
    if HasReversal(log + added, id) {
      var i :| 0 <= i < |log + added| && (log + added)[i].kind.Reversal? && (log + added)[i].reference == Some(id);
      if i < |log| {
        assert log[i] == (log + added)[i];
      } else {
        assert added[i - |log|] == (log + added)[i];
      }
    }
    if HasReversal(log, id) {
      var i :| 0 <= i < |log| && log[i].kind.Reversal? && log[i].reference == Some(id);
      assert (log + added)[i] == log[i];
    }
    if HasReversal(added, id) {
      var i :| 0 <= i < |added| && added[i].kind.Reversal? && added[i].reference == Some(id);
      assert (log + added)[|log| + i] == added[i];
    }
  }

  // ---------------------------------------------------------------- at most one reversal

  /** Some compensation of movement id is logged: a REVERSAL, or the TRANSFER_OUT record of a
      compensating transfer, referring to id. The IN record of every transfer refers to its own
      OUT record and is not counted. */
  predicate HasCompensation(log: seq<Movement>, id: MovementId)
  {
    exists i :: 0 <= i < |log| && (log[i].kind.Reversal? || log[i].kind.TransferOut?)
                && log[i].reference == Some(id)
  }

  /** Records outId and inId are the two legs of one transfer: the TRANSFER_IN record refers to
      its TRANSFER_OUT record. */
  predicate Linked(log: seq<Movement>, outId: MovementId, inId: MovementId)
  {
    && outId < |log| && inId < |log|
    && log[outId].kind.TransferOut? && log[inId].kind.TransferIn?
    && log[inId].reference == Some(outId)
  }

  /** Movement id, or the other leg of the transfer it belongs to, has been compensated: both
      legs undo the same transfer, so compensating either one compensates the pair. */
  predicate PairCompensated(log: seq<Movement>, id: MovementId)
  {
    || HasCompensation(log, id)
    || exists j :: 0 <= j < |log| && (Linked(log, id, j) || Linked(log, j, id)) && HasCompensation(log, j)
  }

  function CompensatedOnceRefusal(stock: map<StockKey, int>, log: seq<Movement>, id: MovementId)
    : (refusal: Option<Error>)
    ensures id >= |log| ==> refusal == Some(NotFound)
    ensures id < |log| && PairCompensated(log, id) ==> refusal == Some(AlreadyReversed)
    ensures id < |log| && !PairCompensated(log, id) ==> refusal == CompensationRefusal(stock, log[id])
  {
    if id >= |log| then Some(NotFound)
    else if PairCompensated(log, id) then Some(AlreadyReversed)
    else CompensationRefusal(stock, log[id])
  }

  /** The compensating transaction with a guard that covers transfers too: the compensating
      transfer's OUT record refers to the movement it undoes, so every successful reversal leaves
      a record the guard finds, and the guard looks at both legs of a transfer. After a success
      the movement and, for a transfer leg, the other leg are refused from then on. */
  method CreateReversalOnce(db: Db, id: MovementId) returns (r: Result<ReversalOutcome>)
    requires db.Ledger()
    modifies db`locationStock, db`movements
    ensures db.Ledger()
    ensures old(db.Valid()) ==> db.Valid()
    ensures r.Err? <==> CompensatedOnceRefusal(old(db.locationStock), old(db.movements), id).Some?
    ensures r.Err? ==> r.error == CompensatedOnceRefusal(old(db.locationStock), old(db.movements), id).value
    ensures r.Err? ==> db.locationStock == old(db.locationStock) && db.movements == old(db.movements)
    ensures r.Ok? ==> Compensates(old(db.locationStock), old(db.movements), id, Some(id),
                                  db.locationStock, db.movements, r.value)
    ensures r.Ok? ==> HasCompensation(db.movements, id)
    ensures r.Ok? ==> forall j :: Linked(old(db.movements), id, j) || Linked(old(db.movements), j, id)
                                  ==> PairCompensated(db.movements, j)
  {
    if id >= |db.movements| {
      return Err(NotFound);
    }
    if PairCompensated(db.movements, id) {
      return Err(AlreadyReversed);
    }
    ghost var log0 := db.movements;
    r := Compensate(db, id, Some(id));
    if r.Ok? {
      var log1 := db.movements;
      assert log1[|log0|].reference == Some(id);
      assert HasCompensation(log1, id);
      forall j: MovementId | Linked(log0, id, j) || Linked(log0, j, id)
        ensures PairCompensated(log1, j)
      {
        assert log1[id] == log0[id] && log1[j] == log0[j];
        assert Linked(log1, id, j) || Linked(log1, j, id);
      }
    }
  }

  /** A later compensation never undoes an earlier movement's guard: once a movement or its
      transfer partner is compensated, it stays so however the log grows. */
  lemma CompensationPersists(log: seq<Movement>, added: seq<Movement>, id: MovementId)
    requires PairCompensated(log, id)
    ensures PairCompensated(log + added, id)
  {
    var grown := log + added;
    if HasCompensation(log, id) {
      var i :| 0 <= i < |log| && (log[i].kind.Reversal? || log[i].kind.TransferOut?) && log[i].reference == Some(id);
      assert grown[i] == log[i];
    } else {
      var j :| 0 <= j < |log| && (Linked(log, id, j) || Linked(log, j, id)) && HasCompensation(log, j);
      var i :| 0 <= i < |log| && (log[i].kind.Reversal? || log[i].kind.TransferOut?) && log[i].reference == Some(j);
      assert grown[i] == log[i] && grown[j] == log[j] && grown[id] == log[id];
      assert HasCompensation(grown, j);
    }
  }

  // ---------------------------------------------------------------- round trips

  /** No record of a valid log refers to the next id. */
  lemma NothingRefersAhead(log: seq<Movement>, productCount: nat)
    requires LogWellFormed(log, productCount)
    ensures !HasReversal(log, |log|) && !HasCompensation(log, |log|)
  {
  }

  /** A transfer followed by the reversal of its TRANSFER_OUT record: both succeed, every
      (product, location) quantity is back where it started, four records were appended, and
      the earlier log is untouched. */
  method TransferAndReverse(db: Db, p: ProductId, source: LocationId, target: LocationId, q: int,
                            note: Option<string>)
    returns (transfer: Result<(MovementId, MovementId)>, reversal: Result<ReversalOutcome>)
    requires db.Ledger()
    requires TransferRefusal(db.locationStock, p, source, target, q).None?
    modifies db`locationStock, db`movements
    ensures db.Ledger()
    ensures old(db.Valid()) ==> db.Valid()
    ensures transfer.Ok? && reversal.Ok? && reversal.value.ReversedTransfer?
    ensures forall k :: Get(db.locationStock, k) == Get(old(db.locationStock), k)
    ensures |db.movements| == |old(db.movements)| + 4
    ensures db.movements[..|old(db.movements)|] == old(db.movements)
  {
    ghost var stock0, log0 := db.locationStock, db.movements;
    NothingRefersAhead(log0, |db.products|);
    transfer := ExecuteTransfer(db, p, source, target, q, note);
    var outId := transfer.value.0;
    ghost var log1 := db.movements;
    TransferMoves(stock0, p, source, target, q);
    ReversalGuardAfter(log0, log1[|log0|..], outId);
    assert log0 + log1[|log0|..] == log1;
    assert !HasReversal(log1[|log0|..], outId) by {
      assert log1[|log0|..] == [log1[|log0|], log1[|log0| + 1]];
    }
    reversal := CreateReversal(db, outId);
    TransferBackRestores(stock0, p, source, target, q);
  }

  /** The route lets a transfer leg be reversed twice: when the target held q before the
      transfer, reversing the same TRANSFER_OUT record twice succeeds both times, and the source
      ends q above where it started. */
  method ReverseTransferTwice(db: Db, p: ProductId, source: LocationId, target: LocationId, q: int)
    returns (first: Result<ReversalOutcome>, second: Result<ReversalOutcome>)
    requires db.Ledger()
    requires TransferRefusal(db.locationStock, p, source, target, q).None?
    requires Get(db.locationStock, StockKey(p, target)) >= q
    modifies db`locationStock, db`movements
    ensures first.Ok? && second.Ok?
    ensures Get(db.locationStock, StockKey(p, source)) == Get(old(db.locationStock), StockKey(p, source)) + q
    ensures Get(db.locationStock, StockKey(p, target)) == Get(old(db.locationStock), StockKey(p, target)) - q
  {
    ghost var stock0, log0 := db.locationStock, db.movements;
    NothingRefersAhead(log0, |db.products|);
    var transfer := ExecuteTransfer(db, p, source, target, q, None);
    var outId := transfer.value.0;
    TransferMoves(stock0, p, source, target, q);
    ghost var log1 := db.movements;
    ReversalGuardAfter(log0, log1[|log0|..], outId);
    assert log0 + log1[|log0|..] == log1;
    assert log1[|log0|..] == [log1[|log0|], log1[|log0| + 1]];
    first := CreateReversal(db, outId);
    TransferBackRestores(stock0, p, source, target, q);
    ghost var stock2, log2 := db.locationStock, db.movements;
    ReversalGuardAfter(log1, log2[|log1|..], outId);
    assert log1 + log2[|log1|..] == log2;
    assert log2[|log1|..] == [log2[|log1|], log2[|log1| + 1]];
    second := CreateReversal(db, outId);
    TransferMoves(stock2, p, target, source, q);
  }

  /** With the covering guard, the same TRANSFER_OUT record cannot be reversed twice: the second
      attempt is refused and changes nothing. */
  method ReverseTransferOnce(db: Db, p: ProductId, source: LocationId, target: LocationId, q: int)
    returns (first: Result<ReversalOutcome>, second: Result<ReversalOutcome>)
    requires db.Ledger()
    requires TransferRefusal(db.locationStock, p, source, target, q).None?
    modifies db`locationStock, db`movements
    ensures db.Ledger()
    ensures old(db.Valid()) ==> db.Valid()
    ensures first.Ok? && second == Err(AlreadyReversed)
    ensures forall k :: Get(db.locationStock, k) == Get(old(db.locationStock), k)
  {
    ghost var stock0, log0 := db.locationStock, db.movements;
    NothingRefersAhead(log0, |db.products|);
    var transfer := ExecuteTransfer(db, p, source, target, q, None);
    var outId := transfer.value.0;
    ghost var log1 := db.movements;
    TransferMoves(stock0, p, source, target, q);
    FreshPairUncompensated(log0, |db.products|, TransferLegs(stock0, p, source, target, q, outId, None, None));
    first := CreateReversalOnce(db, outId);
    assert db.locationStock == Transferred(Transferred(stock0, p, source, target, q), p, target, source, q);
    TransferBackRestores(stock0, p, source, target, q);
    second := CreateReversalOnce(db, outId);
  }

  /** The two legs a transfer appends to a valid log are linked to each other, and neither of them
      nor its partner is compensated yet. */
  lemma FreshPairUncompensated(log: seq<Movement>, productCount: nat, legs: seq<Movement>)
    requires LogWellFormed(log, productCount)
    requires |legs| == 2 && legs[0].kind.TransferOut? && legs[0].reference.None?
    requires legs[1].kind.TransferIn? && legs[1].reference == Some(|log|)
    ensures Linked(log + legs, |log|, |log| + 1)
    ensures !PairCompensated(log + legs, |log|) && !PairCompensated(log + legs, |log| + 1)
  {
    var grown := log + legs;
    forall i, id | 0 <= i < |grown| && id >= |log| && (grown[i].kind.Reversal? || grown[i].kind.TransferOut?)
      ensures grown[i].reference != Some(id)
    {
      if i < |log| {
        assert grown[i] == log[i] && WellFormed(log[i], i, productCount);
      }
    }
    assert !HasCompensation(grown, |log|) && !HasCompensation(grown, |log| + 1);
  }

  /** With the covering guard a transfer is compensated once, whichever leg is named: after one
      leg is reversed (the OUT leg first when outFirst holds, the IN leg otherwise), reversing the
      other leg is refused and changes nothing, and every quantity is back where it started. */
  method ReverseBothLegsOnce(db: Db, p: ProductId, source: LocationId, target: LocationId, q: int,
                             outFirst: bool)
    returns (first: Result<ReversalOutcome>, second: Result<ReversalOutcome>)
    requires db.Ledger()
    requires TransferRefusal(db.locationStock, p, source, target, q).None?
    modifies db`locationStock, db`movements
    ensures db.Ledger()
    ensures old(db.Valid()) ==> db.Valid()
    ensures first.Ok? && second == Err(AlreadyReversed)
    ensures forall k :: Get(db.locationStock, k) == Get(old(db.locationStock), k)
  {
    ghost var stock0, log0 := db.locationStock, db.movements;
    NothingRefersAhead(log0, |db.products|);
    var transfer := ExecuteTransfer(db, p, source, target, q, None);
    var outId, inId := transfer.value.0, transfer.value.1;
    TransferMoves(stock0, p, source, target, q);
    FreshPairUncompensated(log0, |db.products|, TransferLegs(stock0, p, source, target, q, outId, None, None));
    ghost var log1 := db.movements;
    var leg, other := if outFirst then outId else inId, if outFirst then inId else outId;
    assert log1[leg].source == Some(source) && log1[leg].target == Some(target) && Abs(log1[leg].change) == q;
    first := CreateReversalOnce(db, leg);
    assert db.locationStock == Transferred(Transferred(stock0, p, source, target, q), p, target, source, q);
    TransferBackRestores(stock0, p, source, target, q);
    second := CreateReversalOnce(db, other);
  }

  /** A car consumption followed by the reversal of its CONSUMPTION record: both succeed, every
      (product, location) quantity is back where it started, and the REVERSAL refers to the
      consumption. The reversal does not touch the product-level row, which keeps the total the
      consumption wrote. */
  method ConsumeAndReverse(db: Db, source: LocationId, p: ProductId, q: int, note: Option<string>)
    returns (consumption: Result<int>, reversal: Result<ReversalOutcome>)
    requires db.Ledger()
    requires ConsumptionRefusal(db.locationStock, Some(source), Some(p), Some(q)).None?
    modifies db`locationStock, db`movements, db`inventory
    ensures db.Ledger()
    ensures old(db.Valid()) ==> db.Valid()
    ensures consumption.Ok? && reversal == Ok(ReversedMovement(|old(db.movements)| + 1))
    ensures forall k :: Get(db.locationStock, k) == Get(old(db.locationStock), k)
    ensures |db.movements| == |old(db.movements)| + 2
    ensures db.movements[..|old(db.movements)|] == old(db.movements)
    ensures db.movements[|old(db.movements)| + 1].kind == Reversal
    ensures db.movements[|old(db.movements)| + 1].reference == Some(|old(db.movements)|)
    ensures db.inventory == old(db.inventory)[p :=
      Sum(Applied(old(db.locationStock), StockKey(p, source), -q), OfProductAt(p, LiveLocations(db.locations)))]
  {
    ghost var stock0, log0 := db.locationStock, db.movements;
    NothingRefersAhead(log0, |db.products|);
    var consumptionId := |db.movements|;
    consumption := CarConsumption(db, Some(source), Some(p), Some(q), note);
    var k := StockKey(p, source);
    ghost var stock1, log1 := db.locationStock, db.movements;
    assert stock1 == Applied(stock0, k, -q);
    assert log1[|log0|].location == Some(source) && log1[|log0|].change == -q && log1[|log0|].kind == Consumption;
    ReversalGuardAfter(log0, log1[|log0|..], |log0|);
    assert log0 + log1[|log0|..] == log1;
    assert log1[|log0|..] == [log1[|log0|]];
    reversal := CreateReversal(db, consumptionId);
    assert db.locationStock == Applied(stock1, k, q);
  }
}
