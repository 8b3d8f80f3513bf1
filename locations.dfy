/**
 * The location routes (app/routes/locations.py): creating a location of one of the three types,
 * editing its mutable fields, the soft delete guarded by the stock it holds, restore, and the
 * list of selectable locations.
 */
module Locations {
  import opened Wrappers
  import opened Models
  import opened Store
  import opened Ordering

  /** Why the create form is refused: an empty name or type, or a type that is none of the three. */
  function LocationRefusal(name: string, kind: string): (refusal: Option<Error>)
    ensures refusal.None? <==> name != [] && ParseLocationType(kind).Some?
    ensures refusal == Some(InvalidLocationType) ==> kind !in ["WAREHOUSE", "CAR", "VENDING"]
  {
    if name == [] || kind == [] then Some(MissingField)
    else if ParseLocationType(kind).None? then Some(InvalidLocationType)
    else None
  }

  /** Creates a location, active and not deleted, of the type the form names. */
  method CreateLocation(db: Db, name: string, kind: string, description: Option<string>,
                        address: Option<string>)
    returns (r: Result<LocationId>)
    requires db.Ledger()
    modifies db`locations
    ensures db.Ledger()
    ensures old(db.Valid()) ==> db.Valid()
    ensures r.Err? <==> LocationRefusal(name, kind).Some?
    ensures r.Err? ==> r.error == LocationRefusal(name, kind).value && db.locations == old(db.locations)
    ensures r.Ok? ==> (r.value == |old(db.locations)| + 1
      && db.locations == old(db.locations)
         + [Location(name, ParseLocationType(kind).value, description, address, true, false)]
      && LocationTypeName(db.locations[r.value - 1].kind) == kind)
  {
    var refusal := LocationRefusal(name, kind);
    if refusal.Some? {
      return Err(refusal.value);
    }
    db.locations := db.locations
      + [Location(name, ParseLocationType(kind).value, description, address, true, false)];
    return Ok(|db.locations|);
  }

  /** Edits name, description, address and the active flag; the type and the deleted flag stay. */
  method EditLocation(db: Db, id: LocationId, name: string, description: Option<string>,
                      address: Option<string>, active: bool)
    returns (r: Result<LocationId>)
    requires db.Ledger()
    modifies db`locations
    ensures db.Ledger()
    ensures old(db.Valid()) ==> db.Valid()
    ensures r.Err? <==> !IsRow(old(db.locations), id) || name == []
    ensures r.Err? ==> r.error == (if !IsRow(old(db.locations), id) then NotFound else MissingField)
    ensures r.Err? ==> db.locations == old(db.locations)
    ensures r.Ok? ==> (r.value == id
      && |db.locations| == |old(db.locations)|
      && db.locations[id - 1].kind == old(db.locations)[id - 1].kind
      && db.locations[id - 1].deleted == old(db.locations)[id - 1].deleted
      && db.locations == old(db.locations)[id - 1 := old(db.locations)[id - 1].(
           name := name, description := description, address := address, active := active)])
  {
    if !IsRow(db.locations, id) {
      return Err(NotFound);
    }
    if name == [] {
      return Err(MissingField);
    }
    db.locations := db.locations[id - 1 := db.locations[id - 1].(
      name := name, description := description, address := address, active := active)];
    return Ok(id);
  }

  /** Soft-deletes a location unless the rows at it sum to more than 0; refused exactly when
      some product is held there. */
  method DeleteLocation(db: Db, id: LocationId) returns (r: Result<LocationId>)
    requires db.Ledger()
    modifies db`locations
    ensures db.Ledger()
    ensures old(db.Valid()) ==> db.Valid()
    ensures r.Err? <==> !IsRow(old(db.locations), id) || Sum(db.locationStock, AtLocation(id)) > 0
    ensures r.Err? ==> r.error == (if !IsRow(old(db.locations), id) then NotFound else LocationHasStock)
    ensures r.Err? ==> db.locations == old(db.locations)
    ensures r == Err(LocationHasStock) <==> (IsRow(old(db.locations), id) &&
      exists k :: k in db.locationStock && k.location == id && db.locationStock[k] > 0)
    ensures r.Ok? ==> (r.value == id
      && db.locations == old(db.locations)[id - 1 := old(db.locations)[id - 1].(deleted := true)])
  {
    if !IsRow(db.locations, id) {
      return Err(NotFound);
    }
    var total := SumStock(db, AtLocation(id));
    SumPositive(db.locationStock, AtLocation(id));
    if total > 0 {
      return Err(LocationHasStock);
    }
    db.locations := db.locations[id - 1 := db.locations[id - 1].(deleted := true)];
    return Ok(id);
  }

  /** Clears the deleted flag; an id with no row is accepted and changes nothing. */
  method RestoreLocation(db: Db, id: LocationId)
    requires db.Ledger()
    modifies db`locations
    ensures db.Ledger()
    ensures old(db.Valid()) ==> db.Valid()
    ensures IsRow(old(db.locations), id) ==>
      db.locations == old(db.locations)[id - 1 := old(db.locations)[id - 1].(deleted := false)]
    ensures !IsRow(old(db.locations), id) ==> db.locations == old(db.locations)
  {
    if IsRow(db.locations, id) {
      db.locations := db.locations[id - 1 := db.locations[id - 1].(deleted := false)];
    }
  }

  /** A location the selection list offers: live, active and, when a type is asked for, of that type. */
  predicate Selectable(locations: seq<Location>, kind: string, id: nat)
  {
    IsRow(locations, id) && !locations[id - 1].deleted && locations[id - 1].active
      && (kind == [] || LocationTypeName(locations[id - 1].kind) == kind)
  }

  /** The selectable locations among the first n, in id order. */
  function SelectableListing(locations: seq<Location>, kind: string, n: nat): (rows: seq<Entry>)
    requires n <= |locations|
    ensures |rows| <= n
  {
    if n == 0 then []
    else
      var earlier := SelectableListing(locations, kind, n - 1);
      if Selectable(locations, kind, n) then earlier + [Entry(n, locations[n - 1].name)]
      else earlier
  }

  /** Entry e is a row the list offers among the first n locations. */
  predicate SelectableEntry(locations: seq<Location>, kind: string, n: nat, e: Entry)
  {
    e.id <= n && Selectable(locations, kind, e.id) && e.name == locations[e.id - 1].name
  }

  /** The list holds exactly the selectable locations, each once, by id. */
  lemma {:induction false} SelectableListingRows(locations: seq<Location>, kind: string, n: nat)
    requires n <= |locations|
    ensures var rows := SelectableListing(locations, kind, n);
      && (forall e :: e in rows <==> SelectableEntry(locations, kind, n, e))
      && (forall i, j :: 0 <= i < j < |rows| ==> rows[i].id < rows[j].id)
  {
    if n > 0 {
      SelectableListingRows(locations, kind, n - 1);
      var earlier := SelectableListing(locations, kind, n - 1);
      var rows := SelectableListing(locations, kind, n);
      forall e
        ensures e in rows <==> SelectableEntry(locations, kind, n, e)
      {
        assert e in earlier <==> SelectableEntry(locations, kind, n - 1, e);
      }
      if Selectable(locations, kind, n) {
        forall i, j | 0 <= i < j < |rows|
          ensures rows[i].id < rows[j].id
        {
          if j == |rows| - 1 {
            assert rows[i] in earlier;
          }
        }
      }
    }
  }

  /** The location list of the API: the selectable locations, ordered by name. */
  method ListLocations(db: Db, kind: string) returns (list: seq<Entry>)
    ensures SortedByName(list)
    ensures multiset(list) == multiset(SelectableListing(db.locations, kind, |db.locations|))
  {
    var rows := [];
    var id := 1;
    while id <= |db.locations|
      invariant 1 <= id <= |db.locations| + 1
      invariant rows == SelectableListing(db.locations, kind, id - 1)
    {
      if Selectable(db.locations, kind, id) {
        rows := rows + [Entry(id, db.locations[id - 1].name)];
      }
      id := id + 1;
    }
    list := SortByName(rows);
  }
}
