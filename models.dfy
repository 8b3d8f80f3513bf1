/**
 * The shared vocabulary of the ledger (app/models.py): the movement types with their stored
 * names and display labels, the location types, and the single login user.
 */
module Models {
  import opened Wrappers

  /** Every kind of movement the log can hold. app/models.py declares the first six; the transfer
      routes also write TRANSFER_OUT, TRANSFER_IN, REVERSAL and CONSUMPTION. */
  datatype MovementType =
    | StockIn | StockOut | Adjustment | Initial | Return | Loss
    | TransferOut | TransferIn | Reversal | Consumption

  /** The string under which a movement type is stored in the log. */
  function MovementTypeName(t: MovementType): string
  {
    match t
    case StockIn => "STOCK_IN"
    case StockOut => "STOCK_OUT"
    case Adjustment => "ADJUSTMENT"
    case Initial => "INITIAL"
    case Return => "RETURN"
    case Loss => "LOSS"
    case TransferOut => "TRANSFER_OUT"
    case TransferIn => "TRANSFER_IN"
    case Reversal => "REVERSAL"
    case Consumption => "CONSUMPTION"
  }

  /** Reads a stored movement-type string back; strings that name no type give None. */
  function ParseMovementType(s: string): (r: Option<MovementType>)
    ensures r.Some? ==> MovementTypeName(r.value) == s
  {
    if s == "STOCK_IN" then Some(StockIn)
    else if s == "STOCK_OUT" then Some(StockOut)
    else if s == "ADJUSTMENT" then Some(Adjustment)
    else if s == "INITIAL" then Some(Initial)
    else if s == "RETURN" then Some(Return)
    else if s == "LOSS" then Some(Loss)
    else if s == "TRANSFER_OUT" then Some(TransferOut)
    else if s == "TRANSFER_IN" then Some(TransferIn)
    else if s == "REVERSAL" then Some(Reversal)
    else if s == "CONSUMPTION" then Some(Consumption)
    else None
  }

  /** Each constant is its own name: the stored string of a type reads back as that type. */
  lemma {:induction false} MovementTypeNameRoundTrip(t: MovementType)
    ensures ParseMovementType(MovementTypeName(t)) == Some(t)
  {
    match t
    case StockIn =>
    case StockOut =>
    case Adjustment =>
    case Initial =>
    case Return =>
    case Loss =>
    case TransferOut =>
    case TransferIn =>
    case Reversal =>
    case Consumption =>
  }

  /** Distinct types are stored under distinct strings. */
  lemma MovementTypeNameInjective(t: MovementType, u: MovementType)
    ensures MovementTypeName(t) == MovementTypeName(u) ==> t == u
  {
    MovementTypeNameRoundTrip(t);
    MovementTypeNameRoundTrip(u);
  }

  /** The six types of the original product-level ledger, the only ones with a display label. */
  predicate IsLabelled(t: MovementType)
  {
    t.StockIn? || t.StockOut? || t.Adjustment? || t.Initial? || t.Return? || t.Loss?
  }

  /** The display labels, keyed by stored type name. */
  const Labels: map<string, string> := map[
    "STOCK_IN" := "Bevételezés",
    "STOCK_OUT" := "Kivételezés",
    "ADJUSTMENT" := "Korrekció",
    "INITIAL" := "Kezdőkészlet",
    "RETURN" := "Visszavétel",
    "LOSS" := "Selejt/Veszteség"
  ]

  /** The label shown for a stored movement type; a string without a label is shown as it is. */
  function GetLabel(movementType: string): (shown: string)
    ensures movementType !in Labels ==> shown == movementType
    ensures movementType in Labels ==> shown == Labels[movementType] && shown != movementType
  {
    if movementType in Labels then Labels[movementType] else movementType
  }

  /** Exactly the six labelled types have a label; the four transfer-route types are shown raw. */
  lemma {:induction false} LabelledTypesHaveLabels(t: MovementType)
    ensures MovementTypeName(t) in Labels <==> IsLabelled(t)
    ensures !IsLabelled(t) ==> GetLabel(MovementTypeName(t)) == MovementTypeName(t)
  {
    match t
    case StockIn =>
    case StockOut =>
    case Adjustment =>
    case Initial =>
    case Return =>
    case Loss =>
    case TransferOut =>
    case TransferIn =>
    case Reversal =>
    case Consumption =>
  }

  /** No two labelled types share a label. */
  lemma LabelsDistinct(s: string, u: string)
    requires s in Labels && u in Labels && s != u
    ensures GetLabel(s) != GetLabel(u)
  {
  }

  /** The three kinds of place that hold stock. */
  datatype LocationType = Warehouse | Car | Vending

  /** The string under which a location type is stored. */
  function LocationTypeName(t: LocationType): string
  {
    match t
    case Warehouse => "WAREHOUSE"
    case Car => "CAR"
    case Vending => "VENDING"
  }

  /** Accepts exactly the three stored location-type names. */
  function ParseLocationType(s: string): (r: Option<LocationType>)
    ensures r.Some? ==> LocationTypeName(r.value) == s
    ensures r.None? ==> s != "WAREHOUSE" && s != "CAR" && s != "VENDING"
  {
    if s == "WAREHOUSE" then Some(Warehouse)
    else if s == "CAR" then Some(Car)
    else if s == "VENDING" then Some(Vending)
    else None
  }

  lemma {:induction false} LocationTypeNameRoundTrip(t: LocationType)
    ensures ParseLocationType(LocationTypeName(t)) == Some(t)
  {
    match t
    case Warehouse =>
    case Car =>
    case Vending =>
  }

  /** The login user; only the administrator account exists. */
  datatype User = User(id: string)

  /** Loads a user by id: the administrator for 'admin', nobody otherwise. */
  function GetUser(userId: string): (u: Option<User>)
    ensures u.Some? <==> userId == "admin"
    ensures u.Some? ==> u.value.id == userId
  {
    if userId == "admin" then Some(User("admin")) else None
  }
}
