# Stock ledger of a vending business, in Dafny

This project models the bookkeeping core of a small Flask/SQLite stock ledger. The business
runs warehouses, cars and vending machines. Products are held at locations. Every change of
stock is logged as a movement record, and records are never edited or deleted: a mistake is
undone by a compensating movement.

The model keeps the five tables the core touches in one `Store.Db` object:

- `location_inventory` is a map from (product, location) to quantity.
- `inventory` is the product-level map from product to quantity.
- `inventory_movements` is a sequence of movement records. A movement's id is its index.
- `products` and `locations` are sequences. A row's id is its index + 1, as SQLite
  autoincrement starts at 1.

Each route is a method that takes that object. It checks everything first and then writes. Its
postcondition gives the refusal (an `Err` of a closed `Error` type) or the new state, as a
function of the old state.

The invariant comes in two layers.

`Db.Ledger()` is the per-location ledger. Every route keeps it, including the product-level
forms as written and those that go wrong on some inputs:

- no location quantity is negative;
- every location quantity equals the sum of the changes logged at that location (the log
  replays to the stock);
- every movement has `after == before + change`, names an existing product, and refers only
  to earlier movements.

`Db.Valid()` adds the product-level facts:

- every product has exactly one product-level row, and none is negative;
- barcodes are unique;
- the sign of STOCK_IN, STOCK_OUT, INITIAL, RETURN and LOSS movements matches the type.

Which routes need which layer:

- These routes run on any `Ledger()` state, as the source runs them on any database:
  - the transfer, reversal, consumption and location routes;
  - `add_movement` and `set_quantity`;
  - product edit, delete and restore.
  They keep `Ledger()`, and they keep `Valid()` whenever it held before.
- The product-level quick forms and `add_product`, as written, also run on any `Ledger()`
  state and keep it. On some inputs they break `Valid()`; the Findings section names them.
  Because the log only grows, a movement with the wrong sign stays in it, so the state does
  not become `Valid()` again. `Inventory.RepairByStockTaking` shows stock-taking bringing the
  row back to 0 from such a state.
- The corrected quick forms and the corrected `add_product` need and keep `Valid()`. They are
  what the source would do if every route kept it.

Modules:

- `Models`: the movement and location types, their names, the Hungarian labels, and the user
  lookup (app/models.py).
- `Store`: the tables, the two invariants, SQL `SUM` over rows, and log replay.
- `Transfer`: the per-location ledger, atomic transfers, the quick transfer and car consumption
  (app/routes/transfer.py).
- `Reversal`: the compensating transaction `create_reversal`.
- `Inventory`: the product-level forms, the stock filter and the history filter
  (app/routes/inventory.py).
- `Products` and `Locations`: the master-data routes.
- `Ordering`: `ORDER BY name` under SQLite's BINARY collation.

Where parts of the code disagree with each other, or with what the code's own comments say,
the model follows the code:

- **Movement and location types.** app/models.py:85-91 defines only six movement types and no
  `LocationType`. The routes also use TRANSFER_OUT, TRANSFER_IN, REVERSAL, CONSUMPTION and
  the three location types (app/routes/transfer.py:14,105,114,626,677). The model declares one
  closed type with all ten movement types and the three location types, as the routes use
  them.
- **Reversing a transfer.** The comment on the route's guard (app/routes/transfer.py:598) says
  it checks whether the movement was already reversed. The guard only looks for a REVERSAL record, and reversing a transfer leg writes none, so a
  transfer leg can be reversed again and again. `Reversal.CreateReversal` models the code as
  written and `Reversal.ReverseTransferTwice` exhibits the repeat. `Reversal.CreateReversalOnce`
  is the guarded version. Its guard covers both legs of a transfer (see Findings).
- **No location checks on transfers.** `execute_transfer` does not check that the locations
  exist or are active.
- **Sign rule.** `add_movement` gives +quantity for every type other than STOCK_OUT and LOSS,
  including CONSUMPTION and the transfer types.
- **Overwritten product row.** `car_consumption` overwrites the product-level row with the sum
  over live locations. Because of that, and because product-level movements carry no
  location, only the per-location ledger is a replay of the log. The product-level ledger is
  kept non-negative but is not a replay.

## Model

| member | source | states |
|---|---|---|
| Models.ParseMovementType | app/models.py:85-91 | a parsed type string is the name of the type it parses to |
| Models.MovementTypeNameRoundTrip | app/models.py:86-91 | each movement type constant parses back to itself from its own name |
| Models.MovementTypeNameInjective | app/models.py:86-91 | no two movement types share a name |
| Models.GetLabel | app/models.py:102-104 | a key of LABELS is shown as its label (never the key itself); any other string is returned unchanged |
| Models.LabelledTypesHaveLabels | app/models.py:93-100 | exactly STOCK_IN, STOCK_OUT, ADJUSTMENT, INITIAL, RETURN and LOSS have a label; the other four types are shown by their own name |
| Models.LabelsDistinct | app/models.py:93-100 | different labelled types get different labels |
| Models.ParseLocationType | app/routes/locations.py:69-71 | a string parses to a location type exactly when it is WAREHOUSE, CAR or VENDING, and then the type's name is that string |
| Models.LocationTypeNameRoundTrip | app/routes/locations.py:69 | each location type parses back to itself from its name |
| Models.GetUser | app/models.py:15-19 | a user is returned exactly for the id "admin", and it carries that id |
| Store.DecimalString | app/routes/transfer.py:629 | the id written into the reversal note is a non-empty string of decimal digits with no leading zero, and its digits spell the id |
| Store.DecimalStringInjective | app/routes/transfer.py:629 | different ids are written as different strings |
| Store.Applied | app/routes/transfer.py:40-55 | after the UPDATE or INSERT, the row of the pair exists and moved by the change, and every other row is unchanged |
| Store.SumRemove | app/routes/locations.py:156-158 | a SUM over rows splits into one row's share and the SUM over the rest |
| Store.SumApplied | app/routes/transfer.py:98-101 | changing one row by d changes a SUM that counts that row by d, and leaves one that does not count it unchanged |
| Store.SumNonNegative | app/routes/transfer.py:684-688 | a SUM over non-negative rows is non-negative |
| Store.SumPositive | app/routes/locations.py:156-162 | over non-negative rows, SUM > 0 holds exactly when some row it counts is above 0 |
| Store.LogSumAppend | app/routes/transfer.py:60-72 | appending a record adds its change to the replay of its own pair only |
| Store.ReplayStep | app/routes/transfer.py:29-72 | applying a change to a pair's row and logging it at that location keeps every row equal to its replay |
| Store.ReplayUnlocated | app/routes/inventory.py:106-122 | logging a product-level movement without a location leaves every location replay as it was |
| Store.StockedProductExists | app/database.py:104-114 | a pair whose replayed quantity is non-zero belongs to a product in the products table (foreign key on product_id) |
| Store.LogAppend | app/routes/transfer.py:60-72 | appending a well-formed record keeps the log well formed |
| Store.LogGrowsProducts | app/routes/products.py:106-116 | adding products keeps every logged record's product valid |
| Store.Db.constructor | app/database.py:93-114 | the empty database satisfies Ledger() and Valid() |
| Store.SumStock | app/routes/locations.py:156-158 | the loop computes the SQL SUM over the rows the filter keeps |
| Store.SignedAppend | app/routes/inventory.py:94-97 | appending a record whose sign matches its type keeps every record's sign matching |
| Transfer.GetLocationStock | app/routes/transfer.py:20-26 | the stored quantity of the pair, or 0 without a row; under the ledger invariant it is non-negative and equals the pair's log replay |
| Transfer.Transferred | app/routes/transfer.py:98-101 | the stock after a transfer: −q at (product, source), then +q at (product, target) |
| Transfer.UpdateLocationStock | app/routes/transfer.py:29-57 | refuses with InsufficientStock and writes nothing exactly when current + change < 0; otherwise returns (before, before + change) and updates only that pair's row |
| Transfer.RecordMovement | app/routes/transfer.py:60-72 | appends exactly the given record and returns its id; earlier records are untouched |
| Transfer.TransferRefusal | app/routes/transfer.py:86-95 | a transfer is accepted exactly when q > 0, source != target and the source holds at least q |
| Transfer.TransferLegs | app/routes/transfer.py:104-123 | a transfer logs exactly two records |
| Transfer.TransferMoves | app/routes/transfer.py:98-101 | the source drops by q, the target rises by q, and every other pair is unchanged |
| Transfer.TransferConservesTotal | app/routes/transfer.py:98-101 | every SUM that counts both ends or neither, including the product's total over all locations, is unchanged by a transfer |
| Transfer.TransferBackRestores | app/routes/transfer.py:610-617 | transferring q back from target to source restores every pair |
| Transfer.ExecuteTransfer | app/routes/transfer.py:75-123 | refused with the first failing check and nothing written; otherwise the stock is Transferred and exactly a TRANSFER_OUT (−q at source) and a TRANSFER_IN (+q at target, referring to the OUT id) are appended, the ledger is kept, and Valid() when it held before |
| Transfer.ExecuteLinkedTransfer | app/routes/transfer.py:75-123 | execute_transfer, where the OUT record may carry a reference to an earlier movement; same checks and effects |
| Transfer.ApplyTransfer | app/routes/transfer.py:98-123 | after the checks pass: the debit, the credit and the two records, keeping the ledger, and Valid() when it held before |
| Transfer.TransferKeepsLedger | app/routes/transfer.py:98-123 | an accepted transfer leaves no negative row, the rows still replay from the log, and both new records are well formed |
| Transfer.QuickTransferRefusal | app/routes/transfer.py:229-239 | the quick transfer is accepted exactly when every field is given (Python truthiness: absent or 0 is missing) and execute_transfer's checks pass; MissingField exactly when a field is missing |
| Transfer.ExecuteQuickTransfer | app/routes/transfer.py:214-250 | refused for a missing field or a failed transfer check with nothing written; otherwise the effect of execute_transfer |
| Transfer.LiveLocations | app/routes/transfer.py:684-688 | exactly the ids of the rows not marked deleted |
| Transfer.ConsumptionRefusal | app/routes/transfer.py:659-673 | accepted exactly when every field is given, q > 0 and the car holds at least q |
| Transfer.CarConsumption | app/routes/transfer.py:643-696 | the car's row drops by q; a CONSUMPTION of −q is logged with the default note "Autó kiadás" when none is given; the product-level row becomes the product's SUM over live locations; the ledger is kept, and Valid() when it held before |
| Transfer.ApplyConsumption | app/routes/transfer.py:673-681 | after the checks: the row update and the CONSUMPTION record, keeping the ledger, and Valid() when it held before |
| Transfer.SyncProductRow | app/routes/transfer.py:684-696 | the product-level row is overwritten with the SUM over live locations, which is non-negative |
| Transfer.LocatedStepKeepsLedger | app/routes/transfer.py:29-72 | a located change that leaves its row non-negative, logged with a well-formed record, keeps the per-location invariant |
| Transfer.ConsumptionLowersTotal | app/routes/transfer.py:673-688 | consuming q at a live location lowers the product's live total by exactly q |
| Reversal.Abs | app/routes/transfer.py:614 | abs returns the magnitude |
| Reversal.IsTransferLeg | app/routes/transfer.py:610 | a movement is undone by a swapped transfer exactly when it is a TRANSFER_OUT or a TRANSFER_IN |
| Reversal.HasReversal | app/routes/transfer.py:599-602 | the route's guard query: some REVERSAL record refers to the id |
| Reversal.ReversalNote | app/routes/transfer.py:629 | the note "Visszavonás: #" followed by the id |
| Reversal.ReversalNoteInjective | app/routes/transfer.py:629 | different movements get different reversal notes |
| Reversal.SwapRefusal | app/routes/transfer.py:610-617 | the swapped transfer is refused as execute_transfer would refuse it; a NULL end reads as no stock, and writing at a NULL location fails |
| Reversal.UndoRefusal | app/routes/transfer.py:618-624 | undoing a change is accepted exactly when the movement has a location and −change leaves its row non-negative |
| Reversal.CompensationRefusal | app/routes/transfer.py:609-624 | a transfer leg is refused as its swapped transfer; any other movement as the undo of its change at its location |
| Reversal.Compensates | app/routes/transfer.py:609-629 | the state after compensating a movement: the swapped transfer with its two records, or −change at the location with a REVERSAL record that refers to the movement |
| Reversal.Compensate | app/routes/transfer.py:609-629 | a transfer leg is undone by the swapped transfer of abs(change); any other movement by −change at its location plus a REVERSAL record that refers to it; refused with nothing written otherwise |
| Reversal.ReversalRefusal | app/routes/transfer.py:594-606 | an unknown id gives NotFound; an id with a REVERSAL record referring to it gives AlreadyReversed; otherwise the compensation's own refusal |
| Reversal.CreateReversal | app/routes/transfer.py:580-640 | the route as written: refused in that order with nothing written; otherwise compensates; afterwards the guard fires exactly when the original was not a transfer leg |
| Reversal.ReversalGuardAfter | app/routes/transfer.py:599-606 | the already-reversed guard over an extended log fires exactly when it fires on either part |
| Reversal.HasCompensation | app/routes/transfer.py:599-602 | the guard extended to transfers: a REVERSAL, or the OUT record of a compensating transfer, refers to the id |
| Reversal.Linked | app/routes/transfer.py:104-123 | two records are the OUT and IN legs of one transfer: the IN record refers to the OUT record |
| Reversal.PairCompensated | app/routes/transfer.py:599-617 | the movement, or the other leg of its transfer, has been compensated |
| Reversal.CompensatedOnceRefusal | app/routes/transfer.py:594-606 | an unknown id gives NotFound; AlreadyReversed when the movement, or the other leg of its transfer, has been compensated; otherwise the compensation's own refusal |
| Reversal.CreateReversalOnce | app/routes/transfer.py:580-640 | the guarded route: same effects, refused by the pair-covering guard; afterwards the guard fires for that id and for the other leg of its transfer |
| Reversal.CompensationPersists | app/routes/transfer.py:599-606 | once a movement or its transfer partner is compensated, it stays so however the log grows |
| Reversal.TransferAndReverse | app/routes/transfer.py:610-617 | a transfer followed by the reversal of its OUT record both succeed, every pair is back where it started, and four records are appended to an untouched log |
| Reversal.ReverseTransferTwice | app/routes/transfer.py:599-617 | with the guard as written, the same TRANSFER_OUT can be reversed twice, and the source ends q above where it started |
| Reversal.ReverseTransferOnce | app/routes/transfer.py:599-617 | with the extended guard, the second reversal of the same record is refused with AlreadyReversed |
| Reversal.FreshPairUncompensated | app/routes/transfer.py:104-123 | the two records a transfer appends are linked to each other, and neither of them is compensated yet |
| Reversal.ReverseBothLegsOnce | app/routes/transfer.py:599-617 | with the extended guard, after one leg of a transfer is reversed (OUT or IN first), reversing the other leg is refused with AlreadyReversed, and every pair is back where it started |
| Reversal.ConsumeAndReverse | app/routes/transfer.py:609-696 | a car consumption followed by the reversal of its CONSUMPTION record: both succeed, every pair is back where it started, a REVERSAL referring to the consumption is appended, and the product-level row keeps the total the consumption wrote |
| Inventory.SignedChange | app/routes/inventory.py:94-97 | the change is ±quantity, and for a positive quantity it is negative exactly for STOCK_OUT and LOSS |
| Inventory.MovementRefusal | app/routes/inventory.py:82-104 | accepted exactly when product, type and a positive quantity are given, the row does not go below 0, and the product exists |
| Inventory.AddMovement | app/routes/inventory.py:70-134 | runs on any ledger state; refused with nothing written; otherwise the row becomes before + change and a record with before and after is appended; keeps the ledger, and Valid() when it held before |
| Inventory.QuickStockOut | app/routes/inventory.py:173-214 | corrected: refused for quantity ≤ 0 or more than the product holds; otherwise the row drops by quantity and a STOCK_OUT of −quantity is logged |
| Inventory.QuickStockOutAsWritten | app/routes/inventory.py:177-202 | as written: refused only when current < quantity (or by the foreign key); any other quantity is logged as a STOCK_OUT; the per-location ledger is kept |
| Inventory.QuickStockOutNegative | app/routes/inventory.py:186-202 | quantity −5 on a product holding 0 succeeds, leaves 5 in stock and logs a STOCK_OUT of +5; the ledger is kept but Valid() is broken |
| Inventory.QuickStockIn | app/routes/inventory.py:217-259 | corrected: refused for quantity ≤ 0 or an unknown product; otherwise the row rises by quantity and a STOCK_IN of +quantity is logged |
| Inventory.QuickStockInAsWritten | app/routes/inventory.py:221-247 | as written: any quantity is added and logged; the per-location ledger is kept |
| Inventory.QuickStockInNegative | app/routes/inventory.py:230-247 | quantity −5 on a product holding 0 succeeds and leaves −5 in stock; the ledger is kept but Valid() is broken |
| Inventory.SetQuantity | app/routes/inventory.py:332-378 | runs on any ledger state; a negative count or an unknown product is refused; otherwise the row becomes the count and an ADJUSTMENT of count − before is logged with before and after; keeps the ledger, and Valid() when it held before |
| Inventory.RepairByStockTaking | app/routes/inventory.py:332-378 | after quantity −5 on stock-in, counting 0 succeeds, logs an ADJUSTMENT of +5 and brings the row back to 0, while the wrongly signed STOCK_IN keeps the state outside Valid() |
| Inventory.PassesStockFilter | app/routes/inventory.py:48-51 | 'low' keeps a row with 0 < quantity < min_stock_level, 'zero' keeps a missing row or quantity 0, and any other filter keeps every product |
| Inventory.LowAndZeroDisjoint | app/routes/inventory.py:48-51 | no product passes both the 'low' and the 'zero' filter |
| Inventory.StockListing | app/routes/inventory.py:24-51 | the listing over the first n products has at most n rows |
| Inventory.StockListingRows | app/routes/inventory.py:24-51 | the listing holds exactly the non-deleted products that pass the stock filter, once each, by id |
| Inventory.InventoryList | app/routes/inventory.py:15-53 | the stock list is ordered by name and holds exactly the listed products |
| Inventory.Matches | app/routes/inventory.py:287-301 | a movement passes the history filters: product, type name, and the day between date_from and date_to, each checked only when given |
| Inventory.MovementHistory | app/routes/inventory.py:264-303 | at most 500 ids, every one matching all filters, newest first; a matching movement is missing only when the list is full of newer ones |
| Products.ProductRefusal | app/routes/products.py:91-103 | accepted exactly when the name is non-empty and no other product has the barcode; DuplicateBarcode exactly when another live product has it |
| Products.BarcodeHeld | app/routes/products.py:96-100 | another product row holds the barcode; the route's own query counts only live products, the UNIQUE constraint counts all |
| Products.FreshBarcodeKeepsUnique | app/routes/products.py:96-116 | storing a product whose barcode no other row has keeps barcodes unique |
| Products.AddProduct | app/routes/products.py:75-138 | corrected: refused by the name and barcode checks or for a negative opening quantity; otherwise a live product is appended, its row holds the opening quantity, and an INITIAL movement from 0 is logged only when that quantity is positive |
| Products.AddProductAsWritten | app/routes/products.py:89-124 | as written: any opening quantity is stored; the per-location ledger is kept |
| Products.AddProductNegativeInitial | app/routes/products.py:89-116 | opening quantity −3 succeeds, stores −3 and logs nothing |
| Products.EditProduct | app/routes/products.py:156-219 | runs on any ledger state; NotFound for an unknown id; the product checks ignore the product itself; otherwise the fields are replaced and the deleted flag is kept; keeps the ledger, and Valid() when it held before |
| Products.SetProductDeleted | app/routes/products.py:250-254 | runs on any ledger state; only the deleted flag of that row changes; keeps the ledger, and Valid() when it held before |
| Products.DeleteProduct | app/routes/products.py:237-266 | runs on any ledger state; soft delete: the row stays and only its flag is set |
| Products.RestoreProduct | app/routes/products.py:269-298 | runs on any ledger state; only the flag is cleared |
| Products.DeleteThenRestore | app/routes/products.py:250-286 | from any ledger state, deleting a live product and restoring it gives back the same products table |
| Locations.LocationRefusal | app/routes/locations.py:65-71 | accepted exactly when the name is non-empty and the type is one of the three |
| Locations.CreateLocation | app/routes/locations.py:53-88 | appends an active, non-deleted location of the parsed type, whose type name is the form's string |
| Locations.EditLocation | app/routes/locations.py:96-136 | changes only name, description, address and the active flag; the type and the deleted flag are kept |
| Locations.DeleteLocation | app/routes/locations.py:144-179 | refused with LocationHasStock exactly when some product is held there; otherwise only the deleted flag is set |
| Locations.RestoreLocation | app/routes/locations.py:182-201 | clears the deleted flag; an unknown id changes nothing |
| Locations.Selectable | app/routes/locations.py:263-271 | a location is listed when it is not deleted, is active, and has the asked type (any type when none is asked) |
| Locations.SelectableListing | app/routes/locations.py:263-273 | the listing over the first n locations has at most n rows |
| Locations.SelectableListingRows | app/routes/locations.py:263-273 | the listing holds exactly the non-deleted, active locations of the asked type, once each, by id |
| Locations.ListLocations | app/routes/locations.py:255-280 | the API list is ordered by name and holds exactly the selectable locations |
| Ordering.NameLeTotal | app/routes/locations.py:273 | the BINARY name order is total |
| Ordering.NameLeTransitive | app/routes/locations.py:273 | the BINARY name order is transitive |
| Ordering.InsertByName | app/routes/inventory.py:53 | inserting into a sorted listing keeps it sorted and adds exactly that entry |
| Ordering.SortByName | app/routes/inventory.py:53 | ORDER BY name returns the same rows, sorted |

## Left out

- Flask plumbing: forms, flash, redirect, templates, JSON responses and login checks. Routes
  take their parsed form values as parameters. Absent or 0 fields follow Python truthiness.
  Trimming of whitespace and a `float()` that raises on bad input are not modelled.
- Quantities are integers. The source stores REAL values; floating point is not modelled.
- Transactions: each route is all-or-nothing, as every check runs before the first write.
  Commit, rollback and the fact that `execute_quick_transfer` never commits
  (app/routes/transfer.py:241-250) are not modelled.
- Movement ids are 0-based log indices. The note "Visszavonás: #id" uses the index, not
  SQLite's 1-based rowid. Timestamps are not modelled: the history orders by id instead of
  `created_at`, and a movement's date is the `day` parameter.
- `add_movement` accepts any type string. The model only takes the ten movement types, so a
  record with an unknown type cannot be written.
- Foreign keys on category and unit, the categories and units routes, search and category
  filters, product and location listings other than the two modelled, `get_by_barcode`,
  dashboard, backup, auth, config and audit logging (`log_audit`) are not part of this model.
- The other transfer routes (warehouse to car, car to vending, the JSON transfer API, the
  history page) are not part of this model. They call `execute_transfer`, which is modelled.
- The `location_inventory` and `locations` schemas are not in the source files. The model
  assumes `location_id` is NOT NULL, so writing a row at a NULL location fails
  (MissingLocation). It assumes new locations are active and not deleted, and that there is no
  foreign key on location ids.
- Transfer.ExecuteTransfer: does not check that the locations exist, are live or are active,
  because the route does not.
- The `inventory_movements` table (app/database.py:104-114) has no `location_id`,
  `source_location_id`, `target_location_id` or `reference_movement_id` column, yet
  `record_movement` (app/routes/transfer.py:60-72) writes them. The model assumes the columns
  exist, as the routes use them.
- The `inventory` table (app/database.py:93-98) has no UNIQUE constraint on `product_id`. The
  model keeps one product-level row per product, as every route writes and reads it that way;
  a second row for the same product is not modelled.
- Inventory.InventoryList: returns ids and names only, not the joined display columns.
- Locations.ListLocations: returns ids and names only, not the joined display columns.

## Findings

| source | as written | input that shows it | evidently intended | confidence | as-written member | corrected member |
|---|---|---|---|---|---|---|
| app/routes/inventory.py:186-202 | quick_stock_out only refuses current < quantity | product holding 0, quantity −5: a STOCK_OUT of +5 is logged and stock becomes 5 | quantity ≤ 0 refused, as in the other forms | high, not executed | Inventory.QuickStockOutAsWritten, Inventory.QuickStockOutNegative | Inventory.QuickStockOut |
| app/routes/inventory.py:230-247 | quick_stock_in checks nothing | product holding 0, quantity −5: stock becomes −5 | quantity ≤ 0 refused | high, not executed | Inventory.QuickStockInAsWritten, Inventory.QuickStockInNegative | Inventory.QuickStockIn |
| app/routes/products.py:89-116 | add_product stores any opening quantity | opening quantity −3: the product-level row holds −3 and nothing is logged | a negative opening quantity refused | medium, not executed | Products.AddProductAsWritten, Products.AddProductNegativeInitial | Products.AddProduct |
| app/routes/transfer.py:599-617 | the already-reversed guard looks only for REVERSAL records, which a transfer reversal never writes | transfer q from A to B with B already holding q, then reverse the TRANSFER_OUT twice: both succeed and A ends q higher | a movement, and a transfer as a whole (either leg), is reversed at most once | medium, not executed | Reversal.CreateReversal, Reversal.ReverseTransferTwice | Reversal.CreateReversalOnce, Reversal.ReverseTransferOnce, Reversal.ReverseBothLegsOnce |
