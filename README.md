# Hotel reservation system: room-type catalog and referential checks

This project models the verified core of a small hotel reservation system
that keeps hotels, clients, room types and reservations as keyed JSON files.
Three parts of it hold behaviour:

- **the room-type catalog** (`TipoCuarto`): one record per hotel and room type, with a
  strictly positive nightly cost. The records live in a keyed store, and
  every operation loads the whole store, changes it in memory and saves it
  back. The operations are: build from request fields, look up, create
  (insert only if the key is absent), delete (only if present) and modify
  (only the cost may change);
- **the referential validator**: existence checks for a hotel, a client
  and every room type in a reservation's detail. It also has the step that
  overwrites each detail line's cost with the catalog cost;
- **the two enumerations**: the seven hotel classifications and the
  twelve room types, each parsed from its short code.

Modules, one per source file:

- `Common` (`common.dfy`) holds Option/Result/Outcome and the error values.
  The source raises `KeyError`, `ValueError` and `TypeError`, or prints an
  error and returns `None`/`False`. Both become these values.
- `Catalogs` (`catalogos.py`) holds `HotelClass` and `RoomKind`, with their
  codes and partial parsers.
- `RoomTypes` (`tipo_cuarto.py`) holds the storage key, validation, the
  store class `RoomTypeStore` and the instance class `RoomType`.
  - The store's JSON file is the field `file: map<string, StoredRoomType>`.
    Loading reads the field and saving assigns it.
  - An absent or unreadable file is the empty map that the store's
    constructor gives.
  - `Valid()` is the store invariant: every entry has cost > 0 and a known
    room-type code, and sits under its own id. Create, Delete and Modify
    each preserve it.
- `Validator` (`validador.py`) holds the three checks and the in-place
  pricing loop. The hotel, client and room-type files it reads are passed in
  as maps.

Costs are `int`. The source's costs are floats, but it only compares them
with zero and copies them.

Three behaviours of the code worth stating plainly:
- Pricing a line whose room type is missing from the catalog leaves that
  line unchanged; it does not fail.
- Deleting parses the room-type code before the store is loaded, so an
  unknown code raises a validation error and the store is never read.
- A bad cost in `modificar` is detected inside the loop over the keyword
  arguments. The only whitelisted field is the cost, so no other field has
  been applied when that happens, and nothing has been saved.

The storage key is `hotel + "_" + code`. `KeyInjective` proves that the key
identifies the pair if hotel tax codes contain no underscore. `KeyCollision`
proves that without that condition it does not, by a pair that collides:
hotel "H" with `JUNIOR_SUITE` and hotel "H_JUNIOR" with `SUITE`. Mexican tax codes (RFC) are alphanumeric, so
this is recorded as a limit of the key, not as a defect.

## Model

| member | source | states |
|---|---|---|
| Catalogs.HotelClassesEnumerated | source/catalogos.py:11-20 | the classification lists exactly seven members, each member once, with pairwise distinct codes |
| Catalogs.ParseHotelClass | source/catalogos.py:11-20 | a successful parse returns the member whose code is the input |
| Catalogs.ParseHotelClassOfCode | source/catalogos.py:11-20 | parsing a classification's code yields that classification |
| Catalogs.HotelClassCodeInjective | source/catalogos.py:14-20 | two classifications with the same code are the same (no aliasing) |
| Catalogs.ParseHotelClassFails | source/catalogos.py:11-20 | parsing fails iff the string is no classification's code |
| Catalogs.RoomKindsEnumerated | source/catalogos.py:23-37 | the room-type enumeration lists exactly twelve members, each once, with pairwise distinct codes |
| Catalogs.ParseRoomKind | source/catalogos.py:23-37 | a successful parse returns the member whose code is the input |
| Catalogs.ParseRoomKindOfCode | source/catalogos.py:23-37 | parsing a room type's code yields that room type |
| Catalogs.RoomKindCodeInjective | source/catalogos.py:26-37 | two room types with the same code are the same (no aliasing) |
| Catalogs.ParseRoomKindFails | source/tipo_cuarto.py:19 | building the enumeration from a string fails iff the string is no room type's code |
| Catalogs.HostelIsNoRoomKind | source/tipo_cuarto.py:99 | the code "HOSTEL" is rejected |
| RoomTypes.Key | source/tipo_cuarto.py:50-53 | the key is the hotel code, then '_' at position len(hotel), then the room-type code |
| RoomTypes.KeyInjective | source/tipo_cuarto.py:50-53 | equal keys mean equal hotel and equal room type when neither hotel code contains '_' |
| RoomTypes.KeyCollision | source/tipo_cuarto.py:50-53 | two different (hotel, room type) pairs can share a key when a hotel code contains '_' |
| RoomTypes.ValidateCost | source/tipo_cuarto.py:31-40 | a cost is accepted iff it is > 0, and is then returned unchanged; otherwise the error carries the cost |
| RoomTypes.CheckCost | source/tipo_cuarto.py:136-137 | a keyword cost succeeds iff it is a number > 0, yielding that number |
| RoomTypes.Validate | source/tipo_cuarto.py:16-26 | construction succeeds iff hotel, type and cost are present, the type is a listed code and cost > 0, and then keeps the given fields. Otherwise it reports the first missing or invalid field in the order hotel, type, cost |
| RoomTypes.RoomTypeValue.ToDict | source/tipo_cuarto.py:55-61 | the serialised record keeps hotel and cost, stores the room type as a code that parses back to it, and its own fields rebuild the instance's id |
| RoomTypes.ToDictRoundTrip | source/tipo_cuarto.py:55-61 | the serialised record of a valid room type validates back to the same room type |
| RoomTypes.ToDictWellFormed | source/tipo_cuarto.py:88 | the record that create stores under the id meets the store invariant |
| RoomTypes.CostRequestAt | source/tipo_cuarto.py:132-139 | with distinct field names, the cost a modification applies is that of its single `costo` argument |
| RoomTypes.RoomTypeStore.constructor | source/lector_json.py:14-21 | an absent or corrupt file loads as the empty map, which meets the store invariant |
| RoomTypes.RoomType.constructor | source/tipo_cuarto.py:18-20 | the built instance holds exactly the validated hotel code, room type and cost |
| RoomTypes.RoomType.Find | source/tipo_cuarto.py:66-72 | lookup returns the stored record under hotel + "_" + type iff that key is present |
| RoomTypes.RoomType.Create | source/tipo_cuarto.py:74-90 | an invalid request fails with the store unchanged. An existing key gives Duplicate with the store unchanged. Otherwise the store gains exactly the new record under its id, a following Find returns it, a fresh instance is returned, and the store invariant is preserved |
| RoomTypes.RoomType.Delete | source/tipo_cuarto.py:92-110 | an unknown type code fails with the store unchanged. Otherwise the result is whether the key was present, exactly that key is removed, other entries are unchanged and Find then returns nothing |
| RoomTypes.RoomType.Modify | source/tipo_cuarto.py:123-141 | hotel and type never change. An absent record returns false and changes nothing. Without a cost it returns true and changes nothing. An invalid cost fails with both instance and store unchanged. A valid cost is set on the instance and on the stored record only. The store invariant is preserved |
| Validator.ValidateHotel | source/validador.py:14-18 | passes iff the hotel code is a key of the hotel map; the failure names that code |
| Validator.ValidateClient | source/validador.py:21-25 | passes iff the client code is a key of the client map; the failure names that code |
| Validator.ValidateRoomTypes | source/validador.py:28-37 | passes iff every line's hotel + "_" + type is a catalog key; on failure it names the first such line in list order |
| Validator.PriceItem | source/validador.py:44-47 | one line keeps its type and quantity, takes the catalog cost when hotel + "_" + type is a catalog key, and is left exactly as it was otherwise |
| Validator.Priced | source/validador.py:40-48 | pricing keeps the number of lines |
| Validator.PricedAt | source/validador.py:43-47 | each priced line keeps its type and quantity and takes the catalog cost when its key exists; otherwise it is left exactly as it was |
| Validator.PricedIdempotent | source/validador.py:40-48 | applying catalog pricing twice equals applying it once |
| Validator.ValidatedDetailIsCatalogPriced | source/validador.py:28-48 | after the room-type check passes, every line's cost equals its catalog cost, which is > 0 under the store invariant |
| Validator.ApplyCatalogCosts | source/validador.py:40-48 | the detail array becomes the priced detail of its old contents, in place, and the same array is returned |

## Left out

- File I/O (`persistencia.py`, `lector_json.py`) is not modelled. Each
  file is the map it holds: loading reads a field, saving assigns it. A
  failed write is not modelled, and neither is the error printed for a
  corrupt file. The configurable data directory is left out as well.
- Console output (`print("ERROR: ...")`, `mostrar_info`) is not modelled.
  Failures are result values (`Rejected`, `Duplicate`, `Failure`, `Fail`)
  and carry the offending key or value.
- `hotel.py`, `cliente.py`, `reservacion.py` and `reservacion_bridge.py`
  are not part of this model. Their constructors only assign fields, the
  bridge only delegates to the reservation class, and every other method
  is a docstring. The reservation workflow described for them (unique ids,
  reference strings, totals, cancellation) therefore has no code to model.
- `revisor_calidad.py` runs linters, so it is tooling, not behaviour.
- Float costs are modelled as unbounded integers. The source only compares
  them with zero and copies them.
- Validate: the hotel code is restricted to strings, while the source
  accepts any value and formats it into the key. The cost is restricted to
  numbers, so the type error the source raises when comparing a text cost
  with zero is not modelled at construction.
- Create: does not model the error message naming the hotel and type.
- ValidateRoomTypes: every line item has a room-type code. A line without
  `tipo`, on which the source raises a key error, cannot be represented.
- ApplyCatalogCosts: every line item has a cost. A line without `costo`,
  which the source gives a cost when its type is in the catalog, cannot be
  represented.
- ApplyCatalogCosts: the line items are values in an array. One dictionary
  appearing twice in the caller's list (aliasing between lines) is not
  modelled, and neither are extra keys in a line.
- Modify: keyword arguments are a sequence of (name, value) pairs with
  distinct names, which is what a Python keyword dictionary guarantees.
  Their iteration order only affects which error messages print.
- The enumeration members are written in Dafny's PascalCase (`JuniorSuite`).
  So "each member's code equals its name" is shown by the `Code` table,
  not proved.
