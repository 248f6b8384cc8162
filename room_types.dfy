/** The room-type catalog: one record per (hotel, room type) with a
    strictly positive nightly cost, kept in a keyed store that every
    operation loads, changes in memory and saves back whole. */
module RoomTypes {
  import opened Common
  import opened Catalogs

  // ---------------------------------------------------------------------
  // Keys, values and validation
  // ---------------------------------------------------------------------

  /** Storage key of a room type: the hotel's tax code, an underscore and
      the room-type code. */
  function Key(hotelRfc: string, code: string): (k: string)
    ensures |k| == |hotelRfc| + 1 + |code|
    ensures k[..|hotelRfc|] == hotelRfc && k[|hotelRfc|] == '_'
    ensures k[|hotelRfc| + 1..] == code
  {
    hotelRfc + "_" + code
  }

  /** The key determines hotel and room type as long as hotel tax codes
      contain no underscore (room-type codes may contain one). */
  lemma KeyInjective(h1: string, c1: string, h2: string, c2: string)
    requires '_' !in h1 && '_' !in h2
    requires Key(h1, c1) == Key(h2, c2)
    ensures h1 == h2 && c1 == c2
  {
    // the first '_' of the key sits at len(hotel), which fixes both parts
  }

  /** Without that assumption the key is not unique: hotel "H" with a junior
      suite and hotel "H_JUNIOR" with a suite share one key. */
  lemma KeyCollision()
    ensures Key("H", JuniorSuite.Code()) == Key("H_JUNIOR", Suite.Code())
    ensures ("H", JuniorSuite) != ("H_JUNIOR", Suite)
  {
  }

  /** The request fields a room type is built from; a field the caller
      left out is None. */
  datatype RawInput = RawInput(hotelRfc: Option<string>, kind: Option<string>, cost: Option<int>)

  /** A validated room type, as the fields of a built instance. */
  datatype RoomTypeValue = RoomTypeValue(hotelRfc: string, kind: RoomKind, cost: int)
  {
    /** Storage key of this room type. */
    function Id(): string {
      Key(hotelRfc, kind.Code())
    }

    /** The serialisable record written to the store: the same hotel and
        cost, the room type as a code that parses back to it, and a key
        rebuilt from the record that is this room type's id. */
    function ToDict(): (r: StoredRoomType)
      ensures r.hotelRfc == hotelRfc && r.cost == cost
      ensures ParseRoomKind(r.kind) == Some(kind)
      ensures Key(r.hotelRfc, r.kind) == Id()
    {
      ParseRoomKindOfCode(kind);
      StoredRoomType(hotelRfc, kind.Code(), cost)
    }
  }

  /** A record as the store holds it: the room type is kept as its code. */
  datatype StoredRoomType = StoredRoomType(hotelRfc: string, kind: string, cost: int)
  {
    /** The same fields offered back to validation, as a request. */
    function AsInput(): RawInput {
      RawInput(Some(hotelRfc), Some(kind), Some(cost))
    }
  }

  /** A cost is accepted only when strictly positive, and then unchanged. */
  function ValidateCost(cost: int): (r: Result<int>)
    ensures r.Success? <==> cost > 0
    ensures r.Success? ==> r.value == cost
    ensures r.Failure? ==> r.error == NonPositiveCost(cost)
  {
    if cost <= 0 then Failure(NonPositiveCost(cost)) else Success(cost)
  }

  /** A cost given as a keyword argument: a number is validated as above;
      a text cannot be compared with zero and fails. */
  function CheckCost(v: Value): (r: Result<int>)
    ensures r.Success? <==> v.Number? && v.n > 0
    ensures r.Success? ==> r.value == v.n
  {
    match v
    case Number(n) => ValidateCost(n)
    case Text(_) => Failure(NotANumber("costo"))
  }

  /** Builds a room type from request fields: the hotel code, the room-type
      code and the cost are read in that order, and the first missing or
      invalid field fails the construction. */
  function Validate(d: RawInput): (r: Result<RoomTypeValue>)
    ensures r.Success? <==>
      && d.hotelRfc.Some? && d.kind.Some? && ParseRoomKind(d.kind.value).Some?
      && d.cost.Some? && d.cost.value > 0
    ensures r.Success? ==>
      && r.value.hotelRfc == d.hotelRfc.value
      && r.value.kind.Code() == d.kind.value
      && r.value.cost == d.cost.value
    ensures d.hotelRfc.None? ==> r == Failure(MissingField("rfc_hotel"))
    ensures d.hotelRfc.Some? && d.kind.None? ==> r == Failure(MissingField("tipo"))
    ensures d.hotelRfc.Some? && d.kind.Some? && ParseRoomKind(d.kind.value).None? ==>
      r == Failure(InvalidKind(d.kind.value))
    ensures d.hotelRfc.Some? && d.kind.Some? && ParseRoomKind(d.kind.value).Some? ==>
      (d.cost.None? ==> r == Failure(MissingField("costo"))) &&
      (d.cost.Some? && d.cost.value <= 0 ==> r == Failure(NonPositiveCost(d.cost.value)))
  {
    match d.hotelRfc
    case None => Failure(MissingField("rfc_hotel"))
    case Some(rfc) =>
      match d.kind
      case None => Failure(MissingField("tipo"))
      case Some(raw) =>
        match ParseRoomKind(raw)
        case None => Failure(InvalidKind(raw))
        case Some(kind) =>
          match d.cost
          case None => Failure(MissingField("costo"))
          case Some(c) =>
            match ValidateCost(c)
            case Failure(e) => Failure(e)
            case Success(cost) => Success(RoomTypeValue(rfc, kind, cost))
  }

  /** A saved record rebuilds the very room type it was saved from. */
  lemma ToDictRoundTrip(v: RoomTypeValue)
    requires v.cost > 0
    ensures Validate(v.ToDict().AsInput()) == Success(v)
  {
    ParseRoomKindOfCode(v.kind);
  }

  /** Store invariant for one entry: positive cost, a known room-type code,
      and the key is the record's own id. */
  predicate WellFormed(key: string, rec: StoredRoomType) {
    && rec.cost > 0
    && ParseRoomKind(rec.kind).Some?
    && Key(rec.hotelRfc, rec.kind) == key
  }

  /** What a valid room type saves satisfies the store invariant. */
  lemma ToDictWellFormed(v: RoomTypeValue)
    requires v.cost > 0
    ensures WellFormed(v.Id(), v.ToDict())
  {
    ParseRoomKindOfCode(v.kind);
  }

  /** Whether every keyword argument names a different field (keyword
      arguments are a dictionary in the source, so this always holds). */
  predicate DistinctFields(kw: seq<(string, Value)>) {
    forall i, j :: 0 <= i < j < |kw| ==> kw[i].0 != kw[j].0
  }

  /** The fields a modification may change. */
  const ModifiableFields: set<string> := {"costo"}

  /** The cost a modification asks for, if any. */
  function CostRequest(kw: seq<(string, Value)>): Option<Value> {
    if kw == [] then None
    else if kw[0].0 == "costo" then Some(kw[0].1)
    else CostRequest(kw[1..])
  }

  /** A modification that names no cost asks for none. */
  lemma {:induction false} CostRequestNone(kw: seq<(string, Value)>)
    requires forall j :: 0 <= j < |kw| ==> kw[j].0 != "costo"
    ensures CostRequest(kw) == None
  {
    if kw != [] {
      CostRequestNone(kw[1..]);
    }
  }

  /** With distinct field names, the cost asked for is that of the one
      `costo` argument. */
  lemma {:induction false} CostRequestAt(kw: seq<(string, Value)>, i: nat)
    requires DistinctFields(kw)
    requires i < |kw| && kw[i].0 == "costo"
    ensures CostRequest(kw) == Some(kw[i].1)
  {
    if i > 0 {
      assert kw[0].0 != "costo";
      assert DistinctFields(kw[1..]) by {
        forall a, b | 0 <= a < b < |kw| - 1 ensures kw[1..][a].0 != kw[1..][b].0 {
          assert kw[1..][a] == kw[a + 1] && kw[1..][b] == kw[b + 1];
        }
      }
      CostRequestAt(kw[1..], i - 1);
    }
  }

  // ---------------------------------------------------------------------
  // The store and the instance
  // ---------------------------------------------------------------------

  /** The room-type file, as the map it holds. Loading it gives this map
      and saving it replaces the map. */
  class RoomTypeStore {
    var file: map<string, StoredRoomType>

    /** An absent or unreadable file loads as the empty map. */
    constructor ()
      ensures file == map[]
      ensures Valid()
    {
      file := map[];
    }

    /** Every entry has a positive cost, a known room-type code and sits
        under its own id. */
    ghost predicate Valid()
      reads this
    {
      forall k :: k in file ==> WellFormed(k, file[k])
    }
  }

  /** What creation yields: a failed construction, a duplicate that is not
      stored, or the new instance. */
  datatype CreateResult = Rejected(error: Error) | Duplicate | Created(instance: RoomType)

  /** A room type of one hotel, as an object whose cost can be modified. */
  class RoomType {
    var hotelRfc: string
    var kind: RoomKind
    var cost: int

    /** Builds the instance from validated fields (see Validate). */
    constructor (v: RoomTypeValue)
      ensures Value() == v
    {
      hotelRfc, kind, cost := v.hotelRfc, v.kind, v.cost;
    }

    function Value(): RoomTypeValue
      reads this
    {
      RoomTypeValue(hotelRfc, kind, cost)
    }

    function Id(): string
      reads this
    {
      Value().Id()
    }

    /** The stored record for a hotel and a raw room-type code, if any. */
    static function Find(store: RoomTypeStore, hotelRfc: string, kind: string): (r: Option<StoredRoomType>)
      reads store
      ensures r.Some? <==> Key(hotelRfc, kind) in store.file
      ensures r.Some? ==> r.value == store.file[Key(hotelRfc, kind)]
    {
      var key := Key(hotelRfc, kind);
      if key in store.file then Some(store.file[key]) else None
    }

    /** Validates the request, then inserts its record when the key is
        absent; an existing key leaves the store as it was. */
    static method Create(store: RoomTypeStore, d: RawInput) returns (r: CreateResult)
      modifies store
      ensures Validate(d).Failure? ==>
        r == Rejected(Validate(d).error) && store.file == old(store.file)
      ensures Validate(d).Success? && Validate(d).value.Id() in old(store.file) ==>
        r == Duplicate && store.file == old(store.file)
      ensures Validate(d).Success? && Validate(d).value.Id() !in old(store.file) ==>
        && r.Created? && fresh(r.instance)
        && r.instance.Value() == Validate(d).value
        && store.file == old(store.file)[Validate(d).value.Id() := Validate(d).value.ToDict()]
        && Find(store, d.hotelRfc.value, d.kind.value) == Some(Validate(d).value.ToDict())
      ensures old(store.Valid()) ==> store.Valid()
    {
      var built := Validate(d);
      if built.Failure? {
        return Rejected(built.error);
      }
      var v := built.value;
      var file := store.file;
      if v.Id() in file {
        return Duplicate;
      }
      var instance := new RoomType(v);
      file := file[v.Id() := v.ToDict()];
      store.file := file;
      ToDictWellFormed(v);
      return Created(instance);
    }

    /** Removes the record of a hotel's room type. The room-type code must
        be a known one; an absent record leaves the store as it was. */
    static method Delete(store: RoomTypeStore, hotelRfc: string, kind: string) returns (r: Result<bool>)
      modifies store
      ensures ParseRoomKind(kind).None? ==>
        r == Failure(InvalidKind(kind)) && store.file == old(store.file)
      ensures ParseRoomKind(kind).Some? ==>
        && r == Success(Key(hotelRfc, kind) in old(store.file))
        && store.file == old(store.file) - {Key(hotelRfc, kind)}
        && Find(store, hotelRfc, kind) == None
      ensures old(store.Valid()) ==> store.Valid()
    {
      if ParseRoomKind(kind).None? {
        return Failure(InvalidKind(kind));
      }
      var file := store.file;
      var key := Key(hotelRfc, kind);
      if key !in file {
        return Success(false);
      }
      file := file - {key};
      store.file := file;
      return Success(true);
    }

    /** Applies keyword updates to this instance and to its stored record.
        A record that is absent makes it a no-op returning false; fields
        outside the whitelist are skipped; an invalid cost aborts before
        anything is saved. The hotel and the room type never change. */
    method Modify(store: RoomTypeStore, kw: seq<(string, Value)>) returns (r: Result<bool>)
      requires DistinctFields(kw)
      modifies this, store
      ensures hotelRfc == old(hotelRfc) && kind == old(kind)
      ensures old(Id()) !in old(store.file) ==>
        r == Success(false) && cost == old(cost) && store.file == old(store.file)
      ensures old(Id()) in old(store.file) && CostRequest(kw).None? ==>
        r == Success(true) && cost == old(cost) && store.file == old(store.file)
      ensures old(Id()) in old(store.file) && CostRequest(kw).Some?
              && CheckCost(CostRequest(kw).value).Failure? ==>
        && r == Failure(CheckCost(CostRequest(kw).value).error)
        && cost == old(cost) && store.file == old(store.file)
      ensures old(Id()) in old(store.file) && CostRequest(kw).Some?
              && CheckCost(CostRequest(kw).value).Success? ==>
        && r == Success(true)
        && cost == CheckCost(CostRequest(kw).value).value
        && store.file == old(store.file)[old(Id()) := old(store.file)[old(Id())].(cost := cost)]
      ensures old(store.Valid()) ==> store.Valid()
    {
      var file := store.file;
      var id := Id();
      if id !in file {
        return Success(false);
      }
      var i := 0;
      while i < |kw|
        invariant 0 <= i <= |kw|
        invariant hotelRfc == old(hotelRfc) && kind == old(kind)
        invariant store.file == old(store.file)
        invariant id in file
        invariant (forall j :: 0 <= j < i ==> kw[j].0 != "costo") ==>
          cost == old(cost) && file == old(store.file)
        invariant forall j :: 0 <= j < i && kw[j].0 == "costo" ==>
          && CheckCost(kw[j].1).Success? && cost == CheckCost(kw[j].1).value
          && file == old(store.file)[id := old(store.file)[id].(cost := cost)]
      {
        var (field, value) := kw[i];
        if field !in ModifiableFields {
          i := i + 1;
          continue;
        }
        // the one modifiable field is the cost, validated before it is set
        var checked := CheckCost(value);
        if checked.Failure? {
          assert forall j :: 0 <= j < i ==> kw[j].0 != kw[i].0;
          CostRequestAt(kw, i);
          return Failure(checked.error);
        }
        assert forall j :: 0 <= j < i ==> kw[j].0 != kw[i].0;
        cost := checked.value;
        file := file[id := file[id].(cost := checked.value)];
        i := i + 1;
      }
      if j :| 0 <= j < |kw| && kw[j].0 == "costo" {
        CostRequestAt(kw, j);
      } else {
        CostRequestNone(kw);
      }
      store.file := file;
      return Success(true);
    }
  }
  /** A client of the catalog: creating the same room type twice keeps one
      record, as the unit tests check, derived from the contracts alone. */
  method DuplicateCreateScenario()
  {
    var store := new RoomTypeStore();
    var request := RawInput(Some("CAM123456ABC"), Some("DOBLE"), Some(1500));
    var v := RoomTypeValue("CAM123456ABC", Doble, 1500);
    assert Validate(request) == Success(v);
    var created := RoomType.Create(store, request);
    assert store.file == map[v.Id() := v.ToDict()];
    var again := RoomType.Create(store, request);
    assert again == Duplicate && |store.file| == 1;
  }

  /** A client of the catalog: a rejected cost changes nothing, a key field
      is skipped, and a record can be deleted once. */
  method ModifyDeleteScenario(store: RoomTypeStore, tc: RoomType)
    requires tc.Value() == RoomTypeValue("CAM123456ABC", Doble, 1500)
    requires store.file == map[tc.Id() := tc.Value().ToDict()]
    modifies store, tc
  {
    var key := tc.Id();
    var bad := tc.Modify(store, [("costo", Number(-500))]);
    assert bad == Failure(NonPositiveCost(-500));
    assert tc.cost == 1500 && store.file[key].cost == 1500;

    var kw := [("tipo", Text("SUITE")), ("costo", Number(2000))];
    CostRequestAt(kw, 1);
    var ok := tc.Modify(store, kw);
    assert ok == Success(true) && tc.kind == Doble;
    assert tc.cost == 2000 && store.file[key].cost == 2000;

    assert key == Key("CAM123456ABC", "DOBLE");
    var removed := RoomType.Delete(store, "CAM123456ABC", "DOBLE");
    assert removed == Success(true) && store.file == map[];
    removed := RoomType.Delete(store, "CAM123456ABC", "DOBLE");
    assert removed == Success(false);
  }
}
