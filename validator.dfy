/** Referential checks run before a reservation is accepted, and the
    replacement of the costs a caller supplied by the catalog's costs.
    Each store these functions read is passed in as the map it holds. */
module Validator {
  import opened Common
  import opened RoomTypes

  /** One line of a reservation's detail: a room-type code, how many rooms
      and the cost per night. */
  datatype LineItem = LineItem(kind: string, quantity: int, cost: int)

  // ---------------------------------------------------------------------
  // Existence checks
  // ---------------------------------------------------------------------

  /** Passes iff the hotel is stored; the failure names the tax code. */
  function ValidateHotel<H>(hotels: map<string, H>, hotelRfc: string): (r: Outcome)
    ensures r.Pass? <==> hotelRfc in hotels
    ensures r.Fail? ==> r.error == NoSuchHotel(hotelRfc)
  {
    if hotelRfc !in hotels then Fail(NoSuchHotel(hotelRfc)) else Pass
  }

  /** Passes iff the client is stored; the failure names the tax code. */
  function ValidateClient<C>(clients: map<string, C>, clientRfc: string): (r: Outcome)
    ensures r.Pass? <==> clientRfc in clients
    ensures r.Fail? ==> r.error == NoSuchClient(clientRfc)
  {
    if clientRfc !in clients then Fail(NoSuchClient(clientRfc)) else Pass
  }

  /** The catalog has a room type for this hotel and this line. */
  predicate Listed(rooms: map<string, StoredRoomType>, hotelRfc: string, item: LineItem) {
    Key(hotelRfc, item.kind) in rooms
  }

  /** Line i is the first one, in list order, whose room type the catalog
      lacks. */
  ghost predicate FirstUnlisted(rooms: map<string, StoredRoomType>, hotelRfc: string,
                                detail: seq<LineItem>, i: int)
  {
    && 0 <= i < |detail|
    && !Listed(rooms, hotelRfc, detail[i])
    && forall j :: 0 <= j < i ==> Listed(rooms, hotelRfc, detail[j])
  }

  /** Passes iff every line's room type is in the catalog for the hotel;
      otherwise fails on the first line that is not. */
  method ValidateRoomTypes(rooms: map<string, StoredRoomType>, hotelRfc: string,
                           detail: seq<LineItem>) returns (r: Outcome)
    ensures r.Pass? <==> forall i :: 0 <= i < |detail| ==> Listed(rooms, hotelRfc, detail[i])
    ensures r.Fail? ==> exists i :: FirstUnlisted(rooms, hotelRfc, detail, i)
                                    && r.error == NoSuchRoomType(detail[i].kind, hotelRfc)
  {
    var i := 0;
    while i < |detail|
      invariant 0 <= i <= |detail|
      invariant forall j :: 0 <= j < i ==> Listed(rooms, hotelRfc, detail[j])
    {
      var key := Key(hotelRfc, detail[i].kind);
      if key !in rooms {
        assert FirstUnlisted(rooms, hotelRfc, detail, i);
        return Fail(NoSuchRoomType(detail[i].kind, hotelRfc));
      }
      i := i + 1;
    }
    return Pass;
  }

  // ---------------------------------------------------------------------
  // Catalog pricing
  // ---------------------------------------------------------------------

  /** One line with its cost taken from the catalog, when the catalog has
      its room type for the hotel. */
  function PriceItem(rooms: map<string, StoredRoomType>, hotelRfc: string, item: LineItem): (r: LineItem)
    ensures r.kind == item.kind && r.quantity == item.quantity
    ensures Key(hotelRfc, item.kind) in rooms ==> r.cost == rooms[Key(hotelRfc, item.kind)].cost
    ensures Key(hotelRfc, item.kind) !in rooms ==> r == item
  {
    var key := Key(hotelRfc, item.kind);
    if key in rooms then item.(cost := rooms[key].cost) else item
  }

  /** The detail with every line priced from the catalog. */
  function Priced(rooms: map<string, StoredRoomType>, hotelRfc: string, items: seq<LineItem>): (r: seq<LineItem>)
    ensures |r| == |items|
  {
    if items == [] then []
    else [PriceItem(rooms, hotelRfc, items[0])] + Priced(rooms, hotelRfc, items[1..])
  }

  /** Pricing keeps each line's room type and quantity, takes the catalog
      cost when there is one, and leaves the line alone otherwise. */
  lemma {:induction false} PricedAt(rooms: map<string, StoredRoomType>, hotelRfc: string,
                                    items: seq<LineItem>, k: nat)
    requires k < |items|
    ensures Priced(rooms, hotelRfc, items)[k] == PriceItem(rooms, hotelRfc, items[k])
    ensures Priced(rooms, hotelRfc, items)[k].kind == items[k].kind
    ensures Priced(rooms, hotelRfc, items)[k].quantity == items[k].quantity
    ensures Key(hotelRfc, items[k].kind) in rooms ==>
      Priced(rooms, hotelRfc, items)[k].cost == rooms[Key(hotelRfc, items[k].kind)].cost
    ensures Key(hotelRfc, items[k].kind) !in rooms ==>
      Priced(rooms, hotelRfc, items)[k] == items[k]
  {
    if k > 0 {
      PricedAt(rooms, hotelRfc, items[1..], k - 1);
    }
  }

  /** Pricing twice is pricing once. */
  lemma {:induction false} PricedIdempotent(rooms: map<string, StoredRoomType>, hotelRfc: string,
                                            items: seq<LineItem>)
    ensures Priced(rooms, hotelRfc, Priced(rooms, hotelRfc, items)) == Priced(rooms, hotelRfc, items)
  {
    if items != [] {
      var once := Priced(rooms, hotelRfc, items);
      assert once[1..] == Priced(rooms, hotelRfc, items[1..]);
      PricedIdempotent(rooms, hotelRfc, items[1..]);
    }
  }

  /** Once the room types have passed validation, every priced line costs
      exactly what the catalog says, and that cost is positive when the
      catalog satisfies its store invariant. */
  lemma ValidatedDetailIsCatalogPriced(rooms: map<string, StoredRoomType>, hotelRfc: string,
                                       items: seq<LineItem>)
    requires forall i :: 0 <= i < |items| ==> Key(hotelRfc, items[i].kind) in rooms
    ensures forall k :: 0 <= k < |items| ==>
      Priced(rooms, hotelRfc, items)[k].cost == rooms[Key(hotelRfc, items[k].kind)].cost
    ensures (forall key :: key in rooms ==> WellFormed(key, rooms[key])) ==>
      forall k :: 0 <= k < |items| ==> Priced(rooms, hotelRfc, items)[k].cost > 0
  {
    forall k | 0 <= k < |items|
      ensures Priced(rooms, hotelRfc, items)[k].cost == rooms[Key(hotelRfc, items[k].kind)].cost
    {
      PricedAt(rooms, hotelRfc, items, k);
    }
  }

  /** Overwrites, in place, the cost of every line whose room type the
      catalog has for the hotel, and hands back the same detail. */
  method ApplyCatalogCosts(rooms: map<string, StoredRoomType>, hotelRfc: string,
                           detail: array<LineItem>) returns (result: array<LineItem>)
    modifies detail
    ensures result == detail
    ensures detail[..] == Priced(rooms, hotelRfc, old(detail[..]))
  {
    var i := 0;
    while i < detail.Length
      invariant 0 <= i <= detail.Length
      invariant forall k :: 0 <= k < i ==> detail[k] == PriceItem(rooms, hotelRfc, old(detail[k]))
      invariant forall k :: i <= k < detail.Length ==> detail[k] == old(detail[k])
    {
      var key := Key(hotelRfc, detail[i].kind);
      if key in rooms {
        detail[i] := detail[i].(cost := rooms[key].cost);
      }
      i := i + 1;
    }
    ghost var before := old(detail[..]);
    forall k | 0 <= k < detail.Length
      ensures detail[..][k] == Priced(rooms, hotelRfc, before)[k]
    {
      PricedAt(rooms, hotelRfc, before, k);
    }
    return detail;
  }
}
