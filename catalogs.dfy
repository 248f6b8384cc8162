/** The two constant enumerations of the system: the official hotel
    classification and the room-type catalog. Each member has a short code;
    parsing a code yields the member or fails, as calling the enumeration on
    a raw value does. */
module Catalogs {
  import opened Common

  // ---------------------------------------------------------------------
  // Hotel classification (seven codes)
  // ---------------------------------------------------------------------

  datatype HotelClass =
    | SinCategoria | UnaEstrella | DosEstrellas | TresEstrellas
    | CuatroEstrellas | CincoEstrellas | GranTurismo
  {
    function Code(): string {
      match this
      case SinCategoria => "SC"
      case UnaEstrella => "1E"
      case DosEstrellas => "2E"
      case TresEstrellas => "3E"
      case CuatroEstrellas => "4E"
      case CincoEstrellas => "5E"
      case GranTurismo => "GT"
    }
  }

  const AllHotelClasses: seq<HotelClass> :=
    [SinCategoria, UnaEstrella, DosEstrellas, TresEstrellas,
     CuatroEstrellas, CincoEstrellas, GranTurismo]

  /** Looks a classification up by its code. */
  function ParseHotelClass(s: string): (r: Option<HotelClass>)
    ensures r.Some? ==> r.value.Code() == s
  {
    if s == "SC" then Some(SinCategoria)
    else if s == "1E" then Some(UnaEstrella)
    else if s == "2E" then Some(DosEstrellas)
    else if s == "3E" then Some(TresEstrellas)
    else if s == "4E" then Some(CuatroEstrellas)
    else if s == "5E" then Some(CincoEstrellas)
    else if s == "GT" then Some(GranTurismo)
    else None
  }

  /** The classification has exactly the seven listed members, each once. */
  lemma HotelClassesEnumerated()
    ensures |AllHotelClasses| == 7
    ensures forall c: HotelClass :: c in AllHotelClasses
    ensures forall i, j :: 0 <= i < j < |AllHotelClasses| ==>
      AllHotelClasses[i].Code() != AllHotelClasses[j].Code()
  {
    forall c: HotelClass ensures c in AllHotelClasses {
      match c
      case SinCategoria => assert AllHotelClasses[0] == c;
      case UnaEstrella => assert AllHotelClasses[1] == c;
      case DosEstrellas => assert AllHotelClasses[2] == c;
      case TresEstrellas => assert AllHotelClasses[3] == c;
      case CuatroEstrellas => assert AllHotelClasses[4] == c;
      case CincoEstrellas => assert AllHotelClasses[5] == c;
      case GranTurismo => assert AllHotelClasses[6] == c;
    }
  }

  /** Parsing a member's code gives back that member. */
  lemma ParseHotelClassOfCode(c: HotelClass)
    ensures ParseHotelClass(c.Code()) == Some(c)
  {
    match c
    case SinCategoria =>
    case UnaEstrella =>
    case DosEstrellas =>
    case TresEstrellas =>
    case CuatroEstrellas =>
    case CincoEstrellas =>
    case GranTurismo =>
  }

  /** Codes are pairwise distinct: no two members alias one code. */
  lemma HotelClassCodeInjective(a: HotelClass, b: HotelClass)
    requires a.Code() == b.Code()
    ensures a == b
  {
    ParseHotelClassOfCode(a);
    ParseHotelClassOfCode(b);
  }

  /** Parsing fails exactly on strings that are no member's code. */
  lemma ParseHotelClassFails(s: string)
    ensures ParseHotelClass(s).None? <==> forall c: HotelClass :: c.Code() != s
  {
    if c: HotelClass :| c.Code() == s {
      ParseHotelClassOfCode(c);
    }
  }

  // ---------------------------------------------------------------------
  // Room types (twelve codes; each code spells the member's name)
  // ---------------------------------------------------------------------

  datatype RoomKind =
    | Sencilla | Doble | Matrimonial | Triple | Cuadruple | Estandar
    | Superior | Deluxe | Ejecutiva | JuniorSuite | Suite | SuitePresidencial
  {
    function Code(): string {
      match this
      case Sencilla => "SENCILLA"
      case Doble => "DOBLE"
      case Matrimonial => "MATRIMONIAL"
      case Triple => "TRIPLE"
      case Cuadruple => "CUADRUPLE"
      case Estandar => "ESTANDAR"
      case Superior => "SUPERIOR"
      case Deluxe => "DELUXE"
      case Ejecutiva => "EJECUTIVA"
      case JuniorSuite => "JUNIOR_SUITE"
      case Suite => "SUITE"
      case SuitePresidencial => "SUITE_PRESIDENCIAL"
    }
  }

  const AllRoomKinds: seq<RoomKind> :=
    [Sencilla, Doble, Matrimonial, Triple, Cuadruple, Estandar,
     Superior, Deluxe, Ejecutiva, JuniorSuite, Suite, SuitePresidencial]

  /** Looks a room type up by its code. */
  function ParseRoomKind(s: string): (r: Option<RoomKind>)
    ensures r.Some? ==> r.value.Code() == s
  {
    if s == "SENCILLA" then Some(Sencilla)
    else if s == "DOBLE" then Some(Doble)
    else if s == "MATRIMONIAL" then Some(Matrimonial)
    else if s == "TRIPLE" then Some(Triple)
    else if s == "CUADRUPLE" then Some(Cuadruple)
    else if s == "ESTANDAR" then Some(Estandar)
    else if s == "SUPERIOR" then Some(Superior)
    else if s == "DELUXE" then Some(Deluxe)
    else if s == "EJECUTIVA" then Some(Ejecutiva)
    else if s == "JUNIOR_SUITE" then Some(JuniorSuite)
    else if s == "SUITE" then Some(Suite)
    else if s == "SUITE_PRESIDENCIAL" then Some(SuitePresidencial)
    else None
  }

  /** The room-type catalog has exactly the twelve listed members, each once. */
  lemma RoomKindsEnumerated()
    ensures |AllRoomKinds| == 12
    ensures forall k: RoomKind :: k in AllRoomKinds
    ensures forall i, j :: 0 <= i < j < |AllRoomKinds| ==>
      AllRoomKinds[i].Code() != AllRoomKinds[j].Code()
  {
    forall k: RoomKind ensures k in AllRoomKinds {
      match k
      case Sencilla => assert AllRoomKinds[0] == k;
      case Doble => assert AllRoomKinds[1] == k;
      case Matrimonial => assert AllRoomKinds[2] == k;
      case Triple => assert AllRoomKinds[3] == k;
      case Cuadruple => assert AllRoomKinds[4] == k;
      case Estandar => assert AllRoomKinds[5] == k;
      case Superior => assert AllRoomKinds[6] == k;
      case Deluxe => assert AllRoomKinds[7] == k;
      case Ejecutiva => assert AllRoomKinds[8] == k;
      case JuniorSuite => assert AllRoomKinds[9] == k;
      case Suite => assert AllRoomKinds[10] == k;
      case SuitePresidencial => assert AllRoomKinds[11] == k;
    }
  }

  /** Parsing a member's code gives back that member. */
  lemma ParseRoomKindOfCode(k: RoomKind)
    ensures ParseRoomKind(k.Code()) == Some(k)
  {
    match k
    case Sencilla =>
    case Doble =>
    case Matrimonial =>
    case Triple =>
    case Cuadruple =>
    case Estandar =>
    case Superior =>
    case Deluxe =>
    case Ejecutiva =>
    case JuniorSuite =>
    case Suite =>
    case SuitePresidencial =>
  }

  /** Codes are pairwise distinct: no two room types alias one code. */
  lemma RoomKindCodeInjective(a: RoomKind, b: RoomKind)
    requires a.Code() == b.Code()
    ensures a == b
  {
    ParseRoomKindOfCode(a);
    ParseRoomKindOfCode(b);
  }

  /** Parsing fails exactly on strings that are no member's code. */
  lemma ParseRoomKindFails(s: string)
    ensures ParseRoomKind(s).None? <==> forall k: RoomKind :: k.Code() != s
  {
    if k: RoomKind :| k.Code() == s {
      ParseRoomKindOfCode(k);
    }
  }

  /** A code outside the catalog, such as "HOSTEL", is rejected. */
  lemma HostelIsNoRoomKind()
    ensures ParseRoomKind("HOSTEL") == None
  {
    ParseRoomKindFails("HOSTEL");
  }
}
