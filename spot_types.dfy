/**
 * The spot record of src/types/spot.types.ts: its four enumerations with
 * their wire codes and French labels, the vehicle length range, and the
 * constraints the record schema and the form schema put on a spot.
 */
module SpotTypes {
  import opened Wrappers
  import opened JsBuiltins

  // ---------------------------------------------------------------------
  // Enumerations
  // ---------------------------------------------------------------------

  /** Service category: three services at 30 A or 50 A, two services,
      nature, chalet. */
  datatype SpotService = Eee | Eee50 | Ee | Nat | Chalet

  datatype SpotStatus = Regular | Seasonal | Backup | Group

  datatype VehicleType = Motorise | Fifthwheel | Roulotte | CampeurPorte | TenteRoulotte | Tente

  datatype GroundType = Gravel | Sable | GravelGazon | GravelSable | Asphalte | Gazon

  const AllServices: seq<SpotService> := [Eee, Eee50, Ee, Nat, Chalet]
  const AllStatuses: seq<SpotStatus> := [Regular, Seasonal, Backup, Group]
  const AllVehicleTypes: seq<VehicleType> := [Motorise, Fifthwheel, Roulotte, CampeurPorte, TenteRoulotte, Tente]
  const AllGroundTypes: seq<GroundType> := [Gravel, Sable, GravelGazon, GravelSable, Asphalte, Gazon]

  predicate Distinct<T(==)>(s: seq<T>) {
    forall i, j :: 0 <= i < j < |s| ==> s[i] != s[j]
  }

  /** Each enumeration lists every value exactly once: five services, four
      statuses, six vehicle types, six ground types. */
  lemma EnumerationsComplete(s: SpotService, t: SpotStatus, v: VehicleType, g: GroundType)
    ensures s in AllServices && |AllServices| == 5 && Distinct(AllServices)
    ensures t in AllStatuses && |AllStatuses| == 4 && Distinct(AllStatuses)
    ensures v in AllVehicleTypes && |AllVehicleTypes| == 6 && Distinct(AllVehicleTypes)
    ensures g in AllGroundTypes && |AllGroundTypes| == 6 && Distinct(AllGroundTypes)
  {
  }

  // ---------------------------------------------------------------------
  // Wire codes: z.enum([...]) accepts exactly the listed strings
  // ---------------------------------------------------------------------

  function ServiceCode(s: SpotService): string {
    match s
    case Eee => "EEE"
    case Eee50 => "EEE50"
    case Ee => "EE"
    case Nat => "NAT"
    case Chalet => "CHALET"
  }

  /** SpotServiceEnum.parse: the service whose code is `code`, if any. */
  function ParseService(code: string): (r: Option<SpotService>)
    ensures r.Some? ==> ServiceCode(r.value) == code
    ensures (exists s :: ServiceCode(s) == code) ==> r.Some?
  {
    if code == "EEE" then Some(Eee)
    else if code == "EEE50" then Some(Eee50)
    else if code == "EE" then Some(Ee)
    else if code == "NAT" then Some(Nat)
    else if code == "CHALET" then Some(Chalet)
    else None
  }

  function StatusCode(s: SpotStatus): string {
    match s
    case Regular => "REGULAR"
    case Seasonal => "SEASONAL"
    case Backup => "BACKUP"
    case Group => "GROUP"
  }

  function ParseStatus(code: string): (r: Option<SpotStatus>)
    ensures r.Some? ==> StatusCode(r.value) == code
    ensures (exists s :: StatusCode(s) == code) ==> r.Some?
  {
    if code == "REGULAR" then Some(Regular)
    else if code == "SEASONAL" then Some(Seasonal)
    else if code == "BACKUP" then Some(Backup)
    else if code == "GROUP" then Some(Group)
    else None
  }

  function VehicleTypeCode(v: VehicleType): string {
    match v
    case Motorise => "MOTORISE"
    case Fifthwheel => "FIFTHWHEEL"
    case Roulotte => "ROULOTTE"
    case CampeurPorte => "CAMPEUR_PORTE"
    case TenteRoulotte => "TENTE_ROULOTTE"
    case Tente => "TENTE"
  }

  function ParseVehicleType(code: string): (r: Option<VehicleType>)
    ensures r.Some? ==> VehicleTypeCode(r.value) == code
    ensures (exists v :: VehicleTypeCode(v) == code) ==> r.Some?
  {
    if code == "MOTORISE" then Some(Motorise)
    else if code == "FIFTHWHEEL" then Some(Fifthwheel)
    else if code == "ROULOTTE" then Some(Roulotte)
    else if code == "CAMPEUR_PORTE" then Some(CampeurPorte)
    else if code == "TENTE_ROULOTTE" then Some(TenteRoulotte)
    else if code == "TENTE" then Some(Tente)
    else None
  }

  function GroundCode(g: GroundType): string {
    match g
    case Gravel => "GRAVEL"
    case Sable => "SABLE"
    case GravelGazon => "GRAVEL_GAZON"
    case GravelSable => "GRAVEL_SABLE"
    case Asphalte => "ASPHALTE"
    case Gazon => "GAZON"
  }

  function ParseGround(code: string): (r: Option<GroundType>)
    ensures r.Some? ==> GroundCode(r.value) == code
    ensures (exists g :: GroundCode(g) == code) ==> r.Some?
  {
    if code == "GRAVEL" then Some(Gravel)
    else if code == "SABLE" then Some(Sable)
    else if code == "GRAVEL_GAZON" then Some(GravelGazon)
    else if code == "GRAVEL_SABLE" then Some(GravelSable)
    else if code == "ASPHALTE" then Some(Asphalte)
    else if code == "GAZON" then Some(Gazon)
    else None
  }

  /** Parsing a value's code gives the value back, so no two values share
      a code. */
  lemma CodesRoundTrip(s: SpotService, t: SpotStatus, v: VehicleType, g: GroundType)
    ensures ParseService(ServiceCode(s)) == Some(s)
    ensures ParseStatus(StatusCode(t)) == Some(t)
    ensures ParseVehicleType(VehicleTypeCode(v)) == Some(v)
    ensures ParseGround(GroundCode(g)) == Some(g)
  {
  }

  // ---------------------------------------------------------------------
  // Label maps: each Record<Enum, string> is total over its enumeration
  // ---------------------------------------------------------------------

  function ServiceLabel(s: SpotService): (text: string)
    ensures text != []
  {
    match s
    case Eee => "3 services (30A)"
    case Eee50 => "3 services (50A)"
    case Ee => "2 services"
    case Nat => "Nature"
    case Chalet => "Chalet"
  }

  function VehicleTypeLabel(v: VehicleType): (text: string)
    ensures text != []
  {
    match v
    case Motorise => "Motoris\U{E9}"
    case Fifthwheel => "Fifth-wheel"
    case Roulotte => "Roulotte"
    case CampeurPorte => "Campeur port\U{E9}"
    case TenteRoulotte => "Tente-roulotte"
    case Tente => "Tente"
  }

  function GroundLabel(g: GroundType): (text: string)
    ensures text != []
  {
    match g
    case Gravel => "Gravier"
    case Sable => "Sable"
    case GravelGazon => "Gravier/Gazon"
    case GravelSable => "Gravier/Sable"
    case Asphalte => "Asphalte"
    case Gazon => "Gazon"
  }

  function StatusLabel(s: SpotStatus): (text: string)
    ensures text != []
  {
    match s
    case Regular => "R\U{E9}gulier"
    case Seasonal => "Saisonnier"
    case Backup => "Backup"
    case Group => "Groupe"
  }

  /** Within each label map, different values have different labels. */
  lemma LabelsDistinct(s1: SpotService, s2: SpotService, v1: VehicleType, v2: VehicleType,
                       g1: GroundType, g2: GroundType, t1: SpotStatus, t2: SpotStatus)
    ensures ServiceLabel(s1) == ServiceLabel(s2) ==> s1 == s2
    ensures VehicleTypeLabel(v1) == VehicleTypeLabel(v2) ==> v1 == v2
    ensures GroundLabel(g1) == GroundLabel(g2) ==> g1 == g2
    ensures StatusLabel(t1) == StatusLabel(t2) ==> t1 == t2
  {
  }

  // ---------------------------------------------------------------------
  // Records and their schemas
  // ---------------------------------------------------------------------

  /** A vehicle length range in feet; `Option<LengthRange>` is the nullable
      VehicleLengthRange. */
  datatype LengthRange = LengthRange(min: real, max: real)

  /** VehicleLengthRangeSchema: null, or both ends non-negative. The schema
      does not ask for min <= max. */
  predicate ValidLengthRange(r: Option<LengthRange>) {
    r.None? || (r.value.min >= 0.0 && r.value.max >= 0.0)
  }

  datatype Spot = Spot(
    id: string,
    number: real,
    service: SpotService,
    status: SpotStatus,
    longueur: Option<real>,
    largeur: Option<real>,
    soleil: Option<real>,
    motoriseRange: Option<LengthRange>,
    fifthwheelRange: Option<LengthRange>,
    roulotteRange: Option<LengthRange>,
    campeurPorte: bool,
    tenteRoulotte: bool,
    tente: bool,
    sol: Option<GroundType>,
    particularite: Option<string>,
    pricePerNight: real,
    isActive: bool,
    createdAt: string,
    updatedAt: string)

  /** SpotSchema: an integer number, valid ranges, a non-negative price. */
  predicate ValidSpot(s: Spot) {
    && IsInteger(s.number)
    && ValidLengthRange(s.motoriseRange)
    && ValidLengthRange(s.fifthwheelRange)
    && ValidLengthRange(s.roulotteRange)
    && s.pricePerNight >= 0.0
  }

  datatype SpotForm = SpotForm(
    number: real,
    service: SpotService,
    status: SpotStatus,
    longueur: Option<real>,
    largeur: Option<real>,
    soleil: Option<real>,
    motoriseRange: Option<LengthRange>,
    fifthwheelRange: Option<LengthRange>,
    roulotteRange: Option<LengthRange>,
    campeurPorte: bool,
    tenteRoulotte: bool,
    tente: bool,
    sol: Option<GroundType>,
    particularite: Option<string>,
    pricePerNight: real,
    isActive: bool)

  /** SpotFormSchema: an integer number of at least 1, a sun exposure that is
      null or a percentage, valid ranges, a non-negative price. */
  predicate ValidSpotForm(f: SpotForm) {
    && IsInteger(f.number) && f.number >= 1.0
    && (f.soleil.None? || 0.0 <= f.soleil.value <= 100.0)
    && ValidLengthRange(f.motoriseRange)
    && ValidLengthRange(f.fifthwheelRange)
    && ValidLengthRange(f.roulotteRange)
    && f.pricePerNight >= 0.0
  }

  /** The form schema is at least as strict as the record schema: a spot
      that carries the fields of a valid form is a valid spot, whatever its
      id and timestamps. */
  lemma ValidFormGivesValidSpot(f: SpotForm, s: Spot)
    requires ValidSpotForm(f)
    requires s.number == f.number && s.pricePerNight == f.pricePerNight
    requires s.motoriseRange == f.motoriseRange && s.fifthwheelRange == f.fifthwheelRange
    requires s.roulotteRange == f.roulotteRange
    ensures ValidSpot(s)
  {
  }

  /** The record schema is strictly weaker: it admits a spot number of 0
      and a sun exposure above 100 that the form rejects. */
  lemma SpotSchemaWeakerThanForm()
    ensures var r := Some(LengthRange(30.0, 20.0));
            var f := SpotForm(0.0, Eee, Regular, None, None, Some(150.0), r, None, None,
                              false, false, false, None, None, 40.0, true);
            var s := Spot("s1", 0.0, Eee, Regular, None, None, Some(150.0), r, None, None,
                          false, false, false, None, None, 40.0, true, "", "");
            ValidSpot(s) && !ValidSpotForm(f) && ValidLengthRange(r)
  {
    assert (0.0).Floor == 0;
  }
}
