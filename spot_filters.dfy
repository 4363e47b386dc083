/**
 * Vehicle eligibility of src/utils/spot-filters.ts. Three vehicle types are
 * "ranged": a spot takes them when it has a length range for them, and then
 * only vehicles whose length lies in that range. The other three are
 * "boolean": a flag on the spot says whether it takes them, at any length.
 */
module SpotFilters {
  import opened Wrappers
  import opened SpotTypes

  const RangedVehicleTypes: seq<VehicleType> := [Motorise, Fifthwheel, Roulotte]
  const BooleanVehicleTypes: seq<VehicleType> := [CampeurPorte, TenteRoulotte, Tente]

  /** Every vehicle type in display order: the ranged ones, then the boolean ones. */
  const AllVehicleTypes: seq<VehicleType> := RangedVehicleTypes + BooleanVehicleTypes

  /** getVehicleRange: the spot's range for a ranged type, null otherwise. */
  function VehicleRange(spot: Spot, vehicleType: VehicleType): (r: Option<LengthRange>)
    ensures vehicleType in BooleanVehicleTypes ==> r == None
  {
    match vehicleType
    case Motorise => spot.motoriseRange
    case Fifthwheel => spot.fifthwheelRange
    case Roulotte => spot.roulotteRange
    case _ => None
  }

  /** The flag that governs a boolean type. */
  function VehicleFlag(spot: Spot, vehicleType: VehicleType): bool
    requires vehicleType in BooleanVehicleTypes
  {
    match vehicleType
    case CampeurPorte => spot.campeurPorte
    case TenteRoulotte => spot.tenteRoulotte
    case Tente => spot.tente
  }

  /** spotAcceptsVehicleType: a ranged type is accepted exactly when the
      spot has a range for it, a boolean type exactly when its flag is set. */
  function AcceptsVehicleType(spot: Spot, vehicleType: VehicleType): (ok: bool)
    ensures vehicleType in RangedVehicleTypes ==> (ok <==> VehicleRange(spot, vehicleType).Some?)
    ensures vehicleType in BooleanVehicleTypes ==> (ok <==> VehicleFlag(spot, vehicleType))
  {
    match vehicleType
    case Motorise => spot.motoriseRange != None
    case Fifthwheel => spot.fifthwheelRange != None
    case Roulotte => spot.roulotteRange != None
    case CampeurPorte => spot.campeurPorte
    case TenteRoulotte => spot.tenteRoulotte
    case Tente => spot.tente
  }

  /** spotAcceptsVehicleLength: the type must be accepted; a ranged type
      also needs min <= length <= max, ends included. */
  function AcceptsVehicleLength(spot: Spot, vehicleType: VehicleType, length: real): (ok: bool)
    ensures ok ==> AcceptsVehicleType(spot, vehicleType)
  {
    if !AcceptsVehicleType(spot, vehicleType) then false
    else
      var range := VehicleRange(spot, vehicleType);
      if range.None? then true
      else range.value.min <= length <= range.value.max
  }

  /** Every vehicle type is ranged or boolean and never both; the display
      order lists six distinct types. */
  lemma VehicleTypesPartitioned(v: VehicleType)
    ensures v in RangedVehicleTypes <==> v !in BooleanVehicleTypes
    ensures v in AllVehicleTypes
    ensures |AllVehicleTypes| == 6 && Distinct(AllVehicleTypes)
    ensures AllVehicleTypes == SpotTypes.AllVehicleTypes
  {
  }

  /** An accepted boolean type is accepted at every length. */
  lemma BooleanTypeAnyLength(spot: Spot, v: VehicleType, length: real)
    requires v in BooleanVehicleTypes
    ensures AcceptsVehicleLength(spot, v, length) <==> VehicleFlag(spot, v)
  {
  }

  /** A ranged type is accepted at a length exactly when the spot has a
      range for it and the length lies within it, both ends included. */
  lemma RangedTypeLength(spot: Spot, v: VehicleType, length: real)
    requires v in RangedVehicleTypes
    ensures AcceptsVehicleLength(spot, v, length)
        <==> (VehicleRange(spot, v).Some?
              && VehicleRange(spot, v).value.min <= length <= VehicleRange(spot, v).value.max)
  {
  }

  /** A spot with a motorised range 20..35 takes a 30-foot motorised
      vehicle and one at either end of the range, but not a 40-foot one,
      and takes no tent when its tent flag is not set. */
  lemma EligibilityExample(spot: Spot)
    requires spot.motoriseRange == Some(LengthRange(20.0, 35.0)) && !spot.tente
    ensures AcceptsVehicleLength(spot, Motorise, 30.0)
    ensures AcceptsVehicleLength(spot, Motorise, 20.0) && AcceptsVehicleLength(spot, Motorise, 35.0)
    ensures !AcceptsVehicleLength(spot, Motorise, 40.0)
    ensures !AcceptsVehicleType(spot, Tente)
  {
  }

  /** The schema allows a range whose min exceeds its max; such a range makes
      the type accepted but no length acceptable. */
  lemma InvertedRangeAcceptsNoLength(spot: Spot, v: VehicleType, length: real)
    requires v in RangedVehicleTypes
    requires VehicleRange(spot, v).Some? && VehicleRange(spot, v).value.min > VehicleRange(spot, v).value.max
    ensures AcceptsVehicleType(spot, v) && !AcceptsVehicleLength(spot, v, length)
  {
  }
}
