/**
 * The fixed conversion factors every calculator shares (CONVERSION_FACTORS),
 * and the canonical table of how many kilometres one of each length unit is.
 * Every distance conversion in the calculators goes through kilometres.
 */
module Units {

  const KM_PER_MILE: real := 1.60934
  const METERS_PER_FOOT: real := 0.3048
  const METERS_PER_YARD: real := 0.9144

  datatype LengthUnit = Meter | Kilometer | Mile | Foot | Yard

  /** Kilometres in one unit of each kind. */
  function KmPer(u: LengthUnit): (k: real)
    ensures k > 0.0
  {
    match u
    case Meter => 1.0 / 1000.0
    case Kilometer => 1.0
    case Mile => KM_PER_MILE
    case Foot => METERS_PER_FOOT / 1000.0
    case Yard => METERS_PER_YARD / 1000.0
  }
}
