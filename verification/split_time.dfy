/**
 * calculateSplitTime: the elapsed time a pace gives for a target distance in
 * metres, kilometres, miles, feet or yards; the track distance table; and the
 * SplitTimeCalculator's pace-unit toggle, which recomputes a custom split.
 */
module SplitTime {
  import opened Wrappers
  import opened JsNumber
  import opened Units
  import opened TimeFormat
  import PaceConversion
  import DetailedPace

  /** The target units the switch knows; every other unit string takes the kilometre branch. */
  function SplitUnit(unit: string): LengthUnit {
    if unit == "m" then Meter
    else if unit == "mile" then Mile
    else if unit == "ft" then Foot
    else if unit == "yd" then Yard
    else Kilometer
  }

  /** Seconds per kilometre implied by the entered pace (per km when `isKmToMile` is false). */
  function PacePerKm(pace: real, isKmToMile: bool): real {
    if PaceConversion.InputUnit(isKmToMile) == PaceConversion.PerKm then pace else pace / KM_PER_MILE
  }

  /**
   * The branch arithmetic of the split: whatever branch is taken, the time is
   * the target converted to kilometres times the pace per kilometre.
   */
  function SplitSeconds(pace: real, isKmToMile: bool, d: real, unit: string): (t: real)
    requires pace > 0.0
    ensures t == d * KmPer(SplitUnit(unit)) * PacePerKm(pace, isKmToMile)
  {
    if !isKmToMile then
      var paceSecondsPerKm := pace;
      if unit == "m" then paceSecondsPerKm * (d / 1000.0)
      else if unit == "mile" then paceSecondsPerKm * (d * KM_PER_MILE)
      else if unit == "ft" then paceSecondsPerKm * (d * METERS_PER_FOOT / 1000.0)
      else if unit == "yd" then paceSecondsPerKm * (d * METERS_PER_YARD / 1000.0)
      else paceSecondsPerKm * d
    else
      var paceSecondsPerMile := pace;
      var paceSecondsPerKmEquivalent := paceSecondsPerMile / KM_PER_MILE;
      if unit == "m" then paceSecondsPerKmEquivalent * (d / 1000.0)
      else if unit == "mile" then
        assert paceSecondsPerKmEquivalent * KM_PER_MILE == paceSecondsPerMile;
        paceSecondsPerMile * d
      else if unit == "ft" then paceSecondsPerKmEquivalent * (d * METERS_PER_FOOT / 1000.0)
      else if unit == "yd" then paceSecondsPerKmEquivalent * (d * METERS_PER_YARD / 1000.0)
      else paceSecondsPerKmEquivalent * d
  }

  /** The split on a JavaScript number: NaN and the infinities pass through the multiplication. */
  function SplitNum(pace: real, isKmToMile: bool, target: Num, unit: string): (t: Num)
    requires pace > 0.0
    ensures target.Finite? ==> t == Finite(SplitSeconds(pace, isKmToMile, target.value, unit))
    ensures t.IsFinite() <==> target.IsFinite()
  {
    match target
    case Finite(d) => Finite(SplitSeconds(pace, isKmToMile, d, unit))
    case _ => Scale(KmPer(SplitUnit(unit)) * PacePerKm(pace, isKmToMile), target)
  }

  /** calculateSplitTime. */
  function CalculateSplitTime(splitMin: Option<int>, splitSec: Option<int>, isKmToMile: bool, target: Num, unit: string): (r: string)
    ensures splitMin.None? && splitSec.None? ==> r == "--:--"
    ensures !(splitMin.None? && splitSec.None?) && PaceConversion.TotalSeconds(splitMin, splitSec) <= 0 ==> r == "0:00"
    ensures r == "--:--" <==>
      || (splitMin.None? && splitSec.None?)
      || (PaceConversion.TotalSeconds(splitMin, splitSec) > 0 && !target.IsFinite())
    ensures PaceConversion.TotalSeconds(splitMin, splitSec) > 0 && target.Finite? && target.value >= 0.0 ==>
      var c := ClockOf(SplitNum(PaceConversion.TotalSeconds(splitMin, splitSec) as real, isKmToMile, target, unit));
      && r == ClockText(c)
      && ClockTotal(c) == Round(SplitSeconds(PaceConversion.TotalSeconds(splitMin, splitSec) as real, isKmToMile, target.value, unit))
  {
    if splitMin.None? && splitSec.None? then "--:--"
    else
      var inputPaceTotalSeconds := PaceConversion.TotalSeconds(splitMin, splitSec);
      if inputPaceTotalSeconds <= 0 then "0:00"
      else
        var pace := inputPaceTotalSeconds as real;
        if target.Finite? && target.value >= 0.0 then
          SplitNonNegative(pace, isKmToMile, target.value, unit);
          FormatTime(SplitNum(pace, isKmToMile, target, unit))
        else FormatTime(SplitNum(pace, isKmToMile, target, unit))
  }

  /** A non-negative target takes a non-negative time. */
  lemma SplitNonNegative(pace: real, isKmToMile: bool, d: real, unit: string)
    requires pace > 0.0 && d >= 0.0
    ensures SplitSeconds(pace, isKmToMile, d, unit) >= 0.0
  {
    var k := KmPer(SplitUnit(unit)) * PacePerKm(pace, isKmToMile);
    assert k > 0.0;
    assert SplitSeconds(pace, isKmToMile, d, unit) == d * k;
  }

  /** For a fixed pace and unit the split grows with the target distance. */
  lemma SplitMonotone(pace: real, isKmToMile: bool, d1: real, d2: real, unit: string)
    requires pace > 0.0 && d1 <= d2
    ensures SplitSeconds(pace, isKmToMile, d1, unit) <= SplitSeconds(pace, isKmToMile, d2, unit)
  {
    var k := KmPer(SplitUnit(unit)) * PacePerKm(pace, isKmToMile);
    assert k > 0.0;
    assert SplitSeconds(pace, isKmToMile, d1, unit) == d1 * k;
    assert SplitSeconds(pace, isKmToMile, d2, unit) == d2 * k;
    assert d2 * k - d1 * k == (d2 - d1) * k;
    assert (d2 - d1) * k >= 0.0;
  }

  /** 1000 metres take as long as 1 kilometre. */
  lemma ThousandMetresIsOneKm(pace: real, isKmToMile: bool, d: real)
    requires pace > 0.0
    ensures SplitSeconds(pace, isKmToMile, 1000.0 * d, "m") == SplitSeconds(pace, isKmToMile, d, "km")
  {
  }

  /** A per-mile pace over `n` miles is exactly `n` times the pace. */
  lemma MilesAtMilePace(pace: real, n: real)
    requires pace > 0.0
    ensures SplitSeconds(pace, true, n, "mile") == pace * n
  {
  }

  /** A unit the switch does not list is treated as kilometres. */
  lemma UnknownUnitIsKm(pace: real, isKmToMile: bool, d: real, unit: string)
    requires pace > 0.0 && unit !in ["m", "mile", "ft", "yd"]
    ensures SplitSeconds(pace, isKmToMile, d, unit) == SplitSeconds(pace, isKmToMile, d, "km")
  {
  }

  /** The split and the detailed calculator agree on what a mile and a yard are in kilometres. */
  lemma AgreesWithDetailedDistance(pace: real, d: real)
    requires pace > 0.0
    ensures SplitSeconds(pace, false, d, "mile") == pace * DetailedPace.DistanceToKm(d, "mile")
    ensures SplitSeconds(pace, false, d, "yd") == pace * DetailedPace.DistanceToKm(d, "yard")
    ensures SplitSeconds(pace, false, d, "m") == pace * DetailedPace.DistanceToKm(d, "m")
  {
  }

  /** 5:00 per km over 400 m is 2:00; an empty pace shows dashes and a zero pace 0:00. */
  lemma SplitScenarios()
    ensures CalculateSplitTime(Some(5), Some(0), false, Finite(400.0), "m") == "2:00"
    ensures CalculateSplitTime(None, None, false, Finite(400.0), "m") == "--:--"
    ensures CalculateSplitTime(Some(0), Some(0), false, Finite(400.0), "m") == "0:00"
  {
    assert SplitSeconds(300.0, false, 400.0, "m") == 120.0;
    assert ClockOf(Finite(120.0)) == Short(2, 0);
  }

  // ---- The track table ----

  const TRACK_DISTANCES_METERS: seq<int> :=
    [50, 60, 100, 110, 200, 300, 400, 500, 600, 700, 800, 900, 1000, 1100, 1200, 1300, 1400, 1500]

  /** The track distances are listed strictly ascending. */
  lemma TrackDistancesAscending()
    ensures forall i, j :: 0 <= i < j < |TRACK_DISTANCES_METERS| ==> TRACK_DISTANCES_METERS[i] < TRACK_DISTANCES_METERS[j]
  {
  }

  /** Down the track table the split times strictly increase for any positive pace. */
  lemma TrackSplitsIncrease(pace: real, isKmToMile: bool, i: int, j: int)
    requires pace > 0.0 && 0 <= i < j < |TRACK_DISTANCES_METERS|
    ensures SplitSeconds(pace, isKmToMile, TRACK_DISTANCES_METERS[i] as real, "m")
          < SplitSeconds(pace, isKmToMile, TRACK_DISTANCES_METERS[j] as real, "m")
  {
    TrackDistancesAscending();
    SplitStrictlyMonotone(pace, isKmToMile, TRACK_DISTANCES_METERS[i] as real, TRACK_DISTANCES_METERS[j] as real, "m");
  }

  lemma SplitStrictlyMonotone(pace: real, isKmToMile: bool, d1: real, d2: real, unit: string)
    requires pace > 0.0 && d1 < d2
    ensures SplitSeconds(pace, isKmToMile, d1, unit) < SplitSeconds(pace, isKmToMile, d2, unit)
  {
    var k := KmPer(SplitUnit(unit)) * PacePerKm(pace, isKmToMile);
    assert k > 0.0;
    assert (d2 - d1) * k > 0.0;
    assert SplitSeconds(pace, isKmToMile, d2, unit) - SplitSeconds(pace, isKmToMile, d1, unit) == (d2 - d1) * k;
  }

  // ---- The SplitTimeCalculator state and its pace-unit toggle ----

  datatype SplitType = Track | LongDistance | Custom

  datatype DistanceType = Kilometers | Miles

  /**
   * The calculator's state.  `customDistance` is None for an empty field and
   * otherwise what parseFloat reads from the text.
   */
  datatype SplitState = SplitState(
    splitMin: Option<int>, splitSec: Option<int>,
    splitType: SplitType, distanceType: DistanceType,
    customDistance: Option<Num>, customDistanceUnit: string,
    calculatedCustomSplit: string, splitIsKmToMile: bool)

  /** The custom split the state's own fields call for. */
  function CustomSplitOf(st: SplitState): string
    requires st.customDistance.Some?
  {
    CalculateSplitTime(st.splitMin, st.splitSec, st.splitIsKmToMile, st.customDistance.value, st.customDistanceUnit)
  }

  /**
   * handlePaceUnitChange: the flag flips, and in custom mode with a distance
   * typed the custom split is recomputed with the flipped flag.
   */
  function HandlePaceUnitChange(st: SplitState): (r: SplitState)
    ensures r.splitIsKmToMile == !st.splitIsKmToMile
    ensures r.(splitIsKmToMile := st.splitIsKmToMile, calculatedCustomSplit := st.calculatedCustomSplit) == st
    ensures st.splitType == Custom && st.customDistance.Some? ==> r.calculatedCustomSplit == CustomSplitOf(r)
    ensures !(st.splitType == Custom && st.customDistance.Some?) ==> r.calculatedCustomSplit == st.calculatedCustomSplit
  {
    var newIsKmToMile := !st.splitIsKmToMile;
    var flipped := st.(splitIsKmToMile := newIsKmToMile);
    if st.splitType == Custom && st.customDistance.Some? then
      var newSplitTime := CalculateSplitTime(st.splitMin, st.splitSec, newIsKmToMile,
        st.customDistance.value, st.customDistanceUnit);
      flipped.(calculatedCustomSplit := newSplitTime)
    else flipped
  }

  /** Toggling twice restores a state whose custom split was up to date. */
  lemma ToggleTwice(st: SplitState)
    requires st.splitType == Custom && st.customDistance.Some? && st.calculatedCustomSplit == CustomSplitOf(st)
    ensures HandlePaceUnitChange(HandlePaceUnitChange(st)) == st
  {
  }
}
