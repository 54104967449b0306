/**
 * calculateDetailedPace (a distance and a time give both paces and both
 * speeds) and the DetailedPaceCalculator component around it: the unit
 * selector and the effect that resolves the race presets to kilometres.
 */
module DetailedPace {
  import opened Wrappers
  import opened JsNumber
  import opened Text
  import opened Units
  import opened TimeFormat

  /** The units the distance switch knows; every other unit string is read as kilometres. */
  function DetailedUnit(unit: string): LengthUnit {
    if unit == "m" then Meter
    else if unit == "mile" then Mile
    else if unit == "yard" then Yard
    else Kilometer
  }

  /** The switch on distanceUnit: metres, miles and yards converted, anything else kept as is. */
  function DistanceToKm(d: real, unit: string): (km: real)
    ensures km == d * KmPer(DetailedUnit(unit))
    ensures d > 0.0 ==> km > 0.0
  {
    if unit == "m" then d / 1000.0
    else if unit == "mile" then d * KM_PER_MILE
    else if unit == "yard" then (d * METERS_PER_YARD) / 1000.0
    else d
  }

  /** `parseInt(hours || '0') * 3600 + parseInt(minutes || '0') * 60 + parseInt(seconds || '0')`. */
  function TimeTotal(hours: Option<int>, minutes: Option<int>, seconds: Option<int>): int {
    hours.GetOr(0) * 3600 + minutes.GetOr(0) * 60 + seconds.GetOr(0)
  }

  /**
   * The four guards that make the calculator show nothing: a distance that is
   * not a positive number, three empty time fields, a time of at most zero, a
   * converted distance of at most zero.
   */
  predicate Rejected(distance: Option<real>, unit: string, hours: Option<int>, minutes: Option<int>, seconds: Option<int>) {
    || distance.None? || distance.value <= 0.0
    || (hours.None? && minutes.None? && seconds.None?)
    || TimeTotal(hours, minutes, seconds) <= 0
    || DistanceToKm(distance.value, unit) <= 0.0
  }

  datatype Figures = Figures(
    distanceKm: real, totalSeconds: real,
    speedKmh: real, speedMph: real,
    paceSecondsPerKm: real, paceSecondsPerMile: real)

  /** The numbers behind the four output fields, or None when a guard rejects the input. */
  function DetailedFigures(distance: Option<real>, unit: string, hours: Option<int>, minutes: Option<int>, seconds: Option<int>): (r: Option<Figures>)
    ensures r.None? <==> Rejected(distance, unit, hours, minutes, seconds)
    ensures r.Some? ==>
      var f := r.value;
      && f.distanceKm == distance.value * KmPer(DetailedUnit(unit)) && f.distanceKm > 0.0
      && f.totalSeconds == TimeTotal(hours, minutes, seconds) as real && f.totalSeconds > 0.0
      && f.paceSecondsPerKm * f.distanceKm == f.totalSeconds
      && f.speedKmh * f.paceSecondsPerKm == 3600.0
      && f.paceSecondsPerMile == f.paceSecondsPerKm * KM_PER_MILE
      && f.speedKmh == f.speedMph * KM_PER_MILE
      && f.paceSecondsPerKm > 0.0 && f.speedKmh > 0.0 && f.speedMph > 0.0
  {
    if distance.None? || distance.value <= 0.0 || (hours.None? && minutes.None? && seconds.None?) then None
    else
      var total := TimeTotal(hours, minutes, seconds);
      if total <= 0 then None
      else
        var distanceInKm := DistanceToKm(distance.value, unit);
        if distanceInKm <= 0.0 then None
        else Some(FiguresOf(total as real, distanceInKm))
  }

  /** The speeds and paces of `totalSeconds` over `distanceInKm`, in both unit families. */
  function FiguresOf(totalSeconds: real, distanceInKm: real): (f: Figures)
    requires totalSeconds > 0.0 && distanceInKm > 0.0
    ensures f.distanceKm == distanceInKm && f.totalSeconds == totalSeconds
    ensures f.paceSecondsPerKm * f.distanceKm == f.totalSeconds
    ensures f.speedKmh * f.paceSecondsPerKm == 3600.0
    ensures f.paceSecondsPerMile == f.paceSecondsPerKm * KM_PER_MILE
    ensures f.speedKmh == f.speedMph * KM_PER_MILE
    ensures f.paceSecondsPerKm > 0.0 && f.speedKmh > 0.0 && f.speedMph > 0.0
  {
    var totalHours := totalSeconds / 3600.0;
    var speedKmh := distanceInKm / totalHours;
    var paceSecondsPerKm := totalSeconds / distanceInKm;
    QuotientProducts(totalSeconds, distanceInKm);
    Figures(distanceInKm, totalSeconds,
      speedKmh, speedKmh / KM_PER_MILE,
      paceSecondsPerKm, paceSecondsPerKm * KM_PER_MILE)
  }

  /** Speed is distance per hour and pace is seconds per kilometre, so their product is an hour. */
  lemma QuotientProducts(t: real, d: real)
    requires t > 0.0 && d > 0.0
    ensures (t / d) * d == t && t / d > 0.0
    ensures (d / (t / 3600.0)) * (t / d) == 3600.0 && d / (t / 3600.0) > 0.0
  {
    var h := t / 3600.0;
    var p := t / d;
    var v := d / h;
    assert p * d == t;
    assert v * h == d;
    assert v * p * d == v * t;
    assert v * t == 3600.0 * v * h;
  }

  /** The distance guard after the conversion never fires: a positive distance stays positive. */
  lemma KmGuardNeverFires(distance: Option<real>, unit: string, hours: Option<int>, minutes: Option<int>, seconds: Option<int>)
    ensures Rejected(distance, unit, hours, minutes, seconds) <==>
      || distance.None? || distance.value <= 0.0
      || (hours.None? && minutes.None? && seconds.None?)
      || TimeTotal(hours, minutes, seconds) <= 0
  {
  }

  /** The four text fields of the calculator. */
  datatype DetailedResult = DetailedResult(
    calculatedPaceKm: string, calculatedPaceMile: string,
    calculatedSpeedKmh: string, calculatedSpeedMph: string)

  const NoResult := DetailedResult("", "", "", "")

  /**
   * calculateDetailedPace: both paces as `minutes:seconds` with neither a carry
   * nor an hour segment, both speeds with two decimals.
   */
  function CalculateDetailedPace(distance: Option<real>, unit: string, hours: Option<int>, minutes: Option<int>, seconds: Option<int>): (r: DetailedResult)
    ensures r == NoResult <==> Rejected(distance, unit, hours, minutes, seconds)
    ensures !Rejected(distance, unit, hours, minutes, seconds) ==>
      var f := DetailedFigures(distance, unit, hours, minutes, seconds).value;
      && ShowsUncarried(r.calculatedPaceKm, f.paceSecondsPerKm)
      && ShowsUncarried(r.calculatedPaceMile, f.paceSecondsPerMile)
      && ShowsHundredths(r.calculatedSpeedKmh, f.speedKmh)
      && ShowsHundredths(r.calculatedSpeedMph, f.speedMph)
  {
    match DetailedFigures(distance, unit, hours, minutes, seconds)
    case None => NoResult
    case Some(f) =>
      var paceKm := NoCarry(f.paceSecondsPerKm);
      var paceMile := NoCarry(f.paceSecondsPerMile);
      NoCarryShows(f.paceSecondsPerKm);
      NoCarryShows(f.paceSecondsPerMile);
      DetailedResult(MinSecText(paceKm), MinSecText(paceMile), Fixed2(f.speedKmh), Fixed2(f.speedMph))
  }

  /** 10 km in 50 minutes is 5:00 per km, 8:03 per mile, 12.00 km/h. */
  lemma TenKmInFiftyMinutes()
    ensures CalculateDetailedPace(Some(10.0), "km", None, Some(50), None).calculatedPaceKm == "5:00"
    ensures CalculateDetailedPace(Some(10.0), "km", None, Some(50), None).calculatedPaceMile == "8:03"
    ensures CalculateDetailedPace(Some(10.0), "km", None, Some(50), None).calculatedSpeedKmh == "12.00"
  {
    TenKmFigures();
    TenKmTexts();
  }

  lemma TenKmTexts()
    ensures MinSecText(NoCarry(300.0)) == "5:00"
    ensures MinSecText(NoCarry(482.802)) == "8:03"
    ensures Fixed2(12.0) == "12.00"
  {
    assert NoCarry(300.0) == MinSec(5, 0);
    assert NoCarry(482.802) == MinSec(8, 3);
    assert MinSecText(MinSec(5, 0)) == "5:00";
    assert MinSecText(MinSec(8, 3)) == "8:03";
    assert Fixed2(12.0) == "12.00" by {
      assert Hundredths(12.0) == 1200;
      assert NatToString(12) == "12";
    }
  }

  lemma TenKmFigures()
    ensures DetailedFigures(Some(10.0), "km", None, Some(50), None)
      == Some(Figures(10.0, 3000.0, 12.0, 12.0 / KM_PER_MILE, 300.0, 482.802))
  {
  }

  // ---- The DetailedPaceCalculator component ----

  /** The calculator's state: time fields, the distance as parseFloat reads it, the unit, the outputs. */
  datatype DetailedState = DetailedState(
    hours: Option<int>, minutes: Option<int>, seconds: Option<int>,
    distance: Option<real>, distanceUnit: string,
    calculatedPaceKm: string, calculatedPaceMile: string,
    calculatedSpeedKmh: string, calculatedSpeedMph: string)

  /** The race presets and their fixed distances in kilometres. */
  function PresetKm(unit: string): Option<real> {
    if unit == "marathon" then Some(42.195)
    else if unit == "half-marathon" then Some(21.0975)
    else None
  }

  /** The plain units the selector accepts. */
  predicate PlainUnit(unit: string) {
    unit in ["km", "mile", "m", "yard"]
  }

  /**
   * handleDistanceUnitChange: a preset writes its distance and keeps the preset
   * name as the unit; a plain unit changes only the unit; anything else changes nothing.
   */
  function HandleDistanceUnitChange(st: DetailedState, newUnit: string): (r: DetailedState)
    ensures PresetKm(newUnit).Some? ==> r == st.(distance := PresetKm(newUnit), distanceUnit := newUnit)
    ensures PlainUnit(newUnit) ==> r == st.(distanceUnit := newUnit)
    ensures PresetKm(newUnit).None? && !PlainUnit(newUnit) ==> r == st
  {
    if newUnit == "marathon" then st.(distance := Some(42.195), distanceUnit := newUnit)
    else if newUnit == "half-marathon" then st.(distance := Some(21.0975), distanceUnit := newUnit)
    else if newUnit in ["km", "mile", "m", "yard"] then st.(distanceUnit := newUnit)
    else st
  }

  /** The effect's choice of what to calculate with: a preset becomes its distance in kilometres. */
  function CalculationInput(st: DetailedState): (r: (Option<real>, string))
    ensures PresetKm(st.distanceUnit).Some? ==> r == (PresetKm(st.distanceUnit), "km")
    ensures PresetKm(st.distanceUnit).None? ==> r == (st.distance, st.distanceUnit)
  {
    if st.distanceUnit == "marathon" then (Some(42.195), "km")
    else if st.distanceUnit == "half-marathon" then (Some(21.0975), "km")
    else (st.distance, st.distanceUnit)
  }

  /** The fields the user edits. */
  function Inputs(st: DetailedState): (Option<int>, Option<int>, Option<int>, Option<real>, string) {
    (st.hours, st.minutes, st.seconds, st.distance, st.distanceUnit)
  }

  /** The fields the effect writes. */
  function Outputs(st: DetailedState): DetailedResult {
    DetailedResult(st.calculatedPaceKm, st.calculatedPaceMile, st.calculatedSpeedKmh, st.calculatedSpeedMph)
  }

  /**
   * The effect: the four calculated fields are overwritten and the inputs left
   * alone; a preset is calculated as its fixed distance in kilometres.
   */
  function Recalculate(st: DetailedState): (r: DetailedState)
    ensures Inputs(r) == Inputs(st)
    ensures Outputs(r) == CalculateDetailedPace(CalculationInput(st).0, CalculationInput(st).1, st.hours, st.minutes, st.seconds)
  {
    var input := CalculationInput(st);
    WithOutputs(st, CalculateDetailedPace(input.0, input.1, st.hours, st.minutes, st.seconds))
  }

  /** `setState(prev => ({...prev, <the four calculated fields>}))`. */
  function WithOutputs(st: DetailedState, res: DetailedResult): (r: DetailedState)
    ensures Inputs(r) == Inputs(st) && Outputs(r) == res
  {
    st.(calculatedPaceKm := res.calculatedPaceKm, calculatedPaceMile := res.calculatedPaceMile,
        calculatedSpeedKmh := res.calculatedSpeedKmh, calculatedSpeedMph := res.calculatedSpeedMph)
  }

  /** With a preset selected the typed distance plays no part in the result. */
  lemma PresetIgnoresTypedDistance(st: DetailedState, typed: Option<real>)
    requires PresetKm(st.distanceUnit).Some?
    ensures Outputs(Recalculate(st.(distance := typed))) == Outputs(Recalculate(st))
  {
  }

  /** Choosing a preset and recalculating gives the pace for the preset's kilometres. */
  lemma SelectPresetThenRecalculate(st: DetailedState, preset: string)
    requires PresetKm(preset).Some?
    ensures var r := Recalculate(HandleDistanceUnitChange(st, preset));
      && Outputs(r) == CalculateDetailedPace(PresetKm(preset), "km", st.hours, st.minutes, st.seconds)
      && r.distanceUnit == preset && r.distance == PresetKm(preset)
  {
  }
}
