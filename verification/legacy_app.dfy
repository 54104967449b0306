/**
 * The inline copies of the calculators kept in the top-level App component.
 * Each is written out in its own terms and related to the shared version:
 * the pace converter and the split predictor do not carry a rounded 60 and
 * the split predictor never shows hours; the detailed calculator and the
 * ladder agree exactly; the distance-unit handler writes "km" for a preset
 * and stores any unit string it is given.
 */
module LegacyApp {
  import opened Wrappers
  import opened JsNumber
  import opened Text
  import opened Units
  import opened TimeFormat
  import opened PaceConversion
  import opened DetailedPace
  import opened SplitTime
  import Ladder

  // ---- calculatePace ----

  /**
   * The legacy pace converter: the same sentinels and speeds, but the output
   * pace is `Math.floor(t / 60)` and `Math.round(t % 60)` with no carry. The
   * source's `totalHours === 0` guard is left out: LegacyHourGuardUnreachable
   * shows it cannot fire once the pace is positive.
   */
  function LegacyCalculatePace(inputMin: Option<int>, inputSec: Option<int>, isKmToMile: bool): (r: Output)
    ensures !Convert(inputMin, inputSec, isKmToMile).Converted? ==> r == CalculatePaceConversion(inputMin, inputSec, isKmToMile)
    ensures Convert(inputMin, inputSec, isKmToMile).Converted? ==>
      var c := Convert(inputMin, inputSec, isKmToMile);
      var utils := CalculatePaceConversion(inputMin, inputSec, isKmToMile);
      && ShowsUncarried(r.outputMin + ":" + r.outputSec, c.outputSeconds)
      && r.speedKmh == utils.speedKmh && r.speedMph == utils.speedMph
  {
    if inputMin.None? && inputSec.None? then Output("", "", "", "")
    else if TotalSeconds(inputMin, inputSec) <= 0 then Output("0", "00", "0.00", "0.00")
    else
      var f := LegacyFigures(inputMin, inputSec, isKmToMile);
      var pair := NoCarry(f.0);
      NoCarryShows(f.0);
      Output(IntToString(pair.minutes), PadStart2(IntToString(pair.seconds)), Fixed2(f.1), Fixed2(f.2))
  }

  /** The legacy output pace and speeds, which are the shared converter's numbers. */
  function LegacyFigures(inputMin: Option<int>, inputSec: Option<int>, isKmToMile: bool): (f: (real, real, real))
    requires !(inputMin.None? && inputSec.None?) && TotalSeconds(inputMin, inputSec) > 0
    ensures Convert(inputMin, inputSec, isKmToMile) == Converted(f.0, f.1, f.2)
    ensures f.0 > 0.0
  {
    var t := TotalSeconds(inputMin, inputSec) as real;
    var kmPerMile := KM_PER_MILE;
    var totalHours := t / 3600.0;
    LegacySpeeds(t);
    if !isKmToMile then (t * kmPerMile, 1.0 / totalHours, (1.0 / totalHours) / kmPerMile)
    else (t / kmPerMile, (1.0 / totalHours) * kmPerMile, 1.0 / totalHours)
  }

  /** One over the hours equals an hour's seconds over the pace. */
  lemma LegacySpeeds(t: real)
    requires t > 0.0
    ensures 1.0 / (t / 3600.0) == 3600.0 / t
  {
  }

  /** `totalInputSeconds / 3600` is never 0 past the `<= 0` guard. */
  lemma LegacyHourGuardUnreachable(total: int)
    requires total > 0
    ensures total as real / 3600.0 != 0.0
  {
  }

  /** The two converters disagree exactly when the uncarried seconds read 60. */
  lemma LegacyPaceDiffersOnlyAtSixty(inputMin: Option<int>, inputSec: Option<int>, isKmToMile: bool)
    requires !(inputMin.None? && inputSec.None?) && TotalSeconds(inputMin, inputSec) > 0
    ensures var t := Convert(inputMin, inputSec, isKmToMile).outputSeconds;
      LegacyCalculatePace(inputMin, inputSec, isKmToMile) == CalculatePaceConversion(inputMin, inputSec, isKmToMile)
      <==> NoCarry(t).seconds != 60
  {
    var f := LegacyFigures(inputMin, inputSec, isKmToMile);
    var t := f.0;
    var legacy := LegacyCalculatePace(inputMin, inputSec, isKmToMile);
    var utils := CalculatePaceConversion(inputMin, inputSec, isKmToMile);
    assert legacy.outputSec == PadStart2(IntToString(NoCarry(t).seconds));
    assert utils.outputSec == PadStart2(IntToString(Normalize(t).seconds));
    CarryOnlyAtSixty(t);
    if NoCarry(t).seconds == 60 {
      assert Normalize(t).seconds == 0;
      SixtyIsNotZero();
    }
  }

  lemma SixtyIsNotZero()
    ensures PadStart2(IntToString(60)) == "60" && PadStart2(IntToString(0)) == "00"
  {
    assert NatToString(6) == "6";
    assert NatToString(60) == NatToString(6) + [DigitChar(0)];
  }

  /** A 0:37 per-kilometre pace is 59.55 s per mile: the legacy copy shows it as 0:60. */
  lemma LegacyPaceShowsSixty()
    ensures NoCarry(37.0 * KM_PER_MILE) == MinSec(0, 60)
    ensures Normalize(37.0 * KM_PER_MILE) == MinSec(1, 0)
    ensures Convert(Some(0), Some(37), false).outputSeconds == 37.0 * KM_PER_MILE
  {
    assert Rem(37.0 * KM_PER_MILE, 60.0) == 37.0 * KM_PER_MILE;
  }

  // ---- calculateDetailedPace ----

  /** The legacy detailed calculator, which has the same guards, conversions and formatting as the shared one. */
  function LegacyDetailedPace(distance: Option<real>, unit: string, hours: Option<int>, minutes: Option<int>, seconds: Option<int>): (r: DetailedResult)
    ensures r == CalculateDetailedPace(distance, unit, hours, minutes, seconds)
  {
    match LegacyDetailedFigures(distance, unit, hours, minutes, seconds)
    case None => NoResult
    case Some(f) =>
      var paceKm, paceMile := f.paceSecondsPerKm, f.paceSecondsPerMile;
      DetailedResult(MinSecText(NoCarry(paceKm)), MinSecText(NoCarry(paceMile)), Fixed2(f.speedKmh), Fixed2(f.speedMph))
  }

  /** The legacy guards and arithmetic, which compute the shared calculator's figures. */
  function LegacyDetailedFigures(distance: Option<real>, unit: string, hours: Option<int>, minutes: Option<int>, seconds: Option<int>): (r: Option<Figures>)
    ensures r == DetailedFigures(distance, unit, hours, minutes, seconds)
  {
    if distance.None? || distance.value <= 0.0 || (hours.None? && minutes.None? && seconds.None?) then None
    else
      var totalSecondsInput := TimeTotal(hours, minutes, seconds);
      if totalSecondsInput <= 0 then None
      else
        var distNum := distance.value;
        var totalHours := totalSecondsInput as real / 3600.0;
        var kmPerMile := KM_PER_MILE;
        var metersPerYard := METERS_PER_YARD;
        var distanceInKm :=
          if unit == "m" then distNum / 1000.0
          else if unit == "mile" then distNum * kmPerMile
          else if unit == "yard" then distNum * metersPerYard / 1000.0
          else distNum;
        assert distanceInKm == DistanceToKm(distNum, unit);
        if distanceInKm <= 0.0 then None
        else
          var speedKmh := distanceInKm / totalHours;
          var paceSecondsPerKm := totalSecondsInput as real / distanceInKm;
          Some(Figures(distanceInKm, totalSecondsInput as real,
            speedKmh, speedKmh / kmPerMile,
            paceSecondsPerKm, paceSecondsPerKm * kmPerMile))
  }

  // ---- calculateSplitTime ----

  /** The legacy split arithmetic, branch by branch; it equals the shared one. */
  function LegacySplitSeconds(pace: real, isKmToMile: bool, d: real, unit: string): (t: real)
    requires pace > 0.0
    ensures t == SplitSeconds(pace, isKmToMile, d, unit)
  {
    var kmPerMile := KM_PER_MILE;
    var metersPerFoot := METERS_PER_FOOT;
    var metersPerYard := METERS_PER_YARD;
    if !isKmToMile then
      var paceSecondsPerKm := pace;
      if unit == "m" then paceSecondsPerKm * (d / 1000.0)
      else if unit == "mile" then paceSecondsPerKm * (d * kmPerMile)
      else if unit == "ft" then paceSecondsPerKm * (d * metersPerFoot / 1000.0)
      else if unit == "yd" then paceSecondsPerKm * (d * metersPerYard / 1000.0)
      else paceSecondsPerKm * d
    else
      var paceSecondsPerMile := pace;
      var paceSecondsPerKmEquivalent := paceSecondsPerMile / kmPerMile;
      if unit == "m" then paceSecondsPerKmEquivalent * (d / 1000.0)
      else if unit == "mile" then paceSecondsPerMile * d
      else if unit == "ft" then paceSecondsPerKmEquivalent * (d * metersPerFoot / 1000.0)
      else if unit == "yd" then paceSecondsPerKmEquivalent * (d * metersPerYard / 1000.0)
      else paceSecondsPerKmEquivalent * d
  }

  /**
   * The legacy split: the same sentinels, then `M:SS` from
   * `Math.floor(t / 60)` and `Math.round(t % 60)`, with no hour segment and
   * no carry; a NaN or infinite time shows the dashes.
   */
  function LegacySplitTime(splitMin: Option<int>, splitSec: Option<int>, isKmToMile: bool, target: Num, unit: string): (r: string)
    ensures splitMin.None? && splitSec.None? ==> r == "--:--"
    ensures !(splitMin.None? && splitSec.None?) && TotalSeconds(splitMin, splitSec) <= 0 ==> r == "0:00"
    ensures r == "--:--" <==>
      || (splitMin.None? && splitSec.None?)
      || (TotalSeconds(splitMin, splitSec) > 0 && !target.IsFinite())
    ensures TotalSeconds(splitMin, splitSec) > 0 && target.Finite? && target.value >= 0.0 ==>
      ShowsUncarried(r, SplitSeconds(TotalSeconds(splitMin, splitSec) as real, isKmToMile, target.value, unit))
  {
    if splitMin.None? && splitSec.None? then "--:--"
    else
      var inputPaceTotalSeconds := TotalSeconds(splitMin, splitSec);
      if inputPaceTotalSeconds <= 0 then "0:00"
      else
        var pace := inputPaceTotalSeconds as real;
        match target
        case Finite(d) =>
          var t := LegacySplitSeconds(pace, isKmToMile, d, unit);
          var pair := NoCarry(t);
          NumberTextIsNotDashes(Short(pair.minutes, pair.seconds));
          SplitShows(pace, isKmToMile, d, unit);
          MinSecText(pair)
        case _ => "--:--"
  }

  /** A non-negative target's split renders as `M:SS` reading back as the rounded time. */
  lemma SplitShows(pace: real, isKmToMile: bool, d: real, unit: string)
    requires pace > 0.0
    ensures d >= 0.0 ==> ShowsUncarried(MinSecText(NoCarry(SplitSeconds(pace, isKmToMile, d, unit))), SplitSeconds(pace, isKmToMile, d, unit))
  {
    if d >= 0.0 {
      SplitNonNegative(pace, isKmToMile, d, unit);
      NoCarryShows(SplitSeconds(pace, isKmToMile, d, unit));
    }
  }

  /** Below an hour the two split predictors show the same text. */
  lemma LegacySplitAgreesBelowAnHour(splitMin: Option<int>, splitSec: Option<int>, isKmToMile: bool, d: real, unit: string)
    requires TotalSeconds(splitMin, splitSec) > 0 && d >= 0.0
    requires SplitSeconds(TotalSeconds(splitMin, splitSec) as real, isKmToMile, d, unit) < 3600.0
    ensures LegacySplitTime(splitMin, splitSec, isKmToMile, Finite(d), unit) == CalculateSplitTime(splitMin, splitSec, isKmToMile, Finite(d), unit)
  {
    var pace := TotalSeconds(splitMin, splitSec) as real;
    var t := SplitSeconds(pace, isKmToMile, d, unit);
    SplitNonNegative(pace, isKmToMile, d, unit);
    assert Rem(t, 3600.0) == t;
    assert ClockOf(Finite(t)) == Short(NoCarry(t).minutes, NoCarry(t).seconds);
  }

  /** A 1:00 per-kilometre pace over 60 km: the legacy copy shows 60:00 where formatTime shows an hour. */
  lemma LegacySplitHasNoHours()
    ensures ClockOf(Finite(SplitSeconds(60.0, false, 60.0, "km"))) == Long(1, 0, 0)
    ensures NoCarry(SplitSeconds(60.0, false, 60.0, "km")) == MinSec(60, 0)
  {
    assert SplitSeconds(60.0, false, 60.0, "km") == 3600.0;
  }

  /**
   * The legacy custom-split effect: outside custom mode nothing changes; in
   * custom mode the split is calculated only for a distance above zero and a
   * non-empty pace field, and is the dashes otherwise.
   */
  function LegacyCustomSplit(splitType: SplitType, previous: string, splitMin: Option<int>, splitSec: Option<int>,
                             isKmToMile: bool, distance: Num, unit: string): (r: string)
    ensures splitType != Custom ==> r == previous
    ensures splitType == Custom && !(distance.IsPositive() && (splitMin.Some? || splitSec.Some?)) ==> r == "--:--"
    ensures splitType == Custom && distance.IsPositive() && (splitMin.Some? || splitSec.Some?) ==>
      r == LegacySplitTime(splitMin, splitSec, isKmToMile, distance, unit)
  {
    if splitType == Custom then
      if distance.IsPositive() && (splitMin.Some? || splitSec.Some?) then
        LegacySplitTime(splitMin, splitSec, isKmToMile, distance, unit)
      else "--:--"
    else previous
  }

  /**
   * In custom mode the dashes show exactly when no pace is entered, the
   * distance is not above zero, or the distance is infinite with a positive pace.
   */
  lemma LegacyCustomSplitDashes(previous: string, splitMin: Option<int>, splitSec: Option<int>,
                                isKmToMile: bool, distance: Num, unit: string)
    ensures LegacyCustomSplit(Custom, previous, splitMin, splitSec, isKmToMile, distance, unit) == "--:--" <==>
      || (splitMin.None? && splitSec.None?)
      || !distance.IsPositive()
      || (distance.Infinity? && TotalSeconds(splitMin, splitSec) > 0)
  {
  }

  // ---- handleDistanceUnitChange ----

  /**
   * The legacy unit handler: the unit is set to whatever was chosen, then a
   * preset writes its distance and resets the unit to "km".
   */
  function LegacyHandleDistanceUnitChange(st: DetailedState, newUnit: string): (r: DetailedState)
    ensures PresetKm(newUnit).Some? ==> r == st.(distance := PresetKm(newUnit), distanceUnit := "km")
    ensures PresetKm(newUnit).None? ==> r == st.(distanceUnit := newUnit)
  {
    var chosen := st.(distanceUnit := newUnit);
    if newUnit == "marathon" then chosen.(distance := Some(42.195), distanceUnit := "km")
    else if newUnit == "half-marathon" then chosen.(distance := Some(21.0975), distanceUnit := "km")
    else if newUnit == "km" || newUnit == "mile" || newUnit == "m" || newUnit == "yard" then chosen.(distanceUnit := newUnit)
    else chosen
  }

  /**
   * The two handlers agree on plain units, differ in the unit they record for
   * a preset, and differ on an unknown unit, which only the legacy one stores.
   */
  lemma UnitHandlersCompared(st: DetailedState, newUnit: string)
    ensures PlainUnit(newUnit) ==> LegacyHandleDistanceUnitChange(st, newUnit) == HandleDistanceUnitChange(st, newUnit)
    ensures PresetKm(newUnit).Some? ==>
      && LegacyHandleDistanceUnitChange(st, newUnit).distance == HandleDistanceUnitChange(st, newUnit).distance
      && LegacyHandleDistanceUnitChange(st, newUnit).distanceUnit == "km"
      && HandleDistanceUnitChange(st, newUnit).distanceUnit == newUnit
    ensures PresetKm(newUnit).None? && !PlainUnit(newUnit) && st.distanceUnit != newUnit ==>
      LegacyHandleDistanceUnitChange(st, newUnit) != HandleDistanceUnitChange(st, newUnit)
  {
  }

  /** After choosing a preset both calculators display the same figures. */
  lemma PresetPathsAgree(st: DetailedState, preset: string)
    requires PresetKm(preset).Some?
    ensures var legacy := LegacyHandleDistanceUnitChange(st, preset);
      LegacyDetailedPace(legacy.distance, legacy.distanceUnit, legacy.hours, legacy.minutes, legacy.seconds)
      == Outputs(Recalculate(HandleDistanceUnitChange(st, preset)))
  {
    SelectPresetThenRecalculate(st, preset);
  }

  // ---- generateLongDistanceData ----

  const LEGACY_DISTANCES_IN_KM := Ladder.RaceDistances(10.54875, 21.0975, 42.195)
  const LEGACY_DISTANCES_IN_MILES := Ladder.RaceDistances(6.5546875, 13.109375, 26.21875)

  /** The legacy point list: the same markers and named points from its own constants. */
  function LegacyBuildPoints(dt: DistanceType): (ps: seq<Ladder.Point>)
    ensures ps == Ladder.BuildPoints(dt)
  {
    var b := if dt == Kilometers then LEGACY_DISTANCES_IN_KM else LEGACY_DISTANCES_IN_MILES;
    var u := if dt == Kilometers then "km" else "mile";
    var maxDistance := if dt == Kilometers then 42 else 26;
    var markers := seq(maxDistance, i requires 0 <= i => Ladder.Point((i + 1) as real, Ladder.MarkerCaption(i + 1, u), u, false));
    assert markers == Ladder.Markers(dt);
    markers + [
      Ladder.Point(b.halfMarathonMidpoint, Ladder.RaceCaption(Ladder.HalfMarathonMidpoint, b.halfMarathonMidpoint, u), u, true),
      Ladder.Point(b.halfMarathon, Ladder.RaceCaption(Ladder.HalfMarathon, b.halfMarathon, u), u, true),
      Ladder.Point(b.marathon, Ladder.RaceCaption(Ladder.Marathon, b.marathon, u), u, true)]
  }

  /** The legacy ladder: the same sort and the same reducer, hence the same rows. */
  function LegacyGenerateLongDistanceData(dt: DistanceType): (r: seq<Ladder.Point>)
    ensures r == Ladder.GenerateLongDistanceData(dt)
  {
    Ladder.Dedup(Ladder.SortByDistance(LegacyBuildPoints(dt)))
  }

  /** The legacy track table equals the component's. */
  const LEGACY_TRACK_DISTANCES_METERS: seq<int> :=
    [50, 60, 100, 110, 200, 300, 400, 500, 600, 700, 800, 900, 1000, 1100, 1200, 1300, 1400, 1500]

  lemma LegacyTrackTableAgrees()
    ensures LEGACY_TRACK_DISTANCES_METERS == TRACK_DISTANCES_METERS
  {
  }
}
