/**
 * calculatePaceConversion: one pace, per kilometre or per mile, turned into
 * the pace per the other unit and both speeds.
 */
module PaceConversion {
  import opened Wrappers
  import opened JsNumber
  import opened Text
  import opened Units
  import opened TimeFormat

  /** The unit the entered pace is measured against. */
  datatype PaceUnit = PerKm | PerMile

  /** The toggle is named backwards: `isKmToMile == false` means the entered pace is per kilometre. */
  function InputUnit(isKmToMile: bool): (u: PaceUnit)
    ensures u == PerKm <==> !isKmToMile
  {
    if !isKmToMile then PerKm else PerMile
  }

  /** `parseInt(min || '0') * 60 + parseInt(sec || '0')`: an empty field counts as zero. */
  function TotalSeconds(min: Option<int>, sec: Option<int>): int {
    min.GetOr(0) * 60 + sec.GetOr(0)
  }

  /** The numbers behind the four output fields. */
  datatype Conversion =
    | AwaitingInput
    | ZeroPace
    | Converted(outputSeconds: real, speedKmh: real, speedMph: real)

  function Convert(inputMin: Option<int>, inputSec: Option<int>, isKmToMile: bool): (c: Conversion)
    ensures c.AwaitingInput? <==> inputMin.None? && inputSec.None?
    ensures c.ZeroPace? <==> !(inputMin.None? && inputSec.None?) && TotalSeconds(inputMin, inputSec) <= 0
    ensures c.Converted? ==>
      var t := TotalSeconds(inputMin, inputSec) as real;
      && t > 0.0 && c.outputSeconds > 0.0 && c.speedKmh > 0.0 && c.speedMph > 0.0
      && c.speedKmh == c.speedMph * KM_PER_MILE
      && (InputUnit(isKmToMile) == PerKm ==> c.speedKmh * t == 3600.0 && c.outputSeconds == t * KM_PER_MILE)
      && (InputUnit(isKmToMile) == PerMile ==> c.speedMph * t == 3600.0 && c.outputSeconds * KM_PER_MILE == t)
  {
    if inputMin.None? && inputSec.None? then AwaitingInput
    else
      var total := TotalSeconds(inputMin, inputSec);
      if total <= 0 then ZeroPace
      else
        var t := total as real;
        if !isKmToMile then
          var speedKmh := (60.0 * 60.0) / t;
          Converted(t * KM_PER_MILE, speedKmh, speedKmh / KM_PER_MILE)
        else
          var speedMph := (60.0 * 60.0) / t;
          Converted(t / KM_PER_MILE, speedMph * KM_PER_MILE, speedMph)
  }

  /** The four text fields of the converter. */
  datatype Output = Output(outputMin: string, outputSec: string, speedKmh: string, speedMph: string)

  /** calculatePaceConversion. */
  function CalculatePaceConversion(inputMin: Option<int>, inputSec: Option<int>, isKmToMile: bool): (r: Output)
    ensures inputMin.None? && inputSec.None? ==> r == Output("", "", "", "")
    ensures !(inputMin.None? && inputSec.None?) && TotalSeconds(inputMin, inputSec) <= 0 ==>
      r == Output("0", "00", "0.00", "0.00")
    ensures Convert(inputMin, inputSec, isKmToMile).Converted? ==>
      var c := Convert(inputMin, inputSec, isKmToMile);
      && ShowsMinSec(r.outputMin, r.outputSec, Round(c.outputSeconds))
      && ShowsHundredths(r.speedKmh, c.speedKmh)
      && ShowsHundredths(r.speedMph, c.speedMph)
  {
    match Convert(inputMin, inputSec, isKmToMile)
    case AwaitingInput => Output("", "", "", "")
    case ZeroPace => Output("0", "00", "0.00", "0.00")
    case Converted(outputSeconds, speedKmh, speedMph) =>
      var n := Normalize(outputSeconds);
      NormalizedShows(outputSeconds);
      Output(IntToString(n.minutes), PadStart2(IntToString(n.seconds)), Fixed2(speedKmh), Fixed2(speedMph))
  }

  /** The carried pair of a non-negative count renders as fields that read back as its rounding. */
  lemma NormalizedShows(t: real)
    requires t >= 0.0
    ensures var n := Normalize(t);
      ShowsMinSec(IntToString(n.minutes), PadStart2(IntToString(n.seconds)), Round(t))
  {
    var n := Normalize(t);
    NatToStringRoundTrip(n.minutes);
    PaddedRoundTrip(n.seconds);
  }

  /** A minutes field without leading zeros and a two-digit seconds field below 60 that read back as `total` seconds. */
  predicate ShowsMinSec(min: string, sec: string, total: int) {
    && 1 <= |min| && AllDigits(min) && (|min| > 1 ==> min[0] != '0')
    && |sec| == 2 && AllDigits(sec) && DigitsValue(sec) <= 59
    && 60 * DigitsValue(min) + DigitsValue(sec) == total
  }

  /** The converted pace read back as numbers, the way the form fields would feed it in again. */
  function ReadBack(r: Output): (Option<int>, Option<int>)
  {
    (AsField(ParseDigits(r.outputMin)), AsField(ParseDigits(r.outputSec)))
  }

  function AsField(n: Num): Option<int> {
    if n.Finite? then Some(n.value.Floor) else None
  }

  /** Rounding `t * KM_PER_MILE` and dividing back lands within a third of a second of `t`. */
  lemma PerKmArithmetic(t: int)
    requires t > 0
    ensures Round(Round(t as real * KM_PER_MILE) as real / KM_PER_MILE) == t
    ensures Round(t as real * KM_PER_MILE) > 0
  {
  }

  /** Rounding `t / KM_PER_MILE` and multiplying back lands within one second of `t`. */
  lemma PerMileArithmetic(t: int)
    requires t > 0
    ensures t - 1 <= Round(Round(t as real / KM_PER_MILE) as real * KM_PER_MILE) <= t + 1
    ensures Round(t as real / KM_PER_MILE) > 0
  {
  }

  /**
   * A whole per-km pace converted to per mile, and the displayed per-mile pace
   * converted back, shows the original pace to the second.
   */
  lemma PerKmRoundTrip(inputMin: int, inputSec: int)
    requires inputMin * 60 + inputSec > 0
    ensures
      var there := CalculatePaceConversion(Some(inputMin), Some(inputSec), false);
      var (m, s) := ReadBack(there);
      var back := CalculatePaceConversion(m, s, true);
      var (m', s') := ReadBack(back);
      m'.Some? && s'.Some? && m'.value * 60 + s'.value == inputMin * 60 + inputSec
  {
    var t := inputMin * 60 + inputSec;
    PerKmArithmetic(t);
    ConvertedReadBack(Some(inputMin), Some(inputSec), false);
    var (m, s) := ReadBack(CalculatePaceConversion(Some(inputMin), Some(inputSec), false));
    ConvertedReadBack(m, s, true);
  }

  /** Converting a whole per-mile pace to per km and back is off by at most one second. */
  lemma PerMileRoundTrip(inputMin: int, inputSec: int)
    requires inputMin * 60 + inputSec > 0
    ensures
      var there := CalculatePaceConversion(Some(inputMin), Some(inputSec), true);
      var (m, s) := ReadBack(there);
      var back := CalculatePaceConversion(m, s, false);
      var (m', s') := ReadBack(back);
      && m'.Some? && s'.Some?
      && inputMin * 60 + inputSec - 1 <= m'.value * 60 + s'.value <= inputMin * 60 + inputSec + 1
  {
    var t := inputMin * 60 + inputSec;
    PerMileArithmetic(t);
    ConvertedReadBack(Some(inputMin), Some(inputSec), true);
    var (m, s) := ReadBack(CalculatePaceConversion(Some(inputMin), Some(inputSec), true));
    ConvertedReadBack(m, s, false);
  }

  /** A converted pace reads back as present fields worth its rounded output seconds. */
  lemma ConvertedReadBack(inputMin: Option<int>, inputSec: Option<int>, isKmToMile: bool)
    requires !(inputMin.None? && inputSec.None?) && TotalSeconds(inputMin, inputSec) > 0
    ensures var (m, s) := ReadBack(CalculatePaceConversion(inputMin, inputSec, isKmToMile));
      && m.Some? && s.Some?
      && m.value * 60 + s.value == Round(Convert(inputMin, inputSec, isKmToMile).outputSeconds)
  {
    var c := Convert(inputMin, inputSec, isKmToMile);
    assert c.Converted?;
    ReadBackShows(CalculatePaceConversion(inputMin, inputSec, isKmToMile), Round(c.outputSeconds));
  }

  /** Fields that show `total` seconds read back as present numbers adding up to `total`. */
  lemma ReadBackShows(r: Output, total: int)
    requires ShowsMinSec(r.outputMin, r.outputSec, total)
    ensures var (m, s) := ReadBack(r);
      m.Some? && s.Some? && m.value * 60 + s.value == total
  {
  }
}
