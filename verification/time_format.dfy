/**
 * Turning a count of seconds into minutes and seconds (normalizeTime, with a
 * carry), into the same pair without the carry (the pace fields of the
 * detailed calculator and the legacy copies), and into a clock string
 * (formatTime, with an hour segment and no carry).
 */
module TimeFormat {
  import opened JsNumber
  import opened Text

  datatype MinSec = MinSec(minutes: int, seconds: int)

  /** normalizeTime: whole minutes and rounded seconds, a rounded 60 carried into the minutes. */
  function Normalize(t: real): (r: MinSec)
    ensures t >= 0.0 ==> r.minutes >= 0 && 0 <= r.seconds <= 59
    ensures t >= 0.0 ==> r.minutes * 60 + r.seconds == Round(t)
  {
    var minutes := (t / 60.0).Floor;
    var seconds := Round(Rem(t, 60.0));
    RoundShift(Rem(t, 60.0), 60 * minutes);
    if seconds == 60 then MinSec(minutes + 1, 0) else MinSec(minutes, seconds)
  }

  /** `Math.floor(t / 60)` and `Math.round(t % 60)` with no carry: the seconds may read 60. */
  function NoCarry(t: real): (r: MinSec)
    ensures t >= 0.0 ==> r.minutes >= 0 && 0 <= r.seconds <= 60
    ensures t >= 0.0 ==> r.minutes * 60 + r.seconds == Round(t)
    ensures r.minutes == (t / 60.0).Floor
  {
    var minutes := (t / 60.0).Floor;
    RoundShift(Rem(t, 60.0), 60 * minutes);
    MinSec(minutes, Round(Rem(t, 60.0)))
  }

  /** `${minutes}:${seconds.toString().padStart(2, '0')}`. */
  function MinSecText(m: MinSec): string {
    IntToString(m.minutes) + ":" + PadStart2(IntToString(m.seconds))
  }

  /**
   * `text` is a minutes field without leading zeros, a colon and two digits for at most 60 seconds,
   * which read back as `total` seconds.
   */
  predicate ShowsMinutesSeconds(text: string, total: int) {
    && |text| >= 4 && text[|text| - 3] == ':'
    && AllDigits(text[..|text| - 3]) && AllDigits(text[|text| - 2..])
    && (|text| > 4 ==> text[0] != '0')
    && DigitsValue(text[|text| - 2..]) <= 60
    && 60 * DigitsValue(text[..|text| - 3]) + DigitsValue(text[|text| - 2..]) == total
  }

  /**
   * `text` shows `t` seconds without a carry: it reads back as round(t), and
   * its minutes field holds the whole minutes elapsed, so the seconds field
   * reads 60 whenever the rounding reaches the next minute.
   */
  predicate ShowsUncarried(text: string, t: real) {
    && ShowsMinutesSeconds(text, Round(t))
    && DigitsValue(text[..|text| - 3]) == (t / 60.0).Floor
  }

  /** The uncarried pair of a non-negative count renders as `M:SS` without a carry. */
  lemma NoCarryShows(t: real)
    requires t >= 0.0
    ensures ShowsMinutesSeconds(MinSecText(NoCarry(t)), Round(t))
    ensures ShowsUncarried(MinSecText(NoCarry(t)), t)
  {
    var n := NoCarry(t);
    PairShows(n.minutes, n.seconds);
  }

  /** The seconds field of an uncarried text is the uncarried seconds, 60 included. */
  lemma UncarriedSeconds(text: string, t: real)
    requires t >= 0.0 && ShowsUncarried(text, t)
    ensures DigitsValue(text[|text| - 2..]) == NoCarry(t).seconds
    ensures DigitsValue(text[..|text| - 3]) == NoCarry(t).minutes
  {
  }

  /** Where the carry fires, the carried text is not an uncarried rendering. */
  lemma CarriedTextIsNotUncarried(t: real)
    requires t >= 0.0 && NoCarry(t).seconds == 60
    ensures !ShowsUncarried(MinSecText(Normalize(t)), t)
  {
    var n := Normalize(t);
    CarryOnlyAtSixty(t);
    assert n.minutes == NoCarry(t).minutes + 1 && n.seconds == 0;
    PairShows(n.minutes, n.seconds);
  }

  lemma PairShows(minutes: nat, seconds: nat)
    requires seconds <= 60
    ensures ShowsMinutesSeconds(MinSecText(MinSec(minutes, seconds)), 60 * minutes + seconds)
    ensures var text := MinSecText(MinSec(minutes, seconds)); DigitsValue(text[..|text| - 3]) == minutes
  {
    var m := NatToString(minutes);
    var s := PadStart2(NatToString(seconds));
    NatToStringRoundTrip(minutes);
    PaddedRoundTrip(seconds);
    var text := MinSecText(MinSec(minutes, seconds));
    assert text == m + ":" + s;
    assert text[..|text| - 3] == m && text[|text| - 2..] == s;
  }

  /** The carry changes the pair exactly when the uncarried seconds read 60, and never the total. */
  lemma CarryOnlyAtSixty(t: real)
    requires t >= 0.0
    ensures Normalize(t) == NoCarry(t) <==> NoCarry(t).seconds != 60
    ensures Normalize(t).minutes * 60 + Normalize(t).seconds == NoCarry(t).minutes * 60 + NoCarry(t).seconds
  {
  }

  /** What formatTime shows: the dashes sentinel, `M:SS`, or `H:MM:SS`. */
  datatype Clock =
    | Dashes
    | Short(minutes: int, seconds: int)
    | Long(hours: int, minutes: int, seconds: int)

  /** The number of seconds a clock reading stands for. */
  function ClockTotal(c: Clock): int {
    match c
    case Dashes => 0
    case Short(m, s) => 60 * m + s
    case Long(h, m, s) => 3600 * h + 60 * m + s
  }

  /** The fields formatTime computes before rendering them. */
  function ClockOf(t: Num): (c: Clock)
    ensures c.Dashes? <==> !t.IsFinite()
    ensures t.Finite? && t.value >= 0.0 ==> (c.Long? <==> (t.value / 3600.0).Floor > 0)
    ensures c.Long? ==> c.hours > 0 && 0 <= c.minutes <= 59
    ensures t.Finite? && t.value >= 0.0 && !c.Dashes? ==>
      && c.minutes >= 0 && 0 <= c.seconds <= 60
      && ClockTotal(c) == Round(t.value)
      && ClockTotal(c) - c.seconds == 60 * (t.value / 60.0).Floor
  {
    match t
    case Finite(v) =>
      var hours := (v / 3600.0).Floor;
      var minutes := (Rem(v, 3600.0) / 60.0).Floor;
      var seconds := Round(Rem(v, 60.0));
      ClockArithmetic(v);
      if hours > 0 then Long(hours, minutes, seconds) else Short(minutes, seconds)
    case _ => Dashes
  }

  /** For a non-negative count the three fields add back up to the rounded count. */
  lemma ClockArithmetic(v: real)
    ensures v >= 0.0 ==>
      var hours := (v / 3600.0).Floor;
      var minutes := (Rem(v, 3600.0) / 60.0).Floor;
      && 0 <= minutes <= 59
      && 60 * hours + minutes == (v / 60.0).Floor
      && 3600 * hours + 60 * minutes + Round(Rem(v, 60.0)) == Round(v)
  {
    if v >= 0.0 {
      var hours := (v / 3600.0).Floor;
      var r := Rem(v, 3600.0);
      var minutes := (r / 60.0).Floor;
      assert v == 3600.0 * hours as real + r;
      var q := 60 * hours + minutes;
      assert q as real <= v / 60.0 < q as real + 1.0;
      assert (v / 60.0).Floor == q;
      assert Rem(v, 60.0) == v - 60.0 * q as real;
      RoundShift(Rem(v, 60.0), 60 * q);
    }
  }

  function ClockText(c: Clock): string {
    match c
    case Dashes => "--:--"
    case Short(m, s) => IntToString(m) + ":" + PadStart2(IntToString(s))
    case Long(h, m, s) => IntToString(h) + ":" + PadStart2(IntToString(m)) + ":" + PadStart2(IntToString(s))
  }

  /** formatTime: the dashes exactly for NaN and the infinities, a clock reading otherwise. */
  function FormatTime(t: Num): (s: string)
    ensures s == "--:--" <==> !t.IsFinite()
    ensures t.IsFinite() ==> s == ClockText(ClockOf(t))
  {
    var c := ClockOf(t);
    if c.Dashes? then ClockText(c)
    else
      NumberTextIsNotDashes(c);
      ClockText(c)
  }

  /** A rendered reading starts with a digit, or with a minus sign and a digit. */
  lemma NumberTextIsNotDashes(c: Clock)
    requires !c.Dashes?
    ensures ClockText(c) != "--:--"
  {
    var first := if c.Short? then c.minutes else c.hours;
    var text := ClockText(c);
    var lead := IntToString(first);
    assert text[..|lead|] == lead;
    if first >= 0 {
      assert text[0] == lead[0];
    } else {
      assert text[1] == lead[1];
    }
  }

  /** formatTime does not carry: 59.5 seconds shows as `0:60`. */
  lemma FormatTimeShowsSixty()
    ensures FormatTime(Finite(59.5)) == "0:60"
  {
    assert ClockOf(Finite(59.5)) == Short(0, 60);
    assert IntToString(60) == "60";
  }

  /** The hour segment appears from 3600 seconds on. */
  lemma FormatTimeHourSegment()
    ensures FormatTime(Finite(3600.0)) == "1:00:00"
    ensures FormatTime(Finite(3599.0)) == "59:59"
  {
    assert ClockOf(Finite(3600.0)) == Long(1, 0, 0);
    assert ClockOf(Finite(3599.0)) == Short(59, 59);
    assert IntToString(59) == "59";
  }
}
