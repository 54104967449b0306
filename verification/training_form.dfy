/**
 * useTrainingPlanForm: the four form fields, their validation messages, the
 * race-date effect that fills the two week counters, and the validity flag.
 * A parsed race date is a whole day number (for the counters) or an instant
 * in milliseconds (for the "in the future" check); `None` stands for a date
 * string that does not parse, which JavaScript turns into NaN.
 */
module TrainingForm {
  import opened Wrappers
  import opened JsNumber
  import opened Text
  import opened Calendar

  datatype Field = Race | TrainingsPerWeek | TargetPace | RaceDate

  /** The `errors` record: a missing entry and `undefined` are both `None`. */
  datatype Errors = Errors(race: Option<string>, trainingsPerWeek: Option<string>, targetPace: Option<string>, raceDate: Option<string>)

  /** The form state; the counters are `null` until a race date is entered. */
  datatype FormState = FormState(
    race: string,
    trainingsPerWeek: string,
    targetPace: string,
    raceDate: string,
    weeksBeforeRace: Option<Num>,
    fullWeeksBeforeRace: Option<int>,
    errors: Errors)

  const NO_ERRORS := Errors(None, None, None, None)
  const INITIAL := FormState("", "", "", "", None, None, NO_ERRORS)

  const RACE_REQUIRED := "Please select a race distance"
  const TRAININGS_REQUIRED := "Please select number of trainings per week"
  const PACE_REQUIRED := "Please select a target pace"
  const PACE_FORMAT := "Target pace must be in format M:SS"
  const DATE_REQUIRED := "Race date is required"
  const DATE_IN_PAST := "Race date must be in the future"
  const DATE_TOO_SOON := "Race date should be at least 4 weeks from today"

  function ValueOf(st: FormState, f: Field): string {
    match f
    case Race => st.race
    case TrainingsPerWeek => st.trainingsPerWeek
    case TargetPace => st.targetPace
    case RaceDate => st.raceDate
  }

  function ErrorOf(e: Errors, f: Field): Option<string> {
    match f
    case Race => e.race
    case TrainingsPerWeek => e.trainingsPerWeek
    case TargetPace => e.targetPace
    case RaceDate => e.raceDate
  }

  /** `/^\d{1}:\d{2}$/`: one digit, a colon, two digits, nothing else. */
  predicate IsPaceFormat(s: string) {
    |s| == 4 && IsDigit(s[0]) && s[1] == ':' && IsDigit(s[2]) && IsDigit(s[3])
  }

  /** The pattern matches exactly the strings spelled from three digits around a colon. */
  lemma PaceFormatSpelled(s: string)
    ensures IsPaceFormat(s) <==>
      exists m: nat, t: nat, u: nat | m < 10 && t < 10 && u < 10 :: s == [DigitChar(m), ':', DigitChar(t), DigitChar(u)]
  {
    if IsPaceFormat(s) {
      var m, t, u := DigitValue(s[0]), DigitValue(s[2]), DigitValue(s[3]);
      assert s == [DigitChar(m), ':', DigitChar(t), DigitChar(u)];
    }
  }

  /** What validateField accepts; a date that does not parse compares false against now and so passes. */
  predicate Accepts(f: Field, value: string, parsedDate: Option<int>, now: int) {
    && value != ""
    && (f == TargetPace ==> IsPaceFormat(value))
    && (f == RaceDate ==> parsedDate.None? || parsedDate.value > now)
  }

  function RequiredMessage(f: Field): string {
    match f
    case Race => RACE_REQUIRED
    case TrainingsPerWeek => TRAININGS_REQUIRED
    case TargetPace => PACE_REQUIRED
    case RaceDate => DATE_REQUIRED
  }

  /** validateField: an error message, or `None` for an accepted value. */
  function ValidateField(f: Field, value: string, parsedDate: Option<int>, now: int): (r: Option<string>)
    ensures r.None? <==> Accepts(f, value, parsedDate, now)
    ensures value == "" ==> r == Some(RequiredMessage(f))
    ensures r.Some? ==> |r.value| > 0
    ensures f == TargetPace && value != "" && !IsPaceFormat(value) ==> r == Some(PACE_FORMAT)
    ensures f == RaceDate && value != "" && parsedDate.Some? && parsedDate.value <= now ==> r == Some(DATE_IN_PAST)
  {
    match f
    case Race => if value == "" then Some(RACE_REQUIRED) else None
    case TrainingsPerWeek => if value == "" then Some(TRAININGS_REQUIRED) else None
    case TargetPace =>
      if value == "" then Some(PACE_REQUIRED)
      else if IsPaceFormat(value) then None
      else Some(PACE_FORMAT)
    case RaceDate =>
      if value == "" then Some(DATE_REQUIRED)
      else if parsedDate.Some? && parsedDate.value <= now then Some(DATE_IN_PAST)
      else None
  }

  /** handleInputChange: stores the value and its validation result under the named field. */
  function HandleInputChange(st: FormState, f: Field, value: string, parsedDate: Option<int>, now: int): (r: FormState)
    ensures ValueOf(r, f) == value
    ensures ErrorOf(r.errors, f) == ValidateField(f, value, parsedDate, now)
    ensures forall g :: g != f ==> ValueOf(r, g) == ValueOf(st, g)
    ensures forall g :: g != f ==> ErrorOf(r.errors, g) == ErrorOf(st.errors, g)
    ensures r.weeksBeforeRace == st.weeksBeforeRace && r.fullWeeksBeforeRace == st.fullWeeksBeforeRace
  {
    var error := ValidateField(f, value, parsedDate, now);
    match f
    case Race => st.(race := value, errors := st.errors.(race := error))
    case TrainingsPerWeek => st.(trainingsPerWeek := value, errors := st.errors.(trainingsPerWeek := error))
    case TargetPace => st.(targetPace := value, errors := st.errors.(targetPace := error))
    case RaceDate => st.(raceDate := value, errors := st.errors.(raceDate := error))
  }

  /** `!error`: `undefined` and the empty string are falsy. */
  predicate Falsy(e: Option<string>) {
    e.None? || e.value == ""
  }

  /** isValid: every error falsy and the four fields filled in. */
  function IsValid(st: FormState): (b: bool)
    ensures b <==> forall f :: Falsy(ErrorOf(st.errors, f)) && ValueOf(st, f) != ""
  {
    var e := st.errors;
    FieldwiseValidity(st);
    && Falsy(e.race) && Falsy(e.trainingsPerWeek) && Falsy(e.targetPace) && Falsy(e.raceDate)
    && st.race != "" && st.trainingsPerWeek != "" && st.targetPace != "" && st.raceDate != ""
  }

  lemma FieldwiseValidity(st: FormState)
    ensures (forall f :: Falsy(ErrorOf(st.errors, f)) && ValueOf(st, f) != "") <==>
      && Falsy(st.errors.race) && Falsy(st.errors.trainingsPerWeek) && Falsy(st.errors.targetPace) && Falsy(st.errors.raceDate)
      && st.race != "" && st.trainingsPerWeek != "" && st.targetPace != "" && st.raceDate != ""
  {
    assert ValueOf(st, Race) == st.race && ValueOf(st, TrainingsPerWeek) == st.trainingsPerWeek;
    assert ValueOf(st, TargetPace) == st.targetPace && ValueOf(st, RaceDate) == st.raceDate;
  }

  lemma InitialIsInvalid()
    ensures !IsValid(INITIAL)
  {
    assert ValueOf(INITIAL, Race) == "";
  }

  /** A rejected value always leaves the form invalid. */
  lemma RejectedValueInvalidates(st: FormState, f: Field, value: string, parsedDate: Option<int>, now: int)
    requires !Accepts(f, value, parsedDate, now)
    ensures !IsValid(HandleInputChange(st, f, value, parsedDate, now))
  {
    var r := HandleInputChange(st, f, value, parsedDate, now);
    assert !Falsy(ErrorOf(r.errors, f));
  }

  /** An accepted value keeps a valid form valid. */
  lemma AcceptedValueKeepsValidity(st: FormState, f: Field, value: string, parsedDate: Option<int>, now: int)
    requires IsValid(st) && Accepts(f, value, parsedDate, now)
    ensures IsValid(HandleInputChange(st, f, value, parsedDate, now))
  {
    var r := HandleInputChange(st, f, value, parsedDate, now);
    forall g
      ensures Falsy(ErrorOf(r.errors, g)) && ValueOf(r, g) != ""
    {
      if g != f {
        assert ErrorOf(r.errors, g) == ErrorOf(st.errors, g) && ValueOf(r, g) == ValueOf(st, g);
      }
    }
  }

  /** Filling the four fields in with accepted values makes a fresh form valid. */
  lemma FillingInValidates(race: string, trainings: string, pace: string, date: string, parsedDate: Option<int>, now: int)
    requires Accepts(Race, race, parsedDate, now) && Accepts(TrainingsPerWeek, trainings, parsedDate, now)
    requires Accepts(TargetPace, pace, parsedDate, now) && Accepts(RaceDate, date, parsedDate, now)
    ensures
      var s1 := HandleInputChange(INITIAL, Race, race, parsedDate, now);
      var s2 := HandleInputChange(s1, TrainingsPerWeek, trainings, parsedDate, now);
      var s3 := HandleInputChange(s2, TargetPace, pace, parsedDate, now);
      IsValid(HandleInputChange(s3, RaceDate, date, parsedDate, now))
  {
  }

  /**
   * The race-date effect: with a non-empty race date it sets the rounded-up
   * week count, the clamped Monday-to-Monday count and the "4 weeks" error.
   * `raceDay` is the parsed race day, `None` when the string does not parse;
   * `today` is the current day.
   */
  function RaceDateEffect(st: FormState, raceDay: Option<int>, today: int): (r: FormState)
    ensures st.raceDate == "" ==> r == st
    ensures forall f :: ValueOf(r, f) == ValueOf(st, f)
    ensures forall f :: f != RaceDate ==> ErrorOf(r.errors, f) == ErrorOf(st.errors, f)
    ensures st.raceDate != "" ==> r.fullWeeksBeforeRace.Some? && r.fullWeeksBeforeRace.value >= 0
    ensures st.raceDate != "" && raceDay.Some? ==>
      && r.weeksBeforeRace == Some(Finite(WeeksBeforeRace(raceDay.value, today) as real))
      && r.fullWeeksBeforeRace == Some(FullWeeksBeforeRace(raceDay.value, today))
      && (r.errors.raceDate == Some(DATE_TOO_SOON) <==> raceDay.value - today <= 21)
      && (r.errors.raceDate.None? <==> raceDay.value - today > 21)
    ensures st.raceDate != "" && raceDay.None? ==>
      r.weeksBeforeRace == Some(NaN) && r.fullWeeksBeforeRace == Some(0) && r.errors.raceDate.None?
  {
    if st.raceDate == "" then st
    else match raceDay
      case None =>
        st.(weeksBeforeRace := Some(NaN), fullWeeksBeforeRace := Some(0), errors := st.errors.(raceDate := None))
      case Some(day) =>
        var weeks := WeeksBeforeRace(day, today);
        st.(weeksBeforeRace := Some(Finite(weeks as real)),
            fullWeeksBeforeRace := Some(FullWeeksBeforeRace(day, today)),
            errors := st.errors.(raceDate := if weeks < 4 then Some(DATE_TOO_SOON) else None))
  }

  /** After the effect a valid form's race is more than three weeks away. */
  lemma ValidAfterEffectMeansFarEnough(st: FormState, raceDay: int, today: int)
    requires IsValid(RaceDateEffect(st, Some(raceDay), today))
    ensures raceDay - today > 21
    ensures RaceDateEffect(st, Some(raceDay), today).fullWeeksBeforeRace.value >= 3
  {
    var r := RaceDateEffect(st, Some(raceDay), today);
    assert ValueOf(r, RaceDate) != "" && Falsy(ErrorOf(r.errors, RaceDate));
    FullWeeksBetween(raceDay, today);
  }
}
