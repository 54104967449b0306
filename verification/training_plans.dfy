/**
 * The TrainingPlans page: the target-pace options, the plan lookup in the
 * nested race → pace → trainings-per-week table, and the submit and render
 * guards.
 */
module TrainingPlans {
  import opened Wrappers
  import opened Text
  import opened TrainingForm
  import opened PlanDisplay

  /** `${min}:${sec.toString().padStart(2, '0')}`. */
  function PaceLabel(minutes: nat, seconds: nat): string {
    NatToString(minutes) + ":" + PadStart2(NatToString(seconds))
  }

  /** The seconds a label in `M:SS` form stands for. */
  function PaceSeconds(s: string): nat
    requires IsPaceFormat(s)
  {
    60 * DigitValue(s[0]) + DigitsValue(s[2..])
  }

  /** A one-digit minute and seconds below 60 give a label the form accepts, reading back as the total. */
  lemma PaceLabelReadsBack(minutes: nat, seconds: nat)
    requires minutes < 10 && seconds < 60
    ensures IsPaceFormat(PaceLabel(minutes, seconds))
    ensures DigitsValue(PaceLabel(minutes, seconds)[2..]) == seconds
    ensures PaceSeconds(PaceLabel(minutes, seconds)) == 60 * minutes + seconds
  {
    var p := PadStart2(NatToString(seconds));
    PaddedRoundTrip(seconds);
    var s := PaceLabel(minutes, seconds);
    assert NatToString(minutes) == [DigitChar(minutes)];
    assert s == [DigitChar(minutes), ':'] + p;
    assert s[2..] == p;
  }

  /** The label for the k-th option of the nested loops, k below 24. */
  function OptionLabel(k: nat): string
    requires k < 24
  {
    PaceLabel(4 + k / 6, k % 6 * 10)
  }

  /**
   * generatePaceOptions: minutes 4 to 7, seconds 0 to 50 in tens, then
   * `8:00`: 25 labels, each in `M:SS` form, 4:00 plus ten seconds per step.
   */
  method GeneratePaceOptions() returns (paces: seq<string>)
    ensures |paces| == 25
    ensures forall k :: 0 <= k < 25 ==>
      IsPaceFormat(paces[k]) && DigitsValue(paces[k][2..]) < 60 && PaceSeconds(paces[k]) == 240 + 10 * k
    ensures forall k :: 0 <= k < 24 ==> paces[k] == OptionLabel(k)
    ensures paces[0] == "4:00" && paces[24] == "8:00"
  {
    paces := [];
    var min := 4;
    while min <= 7
      invariant 4 <= min <= 8
      invariant |paces| == (min - 4) * 6
      invariant forall k :: 0 <= k < |paces| ==> paces[k] == OptionLabel(k)
    {
      paces := PushMinute(paces, min);
      min := min + 1;
    }
    paces := paces + ["8:00"];
    OptionsReadBack(paces);
  }

  /** The inner loop: the six labels of minute `min`, seconds 0 to 50 in tens, pushed in order. */
  method PushMinute(prior: seq<string>, min: nat) returns (paces: seq<string>)
    requires 4 <= min <= 7 && |prior| == (min - 4) * 6
    requires forall k :: 0 <= k < |prior| ==> prior[k] == OptionLabel(k)
    ensures |paces| == |prior| + 6 && paces[..|prior|] == prior
    ensures forall k :: 0 <= k < |paces| ==> paces[k] == OptionLabel(k)
  {
    paces := prior;
    var sec := 0;
    while sec < 60
      invariant 0 <= sec <= 60
      invariant sec == 10 * (|paces| - (min - 4) * 6)
      invariant paces[..|prior|] == prior
      invariant forall k :: 0 <= k < |paces| ==> paces[k] == OptionLabel(k)
    {
      OptionIndex(min, sec, |paces|);
      var next := PaceLabel(min, sec);
      PushOption(paces, next);
      paces := paces + [next];
      sec := sec + 10;
    }
  }

  /** Pushing the label of the next index keeps every entry the label of its index. */
  lemma PushOption(paces: seq<string>, next: string)
    requires |paces| < 24 && next == OptionLabel(|paces|)
    requires forall k :: 0 <= k < |paces| ==> paces[k] == OptionLabel(k)
    ensures forall k :: 0 <= k < |paces| + 1 ==> (paces + [next])[k] == OptionLabel(k)
  {
    forall k | 0 <= k < |paces| + 1
      ensures (paces + [next])[k] == OptionLabel(k)
    {
      if k < |paces| {
        assert (paces + [next])[k] == paces[k];
      }
    }
  }

  /** The 24 loop options followed by `8:00` read back as 4:00 plus ten seconds per step. */
  lemma OptionsReadBack(paces: seq<string>)
    requires |paces| == 25 && paces[24] == "8:00"
    requires forall k :: 0 <= k < 24 ==> paces[k] == OptionLabel(k)
    ensures forall k :: 0 <= k < 25 ==>
      IsPaceFormat(paces[k]) && DigitsValue(paces[k][2..]) < 60 && PaceSeconds(paces[k]) == 240 + 10 * k
    ensures paces[0] == "4:00"
  {
    forall k | 0 <= k < 25
      ensures IsPaceFormat(paces[k]) && DigitsValue(paces[k][2..]) < 60 && PaceSeconds(paces[k]) == 240 + 10 * k
    {
      if k < 24 {
        OptionReadsBack(k);
      } else {
        LastOptionReadsBack();
      }
    }
    FirstOption();
  }

  lemma FirstOption()
    ensures OptionLabel(0) == "4:00"
  {
    assert NatToString(4) == "4" && NatToString(0) == "0";
  }

  /** The k-th loop option is an accepted label worth 240 + 10·k seconds. */
  lemma OptionReadsBack(k: nat)
    requires k < 24
    ensures IsPaceFormat(OptionLabel(k)) && DigitsValue(OptionLabel(k)[2..]) < 60
    ensures PaceSeconds(OptionLabel(k)) == 240 + 10 * k
  {
    PaceLabelReadsBack(4 + k / 6, k % 6 * 10);
    assert 60 * (4 + k / 6) + k % 6 * 10 == 240 + 10 * (6 * (k / 6) + k % 6);
  }

  /** The appended `8:00` is an accepted label worth 480 seconds. */
  lemma LastOptionReadsBack()
    ensures IsPaceFormat("8:00") && DigitsValue("8:00"[2..]) == 0 && PaceSeconds("8:00") == 480
  {
    assert "8:00"[2..] == "00";
    assert DigitsValue("00") == 0 by {
      assert "00"[..1] == "0";
      assert "0"[..0] == "";
    }
  }

  /** The option pushed at minute `min` and second `sec` sits at index (min − 4)·6 + sec/10. */
  lemma OptionIndex(min: int, sec: int, k: int)
    requires 4 <= min <= 7 && 0 <= sec < 60 && sec == 10 * (k - (min - 4) * 6)
    ensures 0 <= k < 24 && OptionLabel(k) == PaceLabel(min, sec)
  {
    assert k / 6 == min - 4 && k % 6 * 10 == sec;
  }

  /** The plan table: race → target pace → trainings per week → weeks. */
  type PlanTable = map<string, map<string, map<string, seq<Week>>>>

  /** `data[race]?.[pace]?.[trainingsPerWeek] || null`: a missing key at any level gives no plan. */
  function LookupPlan(data: PlanTable, race: string, pace: string, trainingsPerWeek: string): (r: Option<seq<Week>>)
    ensures r.None? <==> race !in data || pace !in data[race] || trainingsPerWeek !in data[race][pace]
    ensures r.Some? ==> r.value == data[race][pace][trainingsPerWeek]
  {
    if race in data && pace in data[race] && trainingsPerWeek in data[race][pace] then
      Some(data[race][pace][trainingsPerWeek])
    else None
  }

  /** handleSubmit: an invalid form leaves the shown plan alone; a valid one looks the plan up. */
  function HandleSubmit(st: FormState, shown: Option<seq<Week>>, data: PlanTable): (r: Option<seq<Week>>)
    ensures !IsValid(st) ==> r == shown
    ensures IsValid(st) ==> r == LookupPlan(data, st.race, st.targetPace, st.trainingsPerWeek)
  {
    if !IsValid(st) then shown
    else LookupPlan(data, st.race, st.targetPace, st.trainingsPerWeek)
  }

  /** `trainingPlan && formState.fullWeeksBeforeRace`: a plan (an array is truthy even empty) and a non-zero count. */
  predicate ShouldRender(plan: Option<seq<Week>>, fullWeeks: Option<int>) {
    plan.Some? && fullWeeks.Some? && fullWeeks.value != 0
  }

  /**
   * Once the race-date effect has run, a rendered plan shows exactly its last
   * min(fullWeeks, length) weeks, with fullWeeks at least one, so the
   * whole-plan reading of `slice(-0)` never reaches the screen.
   */
  lemma RenderedPlanIsProperSuffix(st: FormState, raceDay: Option<int>, today: int, plan: Option<seq<Week>>)
    requires st.raceDate != ""
    requires ShouldRender(plan, RaceDateEffect(st, raceDay, today).fullWeeksBeforeRace)
    ensures var n := RaceDateEffect(st, raceDay, today).fullWeeksBeforeRace.value;
      && n >= 1
      && RelevantWeeks(plan.value, n) == plan.value[|plan.value| - (if n < |plan.value| then n else |plan.value|)..]
  {
  }

  /** The zero count that a same-week or unparsable race date leaves stops the plan from rendering. */
  lemma ZeroFullWeeksHidesPlan(plan: Option<seq<Week>>)
    ensures !ShouldRender(plan, Some(0))
    ensures !ShouldRender(plan, None)
  {
  }
}
