/**
 * TrainingPlanDisplay: which weeks of a plan are shown, the Monday each shown
 * week starts on, and the grouping of shown weeks by phase.
 */
module PlanDisplay {
  import opened Wrappers
  import opened Calendar

  datatype Training = Training(session: string, description: string, terrain: string)

  /** One plan week; `number` counts weeks back from the race. */
  datatype Week = Week(number: int, phase: string, run1: Training, run2: Training, run3: Training)

  /** A shown week together with the day its Monday falls on. */
  datatype DatedWeek = DatedWeek(week: Week, startDate: int)

  datatype PhaseGroup = PhaseGroup(phase: string, weeks: seq<DatedWeek>)

  /** `Array.prototype.slice(start)` with a single, possibly negative, start index. */
  function SliceFrom<T>(s: seq<T>, start: int): (r: seq<T>)
    ensures start >= 0 ==> r == s[if start <= |s| then start else |s|..]
    ensures start < 0 ==> r == s[if |s| + start >= 0 then |s| + start else 0..]
  {
    var from := if start < 0 then (if |s| + start >= 0 then |s| + start else 0)
                else (if start <= |s| then start else |s|);
    s[from..]
  }

  /** `trainingPlan.slice(-Math.min(fullWeeksBeforeRace, trainingPlan.length))`. */
  function RelevantWeeks(plan: seq<Week>, fullWeeks: int): (r: seq<Week>)
    ensures fullWeeks >= 1 ==> |r| == (if fullWeeks < |plan| then fullWeeks else |plan|)
    ensures fullWeeks >= 1 ==> r == plan[|plan| - |r|..]
    ensures fullWeeks == 0 ==> r == plan
  {
    var shown := if fullWeeks < |plan| then fullWeeks else |plan|;
    SliceFrom(plan, -shown)
  }

  /**
   * The start date of a week as written: go back `number` weeks from the race,
   * then move to `getDate() - getDay() + (getDay() === 0 ? -6 : 1)`.
   */
  function WeekStart(raceDay: int, number: int): (d: int)
    ensures d == MondayOf(raceDay - 7 * number)
    ensures raceDay - 7 * number - 6 <= d <= raceDay - 7 * number
    ensures Weekday(d) == 1
  {
    var date := raceDay - 7 * number;
    var day := Weekday(date);
    date - day + (if day == 0 then -6 else 1)
  }

  /** Each week further from the race starts exactly seven days earlier. */
  lemma NextWeekStartsSevenDaysEarlier(raceDay: int, number: int)
    ensures WeekStart(raceDay, number + 1) == WeekStart(raceDay, number) - 7
  {
    assert raceDay - 7 * (number + 1) == raceDay - 7 * number - 7;
    MondayOfWeekEarlier(raceDay - 7 * number);
  }

  /** `relevantWeeks.map(...)` paired with the weeks, index by index. */
  function DateWeeks(weeks: seq<Week>, raceDay: int): (ds: seq<DatedWeek>)
    ensures |ds| == |weeks|
    ensures forall i :: 0 <= i < |ds| ==> ds[i].week == weeks[i] && Weekday(ds[i].startDate) == 1
    ensures forall i :: 0 <= i < |ds| ==> ds[i].startDate == MondayOf(raceDay - 7 * weeks[i].number)
  {
    seq(|weeks|, i requires 0 <= i < |weeks| => DatedWeek(weeks[i], WeekStart(raceDay, weeks[i].number)))
  }

  // ---- Grouping by phase ----

  /** The phases in order of first appearance: the key order `Object.entries` reports. */
  function Phases(ds: seq<DatedWeek>): seq<string> {
    if |ds| == 0 then []
    else
      var earlier := Phases(ds[..|ds| - 1]);
      var p := ds[|ds| - 1].week.phase;
      if p in earlier then earlier else earlier + [p]
  }

  /** The weeks of one phase, in their original order. */
  function OfPhase(ds: seq<DatedWeek>, p: string): seq<DatedWeek> {
    if |ds| == 0 then []
    else OfPhase(ds[..|ds| - 1], p) + (if ds[|ds| - 1].week.phase == p then [ds[|ds| - 1]] else [])
  }

  function GroupPhases(gs: seq<PhaseGroup>): (ps: seq<string>)
    ensures |ps| == |gs| && forall i :: 0 <= i < |gs| ==> ps[i] == gs[i].phase
  {
    seq(|gs|, i requires 0 <= i < |gs| => gs[i].phase)
  }

  /** The index of the group for phase `p`, if there is one. */
  function FindGroup(gs: seq<PhaseGroup>, p: string): (r: Option<nat>)
    ensures r.Some? ==> r.value < |gs| && gs[r.value].phase == p
    ensures r.None? <==> p !in GroupPhases(gs)
  {
    if |gs| == 0 then None
    else if gs[|gs| - 1].phase == p then Some(|gs| - 1)
    else
      assert GroupPhases(gs) == GroupPhases(gs[..|gs| - 1]) + [gs[|gs| - 1].phase];
      FindGroup(gs[..|gs| - 1], p)
  }

  /** The reducer: push the week onto its phase's group, opening the group on first sight. */
  function AddToGroup(gs: seq<PhaseGroup>, d: DatedWeek): (r: seq<PhaseGroup>)
  {
    match FindGroup(gs, d.week.phase)
    case None => gs + [PhaseGroup(d.week.phase, [d])]
    case Some(i) => gs[i := gs[i].(weeks := gs[i].weeks + [d])]
  }

  /** `relevantWeeks.reduce(...)` followed by `Object.entries`. */
  function GroupByPhase(ds: seq<DatedWeek>): (gs: seq<PhaseGroup>)
  {
    if |ds| == 0 then [] else AddToGroup(GroupByPhase(ds[..|ds| - 1]), ds[|ds| - 1])
  }

  predicate Distinct(ps: seq<string>) {
    forall i, j :: 0 <= i < j < |ps| ==> ps[i] != ps[j]
  }

  lemma {:induction false} PhasesDistinct(ds: seq<DatedWeek>)
    ensures Distinct(Phases(ds))
  {
    if |ds| > 0 {
      PhasesDistinct(ds[..|ds| - 1]);
    }
  }

  /**
   * The groups come in order of first appearance of their phase, and each
   * holds exactly the weeks of that phase in their original order.
   */
  lemma {:induction false} GroupByPhaseSpec(ds: seq<DatedWeek>)
    ensures GroupPhases(GroupByPhase(ds)) == Phases(ds)
    ensures forall i :: 0 <= i < |GroupByPhase(ds)| ==> GroupByPhase(ds)[i].weeks == OfPhase(ds, GroupByPhase(ds)[i].phase)
  {
    if |ds| > 0 {
      var prefix := ds[..|ds| - 1];
      var d := ds[|ds| - 1];
      var p := d.week.phase;
      GroupByPhaseSpec(prefix);
      PhasesDistinct(prefix);
      var gs := GroupByPhase(prefix);
      var r := GroupByPhase(ds);
      assert r == AddToGroup(gs, d);
      match FindGroup(gs, p)
      case None =>
        assert GroupPhases(r) == GroupPhases(gs) + [p];
        forall i | 0 <= i < |r|
          ensures r[i].weeks == OfPhase(ds, r[i].phase)
        {
          if i < |gs| {
            assert r[i] == gs[i];
          } else {
            NoWeeksOfUnseenPhase(prefix, p);
          }
        }
      case Some(k) =>
        assert GroupPhases(r) == GroupPhases(gs);
        forall i | 0 <= i < |r|
          ensures r[i].weeks == OfPhase(ds, r[i].phase)
        {
          if i != k {
            assert r[i] == gs[i];
            assert GroupPhases(gs)[i] != GroupPhases(gs)[k];
          }
        }
    }
  }

  /** A phase that has not appeared yet has no weeks. */
  lemma {:induction false} NoWeeksOfUnseenPhase(ds: seq<DatedWeek>, p: string)
    requires p !in Phases(ds)
    ensures OfPhase(ds, p) == []
  {
    if |ds| > 0 {
      NoWeeksOfUnseenPhase(ds[..|ds| - 1], p);
    }
  }

  /** The weeks filed under a phase are weeks of that phase taken from the input. */
  lemma {:induction false} OfPhaseMembers(ds: seq<DatedWeek>, p: string)
    ensures forall x | x in OfPhase(ds, p) :: x.week.phase == p && x in ds
  {
    if |ds| > 0 {
      OfPhaseMembers(ds[..|ds| - 1], p);
      assert forall x | x in ds[..|ds| - 1] :: x in ds;
    }
  }

  /** Every week is filed under its own phase, and that phase is listed. */
  lemma {:induction false} InOwnPhase(ds: seq<DatedWeek>, k: nat)
    requires k < |ds|
    ensures ds[k] in OfPhase(ds, ds[k].week.phase)
    ensures ds[k].week.phase in Phases(ds)
  {
    var prefix := ds[..|ds| - 1];
    if k < |ds| - 1 {
      assert prefix[k] == ds[k];
      InOwnPhase(prefix, k);
    }
  }

  /** Every shown week lands in exactly one group: the one for its phase. */
  lemma EachWeekInExactlyOneGroup(ds: seq<DatedWeek>, k: nat)
    requires k < |ds|
    ensures exists i :: 0 <= i < |GroupByPhase(ds)| && GroupByPhase(ds)[i].phase == ds[k].week.phase && ds[k] in GroupByPhase(ds)[i].weeks
    ensures forall i :: 0 <= i < |GroupByPhase(ds)| && ds[k] in GroupByPhase(ds)[i].weeks ==> GroupByPhase(ds)[i].phase == ds[k].week.phase
  {
    var gs := GroupByPhase(ds);
    var p := ds[k].week.phase;
    GroupByPhaseSpec(ds);
    InOwnPhase(ds, k);
    var i :| 0 <= i < |Phases(ds)| && Phases(ds)[i] == p;
    assert GroupPhases(gs)[i] == p;
    forall j | 0 <= j < |gs| && ds[k] in gs[j].weeks
      ensures gs[j].phase == p
    {
      OfPhaseMembers(ds, gs[j].phase);
    }
  }
}
