/**
 * TrainingWeekDisplay's classifiers: the session type and its colour, both
 * found by case-insensitive substring search, and the terrain icon, found by
 * case-insensitive exact match.
 */
module WeekDisplay {
  import opened Text

  const ROAD_ICON := "\U{1F6E3}\U{FE0F}"
  const TRAIL_ICON := "\U{26F0}\U{FE0F}"
  const TRACK_ICON := "\U{1F3DF}\U{FE0F}"
  const RUNNER_ICON := "\U{1F3C3}"

  /** The three kinds of session the display tells apart. */
  datatype SessionKind = EasyRun | LongRun | TrackSession

  /** The decision both session helpers make: 'easy' first, then 'long', otherwise track. */
  function Classify(session: string): (k: SessionKind)
    ensures k == EasyRun <==> Contains(ToLower(session), "easy")
    ensures k == LongRun <==> !Contains(ToLower(session), "easy") && Contains(ToLower(session), "long")
    ensures k == TrackSession <==> !Contains(ToLower(session), "easy") && !Contains(ToLower(session), "long")
  {
    var lower := ToLower(session);
    if Contains(lower, "easy") then EasyRun
    else if Contains(lower, "long") then LongRun
    else TrackSession
  }

  function KindName(k: SessionKind): string {
    match k
    case EasyRun => "Easy Run"
    case LongRun => "Long Run"
    case TrackSession => "Track Session"
  }

  function KindStyle(k: SessionKind): string {
    match k
    case EasyRun => "bg-green-100"
    case LongRun => "bg-yellow-100"
    case TrackSession => "bg-red-100"
  }

  /** getSessionType. */
  function SessionType(session: string): (r: string)
    ensures r == "Easy Run" <==> Contains(ToLower(session), "easy")
    ensures r == "Long Run" <==> !Contains(ToLower(session), "easy") && Contains(ToLower(session), "long")
    ensures r == "Track Session" <==> !Contains(ToLower(session), "easy") && !Contains(ToLower(session), "long")
  {
    KindName(Classify(session))
  }

  /** getSessionStyle. */
  function SessionStyle(session: string): (r: string)
    ensures r == "bg-green-100" <==> Contains(ToLower(session), "easy")
    ensures r == "bg-yellow-100" <==> !Contains(ToLower(session), "easy") && Contains(ToLower(session), "long")
    ensures r == "bg-red-100" <==> !Contains(ToLower(session), "easy") && !Contains(ToLower(session), "long")
  {
    KindStyle(Classify(session))
  }

  /** The colour always matches the type: green for easy, yellow for long, red for track. */
  lemma StyleAgreesWithType(session: string)
    ensures SessionType(session) == "Easy Run" <==> SessionStyle(session) == "bg-green-100"
    ensures SessionType(session) == "Long Run" <==> SessionStyle(session) == "bg-yellow-100"
    ensures SessionType(session) == "Track Session" <==> SessionStyle(session) == "bg-red-100"
  {
  }

  /** 'easy' wins when both words occur. */
  lemma EasyBeatsLong(session: string)
    requires Contains(ToLower(session), "easy") && Contains(ToLower(session), "long")
    ensures SessionType(session) == "Easy Run" && SessionStyle(session) == "bg-green-100"
  {
  }

  lemma EasyLongRunIsEasy()
    ensures SessionType("Easy LONG run") == "Easy Run"
  {
    assert OccursAt(ToLower("Easy LONG run"), "easy", 0);
  }

  lemma LongIntervalsIsLong()
    ensures SessionType("LONG Intervals") == "Long Run"
  {
    var lower := ToLower("LONG Intervals");
    assert lower == "long intervals";
    assert OccursAt(lower, "long", 0);
    forall i | 0 <= i <= |lower| - 4
      ensures !OccursAt(lower, "easy", i)
    {
      assert lower[i] != 'e' || lower[i + 1] != 'a';
    }
  }

  /** getTerrainIcon: an exact match on the lower-cased terrain. */
  function TerrainIcon(terrain: string): (r: string)
    ensures ToLower(terrain) == "road" ==> r == ROAD_ICON
    ensures ToLower(terrain) == "road or trail" ==> r == TRAIL_ICON
    ensures ToLower(terrain) == "track" ==> r == TRACK_ICON
    ensures ToLower(terrain) !in ["road", "road or trail", "track"] <==> r == RUNNER_ICON
  {
    var lower := ToLower(terrain);
    if lower == "road" then ROAD_ICON
    else if lower == "road or trail" then TRAIL_ICON
    else if lower == "track" then TRACK_ICON
    else RUNNER_ICON
  }

  /** All three helpers read a string and any other spelling of it in different letter case alike. */
  lemma CaseInsensitive(a: string, b: string)
    requires ToLower(a) == ToLower(b)
    ensures SessionType(a) == SessionType(b)
    ensures SessionStyle(a) == SessionStyle(b)
    ensures TerrainIcon(a) == TerrainIcon(b)
  {
  }

  /** In particular each helper gives the same answer for a string and its lower-cased form. */
  lemma LowerCasingChangesNothing(s: string)
    ensures SessionType(ToLower(s)) == SessionType(s)
    ensures SessionStyle(ToLower(s)) == SessionStyle(s)
    ensures TerrainIcon(ToLower(s)) == TerrainIcon(s)
  {
    ToLowerIdempotent(s);
  }

  /** `Track` and `TRACK` get the stadium; `trail` alone is not a known terrain. */
  lemma TerrainExamples()
    ensures TerrainIcon("TRACK") == TRACK_ICON
    ensures TerrainIcon("trail") == RUNNER_ICON
  {
    assert ToLower("TRACK") == "track";
    assert ToLower("trail") == "trail";
  }
}
