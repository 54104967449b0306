/**
 * generateLongDistanceData: whole-unit markers plus three named race points,
 * sorted by distance and deduplicated on the distance rounded to three
 * decimals, a named point taking over the label of a plain marker it meets.
 */
module Ladder {
  import opened Wrappers
  import opened JsNumber
  import opened Text
  import opened SplitTime

  /** One row of the ladder: a distance in the mode's unit, its label, and whether it is a named race point. */
  datatype Point = Point(distance: real, title: Caption, unit: string, special: bool)

  datatype Race = HalfMarathonMidpoint | HalfMarathon | Marathon

  /** A row label kept in structured form; CaptionText renders it as displayed. */
  datatype Caption = MarkerCaption(n: nat, unit: string) | RaceCaption(race: Race, distance: real, unit: string)

  function RaceName(race: Race): string {
    match race
    case HalfMarathonMidpoint => "Mid point of Half Marathon"
    case HalfMarathon => "Half Marathon"
    case Marathon => "Marathon"
  }

  /** `${i} ${unit}` for a marker, `${name} (${distance.toFixed(2)} ${unit})` for a race point. */
  function CaptionText(c: Caption): (s: string)
    ensures c.MarkerCaption? ==> s == NatToString(c.n) + " " + c.unit
    ensures c.RaceCaption? ==> s == RaceName(c.race) + " (" + Fixed2(c.distance) + " " + c.unit + ")"
  {
    match c
    case MarkerCaption(n, u) => NatToString(n) + " " + u
    case RaceCaption(race, d, u) => RaceName(race) + " (" + Fixed2(d) + " " + u + ")"
  }

  /** The named race points of one unit family. */
  datatype RaceDistances = RaceDistances(halfMarathonMidpoint: real, halfMarathon: real, marathon: real)

  const DISTANCES_IN_KM := RaceDistances(10.54875, 21.0975, 42.195)
  const DISTANCES_IN_MILES := RaceDistances(6.5546875, 13.109375, 26.21875)

  function BaseUnitDistances(dt: DistanceType): RaceDistances {
    if dt == Kilometers then DISTANCES_IN_KM else DISTANCES_IN_MILES
  }

  function UnitLabel(dt: DistanceType): string {
    if dt == Kilometers then "km" else "mile"
  }

  function MaxDistance(dt: DistanceType): nat {
    if dt == Kilometers then 42 else 26
  }

  /** The plain markers `1 km` … `42 km`, or `1 mile` … `26 mile`. */
  function Markers(dt: DistanceType): (ps: seq<Point>)
    ensures |ps| == MaxDistance(dt)
    ensures forall i :: 0 <= i < |ps| ==>
      ps[i] == Point((i + 1) as real, MarkerCaption(i + 1, UnitLabel(dt)), UnitLabel(dt), false)
  {
    seq(MaxDistance(dt), i requires 0 <= i => Point((i + 1) as real, MarkerCaption(i + 1, UnitLabel(dt)), UnitLabel(dt), false))
  }

  /** The three named points, each label carrying the distance to two decimals. */
  function Specials(dt: DistanceType): seq<Point> {
    var b := BaseUnitDistances(dt);
    var u := UnitLabel(dt);
    [ Point(b.halfMarathonMidpoint, RaceCaption(HalfMarathonMidpoint, b.halfMarathonMidpoint, u), u, true),
      Point(b.halfMarathon, RaceCaption(HalfMarathon, b.halfMarathon, u), u, true),
      Point(b.marathon, RaceCaption(Marathon, b.marathon, u), u, true) ]
  }

  /** The points before sorting, in the order they are pushed. */
  function BuildPoints(dt: DistanceType): seq<Point> {
    Markers(dt) + Specials(dt)
  }

  // ---- Sorting: `points.sort((a, b) => a.distance - b.distance)`, a stable sort ----

  predicate SortedByDistance(ps: seq<Point>) {
    forall i, j :: 0 <= i < j < |ps| ==> ps[i].distance <= ps[j].distance
  }

  predicate StrictlyAscending(ps: seq<Point>) {
    forall i, j :: 0 <= i < j < |ps| ==> ps[i].distance < ps[j].distance
  }

  /** Inserts `p` after every point that is not farther, which keeps equal distances in arrival order. */
  function Insert(p: Point, ps: seq<Point>): (r: seq<Point>)
    requires SortedByDistance(ps)
    ensures SortedByDistance(r)
    ensures multiset(r) == multiset(ps) + multiset{p}
    ensures |r| == |ps| + 1
  {
    if |ps| == 0 then [p]
    else if p.distance < ps[0].distance then [p] + ps
    else
      var rest := Insert(p, ps[1..]);
      InsertBehindHead(p, ps, rest);
      [ps[0]] + rest
  }

  /** Putting the head back in front of a sorted insertion into the tail keeps order and contents. */
  lemma InsertBehindHead(p: Point, ps: seq<Point>, rest: seq<Point>)
    requires SortedByDistance(ps) && |ps| > 0 && ps[0].distance <= p.distance
    requires SortedByDistance(rest) && multiset(rest) == multiset(ps[1..]) + multiset{p}
    ensures SortedByDistance([ps[0]] + rest)
    ensures multiset([ps[0]] + rest) == multiset(ps) + multiset{p}
  {
    assert ps == [ps[0]] + ps[1..];
    forall q | q in rest
      ensures ps[0].distance <= q.distance
    {
      assert q in multiset(rest);
      if q != p {
        assert q in multiset(ps[1..]);
        var i :| 0 <= i < |ps[1..]| && ps[1..][i] == q;
        assert ps[i + 1] == q;
      }
    }
    var r := [ps[0]] + rest;
    forall i, j | 0 <= i < j < |r|
      ensures r[i].distance <= r[j].distance
    {
      if i > 0 {
        assert r[i] == rest[i - 1] && r[j] == rest[j - 1];
      } else {
        assert r[j] == rest[j - 1];
      }
    }
  }

  function SortByDistance(ps: seq<Point>): (r: seq<Point>)
    ensures SortedByDistance(r)
    ensures multiset(r) == multiset(ps)
    ensures |r| == |ps|
  {
    if |ps| == 0 then []
    else
      assert ps == ps[..|ps| - 1] + [ps[|ps| - 1]];
      Insert(ps[|ps| - 1], SortByDistance(ps[..|ps| - 1]))
  }

  // ---- Deduplication ----

  /** `d.toFixed(3)` as a whole number of thousandths: two distances collide when these agree. */
  function Key(d: real): int {
    Round(d * 1000.0)
  }

  function Keys(ps: seq<Point>): (ks: seq<int>)
    ensures |ks| == |ps| && forall i :: 0 <= i < |ps| ==> ks[i] == Key(ps[i].distance)
  {
    seq(|ps|, i requires 0 <= i < |ps| => Key(ps[i].distance))
  }

  /** Where a point sits: its distance and unit, which deduplication never changes. */
  function Site(p: Point): (real, string) {
    (p.distance, p.unit)
  }

  function Sites(ps: seq<Point>): (ss: seq<(real, string)>)
    ensures |ss| == |ps| && forall i :: 0 <= i < |ps| ==> ss[i] == Site(ps[i])
  {
    seq(|ps|, i requires 0 <= i < |ps| => Site(ps[i]))
  }

  predicate DistinctKeys(ps: seq<Point>) {
    forall i, j :: 0 <= i < j < |ps| ==> Key(ps[i].distance) != Key(ps[j].distance)
  }

  /** `acc.find(item => item.distance.toFixed(3) === k)`: the first point with key `k`. */
  function FindByKey(acc: seq<Point>, k: int): (r: Option<nat>)
    ensures r.Some? ==> r.value < |acc| && Key(acc[r.value].distance) == k
    ensures r.Some? ==> forall i :: 0 <= i < r.value ==> Key(acc[i].distance) != k
    ensures r.None? <==> forall i :: 0 <= i < |acc| ==> Key(acc[i].distance) != k
  {
    if |acc| == 0 then None
    else if Key(acc[0].distance) == k then Some(0)
    else match FindByKey(acc[1..], k)
      case None => None
      case Some(j) => Some(j + 1)
  }

  /**
   * The reducer: a new key is appended; on a collision the earlier point keeps
   * its place, distance and unit, and takes the newcomer's label and flag only
   * when the newcomer is a named point and it is not.
   */
  function Absorb(acc: seq<Point>, current: Point): (r: seq<Point>)
    ensures FindByKey(acc, Key(current.distance)).None? ==> r == acc + [current]
    ensures FindByKey(acc, Key(current.distance)).Some? ==>
      var j := FindByKey(acc, Key(current.distance)).value;
      && |r| == |acc|
      && (forall i :: 0 <= i < |acc| && i != j ==> r[i] == acc[i])
      && Site(r[j]) == Site(acc[j])
      && r[j].special == (acc[j].special || current.special)
      && r[j].title == (if current.special && !acc[j].special then current.title else acc[j].title)
  {
    match FindByKey(acc, Key(current.distance))
    case None => acc + [current]
    case Some(j) =>
      if current.special && !acc[j].special then acc[j := acc[j].(title := current.title, special := true)]
      else acc
  }

  /**
   * With distinct keys so far, a named point landing on a plain row's key
   * relabels that row in place and adds nothing; a plain point landing on any
   * row changes nothing.
   */
  lemma CollisionRule(acc: seq<Point>, current: Point, j: nat)
    requires DistinctKeys(acc)
    requires j < |acc| && Key(acc[j].distance) == Key(current.distance)
    ensures current.special && !acc[j].special ==>
      Absorb(acc, current) == acc[j := acc[j].(title := current.title, special := true)]
    ensures !current.special || acc[j].special ==> Absorb(acc, current) == acc
  {
    var f := FindByKey(acc, Key(current.distance));
    assert f.Some?;
    assert f.value == j;
  }

  /** `points.reduce(Absorb, [])`. */
  function Dedup(ps: seq<Point>): (out: seq<Point>)
    ensures |out| <= |ps|
    ensures DistinctKeys(out)
    ensures forall k :: 0 <= k < |out| ==> Site(out[k]) in Sites(ps)
    ensures forall i :: 0 <= i < |ps| ==> Key(ps[i].distance) in Keys(out)
    ensures SortedByDistance(ps) ==> StrictlyAscending(out)
  {
    if |ps| == 0 then []
    else
      assert ps[..|ps| - 1] + [ps[|ps| - 1]] == ps;
      var acc := Dedup(ps[..|ps| - 1]);
      AbsorbKeepsDistinct(acc, ps[|ps| - 1]);
      AbsorbKeepsSites(ps[..|ps| - 1], acc, ps[|ps| - 1]);
      AbsorbKeepsKeys(ps, acc);
      AbsorbKeepsAscending(ps, acc);
      Absorb(acc, ps[|ps| - 1])
  }

  /** A reduction step never creates a second point with the same key. */
  lemma AbsorbKeepsDistinct(acc: seq<Point>, current: Point)
    requires DistinctKeys(acc)
    ensures DistinctKeys(Absorb(acc, current))
  {
    var r := Absorb(acc, current);
    if FindByKey(acc, Key(current.distance)).Some? {
      assert Keys(r) == Keys(acc);
    }
  }

  /** Every point a reduction step keeps sits where some input point sits. */
  lemma AbsorbKeepsSites(prefix: seq<Point>, acc: seq<Point>, current: Point)
    requires forall k :: 0 <= k < |acc| ==> Site(acc[k]) in Sites(prefix)
    ensures forall k :: 0 <= k < |Absorb(acc, current)| ==> Site(Absorb(acc, current)[k]) in Sites(prefix + [current])
  {
    var ps := prefix + [current];
    var r := Absorb(acc, current);
    assert Sites(ps) == Sites(prefix) + [Site(current)];
    forall k | 0 <= k < |r|
      ensures Site(r[k]) in Sites(ps)
    {
      if k < |acc| {
        assert Site(r[k]) == Site(acc[k]);
      } else {
        assert r[k] == current;
      }
    }
  }

  /** Every input key is still represented after a reduction step. */
  lemma AbsorbKeepsKeys(ps: seq<Point>, acc: seq<Point>)
    requires |ps| > 0
    requires forall i :: 0 <= i < |ps| - 1 ==> Key(ps[i].distance) in Keys(acc)
    ensures forall i :: 0 <= i < |ps| ==> Key(ps[i].distance) in Keys(Absorb(acc, ps[|ps| - 1]))
  {
    var current := ps[|ps| - 1];
    var r := Absorb(acc, current);
    forall i | 0 <= i < |ps|
      ensures Key(ps[i].distance) in Keys(r)
    {
      if i < |ps| - 1 {
        var k :| 0 <= k < |acc| && Keys(acc)[k] == Key(ps[i].distance);
        assert Keys(r)[k] == Keys(acc)[k];
      } else {
        var f := FindByKey(acc, Key(current.distance));
        if f.None? {
          assert Keys(r)[|acc|] == Key(current.distance);
        } else {
          assert Keys(r)[f.value] == Key(current.distance);
        }
      }
    }
  }

  /** The index of a point standing at a given site. */
  lemma SiteWitness(ps: seq<Point>, site: (real, string)) returns (i: nat)
    requires site in Sites(ps)
    ensures i < |ps| && Site(ps[i]) == site
  {
    var j :| 0 <= j < |Sites(ps)| && Sites(ps)[j] == site;
    i := j;
  }

  /** Over sorted input a reduction step keeps the output strictly ascending. */
  lemma AbsorbKeepsAscending(ps: seq<Point>, acc: seq<Point>)
    requires |ps| > 0
    requires forall k :: 0 <= k < |acc| ==> Site(acc[k]) in Sites(ps[..|ps| - 1])
    requires SortedByDistance(ps[..|ps| - 1]) ==> StrictlyAscending(acc)
    ensures SortedByDistance(ps) ==> StrictlyAscending(Absorb(acc, ps[|ps| - 1]))
  {
    var current := ps[|ps| - 1];
    var prefix := ps[..|ps| - 1];
    if SortedByDistance(ps) {
      assert SortedByDistance(prefix);
      forall k | 0 <= k < |acc|
        ensures acc[k].distance <= current.distance
      {
        var i := SiteWitness(prefix, Site(acc[k]));
        assert ps[i] == prefix[i];
      }
      var r := Absorb(acc, current);
      if FindByKey(acc, Key(current.distance)).None? {
        forall k | 0 <= k < |acc|
          ensures acc[k].distance < current.distance
        {
          assert Key(acc[k].distance) != Key(current.distance);
        }
      } else {
        assert forall k :: 0 <= k < |r| ==> r[k].distance == acc[k].distance;
      }
    }
  }

  /** Without collisions the reduction hands the points back unchanged. */
  lemma {:induction false} DedupWithoutCollisions(ps: seq<Point>)
    requires DistinctKeys(ps)
    ensures Dedup(ps) == ps
  {
    if |ps| > 0 {
      var n := |ps| - 1;
      var prefix := ps[..n];
      var last := ps[n];
      assert ps == prefix + [last];
      assert Dedup(ps) == Absorb(Dedup(prefix), last);
      assert DistinctKeys(prefix);
      DedupWithoutCollisions(prefix);
      NewKeyIsAbsent(ps);
    }
  }

  /** With distinct keys, the last point's key is not among the earlier ones. */
  lemma NewKeyIsAbsent(ps: seq<Point>)
    requires |ps| > 0 && DistinctKeys(ps)
    ensures FindByKey(ps[..|ps| - 1], Key(ps[|ps| - 1].distance)).None?
  {
    var n := |ps| - 1;
    forall i | 0 <= i < n
      ensures Key(ps[..n][i].distance) != Key(ps[n].distance)
    {
      assert ps[..n][i] == ps[i];
    }
  }

  /** generateLongDistanceData. */
  function GenerateLongDistanceData(dt: DistanceType): (r: seq<Point>)
    ensures StrictlyAscending(r)
    ensures DistinctKeys(r)
    ensures forall k :: 0 <= k < |r| ==> r[k].unit == UnitLabel(dt)
    ensures multiset(r) == multiset(BuildPoints(dt))
    ensures |r| == MaxDistance(dt) + 3
  {
    var sorted := SortByDistance(BuildPoints(dt));
    BuildPointsDistinct(dt);
    SortKeepsDistinctKeys(BuildPoints(dt));
    DedupWithoutCollisions(sorted);
    SortedUnits(dt);
    Dedup(sorted)
  }

  /** Every built point, and so every sorted point, carries the mode's unit. */
  lemma SortedUnits(dt: DistanceType)
    ensures forall k :: 0 <= k < |SortByDistance(BuildPoints(dt))| ==> SortByDistance(BuildPoints(dt))[k].unit == UnitLabel(dt)
  {
    var ps := BuildPoints(dt);
    assert forall i :: 0 <= i < |ps| ==> ps[i].unit == UnitLabel(dt) by {
      var m, sp := Markers(dt), Specials(dt);
      assert ps == m + sp;
      forall i | 0 <= i < |ps|
        ensures ps[i].unit == UnitLabel(dt)
      {
        if i < |m| { assert ps[i] == m[i]; } else { assert ps[i] == sp[i - |m|]; }
      }
    }
    SortKeepsUnits(ps, UnitLabel(dt));
  }

  /** Sorting only rearranges points, so a unit shared by all is shared after. */
  lemma SortKeepsUnits(ps: seq<Point>, u: string)
    requires forall i :: 0 <= i < |ps| ==> ps[i].unit == u
    ensures forall k :: 0 <= k < |SortByDistance(ps)| ==> SortByDistance(ps)[k].unit == u
  {
    var sorted := SortByDistance(ps);
    forall k | 0 <= k < |sorted|
      ensures sorted[k].unit == u
    {
      assert sorted[k] in multiset(ps);
      var i :| 0 <= i < |ps| && ps[i] == sorted[k];
    }
  }

  /** Sorting rearranges points, so keys distinct before are distinct after. */
  lemma {:induction false} SortKeepsDistinctKeys(ps: seq<Point>)
    requires DistinctKeys(ps)
    ensures DistinctKeys(SortByDistance(ps))
  {
    if |ps| > 0 {
      var prefix := ps[..|ps| - 1];
      var p := ps[|ps| - 1];
      SortKeepsDistinctKeys(prefix);
      var s := SortByDistance(prefix);
      forall q | q in s
        ensures Key(q.distance) != Key(p.distance)
      {
        assert q in multiset(prefix);
        var i :| 0 <= i < |prefix| && prefix[i] == q;
        assert ps[i] == q;
      }
      InsertKeepsDistinctKeys(p, s);
    }
  }

  lemma {:induction false} InsertKeepsDistinctKeys(p: Point, ps: seq<Point>)
    requires SortedByDistance(ps) && DistinctKeys(ps)
    requires forall q | q in ps :: Key(q.distance) != Key(p.distance)
    ensures DistinctKeys(Insert(p, ps))
  {
    if |ps| > 0 && p.distance >= ps[0].distance {
      var rest := Insert(p, ps[1..]);
      assert DistinctKeys(ps[1..]);
      assert ps[0] in ps;
      assert forall q | q in ps[1..] :: q in ps;
      InsertKeepsDistinctKeys(p, ps[1..]);
      InsertMembers(p, ps[1..]);
      TailKeysDiffer(ps);
      assert forall q | q in rest :: Key(q.distance) != Key(ps[0].distance);
      ConsKeepsDistinctKeys(ps[0], rest);
    } else if |ps| > 0 {
      ConsKeepsDistinctKeys(p, ps);
    }
  }

  /** Every point of an insertion is the inserted point or one of the list. */
  lemma InsertMembers(p: Point, ps: seq<Point>)
    requires SortedByDistance(ps)
    ensures forall q | q in Insert(p, ps) :: q == p || q in ps
  {
    forall q | q in Insert(p, ps)
      ensures q == p || q in ps
    {
      assert q in multiset(Insert(p, ps));
    }
  }

  /** With distinct keys, no later point shares the head's key. */
  lemma TailKeysDiffer(ps: seq<Point>)
    requires |ps| > 0 && DistinctKeys(ps)
    ensures forall q | q in ps[1..] :: Key(q.distance) != Key(ps[0].distance)
  {
    forall q | q in ps[1..]
      ensures Key(q.distance) != Key(ps[0].distance)
    {
      var i :| 0 <= i < |ps[1..]| && ps[1..][i] == q;
      assert ps[i + 1] == q;
    }
  }

  lemma ConsKeepsDistinctKeys(x: Point, s: seq<Point>)
    requires DistinctKeys(s)
    requires forall q | q in s :: Key(q.distance) != Key(x.distance)
    ensures DistinctKeys([x] + s)
  {
    var r := [x] + s;
    forall i, j | 0 <= i < j < |r|
      ensures Key(r[i].distance) != Key(r[j].distance)
    {
      if i > 0 {
        assert r[i] == s[i - 1] && r[j] == s[j - 1];
      } else {
        assert r[j] == s[j - 1];
      }
    }
  }

  /** No marker shares a three-decimal key with a named point, and the named points differ. */
  lemma BuildPointsDistinct(dt: DistanceType)
    ensures DistinctKeys(BuildPoints(dt))
  {
    var ps := BuildPoints(dt);
    var m := MaxDistance(dt);
    var ks := SpecialKeys(dt);
    forall i | 0 <= i < |ps|
      ensures Key(ps[i].distance) == if i < m then 1000 * (i + 1) else ks[i - m]
    {
      if i < m {
        RoundOfInteger(1000 * (i + 1));
      }
    }
  }

  /** The three-decimal keys of the named points: none is a whole number of units, and they ascend. */
  lemma SpecialKeysFacts(dt: DistanceType)
    ensures |SpecialKeys(dt)| == 3
    ensures forall k :: 0 <= k < 3 ==> SpecialKeys(dt)[k] % 1000 != 0
    ensures SpecialKeys(dt)[0] < SpecialKeys(dt)[1] < SpecialKeys(dt)[2]
  {
  }

  function SpecialKeys(dt: DistanceType): (ks: seq<int>)
    ensures |ks| == 3
    ensures ks == [Key(Specials(dt)[0].distance), Key(Specials(dt)[1].distance), Key(Specials(dt)[2].distance)]
  {
    if dt == Kilometers then
      assert Key(10.54875) == 10549 && Key(21.0975) == 21098 && Key(42.195) == 42195;
      [10549, 21098, 42195]
    else
      assert Key(6.5546875) == 6555 && Key(13.109375) == 13109 && Key(26.21875) == 26219;
      [6555, 13109, 26219]
  }

  /** The kilometre ladder has 45 rows. */
  lemma KilometreLadderSize()
    ensures |GenerateLongDistanceData(Kilometers)| == 45
  {
  }

  /** No built point is lost: with no collisions every marker and named point reaches the table. */
  lemma EveryPointKept(dt: DistanceType, i: nat)
    requires i < |BuildPoints(dt)|
    ensures BuildPoints(dt)[i] in GenerateLongDistanceData(dt)
  {
    assert BuildPoints(dt)[i] in multiset(BuildPoints(dt));
  }

  /** The kilometre ladder keeps both the 21 km marker and the half marathon, 0.0975 km apart. */
  lemma KilometreLadderKeepsBoth()
    ensures Point(21.0, MarkerCaption(21, "km"), "km", false) in GenerateLongDistanceData(Kilometers)
    ensures Point(21.0975, RaceCaption(HalfMarathon, 21.0975, "km"), "km", true) in GenerateLongDistanceData(Kilometers)
  {
    var ps := BuildPoints(Kilometers);
    assert ps[20] == Point(21.0, MarkerCaption(21, "km"), "km", false);
    assert ps[43] == Point(21.0975, RaceCaption(HalfMarathon, 21.0975, "km"), "km", true);
    EveryPointKept(Kilometers, 20);
    EveryPointKept(Kilometers, 43);
  }

  /** The 21 km marker reads `21 km`. */
  lemma MarkerCaptionText()
    ensures CaptionText(MarkerCaption(21, "km")) == "21 km"
  {
    assert NatToString(21) == "21";
  }

  /** The kilometre half marathon reads `Half Marathon (21.10 km)`. */
  lemma HalfMarathonCaptionText()
    ensures CaptionText(RaceCaption(HalfMarathon, 21.0975, "km")) == "Half Marathon (21.10 km)"
  {
    HalfMarathonFixed2();
  }

  lemma HalfMarathonFixed2()
    ensures Fixed2(21.0975) == "21.10"
  {
    var h := Hundredths(21.0975);
    assert h == 2110;
    assert NatToString(21) == "21" && NatToString(10) == "10";
    assert UnsignedFixed2(21.0975) == NatToString(h / 100) + "." + PadStart2(NatToString(h % 100));
  }

  /** The mile ladder has 29 rows. */
  lemma MileLadder()
    ensures |GenerateLongDistanceData(Miles)| == 29
  {
  }
}
