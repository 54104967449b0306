# Running-pace calculator: conversion and scheduling engine

A Dafny model of the arithmetic and list logic of the simple pace calculator:

- **Pace converter.** Turns a pace per kilometre into a pace per mile, or the reverse, and computes both speeds.
- **Detailed calculator.** Takes a distance and a time and gives both paces and both speeds. The race presets resolve to fixed kilometre distances.
- **Split predictor.** Gives the elapsed time for a target distance at a given pace.
- **Milestone ladder.** Whole-unit markers plus three named race points, sorted and then deduplicated at three decimals.
- **Training planner.**
  - The race-date week counters, with Monday alignment.
  - The validation of the training form.
  - The choice of weeks to show and their start dates.
  - Grouping the weeks by phase.
  - The pace options, plan lookup, and submit and render guards.
- **Session and terrain classifiers.**
- **Legacy copies.** The top-level `App` component holds its own copies of the calculators. Each is modelled separately and related to the shared version.

Numbers are exact `real`s:

- `Math.round(x)` is `(x + 1/2).Floor`.
- `%` by 60 or 3600 keeps the sign of the dividend.
- A JavaScript number that may be `NaN` or infinite is the `Num` datatype.

Text fields become values:

- An empty time field is `None`. A filled one is the integer `parseInt` reads from it.
- A distance field is `None` when `parseFloat` gives `NaN`.
- A date is a whole day number counted from 1970-01-01, a Thursday, with weekday 0 for Sunday.

The pace toggle keeps the source's inverted meaning: `isKmToMile == false` means the entered pace is per kilometre (`PaceConversion.InputUnit`).

Modules:

| module | what it holds |
|---|---|
| `Wrappers` | `Option` |
| `JsNumber` | `Num`, Math.round/floor/ceil, `%`, scaling of NaN and the infinities |
| `Text` | number rendering, `padStart`, `toFixed(2)`, parsing digits, lower-casing, `includes` |
| `Units` | the conversion factors and kilometres per length unit |
| `TimeFormat` | `normalizeTime`, the uncarried `M:SS` pair, `formatTime` |
| `PaceConversion` | `calculatePaceConversion` |
| `DetailedPace` | `calculateDetailedPace` and the DetailedPaceCalculator unit handler and effect |
| `SplitTime` | `calculateSplitTime`, the track table, `handlePaceUnitChange` |
| `Ladder` | `generateLongDistanceData` |
| `Calendar` | weekdays, Monday alignment, the two week counters |
| `TrainingForm` | `validateField`, `handleInputChange`, `isValid`, the race-date effect |
| `PlanDisplay` | the slice of shown weeks, week start dates, grouping by phase |
| `TrainingPlans` | `generatePaceOptions`, plan lookup, submit and render guards |
| `WeekDisplay` | `getSessionType`, `getSessionStyle`, `getTerrainIcon` |
| `LegacyApp` | the inline copies in `App` |

## Model

| member | source | states |
|---|---|---|
| JsNumber.Round | src/utils/calculations.ts:11 | Math.round lands within half a unit of its argument, halves going up |
| JsNumber.Rem | src/utils/calculations.ts:28-29 | `%` by 60 or 3600 lies in [0, m) for a non-negative dividend and in (-m, 0] for a negative one; for x ≥ 0, x minus the remainder is a whole multiple of m |
| JsNumber.Scale | src/utils/calculations.ts:157-200 | multiplying by a positive factor: a finite v becomes the finite k·v, with its sign kept; NaN stays NaN, Infinity stays Infinity and -Infinity stays -Infinity |
| JsNumber.Floor | src/utils/calculations.ts:10 | Math.floor: the greatest whole number not above its argument |
| JsNumber.Ceil | src/hooks/useTrainingPlanForm.ts:56 | Math.ceil: the least whole number not below its argument |
| JsNumber.RoundShift | src/utils/calculations.ts:11 | shifting the argument of Math.round by a whole number shifts the result by the same amount |
| JsNumber.RoundOfInteger | src/utils/calculations.ts:11 | Math.round leaves a whole number unchanged |
| JsNumber.ClockDivisor | src/utils/calculations.ts:27-29 | definition (the divisors 60 and 3600 formatTime uses); the precondition of JsNumber.Rem |
| Text.NatToStringRoundTrip | src/utils/calculations.ts:78 | reading back the decimal rendering of a whole number gives the number |
| Text.PaddedRoundTrip | src/utils/calculations.ts:79 | `padStart(2, '0')` of a number below 100 is two digits that read back as the number |
| Text.UnsignedFixed2 | src/utils/calculations.ts:80-81 | `toFixed(2)` of a non-negative value is digits without a leading zero, a point and two digits that read back as its hundredths, rounded half up |
| Text.Fixed2 | src/utils/calculations.ts:138-139 | a negative value renders as a minus sign before the rendering of its magnitude |
| Text.ToLower | src/components/TrainingWeekDisplay.tsx:25 | `toLowerCase` keeps the length and lower-cases each ASCII letter in place |
| Text.ToLowerIdempotent | src/components/TrainingWeekDisplay.tsx:25 | lower-casing twice is lower-casing once |
| Text.NatToString | src/utils/calculations.ts:78 | `toString()` of a whole number: at least one digit, no leading zero, one digit exactly below 10 and at most two exactly below 100; characterised by Text.NatToStringRoundTrip |
| Text.IntToString | src/utils/calculations.ts:34 | a number in a template string: the plain rendering for a non-negative number, a minus sign before digits for a negative one |
| Text.PadStart2 | src/utils/calculations.ts:79 | `padStart(2, '0')`: a string of two or more characters is kept, a shorter one is prefixed with zeros to two characters and still ends with itself |
| Text.Hundredths | src/utils/calculations.ts:80-81 | the number of hundredths `toFixed(2)` shows: within half a hundredth of the value, halves going up, never negative for a non-negative value |
| Text.ShowsHundredths | src/utils/calculations.ts:80-81 | definition (digits without a leading zero, a point and two digits reading back as the hundredths); characterised by Text.UnsignedFixed2 and Text.Fixed2 |
| Text.DigitsValue | src/utils/calculations.ts:47 | definition (the number a digit string stands for); characterised by Text.NatToStringRoundTrip and Text.LeadingZero |
| Text.ParseDigits | src/utils/calculations.ts:47 | parseInt on unsigned digit strings: a number exactly for a non-empty string of digits |
| Text.LeadingZero | src/utils/calculations.ts:79 | a zero put in front of digits changes neither their being digits nor their value |
| Text.JoinShowsHundredths | src/utils/calculations.ts:80-81 | a whole part without leading zero, a point and two digits whose values add up to the hundredths of x show x to two decimals |
| Text.LowerChar | src/components/TrainingWeekDisplay.tsx:38 | definition (`toLowerCase` on one ASCII character); characterised by Text.ToLower and Text.ToLowerIdempotent |
| Text.Contains | src/components/TrainingWeekDisplay.tsx:38 | definition (`includes`: the text occurs at some position); characterised by WeekDisplay.Classify and WeekDisplay.EasyBeatsLong |
| Text.IsDigit | src/hooks/useTrainingPlanForm.ts:96 | definition (`\d` on one character); characterised by TrainingForm.PaceFormatSpelled |
| Text.AllDigits | src/utils/calculations.ts:78 | definition (a string of decimal digits); characterised by Text.NatToString |
| Text.DigitChar | src/utils/calculations.ts:78 | the character for a digit below 10 is a decimal digit |
| Text.DigitValue | src/utils/calculations.ts:47 | a decimal digit's value is below 10 and renders back as the same character |
| Text.OccursAt | src/components/TrainingWeekDisplay.tsx:38 | definition (the text occurs at a given position); characterised through Text.Contains by WeekDisplay.Classify |
| TimeFormat.Normalize | src/utils/calculations.ts:9-20 | for t ≥ 0: seconds in [0, 59], minutes ≥ 0, and minutes·60 + seconds equals round(t) |
| TimeFormat.NoCarry | src/utils/calculations.ts:130-133 | the minutes are the whole minutes elapsed, floor(t/60), for every t; for t ≥ 0 the seconds lie in [0, 60], reading 60 when the rounding reaches the next minute, and the pair adds up to round(t) |
| TimeFormat.NoCarryShows | src/utils/calculations.ts:136-137 | the uncarried `M:SS` text is digits without a leading zero, a colon and two digits of at most 60 that read back as round(t), with floor(t/60) in the minutes field |
| TimeFormat.CarryOnlyAtSixty | src/utils/calculations.ts:13-18 | the carry changes the pair exactly when the uncarried seconds read 60, and never the total |
| TimeFormat.ClockOf | src/utils/calculations.ts:22-31 | the sentinel exactly for non-finite input; for finite t ≥ 0 the hour form iff floor(t/3600) > 0; with hours shown the minutes lie in [0, 59]; seconds may reach 60, the fields add up to round(t), and hours and minutes together are floor(t/60) whole minutes, so 3599.6 s reads 59 minutes and 60 seconds |
| TimeFormat.ClockArithmetic | src/utils/calculations.ts:27-29 | minutes of the hour remainder lie in [0, 59]; hours and those minutes make up floor(t/60) whole minutes; with the rounded seconds they add back to the rounded count |
| TimeFormat.UncarriedSeconds | src/utils/calculations.ts:130-137 | any text showing t without a carry has exactly the uncarried minutes and seconds in its two fields, 60 seconds included |
| TimeFormat.CarriedTextIsNotUncarried | src/utils/calculations.ts:9-20 | where the uncarried seconds read 60, the carried rendering of normalizeTime is not an uncarried rendering of the same count |
| TimeFormat.FormatTime | src/utils/calculations.ts:22-36 | `--:--` exactly for NaN and the infinities, otherwise the rendering of the clock fields |
| TimeFormat.NumberTextIsNotDashes | src/utils/calculations.ts:31-35 | a rendered clock reading is never the `--:--` sentinel |
| TimeFormat.FormatTimeShowsSixty | src/utils/calculations.ts:29-34 | formatTime does not carry: 59.5 s shows as `0:60` |
| TimeFormat.FormatTimeHourSegment | src/utils/calculations.ts:31-35 | 3600 s shows as `1:00:00` and 3599 s as `59:59` |
| TimeFormat.MinSecText | src/utils/calculations.ts:136-137 | definition (`${min}:${sec padded}`); characterised by TimeFormat.NoCarryShows and TimeFormat.PairShows |
| TimeFormat.ShowsMinutesSeconds | src/utils/calculations.ts:136-137 | definition (a minutes field without leading zero, a colon and two digits for at most 60 seconds, reading back as the total); characterised by TimeFormat.PairShows, TimeFormat.Normalize and TimeFormat.NoCarryShows |
| TimeFormat.ShowsUncarried | src/utils/calculations.ts:130-137 | definition (shows round(t), with whole elapsed minutes in the minutes field); characterised by TimeFormat.UncarriedSeconds and TimeFormat.CarriedTextIsNotUncarried |
| TimeFormat.PairShows | src/utils/calculations.ts:136-137 | minutes and at most 60 seconds render as `M:SS` that reads back as their total, the minutes field holding the minutes |
| TimeFormat.ClockTotal | src/utils/calculations.ts:27-29 | definition (the seconds a clock reading stands for); characterised by TimeFormat.ClockOf and TimeFormat.ClockArithmetic |
| TimeFormat.ClockText | src/utils/calculations.ts:31-35 | definition (`H:MM:SS` when there are hours, `M:SS` otherwise); characterised by TimeFormat.FormatTime and TimeFormat.NumberTextIsNotDashes |
| PaceConversion.InputUnit | src/utils/calculations.ts:55 | the input is per kilometre exactly when the flag is false |
| PaceConversion.Convert | src/utils/calculations.ts:43-73 | the two sentinels under their exact conditions; a per-km input gives speedKmh·t = 3600 and output t·KM_PER_MILE; a per-mile input gives speedMph·t = 3600 and output t/KM_PER_MILE; always speedKmh = speedMph·KM_PER_MILE |
| PaceConversion.CalculatePaceConversion | src/utils/calculations.ts:38-83 | empty input gives four empty fields; a total ≤ 0 gives `0`, `00`, `0.00`, `0.00`; otherwise the pace fields, minutes without a leading zero and two seconds digits below 60, read back as the rounded output seconds, and both speeds show their hundredths |
| PaceConversion.NormalizedShows | src/utils/calculations.ts:75-79 | the carried pair renders as a minutes field without a leading zero and two seconds digits below 60 that read back as round(t) |
| PaceConversion.PerKmArithmetic | src/utils/calculations.ts:55-73 | rounding t·KM_PER_MILE and dividing back rounds to t |
| PaceConversion.PerMileArithmetic | src/utils/calculations.ts:55-73 | rounding t/KM_PER_MILE and multiplying back rounds to within one second of t |
| PaceConversion.PerKmRoundTrip | src/utils/calculations.ts:55-75 | a whole per-km pace converted to per mile, read back and converted again shows the original seconds exactly |
| PaceConversion.PerMileRoundTrip | src/utils/calculations.ts:55-75 | a whole per-mile pace converted to per km and back is within one second of the original |
| PaceConversion.ConvertedReadBack | src/utils/calculations.ts:75-82 | the fields of a converted pace read back as present numbers worth its rounded output seconds |
| PaceConversion.ReadBackShows | src/utils/calculations.ts:78-79 | output fields that show a total read back as present numbers adding up to that total |
| PaceConversion.TotalSeconds | src/utils/calculations.ts:47 | definition (minutes times 60 plus seconds, an empty field counting 0); characterised by PaceConversion.Convert and PaceConversion.CalculatePaceConversion |
| PaceConversion.ShowsMinSec | src/utils/calculations.ts:78-79 | definition (a minutes field without leading zero and a two-digit seconds field below 60 reading back as the total); characterised by PaceConversion.NormalizedShows and PaceConversion.CalculatePaceConversion |
| PaceConversion.ReadBack | src/utils/calculations.ts:47 | definition (the output fields parsed again as input fields); characterised by PaceConversion.ReadBackShows and PaceConversion.ConvertedReadBack |
| PaceConversion.AsField | src/utils/calculations.ts:47 | definition (a parsed field, empty when not a number); characterised by PaceConversion.ReadBackShows |
| Units.KmPer | src/utils/calculations.ts:3-7 | every length unit is a positive number of kilometres |
| DetailedPace.DistanceToKm | src/utils/calculations.ts:107-119 | metres divide by 1000, miles multiply by KM_PER_MILE, yards multiply by METERS_PER_YARD/1000, any other unit is unchanged; a positive distance stays positive |
| DetailedPace.DetailedFigures | src/utils/calculations.ts:92-128 | no figures exactly when one of the four guards fires; otherwise pace·distance = time, speedKmh·pacePerKm = 3600, pacePerMile = pacePerKm·KM_PER_MILE, speedKmh = speedMph·KM_PER_MILE, all positive |
| DetailedPace.FiguresOf | src/utils/calculations.ts:125-128 | the paces and speeds of a positive time over a positive distance satisfy the same four relations |
| DetailedPace.QuotientProducts | src/utils/calculations.ts:125-127 | distance per hour times seconds per km is an hour |
| DetailedPace.KmGuardNeverFires | src/utils/calculations.ts:121-123 | the guard on the converted distance adds no rejection to the first three |
| DetailedPace.CalculateDetailedPace | src/utils/calculations.ts:85-141 | the all-empty result exactly when a guard fires; otherwise both paces render as `M:SS` with floor(pace/60), without a leading zero, in the minutes field and the rounded remainder, possibly 60, in the seconds, reading back as the rounded pace; both speeds show their hundredths |
| DetailedPace.TenKmInFiftyMinutes | src/utils/calculations.ts:125-139 | 10 km in 50 minutes gives `5:00`, `8:03` and `12.00` |
| DetailedPace.TenKmFigures | src/utils/calculations.ts:125-128 | the figures of 10 km in 50 minutes |
| DetailedPace.HandleDistanceUnitChange | src/components/DetailedPaceCalculator.tsx:15-24 | a preset sets its distance and keeps its own name as the unit; a plain unit changes only the unit; anything else changes nothing |
| DetailedPace.CalculationInput | src/components/DetailedPaceCalculator.tsx:28-37 | a preset is calculated as its fixed distance in `km`; otherwise the typed distance and unit are used |
| DetailedPace.WithOutputs | src/components/DetailedPaceCalculator.tsx:46-52 | the four calculated fields take the result and the inputs are left alone |
| DetailedPace.Recalculate | src/components/DetailedPaceCalculator.tsx:26-53 | the effect leaves the inputs unchanged and writes the calculation for the resolved distance and unit |
| DetailedPace.PresetIgnoresTypedDistance | src/components/DetailedPaceCalculator.tsx:31-37 | with a preset selected the typed distance does not affect the outputs |
| DetailedPace.SelectPresetThenRecalculate | src/components/DetailedPaceCalculator.tsx:17-52 | choosing a preset and recalculating gives the pace for the preset's kilometres, with the preset recorded as the unit |
| DetailedPace.TimeTotal | src/utils/calculations.ts:97-100 | definition (hours·3600 + minutes·60 + seconds, empty fields counting 0); characterised by DetailedPace.CalculateDetailedPace and DetailedPace.DetailedFigures |
| DetailedPace.Rejected | src/utils/calculations.ts:92-123 | definition (the four guards that return the empty result); characterised by DetailedPace.CalculateDetailedPace and DetailedPace.KmGuardNeverFires |
| DetailedPace.DetailedUnit | src/utils/calculations.ts:109-119 | definition (the switch on the distance unit, anything unknown read as km); characterised by DetailedPace.DistanceToKm |
| DetailedPace.TenKmTexts | src/utils/calculations.ts:130-139 | a pace of 300 s renders `5:00`, one of 482.802 s renders `8:03`, and 12 km/h renders `12.00` |
| DetailedPace.PresetKm | src/components/DetailedPaceCalculator.tsx:17-20 | definition (42.195 for a marathon, 21.0975 for a half marathon, nothing otherwise); characterised by DetailedPace.HandleDistanceUnitChange and DetailedPace.CalculationInput |
| DetailedPace.PlainUnit | src/components/DetailedPaceCalculator.tsx:21 | definition (one of km, mile, m, yard); characterised by DetailedPace.HandleDistanceUnitChange |
| DetailedPace.Inputs | src/components/DetailedPaceCalculator.tsx:26-53 | definition (the typed fields of the state); characterised by DetailedPace.WithOutputs |
| DetailedPace.Outputs | src/components/DetailedPaceCalculator.tsx:26-53 | definition (the calculated fields of the state); characterised by DetailedPace.Recalculate |
| SplitTime.SplitSeconds | src/utils/calculations.ts:155-198 | every branch computes the target in kilometres times the pace per kilometre |
| SplitTime.SplitNum | src/utils/calculations.ts:155-198 | the split time is finite exactly when the target is finite |
| SplitTime.CalculateSplitTime | src/utils/calculations.ts:143-201 | `--:--` for an empty pace or a non-finite target with a positive pace; `0:00` for a total ≤ 0; for a finite target ≥ 0 the clock of the split, whose fields add up to the rounded split |
| SplitTime.SplitNonNegative | src/utils/calculations.ts:155-198 | a non-negative target takes a non-negative time |
| SplitTime.SplitMonotone | src/utils/calculations.ts:155-198 | for a fixed pace and unit the split does not decrease as the target grows |
| SplitTime.SplitStrictlyMonotone | src/utils/calculations.ts:155-198 | for a fixed pace and unit the split strictly grows with the target |
| SplitTime.ThousandMetresIsOneKm | src/utils/calculations.ts:160-174 | 1000·d metres take as long as d kilometres |
| SplitTime.MilesAtMilePace | src/utils/calculations.ts:184-185 | a per-mile pace over n miles is exactly pace·n |
| SplitTime.UnknownUnitIsKm | src/utils/calculations.ts:172-175 | a unit outside m, mile, ft, yd is treated as kilometres |
| SplitTime.AgreesWithDetailedDistance | src/utils/calculations.ts:109-119 | the split and the detailed calculator convert metres, miles and yards alike |
| SplitTime.SplitScenarios | src/utils/calculations.ts:150-153 | 5:00 per km over 400 m is `2:00`; an empty pace shows `--:--`; a zero pace shows `0:00` |
| SplitTime.TrackDistancesAscending | src/components/SplitTimeCalculator.tsx:10-13 | the track distances are strictly ascending |
| SplitTime.TrackSplitsIncrease | src/components/SplitTimeCalculator.tsx:10-13 | down the track table the split times strictly increase for any positive pace |
| SplitTime.HandlePaceUnitChange | src/components/SplitTimeCalculator.tsx:97-112 | the flag flips; in custom mode with a distance the split is recomputed with the flipped flag; otherwise it and every other field are unchanged |
| SplitTime.ToggleTwice | src/components/SplitTimeCalculator.tsx:97-112 | toggling twice restores a custom-mode state whose split was up to date |
| SplitTime.SplitUnit | src/utils/calculations.ts:157-176 | definition (the switch on the target unit, anything unknown read as km); characterised by SplitTime.SplitSeconds and SplitTime.UnknownUnitIsKm |
| SplitTime.PacePerKm | src/utils/calculations.ts:157-198 | definition (the entered pace, divided by km per mile when it is per mile); characterised by SplitTime.SplitSeconds and SplitTime.MilesAtMilePace |
| SplitTime.CustomSplitOf | src/components/SplitTimeCalculator.tsx:97-112 | definition (the custom split the state's own fields call for); characterised by SplitTime.HandlePaceUnitChange and SplitTime.ToggleTwice |
| Ladder.CaptionText | src/components/SplitTimeCalculator.tsx:41-67 | a marker reads `n unit` and a race point reads `name (distance to two decimals unit)` |
| Ladder.Markers | src/components/SplitTimeCalculator.tsx:41-47 | markers 1 to 42 (km) or 1 to 26 (mile), each labelled with its number and the mode's unit |
| Ladder.Insert | src/components/SplitTimeCalculator.tsx:70 | inserting into a sorted list keeps it sorted and adds exactly the one point |
| Ladder.SortByDistance | src/components/SplitTimeCalculator.tsx:70 | the result is sorted by distance and is a permutation of the input |
| Ladder.FindByKey | src/components/SplitTimeCalculator.tsx:72 | the first index whose three-decimal key matches, or none exactly when no key matches |
| Ladder.Absorb | src/components/SplitTimeCalculator.tsx:71-82 | a new key is appended; on a collision the kept point keeps its place, distance and unit, and takes the newcomer's label and flag only if the newcomer is special and the kept point is not |
| Ladder.CollisionRule | src/components/SplitTimeCalculator.tsx:76-80 | a special newcomer meeting a plain row relabels it in place; any other collision changes nothing |
| Ladder.Dedup | src/components/SplitTimeCalculator.tsx:71-82 | no two rows share a key; every row sits where an input point sits; every input key is represented; sorted input gives strictly ascending rows |
| Ladder.DedupWithoutCollisions | src/components/SplitTimeCalculator.tsx:71-82 | when no keys collide the reduction returns its input unchanged |
| Ladder.GenerateLongDistanceData | src/components/SplitTimeCalculator.tsx:22-83 | strictly ascending, distinct keys, every row in the mode's unit, exactly the built points, MaxDistance + 3 rows |
| Ladder.SortKeepsDistinctKeys | src/components/SplitTimeCalculator.tsx:70 | sorting keeps keys distinct |
| Ladder.SortKeepsUnits | src/components/SplitTimeCalculator.tsx:70 | sorting keeps a unit shared by all points |
| Ladder.BuildPointsDistinct | src/components/SplitTimeCalculator.tsx:23-67 | with these constants no named point shares a key with a marker or with another named point |
| Ladder.SpecialKeysFacts | src/components/SplitTimeCalculator.tsx:23-32 | the named points' keys are not whole units and ascend |
| Ladder.KilometreLadderSize | src/components/SplitTimeCalculator.tsx:22-83 | the kilometre ladder has 45 rows |
| Ladder.MileLadder | src/components/SplitTimeCalculator.tsx:22-83 | the mile ladder has 29 rows |
| Ladder.EveryPointKept | src/components/SplitTimeCalculator.tsx:71-82 | every built point reaches the table |
| Ladder.KilometreLadderKeepsBoth | src/components/SplitTimeCalculator.tsx:41-61 | both the `21 km` marker and the half marathon row are in the kilometre table |
| Ladder.MarkerCaptionText | src/components/SplitTimeCalculator.tsx:44 | the 21 km marker reads `21 km` |
| Ladder.HalfMarathonCaptionText | src/components/SplitTimeCalculator.tsx:58 | the kilometre half marathon reads `Half Marathon (21.10 km)` |
| Ladder.BaseUnitDistances | src/components/SplitTimeCalculator.tsx:23-34 | definition (the race distances in kilometres or in miles); characterised by Ladder.SpecialKeysFacts |
| Ladder.UnitLabel | src/components/SplitTimeCalculator.tsx:35 | definition (`km` or `mile`); characterised by Ladder.GenerateLongDistanceData and Ladder.SortedUnits |
| Ladder.MaxDistance | src/components/SplitTimeCalculator.tsx:36 | definition (42 or 26); characterised by Ladder.Markers and Ladder.GenerateLongDistanceData |
| Ladder.RaceName | src/components/SplitTimeCalculator.tsx:52-64 | definition (the three race names); characterised by Ladder.CaptionText |
| Ladder.Specials | src/components/SplitTimeCalculator.tsx:50-67 | definition (the three named race points, flagged special); characterised by Ladder.SpecialKeysFacts and Ladder.BuildPointsDistinct |
| Ladder.BuildPoints | src/components/SplitTimeCalculator.tsx:38-67 | definition (the markers, then the named points, in push order); characterised by Ladder.BuildPointsDistinct and Ladder.GenerateLongDistanceData |
| Ladder.SortedByDistance | src/components/SplitTimeCalculator.tsx:70 | definition (the order the comparator `a.distance - b.distance` asks for); characterised by Ladder.Insert and Ladder.SortByDistance |
| Ladder.InsertBehindHead | src/components/SplitTimeCalculator.tsx:70 | a point not nearer than a sorted list's head, inserted behind it, keeps the list sorted and adds exactly that point |
| Ladder.InsertKeepsDistinctKeys | src/components/SplitTimeCalculator.tsx:70 | inserting a point whose key no point of the list has keeps keys distinct |
| Ladder.SortedUnits | src/components/SplitTimeCalculator.tsx:35-70 | every sorted point carries the mode's unit |
| Ladder.Key | src/components/SplitTimeCalculator.tsx:72 | definition (`toFixed(3)` as a whole number of thousandths); characterised by Ladder.FindByKey and Ladder.DistinctKeys |
| Ladder.DistinctKeys | src/components/SplitTimeCalculator.tsx:71-82 | definition (no two points share a three-decimal key); characterised by Ladder.Dedup and Ladder.GenerateLongDistanceData |
| Ladder.Keys | src/components/SplitTimeCalculator.tsx:72 | the keys of a list, one per point in order |
| Ladder.SpecialKeys | src/components/SplitTimeCalculator.tsx:23-32 | the keys of the three named points, in push order |
| Ladder.NewKeyIsAbsent | src/components/SplitTimeCalculator.tsx:72-74 | in a list of distinct keys the last point's key is not found among the earlier ones |
| Ladder.AbsorbKeepsDistinct | src/components/SplitTimeCalculator.tsx:71-82 | one reducer step keeps keys distinct |
| Ladder.AbsorbKeepsSites | src/components/SplitTimeCalculator.tsx:76-79 | one reducer step keeps every kept point's distance and unit among those seen so far |
| Ladder.AbsorbKeepsKeys | src/components/SplitTimeCalculator.tsx:71-82 | after one more reducer step every key seen so far is still present |
| Ladder.AbsorbKeepsAscending | src/components/SplitTimeCalculator.tsx:70-82 | on sorted input one more reducer step keeps the kept points strictly ascending |
| Ladder.HalfMarathonFixed2 | src/components/SplitTimeCalculator.tsx:58 | `(21.0975).toFixed(2)` is `21.10` |
| Ladder.StrictlyAscending | src/components/SplitTimeCalculator.tsx:70-82 | definition (distances strictly increasing); characterised by Ladder.GenerateLongDistanceData |
| Ladder.Site | src/components/SplitTimeCalculator.tsx:76-79 | definition (a point's distance and unit, which the collision rule never changes); characterised by Ladder.AbsorbKeepsSites |
| Ladder.Sites | src/components/SplitTimeCalculator.tsx:76-79 | the distance and unit of each point of a list, in order |
| Ladder.SiteWitness | src/components/SplitTimeCalculator.tsx:76-79 | a distance and unit among a list's sites belongs to some point of the list |
| Ladder.InsertMembers | src/components/SplitTimeCalculator.tsx:70 | every point of an insertion result is the inserted point or a point of the list |
| Ladder.TailKeysDiffer | src/components/SplitTimeCalculator.tsx:72 | in a list of distinct keys no later point shares the head's key |
| Ladder.ConsKeepsDistinctKeys | src/components/SplitTimeCalculator.tsx:70 | putting a point with a new key in front of a list of distinct keys keeps them distinct |
| Calendar.Weekday | src/hooks/useTrainingPlanForm.ts:59 | `getDay()` lies in 0..6 |
| Calendar.DaysToMonday | src/hooks/useTrainingPlanForm.ts:60 | between 0 and 6 days, and stepping back that far lands on a Monday |
| Calendar.MondayOf | src/hooks/useTrainingPlanForm.ts:58-70 | the result is a Monday, 0 to 6 days earlier |
| Calendar.MondayUnique | src/hooks/useTrainingPlanForm.ts:58-70 | any Monday at most six days back is the one found |
| Calendar.MondayOfMonday | src/hooks/useTrainingPlanForm.ts:58-70 | snapping a Monday leaves it in place |
| Calendar.MondayOfWeekEarlier | src/components/TrainingPlanDisplay.tsx:39-44 | a week earlier snaps to the Monday a week earlier |
| Calendar.WeeksBeforeRace | src/hooks/useTrainingPlanForm.ts:55-56 | the week count is the day count divided by seven, rounded up |
| Calendar.FullWeeksUnclamped | src/hooks/useTrainingPlanForm.ts:72-74 | seven times the count is the gap between the two Mondays |
| Calendar.FullWeeksBeforeRace | src/hooks/useTrainingPlanForm.ts:79 | never negative, and the unclamped count when that is not negative |
| Calendar.FullWeeksBetween | src/hooks/useTrainingPlanForm.ts:54-79 | seven times the Monday-to-Monday count is within six days of the day gap, and that count is the rounded-up week count or one less |
| Calendar.SameWeekNoFullWeeks | src/hooks/useTrainingPlanForm.ts:72-79 | a race in the current week gives zero full weeks |
| Calendar.SameWeekdayMultipleOfSeven | src/hooks/useTrainingPlanForm.ts:59-70 | two days on the same weekday lie a whole number of weeks apart |
| TrainingForm.PaceFormatSpelled | src/hooks/useTrainingPlanForm.ts:96 | the pattern accepts exactly a digit, a colon and two digits |
| TrainingForm.ValidateField | src/hooks/useTrainingPlanForm.ts:88-105 | no error exactly for accepted values; an empty field gets its required message; a malformed pace gets the format message; a date not after now gets the future message |
| TrainingForm.HandleInputChange | src/hooks/useTrainingPlanForm.ts:107-117 | the named field and its error are set; every other field, error and counter is unchanged |
| TrainingForm.IsValid | src/hooks/useTrainingPlanForm.ts:119-123 | valid exactly when every error is falsy and all four fields are non-empty |
| TrainingForm.FieldwiseValidity | src/hooks/useTrainingPlanForm.ts:119-123 | the per-field reading of validity equals the field-by-field conjunction |
| TrainingForm.InitialIsInvalid | src/hooks/useTrainingPlanForm.ts:119-123 | the empty form is not valid |
| TrainingForm.RejectedValueInvalidates | src/hooks/useTrainingPlanForm.ts:107-123 | entering a rejected value makes the form invalid |
| TrainingForm.AcceptedValueKeepsValidity | src/hooks/useTrainingPlanForm.ts:107-123 | entering an accepted value keeps a valid form valid |
| TrainingForm.FillingInValidates | src/hooks/useTrainingPlanForm.ts:88-123 | filling the four fields with accepted values makes an empty form valid |
| TrainingForm.RaceDateEffect | src/hooks/useTrainingPlanForm.ts:46-86 | no change without a race date; otherwise the rounded-up and clamped counters, and the too-soon error exactly when the race is at most 21 days away; an unparsable date gives NaN, 0 and no error; other fields and errors unchanged |
| TrainingForm.ValidAfterEffectMeansFarEnough | src/hooks/useTrainingPlanForm.ts:76-83 | a form valid after the effect has its race more than 21 days away and at least three full weeks |
| TrainingForm.IsPaceFormat | src/hooks/useTrainingPlanForm.ts:96 | definition (`/^\d{1}:\d{2}$/`); characterised by TrainingForm.PaceFormatSpelled |
| TrainingForm.Accepts | src/hooks/useTrainingPlanForm.ts:88-105 | definition (a value the validator returns no message for); characterised by TrainingForm.ValidateField |
| TrainingForm.RequiredMessage | src/hooks/useTrainingPlanForm.ts:91-98 | definition (each field's message for an empty value); characterised by TrainingForm.ValidateField |
| TrainingForm.ValueOf | src/hooks/useTrainingPlanForm.ts:107-117 | definition (the field a key names); characterised by TrainingForm.HandleInputChange |
| TrainingForm.ErrorOf | src/hooks/useTrainingPlanForm.ts:112-115 | definition (the error a key names); characterised by TrainingForm.HandleInputChange |
| TrainingForm.Falsy | src/hooks/useTrainingPlanForm.ts:119 | definition (`!error`: absent or empty); characterised by TrainingForm.IsValid |
| PlanDisplay.SliceFrom | src/components/TrainingPlanDisplay.tsx:34 | `slice` with one start index, a negative one counted from the end |
| PlanDisplay.RelevantWeeks | src/components/TrainingPlanDisplay.tsx:33-34 | with fullWeeks ≥ 1 the last min(fullWeeks, length) weeks; with 0 the whole plan |
| PlanDisplay.WeekStart | src/components/TrainingPlanDisplay.tsx:38-45 | the Monday of the week holding raceDate − 7N, 0 to 6 days earlier |
| PlanDisplay.NextWeekStartsSevenDaysEarlier | src/components/TrainingPlanDisplay.tsx:39-44 | week N + 1 starts exactly seven days before week N |
| PlanDisplay.DateWeeks | src/components/TrainingPlanDisplay.tsx:38-46 | each shown week is paired, index by index, with its Monday start date |
| PlanDisplay.FindGroup | src/components/TrainingPlanDisplay.tsx:50 | the group for a phase, or none exactly when no group has it |
| PlanDisplay.PhasesDistinct | src/components/TrainingPlanDisplay.tsx:49-58 | each phase is listed once |
| PlanDisplay.GroupByPhaseSpec | src/components/TrainingPlanDisplay.tsx:49-76 | the groups come in order of first appearance, each holding exactly its phase's weeks in their original order |
| PlanDisplay.NoWeeksOfUnseenPhase | src/components/TrainingPlanDisplay.tsx:49-58 | a phase not yet seen has no weeks |
| PlanDisplay.OfPhaseMembers | src/components/TrainingPlanDisplay.tsx:53-56 | weeks filed under a phase are of that phase and come from the input |
| PlanDisplay.InOwnPhase | src/components/TrainingPlanDisplay.tsx:50-56 | every week is filed under its own phase, which is listed |
| PlanDisplay.EachWeekInExactlyOneGroup | src/components/TrainingPlanDisplay.tsx:49-58 | every shown week lands in its phase's group and in no other |
| PlanDisplay.Phases | src/components/TrainingPlanDisplay.tsx:49-58 | definition (the phases in order of first appearance); characterised by PlanDisplay.PhasesDistinct and PlanDisplay.GroupByPhaseSpec |
| PlanDisplay.OfPhase | src/components/TrainingPlanDisplay.tsx:53-56 | definition (the weeks of one phase in their original order); characterised by PlanDisplay.OfPhaseMembers and PlanDisplay.GroupByPhaseSpec |
| PlanDisplay.GroupPhases | src/components/TrainingPlanDisplay.tsx:76 | the phase names of the groups, one per group in order |
| PlanDisplay.AddToGroup | src/components/TrainingPlanDisplay.tsx:50-57 | definition (the reducer step); characterised by PlanDisplay.GroupByPhaseSpec and PlanDisplay.EachWeekInExactlyOneGroup |
| PlanDisplay.GroupByPhase | src/components/TrainingPlanDisplay.tsx:49-58 | definition; characterised by PlanDisplay.GroupByPhaseSpec and PlanDisplay.EachWeekInExactlyOneGroup |
| PlanDisplay.Distinct | src/components/TrainingPlanDisplay.tsx:76 | definition (no name listed twice, as object keys); characterised by PlanDisplay.PhasesDistinct |
| TrainingPlans.PaceLabelReadsBack | src/pages/TrainingPlans.tsx:38 | a one-digit minute and seconds below 60 give a label the validator accepts, whose seconds field reads back as the seconds and whose value is the total |
| TrainingPlans.GeneratePaceOptions | src/pages/TrainingPlans.tsx:34-44 | 25 labels: the k-th of the first 24 is minute 4 + k/6 with seconds (k mod 6)·10 spelled `M:SS`, and the last is `8:00`; each is accepted by the validator, has a seconds field below 60, and is worth 240 + 10·k seconds |
| TrainingPlans.PushMinute | src/pages/TrainingPlans.tsx:37-40 | the inner loop pushes the six labels of one minute in order, keeping the earlier ones |
| TrainingPlans.OptionsReadBack | src/pages/TrainingPlans.tsx:36-42 | the loop labels followed by `8:00` read back as 4:00 plus ten seconds per step, each seconds field below 60 |
| TrainingPlans.LookupPlan | src/pages/TrainingPlans.tsx:52-53 | no plan exactly when a key is missing at some level, otherwise the stored plan |
| TrainingPlans.HandleSubmit | src/pages/TrainingPlans.tsx:46-54 | an invalid form leaves the shown plan alone; a valid one shows the lookup |
| TrainingPlans.RenderedPlanIsProperSuffix | src/pages/TrainingPlans.tsx:163 | once the effect has run, a rendered plan has at least one full week and shows its last min(fullWeeks, length) weeks |
| TrainingPlans.ZeroFullWeeksHidesPlan | src/pages/TrainingPlans.tsx:163 | a zero or missing week count renders no plan |
| TrainingPlans.PaceLabel | src/pages/TrainingPlans.tsx:38 | definition (`${min}:${sec padded}`); characterised by TrainingPlans.PaceLabelReadsBack |
| TrainingPlans.PaceSeconds | src/pages/TrainingPlans.tsx:38 | definition (the seconds an `M:SS` label stands for); characterised by TrainingPlans.PaceLabelReadsBack and TrainingPlans.OptionsReadBack |
| TrainingPlans.OptionLabel | src/pages/TrainingPlans.tsx:36-39 | definition (the label of the k-th pass of the nested loops); characterised by TrainingPlans.GeneratePaceOptions and TrainingPlans.OptionReadsBack |
| TrainingPlans.FirstOption | src/pages/TrainingPlans.tsx:36-38 | the first loop label is `4:00` |
| TrainingPlans.OptionReadsBack | src/pages/TrainingPlans.tsx:36-39 | the k-th loop label is in `M:SS` form, with seconds below 60, worth 4:00 plus ten seconds per step |
| TrainingPlans.LastOptionReadsBack | src/pages/TrainingPlans.tsx:42 | the appended `8:00` is in `M:SS` form with a zero seconds field, worth 480 seconds |
| TrainingPlans.ShouldRender | src/pages/TrainingPlans.tsx:163 | definition (a plan and a truthy full-week count); characterised by TrainingPlans.RenderedPlanIsProperSuffix and TrainingPlans.ZeroFullWeeksHidesPlan |
| TrainingPlans.PushOption | src/pages/TrainingPlans.tsx:39 | pushing the next loop label keeps the list equal to the labels so far |
| TrainingPlans.OptionIndex | src/pages/TrainingPlans.tsx:36-38 | the label for minutes 4 to 7 and a seconds step below 60 is the k-th option label, k below 24 |
| WeekDisplay.Classify | src/components/TrainingWeekDisplay.tsx:37-55 | easy when 'easy' occurs; long when 'long' occurs and 'easy' does not; track otherwise |
| WeekDisplay.SessionType | src/components/TrainingWeekDisplay.tsx:47-55 | each of the three labels exactly under its condition |
| WeekDisplay.SessionStyle | src/components/TrainingWeekDisplay.tsx:37-45 | green exactly when 'easy' occurs; yellow when 'long' occurs and 'easy' does not; red otherwise |
| WeekDisplay.StyleAgreesWithType | src/components/TrainingWeekDisplay.tsx:37-55 | the label and the colour always pair up: Easy Run with green, Long Run with yellow, Track Session with red |
| WeekDisplay.EasyBeatsLong | src/components/TrainingWeekDisplay.tsx:37-55 | with both words present the session is easy, coloured green |
| WeekDisplay.EasyLongRunIsEasy | src/components/TrainingWeekDisplay.tsx:48-49 | `Easy LONG run` is an easy run |
| WeekDisplay.LongIntervalsIsLong | src/components/TrainingWeekDisplay.tsx:50-51 | `LONG Intervals` is a long run |
| WeekDisplay.TerrainIcon | src/components/TrainingWeekDisplay.tsx:24-35 | road, road or trail and track get their icons; the runner exactly for anything else |
| WeekDisplay.CaseInsensitive | src/components/TrainingWeekDisplay.tsx:24-55 | strings equal up to letter case get the same type, colour and icon |
| WeekDisplay.LowerCasingChangesNothing | src/components/TrainingWeekDisplay.tsx:24-55 | each helper answers the same for a string and its lower-cased form |
| WeekDisplay.TerrainExamples | src/components/TrainingWeekDisplay.tsx:24-35 | `TRACK` gets the stadium and `trail` the runner |
| WeekDisplay.KindName | src/components/TrainingWeekDisplay.tsx:47-55 | definition (the three labels); characterised by WeekDisplay.SessionType and WeekDisplay.StyleAgreesWithType |
| WeekDisplay.KindStyle | src/components/TrainingWeekDisplay.tsx:37-45 | definition (the three colours); characterised by WeekDisplay.SessionStyle and WeekDisplay.StyleAgreesWithType |
| LegacyApp.LegacyCalculatePace | src/App.tsx:51-108 | the same sentinels as the shared converter; otherwise `M:SS` with floor(t/60) in the minutes field and the uncarried seconds, reading back as the rounded output seconds, and the shared speeds |
| LegacyApp.LegacyFigures | src/App.tsx:69-107 | the legacy output seconds and speeds are the shared converter's numbers |
| LegacyApp.LegacySpeeds | src/App.tsx:94-107 | one over the hours equals 3600 over the pace seconds |
| LegacyApp.LegacyHourGuardUnreachable | src/App.tsx:87-92 | the zero-hours guard cannot fire past the `<= 0` guard |
| LegacyApp.LegacyPaceDiffersOnlyAtSixty | src/App.tsx:81-85 | the legacy and shared converters disagree exactly when the uncarried seconds read 60 |
| LegacyApp.LegacyPaceShowsSixty | src/App.tsx:81-85 | a 0:37 per-km pace gives 37·KM_PER_MILE (about 59.5) s per mile, shown uncarried as 0 and 60 and carried as 1 and 0 |
| LegacyApp.LegacyDetailedPace | src/App.tsx:110-175 | the legacy detailed calculator gives the shared result on every input |
| LegacyApp.LegacyDetailedFigures | src/App.tsx:111-164 | the legacy guards and arithmetic give the shared figures |
| LegacyApp.LegacySplitSeconds | src/App.tsx:184-233 | the legacy branch arithmetic equals the shared split arithmetic |
| LegacyApp.LegacySplitTime | src/App.tsx:178-244 | the same sentinels; dashes exactly for an empty pace or a non-finite target with a positive pace; for a finite target ≥ 0, `M:SS` with no hour segment, floor(t/60) in the minutes field and the uncarried seconds, reading back as the rounded split |
| LegacyApp.LegacySplitAgreesBelowAnHour | src/App.tsx:235-243 | below an hour the legacy and shared split texts agree |
| LegacyApp.LegacySplitHasNoHours | src/App.tsx:236-243 | 60 km at 1:00 per km: formatTime shows an hour and the legacy copy shows 60 minutes |
| LegacyApp.LegacyCustomSplit | src/App.tsx:310-321 | outside custom mode the split is unchanged; in custom mode it is calculated only for a distance above zero and some pace field, and is `--:--` otherwise |
| LegacyApp.LegacyCustomSplitDashes | src/App.tsx:310-321 | in custom mode the dashes show exactly for no pace, a distance not above zero, or an infinite distance with a positive pace |
| LegacyApp.LegacyHandleDistanceUnitChange | src/App.tsx:326-339 | a preset sets its distance and the unit `km`; any other value is stored as the unit |
| LegacyApp.UnitHandlersCompared | src/App.tsx:326-339 | the two unit handlers agree on plain units, give a preset the same distance but record `km` versus the preset's name, and differ on an unknown unit the state does not already hold |
| LegacyApp.PresetPathsAgree | src/App.tsx:326-339 | after choosing a preset both calculators show the same figures |
| LegacyApp.LegacyBuildPoints | src/App.tsx:246-279 | the legacy point list equals the component's |
| LegacyApp.LegacyGenerateLongDistanceData | src/App.tsx:246-297 | the legacy ladder equals the component's |
| LegacyApp.LegacyTrackTableAgrees | src/App.tsx:346 | the legacy track table equals the component's |
| LegacyApp.SixtyIsNotZero | src/App.tsx:81-85 | a seconds value of 60 renders `60` and a value of 0 renders `00`, so the uncarried text differs from the carried one |
| LegacyApp.SplitShows | src/App.tsx:178-244 | for a positive pace and a non-negative distance the split renders as `M:SS` without a carry |

## Left out

- IEEE-754 doubles. Arithmetic is exact, so every rounding (`Math.round`, `toFixed`, the three-decimal keys) acts on the exact value. Ties that binary rounding would break differently are not modelled.
- `toFixed` for values of 1e21 and above, which JavaScript renders in exponent form.
- `parseInt` and `parseFloat` on arbitrary text. A field is empty, or holds the number the parser reads. Text that the parser turns into `NaN` is out of scope for the time fields.
- Date parsing, the wall clock, time zones and daylight saving. Dates are whole day numbers and "now" is a parameter. The future check in `validateField` compares instants that are passed in as integers.
- React state, effects, batching and JSX, and the collapse and expand state. Each handler and effect is a pure function from one state to the next.
- The contents of `training_plans.json`. The plan table is a parameter.
- The ordering that `Object.entries` gives to integer-like keys, and keys inherited from `Object.prototype`. Phases are taken to be ordinary strings.
- `toLowerCase` outside ASCII.
- LegacyApp.LegacyCalculatePace: the `totalHours === 0` guard is dropped from the body, because LegacyApp.LegacyHourGuardUnreachable shows it cannot fire.
- Ladder.Point: the row label is kept in structured form (`Caption`) rather than as the rendered string. Ladder.CaptionText gives the rendering.
- Ladder.SortByDistance: states sortedness and permutation, not stability. With these constants no two points have the same distance, so stability does not affect the table.
- Ladder.Dedup: states distinct keys, strict ascent over sorted input, and that every row sits where an input point sits. It does not state "order-preserving subsequence" in so many words. Ladder.DedupWithoutCollisions gives the exact output for the inputs that occur.
- SplitTime.CalculateSplitTime and LegacyApp.LegacySplitTime state the rendered reading only for a finite target ≥ 0. A negative finite target is computed by the body but not described.
- Behaviours the model keeps that a reader might not expect:
  - `formatTime` and the detailed calculator's paces do not carry, so `:60` can appear.
  - A negative target distance gives a negative finite time, not the dashes.
- TrainingForm.ValidateField: the `default` branch of the switch is not modelled, because the field type admits only the four named fields.
