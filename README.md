# small_projects in Dafny

A model of the rule-based core of five small Python scripts, with proofs
about that model:

- **The doomsday quiz** (`doomsday_quizzer/doomsday_quizzer.py`). The script
  draws a random date and asks for its day of the week. It keeps a record
  of wins and losses as the text `"wins,losses"` in a file. The answer loop
  handles four cases: stop, an unknown name, a wrong day and a right day.
- **Two circle packers** (`circles_in_circle.py` and
  `colorblind_generator/circles_in_circle.py`). Each drops circles at
  random points and keeps a circle only when it touches none of the
  circles kept so far.
- **Two N-body simulations** (`Many-body.py` and `many-body3D.py`). Bodies
  in a box attract each other by gravity. Close bodies repel, and bodies
  bounce off the walls. Each tick, every body is updated against every
  body in list order and then moved.

Files:

| file | module | contents |
|---|---|---|
| `rng.dfy` | `Rng` | `Generator.integers(lo, hi)`: an arbitrary draw mapped into [lo, hi) |
| `pytext.dfy` | `PyText` | `str.capitalize`, `str.split`, `int(text)` (which skips white space around the digits) and `f"{n}"` |
| `doomsday.dfy` | `Doomsday` | the day tables, `random_date`, `create_date`, the score record, the `ScoreFile` class (`look_points`, `update_points`), and `get_answer` as a method proved against the function `Game` |
| `plane.dfy` | `Plane` | points and the test "distance ≤ s", written without a square root |
| `circles.dfy` | `Circles` | the 65-circle packer |
| `colorblind_circles.dfy` | `ColorblindCircles` | the 3000-circle packer |
| `gravity.dfy` | `Gravity` | the physics on values: one pair update (`PairStep`), the wall rule, and the order of a tick (`Inner`, `Outer`, `Tick`) |
| `many_body.dfy` | `ManyBody` | class `Body`: position and velocity arrays changed in place, and the tick loop over a list of bodies |
| `many_body3d.dfy` | `ManyBody3D` | class `Body3D`: the same on three axes |

The imperative parts stay imperative:

- The packers' `while` loops are methods with loop invariants.
- `update_points` rewrites a `ScoreFile` object's field.
- `get_answer` is a recursive method that changes the file. It is proved
  to produce exactly what the function `Doomsday.Game` describes.
- In the N-body models, `check_colision` and
  `update_force_g_acceleration_velocity` update the bodies' arrays in
  place. `Tick` and `Run` are the script's nested loops. Each is proved
  to leave the bodies exactly in the state that `Gravity.Tick`
  (respectively `Gravity.Ticks`) computes.

Facts the proofs bring out about the code as written:

- `random_date` never returns December, and never returns the last day of
  a month under the script's own month lengths, because numpy's upper
  bounds are exclusive. It can return year 0, and then `create_date`
  raises an error (`Doomsday.CreateDate`). Its leap rule is
  `year % 4 == 0`, not the Gregorian rule of `datetime.date`
  (`Doomsday.LeapRulesDiffer`). So in a year divisible by 100 but not by
  400 it does return February 28, the real last day of that month
  (`Doomsday.LastDayOf1900February`). February 29 is never drawn, so
  `create_date` never fails on it.
- In `circles_in_circle.py` the radius is set back to 19 at the top of
  every try. So every kept circle has radius 19, and the `<= 0` exit is
  dead code (`assert false` in `Circles.MainInit`). As written, the loop
  ends only when 65 circles are kept.
- Both packers are greedy: the circles kept are exactly those `Pack`
  keeps, try by try (`Circles.Pack`, `ColorblindCircles.Pack`), and each
  loop stops at the first try that its exit test accepts.
- The colour-blind packer always terminates. Its pair test `is_overlapping`
  has a margin of 2, but the list test `is_any_overlapping` has no margin,
  and the list test is the one the packer uses.
- The N-body wall rule tests the upper wall against the coordinate that
  the lower-wall test may already have moved. In a box narrower than 11,
  one check can bounce an axis twice (`Gravity.WallAxisNarrowBox`). The
  walls are checked in every pair update, so a coordinate below 4 is
  pushed up once by each of two partners in one tick
  (`Gravity.BouncesOncePerPartner`): it moves once per partner while it
  stays below 5.
- One tick starting with two bodies of mass 100 at rest, 100 apart, moves the first
  body by 0.0001 (`Gravity.TwoBodyExample`). The force on body 1 is 0.01,
  and its change of velocity is `F / m1`, which is 0.0001: the body's own
  mass cancels (`Gravity.MassCancels`).

## Model

| member | source | states |
|---|---|---|
| Rng.Integers | doomsday_quizzer/doomsday_quizzer.py:11 | a draw from `integers(lo, hi)` lies in [lo, hi): the upper bound is excluded |
| Rng.IntegersCovers | doomsday_quizzer/doomsday_quizzer.py:11 | every value of [lo, hi) is the result of some draw |
| PyText.Capitalize | doomsday_quizzer/doomsday_quizzer.py:66 | the result has the input's length, its first character upper-cased and every later one lower-cased |
| PyText.CapitalizeSame | doomsday_quizzer/doomsday_quizzer.py:66 | two lines capitalize to the same text iff they have the same length and agree letter by letter up to case |
| PyText.NatToString | doomsday_quizzer/doomsday_quizzer.py:47 | the decimal text of a non-negative int is non-empty, made only of digits, and starts with '0' only for 0: no leading zero |
| PyText.SeparatorNotSkipped | doomsday_quizzer/doomsday_quizzer.py:34 | `int` skips a form feed after the digits but rejects the ASCII separator 0x1C |
| PyText.IntToString | doomsday_quizzer/doomsday_quizzer.py:47 | `f"{i}"` is digits for i ≥ 0, and '-' followed by at least one digit for i < 0 |
| PyText.ParseInt | doomsday_quizzer/doomsday_quizzer.py:34 | a plain run of digits reads as its decimal value; a blank text (only white space) is a ValueError |
| PyText.DigitsOfNatToString | doomsday_quizzer/doomsday_quizzer.py:47 | reading the digits of that text back as a number gives the number |
| PyText.ParseIntRoundTrip | doomsday_quizzer/doomsday_quizzer.py:34 | `int(f"{i}") == i` for every int, negatives included |
| PyText.IndexOf | doomsday_quizzer/doomsday_quizzer.py:33 | the first index holding the separator: it holds it, and no earlier index does |
| PyText.Split | doomsday_quizzer/doomsday_quizzer.py:33 | at least one part, and a text without the separator is its own single part |
| PyText.SplitJoin | doomsday_quizzer/doomsday_quizzer.py:33 | joining the parts of `split(sep)` with sep gives the text back |
| PyText.SplitPiecesFree | doomsday_quizzer/doomsday_quizzer.py:33 | no part of `split(sep)` contains sep |
| PyText.SplitTwo | doomsday_quizzer/doomsday_quizzer.py:33 | a text `a + sep + b` with sep in neither half splits into exactly `[a, b]` |
| Doomsday.DayTablesInverse | doomsday_quizzer/doomsday_quizzer.py:94-95 | `days_num_to_name` is defined exactly on 0..6, and the two day tables are mutual inverses |
| Doomsday.MonthLength | doomsday_quizzer/doomsday_quizzer.py:13-26 | every month has 28 to 31 days, and 29 exactly for February of a year divisible by 4 |
| Doomsday.RandomDate | doomsday_quizzer/doomsday_quizzer.py:9-26 | the drawn year and month are returned unchanged; year in [0, 3000), month in 1..11, and 1 ≤ day < the month's length under the `year % 4 == 0` rule |
| Doomsday.RandomDateReachesAll | doomsday_quizzer/doomsday_quizzer.py:9-26 | conversely, every such date is returned for some draw |
| Doomsday.DateAccepts | doomsday_quizzer/doomsday_quizzer.py:56 | every date `datetime.date` accepts is also a date under the script's own month lengths |
| Doomsday.LastDayOf1900February | doomsday_quizzer/doomsday_quizzer.py:13-14 | in 1900 the script can draw February 28, which `datetime.date` accepts as the month's last day, while it rejects February 29 |
| Doomsday.LeapRulesDiffer | doomsday_quizzer/doomsday_quizzer.py:13-14 | the two leap rules differ: 1900 has a February 29 under `year % 4 == 0` but `datetime.date` rejects it |
| Doomsday.CreateDate | doomsday_quizzer/doomsday_quizzer.py:49-58 | `datetime.date` fails exactly when year 0 was drawn; otherwise the date is the one `random_date` drew |
| Doomsday.DoomsdayDateAccepted | doomsday_quizzer/doomsday_quizzer.py:79 | whenever the drawn date is accepted, so is the reference date `date(year, 4, 4)` |
| Doomsday.LookupsNeverFail | doomsday_quizzer/doomsday_quizzer.py:62-80 | the drawn month always has a name (the lookup at line 62), and `(weekday + 1) % 7` always has a day name (lines 79-80) |
| Doomsday.Classify | doomsday_quizzer/doomsday_quizzer.py:66-78 | a line is judged right or wrong exactly when its capitalized form is a day name; every other line is a stop word or not understood |
| Doomsday.StopIff | doomsday_quizzer/doomsday_quizzer.py:66-71 | a line stops the game iff it is "stop" or "exit" in any letter case |
| Doomsday.CorrectIff | doomsday_quizzer/doomsday_quizzer.py:78 | a line is a right answer iff its capitalized form is the day name of `(weekday + 1) % 7` |
| Doomsday.ParseScore | doomsday_quizzer/doomsday_quizzer.py:33-34 | `look_points`' reading of the text: split at every comma, exactly two parts, each through `int`; `ParseScoreMeans` and `ScoreRoundTrip` state its meaning |
| Doomsday.FormatScore | doomsday_quizzer/doomsday_quizzer.py:47 | the text `f"{wins},{losses}"`; `FormatScoreComma` and `ScoreRoundTrip` state its meaning |
| Doomsday.ParseScoreMeans | doomsday_quizzer/doomsday_quizzer.py:33-34 | a record reads as a score exactly when it holds one comma and both sides are integers for `int`; the score is those two integers |
| Doomsday.FormatScoreComma | doomsday_quizzer/doomsday_quizzer.py:47 | in the written record the first comma sits between the texts of the two counters |
| Doomsday.ScoreRoundTrip | doomsday_quizzer/doomsday_quizzer.py:33-47 | reading back the `"wins,losses"` text the script writes gives the same pair |
| Doomsday.Tally | doomsday_quizzer/doomsday_quizzer.py:39-43 | a win adds exactly 1 to wins and leaves losses; a loss does the converse |
| Doomsday.ScoreFile.LookPoints | doomsday_quizzer/doomsday_quizzer.py:28-34 | the pair is the parse of the file's text, or the error the parse raises; a file holding a record the script wrote reads back as exactly that record |
| Doomsday.ScoreFile.UpdatePoints | doomsday_quizzer/doomsday_quizzer.py:36-47 | a malformed file raises an error and is left as it was; otherwise the file now holds the counted record, and that record reads back unchanged |
| Doomsday.Game | doomsday_quizzer/doomsday_quizzer.py:60-89 | a game that stops reports the record the file then holds |
| Doomsday.GetAnswer | doomsday_quizzer/doomsday_quizzer.py:60-89 | the outcome and the final file text are those of `Game` on the same lines |
| Doomsday.PlayQuiz | doomsday_quizzer/doomsday_quizzer.py:96-97 | a rejected first date ends with that error and leaves the file alone; otherwise the game is `Game` on the first date |
| Doomsday.GameStopKeepsScore | doomsday_quizzer/doomsday_quizzer.py:67-71 | "Stop"/"Exit" ends the game with the record read and the file unchanged |
| Doomsday.GameUnknownReasks | doomsday_quizzer/doomsday_quizzer.py:72-76 | an unknown name changes nothing and asks about the same date again |
| Doomsday.GameWrongReasks | doomsday_quizzer/doomsday_quizzer.py:86-89 | a wrong day writes one more loss and asks about the same date again |
| Doomsday.GameRightMovesOn | doomsday_quizzer/doomsday_quizzer.py:78-85 | a right day writes one more win and moves on to the next drawn date |
| Doomsday.GameScoreMonotone | doomsday_quizzer/doomsday_quizzer.py:60-89 | over a whole game the record stays readable, neither counter decreases, and the sum grows by at most one per line |
| Plane.WithinSymmetric | circles_in_circle.py:23-24 | the distance test is symmetric in its two points |
| Plane.WithinGrows | colorblind_generator/circles_in_circle.py:25 | a larger bound admits every pair a smaller bound admits |
| Circles.IsOverlapping | circles_in_circle.py:21-27 | the centres are at most r1 + r2 apart, written without a square root; `IsOverlappingSymmetric` shows it is symmetric |
| Circles.IsOverlappingSymmetric | circles_in_circle.py:21-27 | `is_overlapping(c, o) == is_overlapping(o, c)` |
| Circles.IsAnyOverlapping | circles_in_circle.py:28-36 | true iff some listed circle is within r1 + r2, so false on the empty list |
| Circles.ApartAppend | circles_in_circle.py:69-70 | appending a circle that overlaps none of a pairwise-apart list keeps it pairwise apart |
| Circles.NewCircle | circles_in_circle.py:53-58 | the new circle stands at the drawn point with radius 19, whatever the radius was before |
| Circles.NewCircleColor | circles_in_circle.py:57 | its colour is one of `basic_colors[1..6]`, never white |
| Circles.Try | circles_in_circle.py:53-86 | one pass of the loop body on the state (circles, fails, radius); its rule is stated by `TryRule` |
| Circles.Pack | circles_in_circle.py:48-86 | the state after the first n tries, one `Try` each; `PackApart`, `PackShape` and `PackGrows` state what it keeps |
| Circles.PackApart | circles_in_circle.py:48-86 | after any number of tries the kept circles are pairwise apart, no more than the tries, and the first try is kept |
| Circles.PackShape | circles_in_circle.py:53-70 | every kept circle has radius 19 and a colour other than white |
| Circles.PackGrows | circles_in_circle.py:61-71 | a kept circle is never dropped: the count only grows with the tries |
| Circles.TryRule | circles_in_circle.py:61-78 | a try is kept exactly when the list is empty or the new circle overlaps none of it; a kept circle is appended and resets `fails`, a miss adds one; the radius is 18 exactly when `fails` is at least 500 |
| Circles.SamePointMisses | circles_in_circle.py:61-78 | if every try is the same point, only the first is kept and `fails` counts every later try |
| Circles.MainInit | circles_in_circle.py:38-90 | the circles are those `Pack` keeps over the tries used, and the loop stops at the first try that brings the count to 65 or when the tries run out; so at most 65 circles, the first try kept, pairwise apart, all of radius 19, coloured from `basic_colors[1..6]` and never white; if every try is the same point, at most one circle |
| ColorblindCircles.IsOverlapping | colorblind_generator/circles_in_circle.py:22-28 | the pair test: centres at most 2 + r1 + r2 apart; `AnyOverlappingImpliesOverlapping` and `OverlappingDoesNotImplyAny` compare it with the list test |
| ColorblindCircles.Touches | colorblind_generator/circles_in_circle.py:33-35 | the per-element test of the list test: centres at most r1 + r2 apart, no margin; `TouchesSymmetric` shows it is symmetric |
| ColorblindCircles.TouchesSymmetric | colorblind_generator/circles_in_circle.py:33-35 | the list test is symmetric in the two circles |
| ColorblindCircles.OverlapsAny | colorblind_generator/circles_in_circle.py:29-37 | the list test, recursively: the first circle is touched or one of the rest is; `OverlapsAnyMeans` gives its meaning |
| ColorblindCircles.OverlapsAnyMeans | colorblind_generator/circles_in_circle.py:29-37 | the list test holds iff some listed circle is within r1 + r2 with no margin, so it fails on the empty list |
| ColorblindCircles.IsAnyOverlapping | colorblind_generator/circles_in_circle.py:29-37 | the loop returns the list test `OverlapsAny`, stopping at the first circle it touches |
| ColorblindCircles.AnyOverlappingImpliesOverlapping | colorblind_generator/circles_in_circle.py:22-37 | `is_any_overlapping([o])` implies `is_overlapping(o)` |
| ColorblindCircles.OverlappingDoesNotImplyAny | colorblind_generator/circles_in_circle.py:22-37 | the converse fails: two unit circles 3 apart overlap under the pair test only |
| ColorblindCircles.ApartAppend | colorblind_generator/circles_in_circle.py:89-91 | appending a circle that touches none of an apart list keeps it apart |
| ColorblindCircles.NewCircle | colorblind_generator/circles_in_circle.py:73-78 | the new circle stands at the drawn point with the current radius |
| ColorblindCircles.NewCircleColor | colorblind_generator/circles_in_circle.py:77 | its colour is one of the first four `colorblind_colors` |
| ColorblindCircles.Try | colorblind_generator/circles_in_circle.py:72-99 | one pass of the loop body on the state (circles, fails, radius); its rule is stated by `TryRule` |
| ColorblindCircles.Pack | colorblind_generator/circles_in_circle.py:71-99 | the state after the first n tries of the stream, one `Try` each; `PackApart`, `PackShape` and `PackMonotone` state what it keeps |
| ColorblindCircles.Done | colorblind_generator/circles_in_circle.py:71-104 | the loop's exit test: 3000 circles kept, or the radius down to 1; `PackMonotone` shows it stays true once true |
| ColorblindCircles.PackApart | colorblind_generator/circles_in_circle.py:71-104 | after any number of tries the kept circles are pairwise apart, no more than the tries, and the first try is kept |
| ColorblindCircles.PackShape | colorblind_generator/circles_in_circle.py:74-99 | `fails` stays below 500 and the radius at most 7; every kept circle has a radius between the current one and 7, a colour from the first four, and the radii never increase along the list |
| ColorblindCircles.PackRadiiAbove | colorblind_generator/circles_in_circle.py:97-99 | every circle kept after a try is at least as large as the radius before that try |
| ColorblindCircles.PackMonotone | colorblind_generator/circles_in_circle.py:81-104 | over more tries the count grows, the radius shrinks, and an exit state stays an exit state |
| ColorblindCircles.TryRule | colorblind_generator/circles_in_circle.py:81-99 | a kept try appends the circle and resets `fails`; a miss adds one to `fails`, and the 500th miss in a row lowers the radius by one and resets `fails` |
| ColorblindCircles.NotStoppedBefore | colorblind_generator/circles_in_circle.py:71-104 | if the exit test fails before the last try, it failed before every earlier try |
| ColorblindCircles.Stopped | colorblind_generator/circles_in_circle.py:71-104 | at the first exit: 1 to 3000 circles, the first at the first try's point, pairwise apart, radii in (1, 7] and non-increasing, colours from the first four |
| ColorblindCircles.MainInit | colorblind_generator/circles_in_circle.py:55-104 | terminates for any stream of tries; the circles are those `Pack` keeps over the tries used, and the loop stops at the first try after which 3000 circles are kept or the radius is at most 1; so 1 to 3000 circles, the first at the first try's point, pairwise apart under the list test, every radius in (1, 7], non-increasing in list order, colours from the first four `colorblind_colors` |
| Gravity.Force | Many-body.py:84 | `self.F`, one component per axis: (-G * m1 * m2) * (p1 - p2) / d**3; `MassCancels` and `ActionReaction` state its meaning |
| Gravity.Accel | Many-body.py:85 | `self.F / self.mass`, one component per axis; `MassCancels` shows the body's own mass cancels |
| Gravity.MassCancels | Many-body.py:84-85 | `F / m1` is `-G * m2 * (p1 - p2) / d**3` on every axis: the body's own mass cancels |
| Gravity.ActionReaction | Many-body.py:84-85 | for the same positions and distance, `m1 * dv12 == -(m2 * dv21)` on every axis |
| Gravity.PairDv | Many-body.py:46-48 | the pair contribution has one component per axis |
| Gravity.PairDvLaw | Many-body.py:46-48 | the pair contribution is the inverse-square pull towards the other body, scaled by -0.5 when `d < r1 + r2 + 5` |
| Gravity.WallAxis | Many-body.py:54-66 | one check moves a coordinate by at most 1 and scales its velocity component by 1, -0.9 or 0.81; away from both walls it changes nothing |
| Gravity.Walls | Many-body.py:54-66 | every axis is checked on its own against its own box size |
| Gravity.WallAxisCases | Many-body.py:54-66 | in a box at least 11 wide: below 5 the coordinate gains 1 and the velocity component is multiplied by -0.9; above box - 5 it loses 1, with the same velocity change; otherwise nothing changes |
| Gravity.WallAxisNarrowBox | Many-body.py:54-59 | in a box 8 wide a coordinate at 3 bounces on both walls in one check: back to 3, velocity times 0.81 |
| Gravity.PairStep | Many-body.py:74-90 | the updated body keeps its dimension and its fixed part; its meaning is stated by `PairStepInert` and `PairStepAxis` |
| Gravity.PairStepInert | Many-body.py:74-82 | a self pair, and a pair at distance 0, change neither position nor velocity and check no wall |
| Gravity.PairStepAxis | Many-body.py:88-90 | in a box at least 11 wide, in a proper pair update the bounce acts on the old velocity component, then the pair contribution is added; the other cases leave the coordinate and add the contribution |
| Gravity.BouncesOncePerPartner | Many-body.py:136-138 | two proper partners in one tick push a coordinate below 4 up by 2, because the walls are checked in every pair update |
| Gravity.Advance | Many-body.py:140 | `position += velocity`: the dimension and the velocity are kept; `TickAt` places it at the end of each body's turn |
| Gravity.Inner | Many-body.py:137-138 | body i after its updates against partners 0 .. j-1 still fits its fixed part; `InnerStep` gives one more partner |
| Gravity.InnerStep | Many-body.py:137-138 | one more partner is one more `PairStep`, with the distance taken from body i's current position |
| Gravity.Outer | Many-body.py:136-140 | the bodies after the first i turns of the outer loop stay well formed |
| Gravity.Tick | Many-body.py:136-140 | one pass keeps the bodies well formed; `TickSchedule` and `TickAt` state what it does to each body |
| Gravity.Ticks | Many-body.py:127-152 | any number of passes keeps the bodies well formed |
| Gravity.OuterUntouched | Many-body.py:136-140 | bodies the tick has not reached yet keep their state from before the tick |
| Gravity.OuterSettled | Many-body.py:136-140 | a body the tick has passed keeps the state its own turn left it in |
| Gravity.TickSchedule | Many-body.py:136-140 | body i is updated against a list in which earlier bodies already have their new state and later bodies their old one, and then moves by its new velocity |
| Gravity.TickAt | Many-body.py:136-140 | after one tick, body i is `Advance` of its updates against the bodies as the outer loop left them at turn i |
| Gravity.TickBefore | Many-body.py:136-140 | bodies the outer loop has already passed hold their state for the end of the tick |
| Gravity.TwoBodyExample | Many-body.py:136-140 | two bodies of mass 100 at rest at (100, 100) and (200, 100): after one tick the first is at (100.0001, 100) with velocity (0.0001, 0) |
| ManyBody.Body.constructor | Many-body.py:21-36 | the arrays are fresh copies of the given position and velocity; `Fixed()` holds the mass, radius and box (default 700 by 700) given |
| ManyBody.Body.BounceAxis | Many-body.py:54-59 | one axis follows `Gravity.WallAxis`, and the other axis is unchanged |
| ManyBody.Body.CheckColision | Many-body.py:38-66 | against itself nothing changes; otherwise `dv` is multiplied by -0.5 inside the collision distance, and position and velocity become `Gravity.Walls` of the old ones |
| ManyBody.Body.AddDv | Many-body.py:90 | the velocity gains `dv` componentwise |
| ManyBody.Body.UpdateForceGAccelerationVelocity | Many-body.py:68-90 | the new position and velocity are `Gravity.PairStep` of the old ones, with the distance that `norm` gives for the positions on entry |
| ManyBody.Body.Advance | Many-body.py:140 | the position gains the velocity; the velocity is unchanged |
| ManyBody.UpdateAgainstAll | Many-body.py:137-138 | body i's state after its updates against the whole list is `Gravity.Inner` over all partners |
| ManyBody.Turn | Many-body.py:136-140 | one turn of the outer loop takes the bodies from `Outer(i)` to `Outer(i + 1)` |
| ManyBody.Tick | Many-body.py:136-140 | the bodies' states after one pass are `Gravity.Tick` of those before |
| ManyBody.Run | Many-body.py:127-152 | the loop stops with T == 100000, and the bodies are `Gravity.Ticks` of the initial ones, 100000 ticks on |
| ManyBody3D.Body3D.constructor | many-body3D.py:22-40 | fresh arrays copying the given position and velocity; `Fixed()` holds the mass, radius and box (default 700 on each axis) given |
| ManyBody3D.Body3D.BounceAxis | many-body3D.py:58-63 | one axis follows `Gravity.WallAxis`, and the other two are unchanged |
| ManyBody3D.Body3D.CheckColision | many-body3D.py:42-77 | as in 2D, on x, y and z against box_x, box_y and box_z |
| ManyBody3D.Body3D.AddDv | many-body3D.py:101 | the velocity gains `dv` componentwise |
| ManyBody3D.Body3D.UpdateForceGAccelerationVelocity | many-body3D.py:79-101 | the new position and velocity are `Gravity.PairStep` of the old ones on three axes |
| ManyBody3D.Body3D.Advance | many-body3D.py:163 | the position gains the velocity; the velocity is unchanged |
| ManyBody3D.UpdateAgainstAll | many-body3D.py:160-161 | body i's state after its updates against the whole list is `Gravity.Inner` |
| ManyBody3D.Turn | many-body3D.py:159-163 | one turn takes the bodies from `Outer(i)` to `Outer(i + 1)` |
| ManyBody3D.Tick | many-body3D.py:159-163 | the bodies after one pass are `Gravity.Tick` of those before |
| ManyBody3D.Run | many-body3D.py:150-200 | the loop stops with T == 100000, after exactly 100000 ticks of `Gravity.Tick` |

## Left out

- Drawing: the tkinter windows and canvases, `main_tk_loop`, and the 3D projection with the `rotation_y` matrix (many-body3D.py:122-131, 164-191). They only display results.
- Random numbers: every numpy draw is a parameter. These are a `Draw` for a date, a `Candidate` for a circle try, and an index for a colour. The random point inside the big disc (square root, cosine, sine) is not computed. The creation of the random bodies in `main` (Many-body.py:111-119, many-body3D.py:132-143) is left out for the same reason; the constructor is modelled.
- Body radius: the script computes `(mass / pi) ** (1/3)`. Here the radius is a constructor parameter, because the model has no cube root.
- Floating point: all coordinates, masses and velocities are mathematical reals, with no IEEE rounding, infinities or NaN.
- Gravity.PairStepInert: the distance comes from one unconstrained function `norm`, not from the Euclidean norm. So "distance 0" is not linked to "equal positions", and the collision test is not linked to the actual distance. Every pair and tick result holds for any norm.
- ManyBody.Body.constructor, ManyBody3D.Body3D.constructor: require a non-zero mass, because `F / m` with mass 0 gives NaN in numpy. The scripts draw masses from [10, 500) or use 250.
- ManyBody.Body.UpdateForceGAccelerationVelocity, ManyBody3D.Body3D.UpdateForceGAccelerationVelocity: the scalar `self.dv = 0` of the distance-0 branch is written as the zero vector. Adding either leaves the velocity unchanged.
- The unused position logs (`Logx`, `Logy`, `position_*_list`), every `print`, and the argparse entry points (Many-body.py:155-171, many-body3D.py:203-217) are left out.
- The colour-blind packer's recolouring from `map_colorblind.png` (colorblind_generator/circles_in_circle.py:39-43, 105-111) is left out. It is image file input through PIL.
- Quiz input and output: the console, colorama and the file handle of `score.txt` are left out. The file is its text, so a missing `score.txt` (the `FileNotFoundError` of the first `look_points`) cannot occur in the model. The player's lines are a sequence, and running out of lines ends the game like the `EOFError` would. `exit()` is the `Stopped` outcome.
- `datetime.date.weekday()` is a function parameter, `weekday: Date -> int`.
- PyText.ParseInt: `int()` accepts ASCII digits only here. Other Unicode decimal digits and underscores between digits (`int("1_000")`) are not accepted. The white space it skips is `str.isspace` minus the ASCII separators 0x1C-0x1F (`PyText.SeparatorNotSkipped`). The limit of 4300 digits that Python 3.11 and later put on int-to-text and text-to-int conversions (a ValueError) is not modelled.
- PyText.Capitalize: `str.capitalize` maps case on ASCII letters only; other Unicode letters are left as they are.
- Doomsday.GetAnswer: the script recurses once per input line, so CPython's default recursion limit of 1000 ends a session of about 1000 answers with `RecursionError`. The model has no such limit and plays on.
- Circles.MainInit: it reads a finite sequence of tries and also stops when they run out. The script draws for ever and, as written, may never stop.
