# MK4duo core, modelled in Dafny

MK4duo is a 3D-printer firmware. This project models its sequential,
deterministic core and proves properties of that model. Every piece is an
immutable record with pure functions that return the new state or the list
of moves, bytes or register writes produced. The planner, the endstops and
the hardware registers are collaborators outside the model. They appear as
recorded events, given functions or oracle parameters.

The modules follow the firmware's files:

- `Base` (base.dfy): the optional value, the integer widths of the
  firmware as ranges, wrap-around to 8, 16 and 32 bits, and small
  arithmetic facts.
- `Motion` (motion.dfy): the blocking moves of the Cartesian mechanics.
  They are Z-up / XY / Z-down legs, run on a position with the planner
  lines they queue recorded.
- `Homing` (homing.dfy): `home()` as a plan of steps. This covers axis
  selection, the Z raise, the per-axis fast / retreat / bump script, the
  triple-Z compare-swap sort, the home position, the reachability box and
  the safe-Z guards.
- `G28` (g28.dfy): the `O` skip and the axis flags of `G28`.
- `Arc` (arc.dfy): `plan_arc` over the reals, with `sin`, `cos`, `atan2`,
  `HYPOT` and `SQRT` as given functions. Also the `G2`/`G3` offset
  selection and the `P` circle count.
- `Nozzle` (nozzle.dfy): the park move and the stroke, zigzag and circle
  clean patterns, as lists of blocking-move requests.
- `Stepper` (stepper.dfy): the timer interval with quad stepping, the
  direction flags, the motor locks and `quick_stop`.
- `Serial` (serial.dfy): the AVR serial port's receive and transmit rings,
  XON/XOFF flow control, the saturating error counters and base-b integer
  printing.
- `Tmc` (tmc.dfy): Trinamic driver storage and setters, the hybrid
  threshold, the StallGuard clamp, driver lookup by index, status-word
  decoding per driver family, and the health monitor's counters.
- `Temperature` (temperature.dfy): the min/max aggregates, heater
  activity, `disable_all_heaters`, the measurement-delay index, MCU
  extremes and `pause`.
- `Servo` (servo.dfy): the AVR servo timer's compare-match interrupt and
  its channel cycle.
- `Rfid` (rfid.dfy): the MFRC522 request frame, the reply, the exchange,
  and the ID and block transfers.
- `Spool` (spool.dfy): the per-extruder `spin` and the spool-length
  printout.
- `Power` (power.dfy): the power-check flag byte.

Paths in the table below are relative to the firmware repository's root.

## Model

| member | source | states |
|---|---|---|
| Motion.DoBlockingMoveTo | MK4duo/src/core/mechanics/cartesian_mechanics.cpp:124-151 | ends at (rx, ry, rz); one or two lines, two exactly when Z changes; each line moves Z alone or XY alone; the XY line runs at the higher of the two heights with the XY feedrate, the Z line with the Z feedrate |
| Motion.DoBlockingMoveToX | MK4duo/src/core/mechanics/cartesian_mechanics.cpp:152-154 | only X changes, in a single line at the XY feedrate |
| Motion.DoBlockingMoveToZ | MK4duo/src/core/mechanics/cartesian_mechanics.cpp:155-157 | only Z changes; no line moves X or Y |
| Motion.DoBlockingMoveToXY | MK4duo/src/core/mechanics/cartesian_mechanics.cpp:158-160 | X and Y change and Z stays, in one line at the XY feedrate |
| Motion.DoBlockingMoveToRaw | MK4duo/src/core/mechanics/cartesian_mechanics.h:84-90 | both array overloads act as the three-coordinate move and leave E alone |
| Motion.Run | MK4duo/src/core/mechanics/cartesian_mechanics.cpp:124-160 | a list of blocking moves keeps E and emits at least one line per request |
| Motion.RunAppend | MK4duo/src/core/mechanics/cartesian_mechanics.cpp:124-160 | running two lists in a row ends where running their concatenation ends |
| Motion.RunKeepsZ | MK4duo/src/core/mechanics/cartesian_mechanics.cpp:158-160 | XY-only moves never change the height |
| Motion.RunEndsAtLast | MK4duo/src/core/mechanics/cartesian_mechanics.cpp:124-160 | the final position is the XY of the last request naming XY and the Z of the last one naming Z |
| Homing.Blocking | MK4duo/src/core/mechanics/cartesian_mechanics.cpp:124-151 | a blocking move inside homing appends its lines and changes neither the homed set nor the motor flags |
| Homing.AxesToHome | MK4duo/src/core/mechanics/cartesian_mechanics.cpp:229-232 | an axis is homed iff it is flagged or no other axis is; the set is never empty |
| Homing.AxisHomePos | MK4duo/src/core/mechanics/cartesian_mechanics.cpp:560-607 | the manual home position when set; otherwise the travel limit on the homing side; X and Y with the bed centred on 0,0 home half their travel out, on the homing side (twice the result is the travel times the direction) |
| Homing.SetAxisIsAtHome | MK4duo/src/core/mechanics/cartesian_mechanics.cpp:508-558 | the axis joins the homed set at its homed position; the other axes, the output and the flags are unchanged |
| Homing.ReachableBox | MK4duo/src/core/mechanics/cartesian_mechanics.cpp:610-620 | every point of the travel box is reachable, and no reachable point lies more than the slop outside it |
| Homing.PositionIsReachable | MK4duo/src/core/mechanics/cartesian_mechanics.cpp:610-620 | `position_is_reachable` without a dual X carriage: every point of the X/Y travel box is reachable |
| Homing.PositionIsReachableByProbe | MK4duo/src/core/mechanics/cartesian_mechanics.cpp:623-627 | probing a point needs the nozzle position behind it to be reachable; a point of the probe box whose nozzle position lies in the travel box can be probed |
| Homing.HomePointReachable | MK4duo/src/core/mechanics/cartesian_mechanics.cpp:560-620 | with home positions at the travel limits the X/Y home point is reachable |
| Homing.ReachableByProbeNeedsNozzle | MK4duo/src/core/mechanics/cartesian_mechanics.cpp:623-627 | a probe point is reachable iff the nozzle point behind it is reachable and the point is inside the probe box plus slop |
| Homing.DoHomingMove | MK4duo/src/core/mechanics/cartesian_mechanics.cpp:386-455 | emits one homing move at the given or the axis homing feedrate, validated iff it runs towards the endstop, with the current locks; the position is not changed |
| Homing.HomingScript | MK4duo/src/core/mechanics/cartesian_mechanics.cpp:943-980 | the fast move of 1.5·max·dir, then, when the bump is nonzero, −bump and +2·bump; each move is validated iff it heads towards the endstop; the fast move runs at the homing feedrate, the retreat at `Z_PROBE_SPEED_FAST` when Z homes with the probe, and the slow approach at `get_homing_bump_feedrate` |
| Homing.HomingScriptMoves | MK4duo/src/core/mechanics/cartesian_mechanics.cpp:943-980 | for a ±1 direction and a positive bump, the script is three moves and only the first and the third are validated |
| Homing.TwoEndstopAdjust | MK4duo/src/core/mechanics/cartesian_mechanics.cpp:982-1005 | a zero correction does nothing; otherwise one unvalidated move of the correction's size, with the motor that hit first locked, after which both motors are unlocked and no other lock changes |
| Homing.CompareSwap | MK4duo/src/core/mechanics/cartesian_mechanics.cpp:1016-1030 | one step orders the two entries, keeps the multiset and leaves the other entries alone |
| Homing.SortTripleZ | MK4duo/src/core/mechanics/cartesian_mechanics.cpp:1009-1030 | the three compare-swaps give corrections in ascending order, as a permutation of the three (motor, correction) pairs |
| Homing.TripleZMoves | MK4duo/src/core/mechanics/cartesian_mechanics.cpp:1032-1045 | two correction moves, both ≥ 0 when homing positive and ≤ 0 otherwise, with the right motors locked for each |
| Homing.TripleZAlign | MK4duo/src/core/mechanics/cartesian_mechanics.cpp:1006-1050 | the two correction moves on the sorted corrections, then all three Z motors are unlocked |
| Homing.Square | MK4duo/src/core/mechanics/cartesian_mechanics.cpp:982-1065 | the squaring block only appends moves and ends with separate multi-axis mode off |
| Homing.HomeAxisMoves | MK4duo/src/core/mechanics/cartesian_mechanics.cpp:925-1065 | homing an axis appends at least one move and keeps the position and the homed set |
| Homing.HomeAxis | MK4duo/src/core/mechanics/cartesian_mechanics.cpp:902-1090 | an axis that cannot home is a no-op; otherwise it is homed at its homed position, the other axes keep their values, and moves are appended |
| Homing.QuickHomeXY | MK4duo/src/core/mechanics/cartesian_mechanics.cpp:1094-1137 | one diagonal travel of 1.5·max·dir on X and Y, then a validation; X and Y end at 0 and are not marked homed |
| Homing.HomeZSafely | MK4duo/src/core/mechanics/cartesian_mechanics.cpp:1143-1190 | refused with an error unless X and Y are homed; otherwise Z is homed at the safe point (less the probe offset when homing with the probe), or the point is reported unreachable |
| Homing.HomeZAt | MK4duo/src/core/mechanics/cartesian_mechanics.cpp:1165-1180 | after travelling to the point, Z is homed there |
| Homing.DoubleHomeZ | MK4duo/src/core/mechanics/cartesian_mechanics.cpp:1196-1239 | refused unless X and Y are homed; otherwise probes at the point, shifts the Z soft maximum by the new zero and moves to the minimum homing height at the X/Y where `probe_pt` left the nozzle (1225-1231), every queued line at that X/Y; or reports the point unreachable |
| Homing.HomePlanZFirst | MK4duo/src/core/mechanics/cartesian_mechanics.cpp:236-238 | homing away from the bed, Z is homed first and only there |
| Homing.HomePlanZLast | MK4duo/src/core/mechanics/cartesian_mechanics.cpp:289-309 | homing towards the bed, no X or Y step follows a Z step |
| Homing.HomePlanYBeforeX | MK4duo/src/core/mechanics/cartesian_mechanics.cpp:256-287 | with `HOME_Y_BEFORE_X` no Y step follows an X step |
| Homing.HomePlanSteps | MK4duo/src/core/mechanics/cartesian_mechanics.cpp:252-345 | X is homed iff asked; Y iff asked or (Y before X and X asked); the come-back step is present iff `B` and then last |
| Homing.HomePlan | MK4duo/src/core/mechanics/cartesian_mechanics.cpp:252-345 | the step list of `home()`: the pre-homing raise is always there, quick homing exactly when configured and both X and Y are homed, and no step touches Z unless Z is to be homed |
| Homing.RaiseBeforeHoming | MK4duo/src/core/mechanics/cartesian_mechanics.cpp:240-250 | Z moves only when Z is homed, the height is nonzero, X or Y is to be homed and the height is above Z; it never lowers Z and never moves X or Y |
| Homing.ComeBack | MK4duo/src/core/mechanics/cartesian_mechanics.cpp:341-345 | one line back to the stored position at the X homing feedrate |
| Homing.Exec | MK4duo/src/core/mechanics/cartesian_mechanics.cpp:236-345 | executing the plan never un-homes an axis |
| Homing.ExecHomes | MK4duo/src/core/mechanics/cartesian_mechanics.cpp:236-309 | an axis with a homing step that can home is homed afterwards |
| Homing.Home | MK4duo/src/core/mechanics/cartesian_mechanics.cpp:165-381 | in simulation all three axes are set at home without motion; homing never un-homes an axis |
| Homing.HomeComesBack | MK4duo/src/core/mechanics/cartesian_mechanics.cpp:225-227 | with `B` the nozzle ends where it was before homing |
| Homing.HomeAllHomesEverything | MK4duo/src/core/mechanics/cartesian_mechanics.cpp:229-309 | homing all axes towards the bed homes X, Y and Z, safe Z homing included |
| Homing.ZStepHomesZ | MK4duo/src/core/mechanics/cartesian_mechanics.cpp:291-300 | once X and Y are homed the Z step homes Z (for safe homing: when the safe point is reachable) |
| Homing.HomeZAloneRefused | MK4duo/src/core/mechanics/cartesian_mechanics.cpp:1146-1150 | homing Z alone with safe Z homing while X is not homed only emits the error: no motion, Z not homed |
| Homing.DxcIsDuplicating | MK4duo/src/core/mechanics/cartesian_mechanics.h:146 | true iff the mode is one of the two duplication modes |
| Homing.XHomeDir | MK4duo/src/core/mechanics/cartesian_mechanics.h:147 | extruder 0 homes by `X_HOME_DIR`, any other by `X2_HOME_DIR` |
| G28.Decide | MK4duo/src/commands/gcode/calibrate/g28.h:59-80 | the command is skipped iff all axes are homed and `O` is given; kinematic builds pass no flags; otherwise Z follows `Z`, and X and Y follow their letters, widened by `Z` when XY is forced before Z |
| G28.Named | MK4duo/src/commands/gcode/calibrate/g28.h:71-77 | an axis is named iff its letter is on the line |
| G28.DecideAxes | MK4duo/src/commands/gcode/calibrate/g28.h:70-80 | a line without axis letters homes all three; with XY forced before Z, naming Z homes all three; otherwise exactly the named axes |
| G28.Run | MK4duo/src/commands/gcode/calibrate/g28.h:52-84 | the skip leaves the machine unchanged; the homed set only grows |
| G28.SecondG28OIsNoop | MK4duo/src/commands/gcode/calibrate/g28.h:59-62 | once a `G28` has homed every axis, a following `G28 O` changes nothing |
| Arc.Place | MK4duo/src/commands/gcode/motion/g2_g3.h:47-57 | a point built from plane coordinates reads back the same P, Q and L coordinates and keeps E |
| Arc.Correction | MK4duo/src/commands/gcode/motion/g2_g3.h:31-34 | the correction interval is at least 1 and equals `N_ARC_CORRECTION` when that is at least 1 |
| Arc.AngularTravel | MK4duo/src/commands/gcode/motion/g2_g3.h:74-90 | counter-clockwise travel lies in [0, 2π), or is exactly 2π for a full circle; clockwise travel lies in [−2π, 0) |
| Arc.Segments | MK4duo/src/commands/gcode/motion/g2_g3.h:96-97 | between 1 and 65535 segments; the floor of travel / segment length when that fits in 16 bits, and at least 1 |
| Arc.Counter | MK4duo/src/commands/gcode/motion/g2_g3.h:147-166 | the recalculation counter always lies in 1..n |
| Arc.CounterClosedForm | MK4duo/src/commands/gcode/motion/g2_g3.h:147-166 | at step i the counter is n − (i − 1) mod n, so it reaches 1 exactly at the multiples of n |
| Arc.NextTurn | MK4duo/src/commands/gcode/motion/g2_g3.h:155-177 | a step recomputes the radius exactly iff n = 1 or the counter reaches 1, and then restarts the counter; otherwise it rotates the radius and decrements the counter |
| Arc.Interior | MK4duo/src/commands/gcode/motion/g2_g3.h:151-202 | at most segments − i interior points are queued from step i on; each step adds its shares to the `raw[]` that `apply_motion_limits` left clamped |
| Arc.InteriorCons | MK4duo/src/commands/gcode/motion/g2_g3.h:151-202 | an accepted step queues the clamped point at centre + radius with L and E one share on, then continues from that clamped point's L and E, as `raw[]` is clamped in place (186-190) |
| Arc.InteriorStopsAtRefusal | MK4duo/src/commands/gcode/motion/g2_g3.h:196-201 | the interior points stop at the first step the planner refuses |
| Arc.InteriorCorrection | MK4duo/src/commands/gcode/motion/g2_g3.h:155-177 | the exact radius is used precisely at the steps where the counter reaches 1 |
| Arc.InteriorRadii | MK4duo/src/commands/gcode/motion/g2_g3.h:155-177 | every other step's radius is the previous one rotated by the per-segment angle |
| Arc.InteriorLines | MK4duo/src/commands/gcode/motion/g2_g3.h:180-196 | each queued line is the clamped point with L and E one share past the previous point's clamped L and E (the start's for the first): a running clamp |
| Arc.LinesFollowUnclamped | MK4duo/src/commands/gcode/motion/g2_g3.h:186-190 | when `apply_motion_limits` leaves L and E alone, the running clamp is plain accumulation: point k holds k + 1 shares past the start |
| Arc.AdvanceIsLinear | MK4duo/src/commands/gcode/motion/g2_g3.h:186-188 | k per-segment increments add up to k times the share |
| Arc.BeforeIsAdvance | MK4duo/src/commands/gcode/motion/g2_g3.h:186-190 | with limits that leave L and E alone, `raw[]` holds k shares past the start before point k |
| Arc.ArcGeometry | MK4duo/src/commands/gcode/motion/g2_g3.h:60-93 | the centre is the current point plus the offset; linear and extruder travel are the differences to the target; the angular travel is in range for each direction |
| Arc.FullCircle | MK4duo/src/commands/gcode/motion/g2_g3.h:85-90 | a nonzero offset whose target is the start point gives a full turn of ±2π |
| Arc.SetupArc | MK4duo/src/commands/gcode/motion/g2_g3.h:92-139 | an arc shorter than 0.001 mm is dropped; otherwise the segment count and the per-segment angle, linear and extruder shares follow from the geometry, with the rotation and exact-radius formulas of the loop |
| Arc.RunArc | MK4duo/src/commands/gcode/motion/g2_g3.h:151-225 | at most segments − 1 interior lines, then the exact target last; the position ends at the target |
| Arc.PlanArc | MK4duo/src/commands/gcode/motion/g2_g3.h:45-225 | a dropped arc emits nothing; otherwise the arc ends at the target, whose line is queued last even after a planner refusal |
| Arc.RunArcStops | MK4duo/src/commands/gcode/motion/g2_g3.h:196-205 | the loop stops at the first refusal and then goes straight to the target |
| Arc.RunArcCorrection | MK4duo/src/commands/gcode/motion/g2_g3.h:147-177 | exact radii at the multiples of the correction interval, rotated radii elsewhere, starting from −offset |
| Arc.RunArcLinear | MK4duo/src/commands/gcode/motion/g2_g3.h:134-190 | each interior point's L and E are one share past the previous point's clamped ones, from the current position; when the limits leave L and E alone, point k lies k + 1 shares past the start |
| Arc.SetupRotation | MK4duo/src/commands/gcode/motion/g2_g3.h:127-177 | the set-up arc rotates by the per-segment angle and recomputes exactly at i·θ |
| Arc.ArcOffset | MK4duo/src/commands/gcode/motion/g2_g3.h:286-307 | R of 0, or R with the target at the start, gives a zero offset; a nonzero R with a different target gives a nonzero offset to a centre on the chord's perpendicular bisector; without R the offset is (I, J) with 0 for a missing word |
| Arc.ChordCentre | MK4duo/src/commands/gcode/motion/g2_g3.h:291-301 | the R-form centre projects onto the middle of the chord (offset · chord = half the squared chord), so it lies on the perpendicular bisector and is never the start point |
| Arc.RadiusWins | MK4duo/src/commands/gcode/motion/g2_g3.h:287-307 | when R is given, I and J do not affect the offset |
| Arc.ByteVal | MK4duo/src/commands/gcode/motion/g2_g3.h:313 | a missing P reads as 0 and P in 0..255 reads as itself |
| Arc.AsByte | MK4duo/src/commands/gcode/motion/g2_g3.h:313-316 | the `int8_t` the byte is stored in reads back, as a byte, the original value |
| Arc.WhileCountIsByte | MK4duo/src/commands/gcode/motion/g2_g3.h:313-317 | `while (circles_to_do--)` runs exactly the byte value times, through the wrap at −128 |
| Arc.Circles | MK4duo/src/commands/gcode/motion/g2_g3.h:316-317 | zero circles emit nothing, and full circles always come back to the current position |
| Arc.G2G3 | MK4duo/src/commands/gcode/motion/g2_g3.h:257-333 | nothing happens unless running; a zero offset only reports the error; otherwise the P circles, then the arc to the target; the P error is reported iff the byte, read as an `int8_t`, is outside 0..100 |
| Arc.RadiusWordPlansArc | MK4duo/src/commands/gcode/motion/g2_g3.h:286-323 | a nonzero R with the target off the current XY and no P makes `G2`/`G3` plan exactly the arc, with no error |
| Arc.G2G3EndsAtTarget | MK4duo/src/commands/gcode/motion/g2_g3.h:309-323 | an arc that is not dropped ends at the target, with the target's line last |
| Nozzle.ParkZ | MK4duo/src/core/nozzle/nozzle.cpp:155-166 | action 1 goes to the park height; action 2 raises by it but never above the bed maximum; any other action raises to it and never lowers |
| Nozzle.Park | MK4duo/src/core/nozzle/nozzle.cpp:150-169 | exactly two moves, the Z move at the Z feedrate first, then the XY move at the XY feedrate |
| Nozzle.ParkEndsAtParkPoint | MK4duo/src/core/nozzle/nozzle.cpp:150-169 | after parking the nozzle is over the park point at the chosen height, with E untouched |
| Nozzle.Alternate | MK4duo/src/core/nozzle/nozzle.cpp:195-198 | n round trips: even moves go to the first point, odd moves to the second |
| Nozzle.Repeat | MK4duo/src/core/nozzle/nozzle.cpp:233-249 | repeated passes hold only moves of the pass and end with a whole pass |
| Nozzle.RepeatLength | MK4duo/src/core/nozzle/nozzle.cpp:276-283 | n passes hold n times the moves of one pass |
| Nozzle.RepeatAllXY | MK4duo/src/core/nozzle/nozzle.cpp:233-249 | repeating XY-only passes gives XY-only moves |
| Nozzle.EndsOverStart | MK4duo/src/core/nozzle/nozzle.cpp:187-198 | the approach followed by XY moves that end at the start leaves the nozzle over the start, at its height unless Z is left out |
| Nozzle.GoBackReturns | MK4duo/src/core/nozzle/nozzle.cpp:178-203 | with go-back, any pattern followed by the go-back move ends where the nozzle was |
| Nozzle.Stroke | MK4duo/src/core/nozzle/nozzle.cpp:176-204 | the approach, then `strokes >> 1` trips alternating end and start, then the go-back move |
| Nozzle.StrokeEndsAtStart | MK4duo/src/core/nozzle/nozzle.cpp:176-204 | a stroke wipe ends over its start, or with go-back where it began |
| Nozzle.Zigs | MK4duo/src/core/nozzle/nozzle.cpp:228 | the zig count is even and is twice `objects` when that fits in a byte |
| Nozzle.MakeZig | MK4duo/src/core/nozzle/nozzle.cpp:228-230 | horizontal exactly when X spans at least as far as Y; zigs periods make up the span in that direction; with no zigs the period is 0 (corrected, see Findings) |
| Nozzle.PeriodAsWritten | MK4duo/src/core/nozzle/nozzle.cpp:228-230 | the floating-point `P` as written: infinite (`None`) exactly when there are no zigs, otherwise the model's period |
| Nozzle.AlongAsWritten | MK4duo/src/core/nozzle/nozzle.cpp:242-248 | the wipe coordinate `start + i * P` as written is not a number exactly when `P` is infinite, and otherwise is i periods on |
| Nozzle.ZeroZigsQueueNaN | MK4duo/src/core/nozzle/nozzle.cpp:228-248 | there are no zigs exactly for `objects` 0 and 128; then the backward loop still queues one move, whose wipe coordinate is NaN as written |
| Nozzle.ZigPass | MK4duo/src/core/nozzle/nozzle.cpp:234-248 | a pass visits indices 0 .. zigs−1 forward, then zigs .. 0 backward, all XY moves |
| Nozzle.Zigzag | MK4duo/src/core/nozzle/nozzle.cpp:206-255 | no moves exactly when the corners share an X or a Y; otherwise the approach comes first |
| Nozzle.ZigzagEndsAtStart | MK4duo/src/core/nozzle/nozzle.cpp:206-255 | a zigzag wipe ends over its start, or with go-back where it began |
| Nozzle.ZigzagTurnsAtEnd | MK4duo/src/core/nozzle/nozzle.cpp:242-247 | the backward loop starts on the end corner's coordinate in the wipe direction |
| Nozzle.ZigPointInBox | MK4duo/src/core/nozzle/nozzle.cpp:234-248 | every zigzag point lies inside the rectangle of the two corners, with or without zigs |
| Nozzle.ZeroZigsStayAtStart | MK4duo/src/core/nozzle/nozzle.cpp:242-248 | corrected: with no zigs a pass is the single move to the start corner |
| Nozzle.InBox | MK4duo/src/core/nozzle/nozzle.cpp:235-239 | a point of a geometry whose periods fill the span lies inside the corners' rectangle |
| Nozzle.InBoxAlong | MK4duo/src/core/nozzle/nozzle.cpp:237 | i of n periods along a span stay between its ends |
| Nozzle.Advanced | MK4duo/src/core/nozzle/nozzle.cpp:237-239 | i of n periods from a lie between a and a plus the span |
| Nozzle.BetweenEnds | MK4duo/src/core/nozzle/nozzle.cpp:237-239 | a fraction in [0, 1] of a span from a lies between its ends |
| Nozzle.ForwardAsWrittenHangs | MK4duo/src/core/nozzle/nozzle.cpp:234 | with 128 or more zigs the `int8_t` forward loop never ends |
| Nozzle.ZigzagHangsAt64 | MK4duo/src/core/nozzle/nozzle.cpp:228-234 | `objects` = 64 gives 128 zigs and the forward loop never ends for any fuel |
| Nozzle.ForwardAsWrittenBelow128 | MK4duo/src/core/nozzle/nozzle.cpp:234 | below 128 zigs the as-written loop visits exactly the indices the corrected pass uses |
| Nozzle.ForwardAsWritten | MK4duo/src/core/nozzle/nozzle.cpp:234 | the `int8_t` forward loop as written: when it finishes it has run fewer iterations than its fuel, and every index it visited was below `zigs` |
| Nozzle.CirclePass | MK4duo/src/core/nozzle/nozzle.cpp:277-282 | one turn is `NOZZLE_CLEAN_CIRCLE_FN` XY moves |
| Nozzle.CircleBody | MK4duo/src/core/nozzle/nozzle.cpp:270-286 | the approach, then XY moves only, ending with the move back to the start |
| Nozzle.CircleAsWrittenStaysLow | MK4duo/src/core/nozzle/nozzle.cpp:288-291 | the as-written go-back ends at the start height, with the saved Z used as the feedrate |
| Nozzle.CircleAsWritten | MK4duo/src/core/nozzle/nozzle.cpp:257-292 | `circle` as written has as many requests as the corrected circle and the same ones, except the final go-back |
| Nozzle.Circle | MK4duo/src/core/nozzle/nozzle.cpp:257-292 | zero strokes give no moves; otherwise the approach, strokes full turns, the move to the start and the go-back |
| Nozzle.CircleEndsAtStart | MK4duo/src/core/nozzle/nozzle.cpp:257-292 | a circle wipe ends over its start, or with go-back where it began |
| Nozzle.NoXYBits | MK4duo/src/core/nozzle/nozzle.cpp:115 | the X/Y mask is zero exactly when neither bit is set |
| Nozzle.EndsAsWritten | MK4duo/src/core/nozzle/nozzle.cpp:111-125 | a circle without X or Y is refused; otherwise, unless the X bit is set, Y is held at the current coordinate |
| Nozzle.CleanEnds | MK4duo/src/core/nozzle/nozzle.cpp:111-125 | a circle without X or Y is refused; each unselected axis stays at the current coordinate and each selected axis uses the configured corners, the circle's end being its middle |
| Nozzle.EndsYMaskAsWritten | MK4duo/src/core/nozzle/nozzle.cpp:122-123 | with X selected and Y not, the as-written corners wipe in Y; with Y selected and X not, they hold Y; the corrected corners do the reverse |
| Nozzle.Dispatch | MK4duo/src/core/nozzle/nozzle.cpp:132-143 | refused corners give the warning and no moves; usable corners never warn |
| Nozzle.CleanAsWritten | MK4duo/src/core/nozzle/nozzle.cpp:109-144 | the warning is given exactly for a circle without X and Y, and then nothing moves |
| Nozzle.Clean | MK4duo/src/core/nozzle/nozzle.cpp:109-144 | the warning exactly for a circle without X and Y; a circle moves iff strokes > 0; a stroke wipe always moves |
| Nozzle.CleanEndsAtStart | MK4duo/src/core/nozzle/nozzle.cpp:109-144 | a clean that moves ends over the pattern's start corner, or with go-back where it began |
| Stepper.MultistepIndex | MK4duo/src/core/stepper/stepper.h:440-447 | the number of halvings is the first index at which the halved rate no longer exceeds the ladder, or 7; every earlier index exceeded it |
| Stepper.Multistep | MK4duo/src/core/stepper/stepper.h:435-452 | steps per interrupt are 2 to the number of halvings; the rate is the scaled rate divided by them, so loops × rate stays within one loop of the scaled rate |
| Stepper.TimerInterval | MK4duo/src/core/stepper/stepper.h:454-456 | undefined exactly for a zero rate; otherwise the floor of timer clock / rate |
| Stepper.CalcTimerInterval | MK4duo/src/core/stepper/stepper.h:433-456 | with quad stepping the multistep choice above on the 32-bit scaled rate; without, one loop and the rate capped at the first ladder entry; the interval is the timer clock divided by the chosen rate |
| Stepper.DivNoGreater | MK4duo/src/core/stepper/stepper.h:444 | a halved or divided rate never grows |
| Stepper.DivBracket | MK4duo/src/core/stepper/stepper.h:444-445 | the quotient times the divisor brackets the dividend within one divisor |
| Stepper.MaskDistinct | MK4duo/src/core/stepper/stepper.h:334-337 | the bits of two different axes do not overlap |
| Stepper.DisjointBits | MK4duo/src/core/stepper/stepper.h:334-336 | setting or clearing one bit leaves every disjoint bit as it was |
| Stepper.SetStepDir | MK4duo/src/core/stepper/stepper.h:334-337 | afterwards `isStepDir(axis)` reads the written value and every other axis reads as before |
| Stepper.SetLock | MK4duo/src/core/stepper/stepper.h:311-324 | the named motor's lock is the given state; other motors' locks and the other flags are unchanged |
| Stepper.SetSeparateMultiAxis | MK4duo/src/core/stepper/stepper.h:308 | only the multi-axis mode changes |
| Stepper.QuickStop | MK4duo/src/core/stepper/stepper.h:258 | the abort of the running block is requested; locks and the multi-axis mode stay as they were |
| Serial.ModWrap | MK4duo/src/platform/HAL_AVR/HardwareSerial.cpp:240-243 | a value below twice the ring size wraps at most once, which is what the masked `SIZE + head - tail` needs |
| Serial.Next | MK4duo/src/platform/HAL_AVR/HardwareSerial.cpp:180 | the next index stays inside the ring |
| Serial.Slot | MK4duo/src/platform/HAL_AVR/HardwareSerial.cpp:386 | the slot k places after the tail stays inside the ring |
| Serial.Count | MK4duo/src/platform/HAL_AVR/HardwareSerial.cpp:240-243 | fewer queued bytes than slots, and the head lies that many slots after the tail |
| Serial.IndexIsMasked | MK4duo/src/platform/HAL_AVR/HardwareSerial.cpp:180-190 | the index arithmetic equals the source's `& (SIZE - 1)` masking of head + 1, tail + k and head − tail |
| Serial.Contents | MK4duo/src/platform/HAL_AVR/HardwareSerial.cpp:163-243 | the queue holds exactly the counted bytes, fewer than the ring's size |
| Serial.FullIffCapacity | MK4duo/src/platform/HAL_AVR/HardwareSerial.cpp:398-404 | the ring is full exactly when it holds SIZE − 1 bytes, and it never holds more |
| Serial.Push | MK4duo/src/platform/HAL_AVR/HardwareSerial.cpp:296-297 | storing at the head keeps a well-formed ring |
| Serial.Pop | MK4duo/src/platform/HAL_AVR/HardwareSerial.cpp:180-184 | advancing the tail keeps a well-formed ring |
| Serial.PushContents | MK4duo/src/platform/HAL_AVR/HardwareSerial.cpp:401-404 | storing into a ring with room appends the byte to the queue |
| Serial.PopContents | MK4duo/src/platform/HAL_AVR/HardwareSerial.cpp:176-184 | advancing the tail of a nonempty ring removes the oldest byte |
| Serial.EmptyContents | MK4duo/src/platform/HAL_AVR/HardwareSerial.cpp:165 | the queue is empty exactly when head equals tail |
| Serial.Initial | MK4duo/src/platform/HAL_AVR/HardwareSerial.cpp:47-54 | the port starts well formed with both queues empty |
| Serial.SatInc | MK4duo/src/platform/HAL_AVR/HardwareSerial.cpp:389-391 | an error counter grows by one and sticks at 255 |
| Serial.ReceiveOne | MK4duo/src/platform/HAL_AVR/HardwareSerial.cpp:445-460 | a byte taken while waiting keeps the ring well formed and never lowers the drop count |
| Serial.ReceiveAll | MK4duo/src/platform/HAL_AVR/HardwareSerial.cpp:440-502 | the bytes taken while waiting keep the ring well formed, leave the tail alone and never lower the drop count |
| Serial.Enqueue | MK4duo/src/platform/HAL_AVR/HardwareSerial.cpp:398-406 | a bounded FIFO never grows by more than the bytes offered and never disturbs what was queued |
| Serial.ReceiveAllQueue | MK4duo/src/platform/HAL_AVR/HardwareSerial.cpp:440-502 | the bytes taken while waiting for XOFF go into the ring as into a FIFO of capacity SIZE − 1 |
| Serial.StoreRxdChar | MK4duo/src/platform/HAL_AVR/HardwareSerial.cpp:373-512 | the transmit side and the tail are untouched; the overrun and framing counters count their flags; the fill maximum only grows; XOFF is sent exactly when the eighth-full threshold is crossed after an XON, otherwise only the byte is stored |
| Serial.Stored | MK4duo/src/platform/HAL_AVR/HardwareSerial.cpp:380-414 | only the ring, the counters and the fill maximum change; each counter follows its flag and the fill maximum covers the new fill |
| Serial.StoreOne | MK4duo/src/platform/HAL_AVR/HardwareSerial.cpp:398-406 | storing or dropping one byte keeps the ring well formed |
| Serial.StoreRxdCharQueue | MK4duo/src/platform/HAL_AVR/HardwareSerial.cpp:373-512 | the receive interrupt acts on the queue as a FIFO of capacity SIZE − 1: the byte, then any bytes taken while XOFF goes out |
| Serial.StoreOneQueue | MK4duo/src/platform/HAL_AVR/HardwareSerial.cpp:398-406 | one byte is appended unless the ring is full |
| Serial.StoreRxdCharCountsDrop | MK4duo/src/platform/HAL_AVR/HardwareSerial.cpp:405-406 | a byte that finds the ring full raises the drop count below its limit |
| Serial.EnqueueCons | MK4duo/src/platform/HAL_AVR/HardwareSerial.cpp:440-502 | offering bytes one after another is the same as offering them together |
| Serial.Peek | MK4duo/src/platform/HAL_AVR/HardwareSerial.cpp:163-166 | −1 for an empty queue, otherwise the oldest byte |
| Serial.Read | MK4duo/src/platform/HAL_AVR/HardwareSerial.cpp:169-209 | −1 and no change for an empty queue; otherwise the oldest byte, removed, with XON requested after XOFF once less than a tenth of the ring is left |
| Serial.RequestXon | MK4duo/src/platform/HAL_AVR/HardwareSerial.cpp:188-203 | asking for XON after XOFF: with a transmit buffer, XON is left pending for the enabled interrupt and nothing goes on the wire; without one, XON is sent at once and marked sent; the rings and the error counters are untouched |
| Serial.Flush | MK4duo/src/platform/HAL_AVR/HardwareSerial.cpp:212-237 | the queue ends empty; after XOFF an XON is requested; otherwise only the tail moves |
| Serial.Available | MK4duo/src/platform/HAL_AVR/HardwareSerial.cpp:240-243 | the number of queued bytes, below the ring size |
| Serial.Sent | MK4duo/src/platform/HAL_AVR/HardwareSerial.cpp:246-302 | the data bytes on the wire are no more than the characters written |
| Serial.SentAppend | MK4duo/src/platform/HAL_AVR/HardwareSerial.cpp:555 | a data character adds its byte to the data stream; XON and XOFF add nothing |
| Serial.TxUdrEmptyIrq | MK4duo/src/platform/HAL_AVR/HardwareSerial.cpp:516-565 | nothing without a transmit ring; a pending XON goes first; otherwise the oldest queued byte goes out; the interrupt is off once nothing is left; receive state is untouched |
| Serial.TxIrqKeepsStream | MK4duo/src/platform/HAL_AVR/HardwareSerial.cpp:516-565 | the interrupt keeps the order of the outgoing byte stream and stays armed while there is something to send |
| Serial.TxIrqSendsOldest | MK4duo/src/platform/HAL_AVR/HardwareSerial.cpp:552-556 | sending the oldest byte moves it from the queue to the wire without changing the stream |
| Serial.SendOldest | MK4duo/src/platform/HAL_AVR/HardwareSerial.cpp:553-556 | wire data followed by the queue is the same before and after the oldest byte is sent |
| Serial.MakeRoom | MK4duo/src/platform/HAL_AVR/HardwareSerial.cpp:275-293 | the wait loop ends with room in the transmit ring and the outgoing stream unchanged |
| Serial.Write | MK4duo/src/platform/HAL_AVR/HardwareSerial.cpp:246-302 | the written flag is set; without a transmit ring the byte goes straight to the wire; with one the byte is appended to the outgoing stream and the interrupt stays armed |
| Serial.QueueByte | MK4duo/src/platform/HAL_AVR/HardwareSerial.cpp:296-300 | a byte queued into a ring with room is appended to the stream and arms the interrupt |
| Serial.ReceiveKeepsTxArmed | MK4duo/src/platform/HAL_AVR/HardwareSerial.cpp:169-237 | receiving, reading and flushing leave the transmit side armed |
| Serial.Digits | MK4duo/src/platform/HAL_AVR/HardwareSerial.cpp:620-635 | at least one digit, no leading zero, every digit below the base |
| Serial.DigitsValue | MK4duo/src/platform/HAL_AVR/HardwareSerial.cpp:625-628 | the digits read back as the number |
| Serial.DigitsValueStep | MK4duo/src/platform/HAL_AVR/HardwareSerial.cpp:625-628 | if the digits of n / base read back, so do the digits of n |
| Serial.DivLess | MK4duo/src/platform/HAL_AVR/HardwareSerial.cpp:626-627 | each division shrinks the number and leaves a digit below the base |
| Serial.DivMod | MK4duo/src/platform/HAL_AVR/HardwareSerial.cpp:626-627 | quotient and remainder rebuild the number |
| Serial.ValueSnoc | MK4duo/src/platform/HAL_AVR/HardwareSerial.cpp:629-630 | a digit appended at the low end multiplies the value by the base and adds the digit |
| Serial.PrintNumber | MK4duo/src/platform/HAL_AVR/HardwareSerial.cpp:620-635 | one character per digit, most significant first, `0`–`9` then `A`… |
| Serial.PrintNumberLoops | MK4duo/src/platform/HAL_AVR/HardwareSerial.cpp:620-635 | the two loops of `printNumber` print exactly the digits, and never need more than the 32 bytes of `buf` |
| Serial.Reversed | MK4duo/src/platform/HAL_AVR/HardwareSerial.cpp:629-630 | the buffer read backwards |
| Serial.DigitLoopStep | MK4duo/src/platform/HAL_AVR/HardwareSerial.cpp:625-628 | one turn of the digit loop keeps its invariant and makes progress |
| Serial.DigitsStep | MK4duo/src/platform/HAL_AVR/HardwareSerial.cpp:625-630 | the digits of m are those of m / base followed by m % base |
| Serial.DigitsLength | MK4duo/src/platform/HAL_AVR/HardwareSerial.cpp:623 | a number below 2^k has at most k digits in any base |
| Serial.MulLeq | MK4duo/src/platform/HAL_AVR/HardwareSerial.cpp:623 | multiplication keeps order |
| Serial.DigitsFit | MK4duo/src/platform/HAL_AVR/HardwareSerial.cpp:623 | every `unsigned long` has at most 32 digits, the size of `buf` |
| Serial.Pow2Is32 | MK4duo/src/platform/HAL_AVR/HardwareSerial.cpp:623 | 2^32 is the range of `unsigned long` |
| Serial.PrintNumberRoundTrip | MK4duo/src/platform/HAL_AVR/HardwareSerial.cpp:620-635 | with a base up to 36 the printed text parses back to the number |
| Serial.ParseDigits | MK4duo/src/platform/HAL_AVR/HardwareSerial.cpp:629-630 | characters of digits parse back to their value |
| Serial.CharDigitInverse | MK4duo/src/platform/HAL_AVR/HardwareSerial.cpp:630 | the character of a digit below 36 reads back as that digit |
| Serial.SameStep | MK4duo/src/platform/HAL_AVR/HardwareSerial.cpp:629-630 | equal prefixes and equal digits give equal values |
| Serial.PrintLong | MK4duo/src/platform/HAL_AVR/HardwareSerial.cpp:591-599 | base 0 writes the low byte; base 10 prints `-` and the magnitude for negatives; other bases print the 32-bit two's complement in the byte-truncated base |
| Serial.PrintLongRoundTrip | MK4duo/src/platform/HAL_AVR/HardwareSerial.cpp:591-599 | every `long` printed in decimal, `LONG_MIN` included, parses back to itself |
| Serial.PrintULong | MK4duo/src/platform/HAL_AVR/HardwareSerial.cpp:602-605 | base 0 writes the low byte; any other base prints the digits |
| Tmc.InitialStorage | MK4duo/src/feature/tmc/tmc.h:108-133 | a fresh driver's cache holds zero current, zero microsteps, zero thresholds, stealthChop off and no prewarning or error counts |
| Tmc.SetRmsCurrent | MK4duo/src/feature/tmc/tmc.h:318-321 | the requested current is both cached and written to the driver; nothing else changes |
| Tmc.SetMicrosteps | MK4duo/src/feature/tmc/tmc.h:330-333 | the requested microsteps are both cached and written to the driver; nothing else changes |
| Tmc.RefreshIdempotent | MK4duo/src/feature/tmc/tmc.h:211-213 | a refresh brings the register back to the cached value: twice is once, right after a setter it changes nothing, and it never touches the cache |
| Tmc.RefreshStepperCurrent | MK4duo/src/feature/tmc/tmc.h:212 | `refresh_stepper_current` writes the cached current back into the current register; the cache, the other registers and the enable state stay |
| Tmc.RefreshStepperMicrostep | MK4duo/src/feature/tmc/tmc.h:213 | `refresh_stepper_microstep` writes the cached microsteps back; the cache, the other registers and the enable state stay |
| Tmc.ClearOtpw | MK4duo/src/feature/tmc/tmc.h:509-513 | the latched prewarning flag is cleared; the counter and the registers stay |
| Tmc.SteppingModeReadsBack | MK4duo/src/feature/tmc/tmc.h:196-197 | after a refresh the stealthChop status reads back as the cached wish, on both families with stealthChop, and the cache is untouched |
| Tmc.RefreshSteppingMode | MK4duo/src/feature/tmc/tmc.h:196 | on the TMC2208 spreadCycle is set to the opposite of the stealthChop wish, on the SPI drivers PWM mode to the wish, and the TMC2660 is left alone; only that mode bit changes |
| Tmc.StealthChopStatus | MK4duo/src/feature/tmc/tmc.h:197 | `get_stealthChop_status`: spreadCycle off on the TMC2208, PWM mode on for the other families (tmc.h:336) |
| Tmc.TmcThrs | MK4duo/src/feature/tmc/tmc.h:104-106 | a zero threshold or zero steps per mm leaves the division undefined |
| Tmc.TmcThrsExact | MK4duo/src/feature/tmc/tmc.h:104-106 | without overflow the register value is the exact floor of 12650000 · msteps / (256 · thrs · spmm) |
| Tmc.MulPositive | MK4duo/src/feature/tmc/tmc.h:105 | the divisor of two positive factors is positive |
| Tmc.NoWrap32 | MK4duo/src/feature/tmc/tmc.h:105 | a value that fits 32 bits survives the 32-bit arithmetic |
| Tmc.NoWrap16 | MK4duo/src/feature/tmc/tmc.h:104 | a value that fits 16 bits survives the `uint16_t` return |
| Tmc.QuotientBounds | MK4duo/src/feature/tmc/tmc.h:105 | the quotient times the divisor brackets the dividend |
| Tmc.SetPwmThrsAsWritten | MK4duo/src/feature/tmc/tmc.h:342-347 | `TPWMTHRS` gets the threshold formula exactly when it is defined, and menu builds keep the threshold in 8 bits |
| Tmc.MenuZeroDividesByZero | MK4duo/src/feature/tmc/tmc.h:215-217 | refreshing a menu threshold of 0 divides by zero |
| Tmc.SetPwmThrs | MK4duo/src/feature/tmc/tmc.h:342-347 | a zero threshold writes `TPWMTHRS` = 0; any other acts as written; the menu copy is kept in 8 bits and the current is untouched |
| Tmc.MenuRefreshDefined | MK4duo/src/feature/tmc/tmc.h:215-217 | with the guard every menu value refreshes without a division by zero and keeps the menu value |
| Tmc.RefreshHybridThrs | MK4duo/src/feature/tmc/tmc.h:215-217 | the guarded refresh: a menu value of 0 writes `TPWMTHRS` = 0 instead of dividing by zero, any other value refreshes as written, and the cache is kept |
| Tmc.RefreshHybridThrsAsWritten | MK4duo/src/feature/tmc/tmc.h:215-217 | the refresh as written is undefined exactly when the threshold formula divides by zero, and otherwise keeps the cache |
| Tmc.MulBelow | MK4duo/src/feature/tmc/tmc.h:105 | a product of smaller factors is smaller |
| Tmc.NoWrap8 | MK4duo/src/feature/tmc/tmc.h:119 | a value below 256 survives the `uint8_t` menu copy |
| Tmc.HomingThreshold | MK4duo/src/feature/tmc/tmc.h:351-357 | `SGT` is the value clamped to [−64, 63]; menu builds keep the clamped value; no other register changes |
| Tmc.HomingThresholdIdempotent | MK4duo/src/feature/tmc/tmc.h:280 | setting the threshold again, or refreshing it from the menu copy, changes nothing |
| Tmc.RefreshHomingThrs | MK4duo/src/feature/tmc/tmc.h:280 | `refresh_homing_thrs` leaves `SGT` within [−64, 63] with the other registers kept, and writes back a menu copy already in range unchanged |
| Tmc.Index | MK4duo/src/feature/tmc/tmc.cpp:807-852 | every driver has one of the 13 slots |
| Tmc.DriverByIndex | MK4duo/src/feature/tmc/tmc.cpp:807-852 | a found driver is configured and sits in the slot asked for; nothing is found only when no configured driver sits there |
| Tmc.DriverByIndexRoundTrip | MK4duo/src/feature/tmc/tmc.cpp:807-852 | looking a driver up by its slot finds it exactly when it is configured, and slots from 13 on find nothing |
| Tmc.AxisId | MK4duo/src/feature/tmc/tmc.h:48-62 | X, Y and Z drivers, second and third included, use axes 0, 1 and 2; extruder k uses 3 + k |
| Tmc.ResultWord | MK4duo/src/feature/tmc/tmc.cpp:863-870 | 1 prints HIGH, 2 prints LOW, anything else OK |
| Tmc.TestConnection | MK4duo/src/feature/tmc/tmc.cpp:855-874 | the driver failed iff its result is nonzero; the line starts `Testing `, and for result 0 reads `Testing <label> connection... OK` |
| Tmc.TestAll | MK4duo/src/feature/tmc/tmc.cpp:441-494 | the failure count is at most the drivers tested, and positive exactly when some configured, selected driver failed |
| Tmc.ConnectionErrorIffSomeFailed | MK4duo/src/feature/tmc/tmc.cpp:441-496 | `TMC CONNECTION ERROR` is shown exactly when some configured driver of a selected group failed |
| Tmc.TestConnections | MK4duo/src/feature/tmc/tmc.cpp:441-496 | `test_connection(x, y, z, e)` prints at most one line per driver; when the banner shows is stated by `Tmc.ConnectionErrorIffSomeFailed` |
| Tmc.InTestOrder | MK4duo/src/feature/tmc/tmc.cpp:441-494 | every driver is tested in its group |
| Tmc.DecodeX1X0Avr | MK4duo/src/feature/tmc/tmc.cpp:1202-1252 | the 8-bit AVR reading of the status agrees with the 32-bit one on every status word |
| Tmc.DecodeX1X0Word | MK4duo/src/feature/tmc/tmc.cpp:1234-1246 | the SPI drivers' 32-bit decoding: overtemperature bit 25, prewarning bit 26, short to ground exactly when bit 27 or 28 is set, stall bit 24, stealth bit 14, standstill bit 31, a StallGuard result that is meaningful exactly when not at standstill, a 5-bit current and a 10-bit StallGuard result |
| Tmc.Decode2208Avr | MK4duo/src/feature/tmc/tmc.cpp:1148-1175 | the 8-bit AVR reading of the TMC2208 status agrees with the 32-bit one |
| Tmc.Decode2208Word | MK4duo/src/feature/tmc/tmc.cpp:1148-1171 | the TMC2208 32-bit decoding: prewarning bit 0, overtemperature bit 1, short to ground exactly when the mask meets the status, stealth bit 30, standstill bit 31, no StallGuard fields, a 5-bit current |
| Tmc.S2gMask2208Wrong | MK4duo/src/feature/tmc/tmc.cpp:1149-1155 | as written the overtemperature bit alone reads as a short, and a short on bit 5 alone is missed |
| Tmc.S2gMask2208Bits | MK4duo/src/feature/tmc/tmc.cpp:1150-1155 | with the mask of bits 2–5 a short is reported exactly when one of the four short bits is set |
| Tmc.Decode2660 | MK4duo/src/feature/tmc/tmc.cpp:1179-1198 | overtemperature bit 1, prewarning bit 2, standstill bit 7, short in bits 3–4, StallGuard result from bits 10–19, below 1024 |
| Tmc.Decode | MK4duo/src/feature/tmc/tmc.cpp:1148-1252 | the family's own decoding, with the status word kept; the TMC2208 branch uses the corrected short-to-ground mask `0x3C` of bits 2–5, not the source's `0b11110` (see Findings) |
| Tmc.StatusResponse2208 | MK4duo/src/feature/tmc/tmc.cpp:1139-1145 | only bits 0, 1 and 3 can be set: bit 3 is the status bit 31, bits 0–1 the low bits of `GSTAT` |
| Tmc.ErrorStep | MK4duo/src/feature/tmc/tmc.cpp:1262-1263 | an overtemperature adds one to the 8-bit counter; otherwise it decays to 0 and stays there |
| Tmc.SteppedDown | MK4duo/src/feature/tmc/tmc.cpp:1296-1299 | a step-down lowers the current by exactly the step when the current is at least the step |
| Tmc.AfterPrewarning | MK4duo/src/feature/tmc/tmc.cpp:1294-1312 | the prewarning counter counts a run of prewarnings and resets otherwise; the flag latches; the error counter and the other registers stay |
| Tmc.MonitorDriver | MK4duo/src/feature/tmc/tmc.cpp:1256-1313 | an all-ones or all-zero status, or no due update, changes nothing; the printer is stopped exactly when the error counter reaches 10 with `STOP_ON_ERROR`; otherwise the counters follow the status |
| Tmc.MonitorDriverReports | MK4duo/src/feature/tmc/tmc.cpp:1265-1292 | a stop reports the driver error; otherwise the overtemperature warning is reported exactly on the first prewarning of a run |
| Tmc.MonitorDriverCurrent | MK4duo/src/feature/tmc/tmc.cpp:1294-1306 | only the current can change, and only by the step-down, after more than four prewarnings with the driver enabled above 100 mA |
| Tmc.MonitorRun | MK4duo/src/feature/tmc/tmc.cpp:500-524 | repeated polls never change whether the driver is enabled |
| Tmc.MonitorRunLast | MK4duo/src/feature/tmc/tmc.cpp:1256-1313 | after a stop nothing more happens; otherwise the last poll moves the counters as its status says |
| Tmc.MonitorRunWarnCount | MK4duo/src/feature/tmc/tmc.cpp:1308-1312 | while running, the prewarning counter is the length of the current run of prewarnings, in 8 bits |
| Tmc.Wrap8Succ | MK4duo/src/feature/tmc/tmc.cpp:1309 | incrementing an 8-bit counter is incrementing and then wrapping |
| Tmc.MonitorRunWarnFlag | MK4duo/src/feature/tmc/tmc.cpp:1308-1311 | while running, the flag is set exactly when it was set or some answered poll carried a prewarning |
| Tmc.ElementSplit | MK4duo/src/feature/tmc/tmc.cpp:1308-1311 | a property holds of some poll exactly when it holds of an earlier one or of the last |
| Tmc.MonitorRunStops | MK4duo/src/feature/tmc/tmc.cpp:1261-1278 | with `STOP_ON_ERROR` the error counter follows the error balance and the printer stops exactly when some prefix's balance reaches 10 |
| Tmc.BalanceReachesTen | MK4duo/src/feature/tmc/tmc.cpp:1262-1266 | some prefix reaches 10 exactly when an earlier prefix does or the whole run does |
| Tmc.PrefixSplit | MK4duo/src/feature/tmc/tmc.cpp:1262-1266 | a property of some nonempty prefix splits into the earlier prefixes and the whole |
| Tmc.PollPass | MK4duo/src/feature/tmc/tmc.cpp:514-517 | the pass keeps the set of configured drivers |
| Tmc.PollPassStops | MK4duo/src/feature/tmc/tmc.cpp:514-517 | the pass stops the printer exactly when some driver from the slot on stops it by itself |
| Tmc.PollPassFrame | MK4duo/src/feature/tmc/tmc.cpp:514-517 | drivers before the slot are untouched, and without a stop every later driver ends as its own poll leaves it |
| Tmc.PollPassStep | MK4duo/src/feature/tmc/tmc.cpp:514-517 | one slot of the pass combines the driver's own poll with the rest of the pass |
| Tmc.MonitorAllEffect | MK4duo/src/feature/tmc/tmc.cpp:500-524 | the printer is stopped exactly when the poll of some configured driver stops it; otherwise each driver ends as its own poll leaves it |
| Tmc.MonitorAll | MK4duo/src/feature/tmc/tmc.cpp:500-524 | `monitor_driver()` polls the configured drivers and keeps the set of drivers; its effect on each driver is stated by `Tmc.MonitorAllEffect` |
| Temperature.MintempAll | MK4duo/src/core/temperature/temperature.cpp:561-565 | the result is at most 9999 and every configured minimum, and is 9999 or one of them; the same fold serves beds (577-581), chambers (593-597) and coolers (609-613) |
| Temperature.MaxOf | MK4duo/src/core/temperature/temperature.cpp:567-571 | the running maximum is at least 0 and every configured maximum, and is 0 or one of them |
| Temperature.MaxtempAll | MK4duo/src/core/temperature/temperature.cpp:567-571 | every heater of the group may be set up to the result plus 10, and the result is −10 or some maximum less 10; the same for chambers (599-603) and coolers (615-619) |
| Temperature.BedMaxtempAllAsWritten | MK4duo/src/core/temperature/temperature.cpp:583-587 | the as-written loop is defined only when there are no more hotends than beds, and then sees only the first hotend-count beds |
| Temperature.BedMaxtempAllCounterexample | MK4duo/src/core/temperature/temperature.cpp:583-587 | with one hotend and beds rated 100 and 150 the as-written answer is 90 where the group's is 140 |
| Temperature.BedMaxtempAll | MK4duo/src/core/temperature/temperature.cpp:583-587 | looping over the beds, every bed may be set up to the result plus 10, and the result comes from some bed or is −10 |
| Temperature.AnyActive | MK4duo/src/core/temperature/temperature.cpp:534-548 | true exactly when some heater of the list is active |
| Temperature.HeatersIsActive | MK4duo/src/core/temperature/temperature.cpp:534-548 | true exactly when some hotend, bed, chamber or cooler is active |
| Temperature.SwitchOff | MK4duo/src/core/temperature/temperature.cpp:491-514 | every heater of a group gets target 0 and a restarted watch, and keeps everything else |
| Temperature.DisableAllHeaters | MK4duo/src/core/temperature/temperature.cpp:485-529 | every heater of every group has target 0 and a restarted watch, the group sizes and every heater's limits, in all four groups, are kept, autotemp is off and the print job is stopped |
| Temperature.DisableAllHeatersIdempotent | MK4duo/src/core/temperature/temperature.cpp:485-529 | switching all heaters off a second time changes nothing |
| Temperature.SetIdle | MK4duo/src/core/temperature/temperature.cpp:701-704 | every hotend gets the given idle timeout and keeps everything else |
| Temperature.Pause | MK4duo/src/core/temperature/temperature.cpp:698-706 | the pause state becomes p; asking for the current state changes nothing; a change times every hotend out at once or resets its idle timer, keeping its target; other groups are untouched |
| Temperature.UpdateMcuExtremes | MK4duo/src/core/temperature/temperature.cpp:426-430 | the current MCU temperature lies between the new extremes; the highest only rises, the lowest only falls, each to the current value when it moves |
| Temperature.MeasShiftIndex | MK4duo/src/core/temperature/temperature.cpp:437-440 | the index lies in 0..`MAX_MEASUREMENT_DELAY`, and for in-range inputs is the write index less the delay modulo the ring size |
| Temperature.ModOnce | MK4duo/src/core/temperature/temperature.cpp:439 | adding the period once to a negative value within one period is the remainder modulo it |
| Servo.ChannelsOnTimerSpec | MK4duo/src/platform/HAL_AVR/servo.cpp:42 | a channel is below the number of servos on this timer exactly when its servo index is below `ServoCount` and it is below `SERVOS_PER_TIMER` |
| Servo.HandleInterrupt | MK4duo/src/platform/HAL_AVR/servo.cpp:35-56 | the count restarts after the refresh wait; the running pulse of an attached servo is ended and no other pin goes low; the channel moves to the next attached servo, whose pulse is timed by its width and raised iff attached; after the last one the refresh wait is timed to the refresh tick count or at least 4 ticks |
| Servo.Run | MK4duo/src/platform/HAL_AVR/servo.cpp:35-56 | any number of interrupts keeps the channel in −1 .. `SERVOS_PER_TIMER` − 1 |
| Servo.ChannelCycle | MK4duo/src/platform/HAL_AVR/servo.cpp:35-56 | from the refresh wait the interrupts visit channels 0, 1, … in order, one each, and come back to −1 right after the last attached one |
| Servo.RunFrom | MK4duo/src/platform/HAL_AVR/servo.cpp:41-54 | after j + 1 interrupts from the refresh wait the channel is j, or −1 once j reaches the attached count |
| Servo.RunSplit | MK4duo/src/platform/HAL_AVR/servo.cpp:35-56 | n + 1 interrupts are n interrupts followed by one |
| Power.InitialFlag | MK4duo/src/feature/power/power.h:40 | a fresh flag byte has Logic and Pullup false and no other bit set |
| Power.SetLogic | MK4duo/src/feature/power/power.h:105-107 | `isLogic` reads the written value; Pullup and the unused bits are unchanged |
| Power.SetPullup | MK4duo/src/feature/power/power.h:109-111 | `isPullup` reads the written value; Logic and the unused bits are unchanged |
| Power.SettersCommute | MK4duo/src/feature/power/power.h:28-39 | the two setters act on separate bits: their order does not matter and each reads back |
| Rfid.SectorCount | MK4duo/src/feature/mfrc522/mfrc522.cpp:167 | the count of sectors `BLOCK_START`, `BLOCK_START` + 4, … below `BLOCK_TOTAL`: all of them are below it, the next one is not, and there is at least one when the range is not empty |
| Rfid.Sectors | MK4duo/src/feature/mfrc522/mfrc522.cpp:167-168 | the k-th sector visited is `BLOCK_START` + 4k |
| Rfid.Frame | MK4duo/src/feature/mfrc522/mfrc522.cpp:222-230 | the request is header, length and command, then exactly len − 2 data bytes when there is data and nothing more otherwise |
| Rfid.Encode | MK4duo/src/feature/mfrc522/mfrc522.cpp:233-245 | a reply occupies three bytes plus its data |
| Rfid.Receive | MK4duo/src/feature/mfrc522/mfrc522.cpp:233-245 | a received reply is well formed and is exactly the front of the byte stream |
| Rfid.ReceiveEncode | MK4duo/src/feature/mfrc522/mfrc522.cpp:233-245 | receiving an encoded reply gives it back and leaves the rest of the stream |
| Rfid.Store | MK4duo/src/feature/mfrc522/mfrc522.cpp:240-245 | the receive buffer keeps its 20 bytes |
| Rfid.StoreContents | MK4duo/src/feature/mfrc522/mfrc522.cpp:240-245 | the reply's data bytes land at the front of the buffer; the bytes it does not reach keep their values |
| Rfid.StoredCountAsWritten | MK4duo/src/feature/mfrc522/mfrc522.cpp:240 | as written the loop stores one byte per announced data byte, len − 2 of them, with no bound by the buffer |
| Rfid.LongReplyOverrunsBuffer | MK4duo/src/feature/mfrc522/mfrc522.cpp:238-244 | a length byte above 22 makes the as-written loop write past the 20-byte buffer (`MFRC522Data[20]`); the bounded store never does |
| Rfid.Communicate | MK4duo/src/feature/mfrc522/mfrc522.cpp:219-253 | the exchange succeeds exactly when the echoed command equals the one sent; the request is the frame above; the buffer keeps its size |
| Rfid.Init | MK4duo/src/feature/mfrc522/mfrc522.cpp:72-89 | the ID request frame is sent and the reader counts as present exactly when something came back |
| Rfid.GetId | MK4duo/src/feature/mfrc522/mfrc522.cpp:149-156 | the three-byte ID request is sent; the ID is read exactly when the command is echoed, and is the first four buffer bytes |
| Rfid.InitSendsIdRequest | MK4duo/src/feature/mfrc522/mfrc522.cpp:72-89 | the request `init` sends is the same ID request `getID` sends |
| Rfid.BlockHeader | MK4duo/src/feature/mfrc522/mfrc522.cpp:161-165 | eight bytes: the sector, the key type, then six `0xFF` key bytes |
| Rfid.ReadRequest | MK4duo/src/feature/mfrc522/mfrc522.cpp:168-173 | 11 bytes: header, length `0x0A`, the read command and the block header |
| Rfid.WriteRequest | MK4duo/src/feature/mfrc522/mfrc522.cpp:196-205 | 27 bytes: header, length `0x1A`, the write command, the block header and the sector's 16 record bytes |
| Rfid.PutChunk | MK4duo/src/feature/mfrc522/mfrc522.cpp:174-175 | the record keeps its length |
| Rfid.PutChunkContents | MK4duo/src/feature/mfrc522/mfrc522.cpp:174-175 | sector k's 16 bytes are replaced and every other byte of the record is kept |
| Rfid.ReadFrom | MK4duo/src/feature/mfrc522/mfrc522.cpp:158-184 | a finished read keeps the record's and the buffer's sizes |
| Rfid.ReadBlock | MK4duo/src/feature/mfrc522/mfrc522.cpp:158-184 | `readBlock` over all sectors keeps the record's and the buffer's sizes and never touches the record past the last sector; its contents are stated by `Rfid.ReadFromStores` |
| Rfid.WriteFrom | MK4duo/src/feature/mfrc522/mfrc522.cpp:186-212 | a write never changes the record |
| Rfid.WriteBlock | MK4duo/src/feature/mfrc522/mfrc522.cpp:186-212 | `writeBlock` over all sectors never changes the record and keeps the buffer's size; what it sends is stated by `Rfid.WriteFromSucceeds` |
| Rfid.StoreFullSector | MK4duo/src/feature/mfrc522/mfrc522.cpp:174-175 | a reply carrying a full sector leaves it in the first 16 buffer bytes |
| Rfid.ReadFromKeepsPrefix | MK4duo/src/feature/mfrc522/mfrc522.cpp:167-182 | a read from sector k on never touches the record below offset 16k |
| Rfid.ReadFromSucceeds | MK4duo/src/feature/mfrc522/mfrc522.cpp:158-184 | when every exchange is echoed the read succeeds, sends one read request per sector in order and uses one reply each |
| Rfid.ReadFromKeepsSuffix | MK4duo/src/feature/mfrc522/mfrc522.cpp:167-182 | a read never touches the record past its last sector |
| Rfid.ReadFromStoresFirst | MK4duo/src/feature/mfrc522/mfrc522.cpp:169-176 | an echoed full sector is left as that sector of the record, whatever follows |
| Rfid.ReadFromStores | MK4duo/src/feature/mfrc522/mfrc522.cpp:167-183 | when every exchange is echoed with a full sector, sector j's reply data ends at offset 16j of the record |
| Rfid.ReadFromStops | MK4duo/src/feature/mfrc522/mfrc522.cpp:177-179 | at the first exchange not echoed the read fails, having sent the requests up to it, and the record from that sector on is untouched |
| Rfid.WriteFromSucceeds | MK4duo/src/feature/mfrc522/mfrc522.cpp:186-212 | when every exchange is echoed the write succeeds and sends one write request per sector carrying that sector's record bytes |
| Rfid.WriteFromStops | MK4duo/src/feature/mfrc522/mfrc522.cpp:201-207 | at the first exchange not echoed the write fails, having sent the requests up to it |
| Spool.TagId | MK4duo/src/feature/mfrc522/mfrc522.cpp:149-156 | the tag's 4-byte ID is known exactly when the ID exchange is echoed |
| Spool.AfterId | MK4duo/src/feature/mfrc522/mfrc522.cpp:150-152 | the buffer after the ID exchange keeps its size |
| Spool.SpinRead | MK4duo/src/feature/mfrc522/mfrc522.cpp:115-130 | nothing happens unless the spool must be read; a failed ID sends only the ID request; an ID read becomes the spool's ID; the flag is cleared exactly when both the ID and the whole record were read; the write flag is untouched |
| Spool.SpinWrite | MK4duo/src/feature/mfrc522/mfrc522.cpp:132-144 | nothing happens unless the spool must be written; the ID request always goes first; blocks are sent only when the tag's ID is the spool's; the flag is cleared exactly when that holds and the whole write succeeds; nothing else but the flag and the tag ID changes |
| Spool.Spin | MK4duo/src/feature/mfrc522/mfrc522.cpp:114-145 | one extruder's read and write halves never set a flag, keep the record's size, and do nothing when neither flag is set |
| Spool.SpinAll | MK4duo/src/feature/mfrc522/mfrc522.cpp:113-146 | every extruder is visited once; no flag is ever set |
| Spool.SpinAllIdle | MK4duo/src/feature/mfrc522/mfrc522.cpp:113-146 | with no pending read or write, `spin` sends nothing and changes nothing |
| Spool.SpinReadSucceeds | MK4duo/src/feature/mfrc522/mfrc522.cpp:115-130 | when the tag answers everything the flag clears, the ID becomes the spool's, the ID request and one read request per sector are sent, and each sector's data ends in the record |
| Spool.SpoolLength | MK4duo/src/feature/mfrc522/mfrc522.cpp:105-108 | metres below 1000, centimetres below 100, millimetres below 10, and km·10⁶ + m·1000 + cm·10 + mm is the length again |
| Spool.SpoolLengthSum | MK4duo/src/feature/mfrc522/mfrc522.cpp:105-108 | the four printed parts put back together give the length |

## Left out

- G28.Run: a kinematic build calls the kinematic mechanics' `home()` (MK4duo/src/commands/gcode/calibrate/g28.h:64-66), which is not part of this model; there `G28.Run` stands in with the Cartesian `home()` on `Decide`'s all-false flags, which homes all three axes.
- Homing.DoubleHomeZ: the body of `probe_pt` is not part of this model; its travel to the point and its raise after probing are taken as an input, `Probed.after`, the position it leaves `current_position` at, together with the measured height.
- Planner, endstops, probe, bed leveling, sensorless homing and the dual-X-carriage paths are external collaborators. A planner line is an appended record. Endstop validation, `synchronize` and `idle` are recorded steps. `DUAL_X_CARRIAGE` is kept only as far as `dxc_is_duplicating`, `x_home_dir` and the reachability box need it.
- Motion.RunAppend: only the position half of running two request lists one after the other is stated; the planner lines are characterised per request by `Motion.Run` instead.
- `quick_home_xy`'s feedrate value is a float computation and is taken as a parameter.
- Float and trigonometric accuracy of arcs are left out. `sin`, `cos`, `atan2`, `HYPOT` and `SQRT` are given functions about which only these facts are assumed: `pi` is positive, `atan2` answers in (−`pi`, `pi`], `atan2(0, x)` is 0 for positive `x` (the full-circle case rests on this), and `HYPOT` of a nonzero vector is positive.
- Arc.ArcOffset: the R-form centre is shown to lie on the chord's perpendicular bisector, and to be nonzero exactly when the source makes it so. Its distance from the chord, `SQRT(r² − (d/2)²)`, and so the radius of the resulting arc, is not stated, because it rests on the given `SQRT`.
- The arc's `apply_motion_limits` is a given function `limits`. It is applied to `raw[]` in place, and the next step accumulates on the clamped value, so it changes the linear and extruder coordinates of every later point; `Arc.InteriorLines` states this running clamp. Only when `limits` leaves L and E alone does `Arc.RunArcLinear` state the closed form.
- The delta/SCARA kinematic clip, the UBL path (which resets `raw[l_axis]` to `start_L` each step), the leveling paths, the laser and the `idle()` calls inside the arc loop are left out. The model follows the build without UBL or non-planner leveling.
- Stepper ISR bodies, the Bresenham tracer and Bézier code are left out because only their declarations are in the header. The AVR `speed_lookuptable_*` branch of `calc_timer_interval` is left out because its tables are not visible.
- The frequency ladder `HAL_frequency_limit` and `STEPPER_TIMER_RATE` come from platform headers and are parameters.
- The serial port's atomic head/tail helpers, memory barriers, UART register bits, busy-waits, `begin`/`end`, `flushTX`, `readBytes`, the emergency parser and `printFloat` (floating point) are left out. The interrupt and the main loop are one sequence of operations.
- The XON/XOFF character codes come from an unseen header and are the `Serial.Wire` constructors `XonChar` and `XoffChar`.
- Serial.PrintNumber requires a base of at least 2. The source divides by zero for base 0 and never ends for base 1, and its callers map those bases elsewhere.
- The TMCStepper library is not part of this model. A register write is the value written, a read returns the last value written, and the current and microstep conversions of the library are not modelled. Steps per millimetre enter the hybrid threshold as a parameter.
- Tmc.TmcThrs: its contract states only that a zero threshold or step count gives no value. The value is exact, the largest quotient, under the no-overflow conditions of `Tmc.TmcThrsExact`; the wrapped 32-bit product is computed but not characterised.
- TMC `init`, `config`, the report and print functions, `enable_stallguard`, `test_stall_status` and the debug output are left out. They are register programming and SPI/UART I/O.
- The monitor's timer, which decides `need_update_error_counters`, is left out; that flag is the `update` parameter. The `kill()` reached with `STOP_ON_ERROR` is a `killed` result that ends the polling run.
- Temperature.DisableAllHeaters: `laser.extinguish()` and `probe.probing_pause(false)` (MK4duo/src/core/temperature/temperature.cpp:516-524) are left out, because the laser and probe code is not part of this model; the contract therefore promises nothing about the heaters' `paused` state afterwards.
- Temperature PID and sensor reading, the filament-width float ratio, power-consumption accounting and the watchdog are left out as floating point and hardware.
- Servo `initISR`/`finISR` only write timer registers and are left out.
- servo.h is not part of this model. `SERVO_INDEX` is taken as `timer * SERVOS_PER_TIMER + channel`, and `usToTicks(REFRESH_INTERVAL)` is a configuration constant.
- The servo timer ticks that pass while the handler runs are not modelled.
- mfrc522.h is not part of this model. The header byte, the command codes, the key type and the sector range are the fields of `Rfid.Consts`.
- Rfid.Communicate: a reply is taken to carry the data bytes its length byte announces (`Rfid.WellFormed`), as every reply `Rfid.Receive` produces does; the transfers do not re-check this, so a reply given directly with another payload length stores its own payload; and since mfrc522.h is not part of this model, the callers' truth test of its result assumes that `STATUS_OK` is nonzero and `STATUS_ERROR` is zero.
- The RFID transfers require `Rfid.ValidLayout`: at most 8 sectors, and no wrap of the `uint8_t` sector counter. With more sectors the `int8_t` packet offset wraps negative, which the model does not follow.
- The size of `RfidPacket` is not visible, so the spool record is required to hold every sector visited (`Spool.Fits`).
- The `while (!available())` waits of the RFID exchange are a `None` result, standing for the firmware waiting for ever. The delays around the transfers are left out.
- `print_info`'s text formatting and the `tools` and LCD calls are left out. Only the length split it prints is modelled, with the length unbounded rather than truncated to `unsigned int`.
- All LCD and menu code is left out as UI rendering. Only the menu's `uint8_t` hybrid-threshold range is used, in the corresponding finding.
- `communication.h`/`.cpp` are serial output plumbing and are left out.
- The thin G-code glue (`m24_m25.h`, `m78.h`, `m104.h`, `m140.h`, `m218.h`, `m240.h`) is left out. It only forwards to the parser, to host actions and to functions already modelled.
- `core_mechanics.h`, `platform.h` and `point_t.h` are declarations, includes and a NaN-setting constructor, and are left out.

## Findings

| source | as written | input that shows it | evidently intended | confidence | as-written member | corrected member |
|---|---|---|---|---|---|---|
| MK4duo/src/core/temperature/temperature.cpp:583-587 | `bed_maxtemp_all` loops with `LOOP_HOTEND` over `beds[]` | one hotend, beds with maximum 100 and 150: the result is 90, not 140 (with more hotends than beds it reads past the array) | loop over the beds with `LOOP_BED`, as `bed_mintemp_all` does | not executed | Temperature.BedMaxtempAllAsWritten, Temperature.BedMaxtempAllCounterexample | Temperature.BedMaxtempAll |
| MK4duo/src/core/nozzle/nozzle.cpp:122-123 | the Y coordinate is held when the X bit of `cleans` is clear | X selected and Y not: line 123 does not fire, so the unselected Y is wiped between the corners; Y selected and X not: the selected Y is held at the current coordinate | test the Y bit for Y | not executed | Nozzle.EndsAsWritten, Nozzle.EndsYMaskAsWritten | Nozzle.CleanEnds |
| MK4duo/src/core/nozzle/nozzle.cpp:228-248 | `P` divides the span by `zigs`, which is 0 for `objects` 0 or 128; the backward loop still runs once, at `i` = 0 | `objects` = 0 and corners (0, 0), (10, 5): `P` = 10 / 0 = +∞ and the move goes to X = 0 + 0 · ∞, which is NaN | no wipe move, or the start corner, when there are no zigs | not executed | Nozzle.PeriodAsWritten, Nozzle.AlongAsWritten, Nozzle.ZeroZigsQueueNaN | Nozzle.MakeZig, Nozzle.ZeroZigsStayAtStart, Nozzle.ZigPointInBox |
| MK4duo/src/core/nozzle/nozzle.cpp:228-234 | the forward zigzag loop counts in `int8_t` up to the `uint8_t` `zigs` | `objects` = 64 gives `zigs` = 128; `i` wraps from 127 to −128 and the loop never ends | a loop index as wide as `zigs` | not executed | Nozzle.ForwardAsWrittenHangs, Nozzle.ZigzagHangsAt64 | Nozzle.Zigzag |
| MK4duo/src/core/nozzle/nozzle.cpp:288-291 | the go-back passes `initial[Z_AXIS]` as the feedrate of an XY move | start height 5 mm: the go-back runs at 5 mm/s and the nozzle stays at the clean height | return to the initial X, Y and Z | not executed | Nozzle.CircleAsWrittenStaysLow | Nozzle.Circle |
| MK4duo/src/feature/tmc/tmc.h:104-106 | `tmc_thrs` divides by `256 * thrs * spmm`, and the menu lets `hybrid_thrs` be 0 (MK4duo/src/lcd/menu/menu_tmc.cpp:207) | `hybrid_thrs` = 0 in the menu, then `refresh_hybrid_thrs`: a division by zero | a zero threshold switches hybrid mode off (`TPWMTHRS` = 0) | not executed | Tmc.MenuZeroDividesByZero, Tmc.SetPwmThrsAsWritten | Tmc.SetPwmThrs, Tmc.MenuRefreshDefined |
| MK4duo/src/feature/tmc/tmc.cpp:1150-1155 | the TMC2208 short-to-ground mask is `0b11110`, bits 1–4, although the comment says bits 2..5 | `DRV_STATUS` = 2 (overtemperature only) reads as a short; `DRV_STATUS` = 32 (short on bit 5) is missed | the mask `0b111100` of bits 2–5 | not executed | Tmc.S2gMask2208Wrong | Tmc.S2gMask2208Bits, Tmc.Decode |
| MK4duo/src/feature/mfrc522/mfrc522.cpp:240-244 | the receive loop stores `returnDataLength - 2` bytes into the 20-byte `MFRC522Data` with no bound | a reply with length byte 23 writes `MFRC522Data[20]` | stop at the buffer's size | not executed | Rfid.StoredCountAsWritten, Rfid.LongReplyOverrunsBuffer | Rfid.Store, Rfid.StoreContents |
