/** Homing of the Cartesian mechanics (core/mechanics/cartesian_mechanics.cpp
    and .h): `home()` with its choice and order of axes, the never-lower Z
    raise, `homeaxis` with its fast / retreat / slow-bump script and the
    squaring of two- and three-endstop axes, `set_axis_is_at_home` and the
    home positions, the reachability box, quick homing of X and Y, and the
    two Z homing variants that need X and Y homed first.

    The planner and the endstops are represented by the trace of what the
    code hands them: planner lines of blocking moves, homing segments with
    the motor locks in force and whether `validate_homing_move` follows,
    the probe measurement and the two error messages. `probe_pt` is an
    input (the measured height and where it leaves the nozzle); probe
    deployment, BLTouch, sensorless homing, leveling and the dual-X-carriage
    paths are not part of this model. */
module Homing {
  import opened Base
  import opened Motion
  import opened Stepper

  /** `slop`, the tolerance of the reachability box. */
  const Slop: real := 0.0001

  /** `data.base_pos[axis]`. */
  datatype Limits = Limits(min: real, max: real)

  /** What the code reads about one axis: `get_homedir`, `CAN_HOME` (an
      endstop pin on the homing side), the travel limits, `home_bump_mm`,
      `homing_feedrate_mm_s`, `get_homing_bump_feedrate` and the
      `MANUAL_*_HOME_POS` option. */
  datatype AxisConfig = AxisConfig(dir: int, canHome: bool, base: Limits, bumpMm: real,
                                   homingFeedrate: real, bumpFeedrate: real,
                                   manualHomePos: Option<real>)

  /** `X_TWO_ENDSTOPS`, `Y_TWO_ENDSTOPS`, `Z_TWO_ENDSTOPS`,
      `Z_THREE_ENDSTOPS` and the `*_endstop_adj` corrections. */
  datatype Squaring = Squaring(xTwo: bool, yTwo: bool, zTwo: bool, zThree: bool,
                               x2Adj: real, y2Adj: real, z2Adj: real, z3Adj: real)

  /** `probe.data.offset`, `MIN/MAX_PROBE_X/Y`, `Z_PROBE_BETWEEN_HEIGHT`
      and `Z_PROBE_SPEED_FAST` already in mm/s. */
  datatype Probe = Probe(offsetX: real, offsetY: real, offsetZ: real,
                         minX: real, maxX: real, minY: real, maxY: real,
                         betweenHeight: real, speedFast: real)

  /** The build options and settings `home()` depends on. The quick-home
      feedrate (a square root of the axis ratio) is an input. */
  datatype HomeConfig = HomeConfig(
    x: AxisConfig, y: AxisConfig, z: AxisConfig,
    bedCenterAt00: bool, squaring: Squaring,
    homingZWithProbe: bool, hasBedProbe: bool, probe: Probe,
    minZHeightForHoming: real,
    quickHome: bool, quickHomeFeedrate: real, homeYBeforeX: bool,
    zSafeHoming: bool, zSafeX: real, zSafeY: real,
    doubleZHoming: bool, doubleZX: real, doubleZY: real,
    simulation: bool, moves: MoveConfig)

  function AxisCfg(c: HomeConfig, a: Axis): AxisConfig
  {
    match a
    case X => c.x
    case Y => c.y
    case Z => c.z
  }

  /** What the code hands to the planner, the endstops and the display. */
  datatype Out = Travel(line: Line)
               | HomingMove(axis: Axis, distance: real, feedrate: real, validated: bool, locked: set<Motor>)
               | ValidateQuick
               | ProbeAt(x: real, y: real)
               | ErrZHoming
               | ZProbeOut

  /** `current_position`, the homed flags, the stepper's lock flags, the
      Z soft endstop maximum and the trace so far. */
  datatype Mech = Mech(pos: Pos, homed: set<Axis>, flags: StepperFlags, softMaxZ: real, out: seq<Out>)

  function Emit(s: Mech, o: Out): (r: Mech)
    ensures r.out == s.out + [o]
    ensures r.pos == s.pos && r.homed == s.homed && r.flags == s.flags && r.softMaxZ == s.softMaxZ
  {
    s.(out := s.out + [o])
  }

  function Travels(ls: seq<Line>): (r: seq<Out>)
    ensures |r| == |ls| && forall i :: 0 <= i < |ls| ==> r[i] == Travel(ls[i])
  {
    seq(|ls|, i requires 0 <= i < |ls| => Travel(ls[i]))
  }

  /** A blocking move: its lines go to the planner and the position is the
      one it leaves. */
  function Blocking(s: Mech, m: Motion): (r: Mech)
    ensures r.pos == m.pos && r.out == s.out + Travels(m.lines)
    ensures r.homed == s.homed && r.flags == s.flags && r.softMaxZ == s.softMaxZ
  {
    s.(pos := m.pos, out := s.out + Travels(m.lines))
  }

  // ---------------------------------------------------------------------
  // Axis selection

  /** The axes `home(homeX, homeY, homeZ)` homes: all three when no flag or
      every flag is given, otherwise exactly the flagged ones. It is never
      empty. */
  function AxesToHome(homeX: bool, homeY: bool, homeZ: bool): (r: set<Axis>)
    ensures r != {}
    ensures (X in r <==> (homeX || (!homeY && !homeZ)))
    ensures (Y in r <==> (homeY || (!homeX && !homeZ)))
    ensures (Z in r <==> (homeZ || (!homeX && !homeY)))
  {
    var homeAll := (!homeX && !homeY && !homeZ) || (homeX && homeY && homeZ);
    (if homeAll || homeX then {X} else {}) + (if homeAll || homeY then {Y} else {})
      + (if homeAll || homeZ then {Z} else {})
  }

  // ---------------------------------------------------------------------
  // Home positions and reachability

  /** `axis_home_pos`: the manual position if configured; with
      `BED_CENTER_AT_0_0` half the travel towards the homing side for X
      and Y (Z ignores that option); otherwise the limit on the homing
      side. */
  function AxisHomePos(c: HomeConfig, a: Axis): (r: real)
    ensures AxisCfg(c, a).manualHomePos.Some? ==> r == AxisCfg(c, a).manualHomePos.value
    ensures AxisCfg(c, a).manualHomePos.None? && (a == Z || !c.bedCenterAt00) ==>
              r == (if AxisCfg(c, a).dir < 0 then AxisCfg(c, a).base.min else AxisCfg(c, a).base.max)
    // with the bed centred on 0,0, X and Y home half their travel out, on the homing side
    ensures AxisCfg(c, a).manualHomePos.None? && a != Z && c.bedCenterAt00 ==>
              2.0 * r == (AxisCfg(c, a).base.max - AxisCfg(c, a).base.min) * (AxisCfg(c, a).dir as real)
  {
    var ac := AxisCfg(c, a);
    match ac.manualHomePos
    case Some(v) => v
    case None =>
      if a != Z && c.bedCenterAt00 then (ac.base.max - ac.base.min) * (ac.dir as real) * 0.5
      else if ac.dir < 0 then ac.base.min else ac.base.max
  }

  /** The position `set_axis_is_at_home` gives an axis: its home position,
      lowered by the probe's Z offset when Z is homed with the probe. */
  function HomedPosition(c: HomeConfig, a: Axis): real
  {
    AxisHomePos(c, a) - (if a == Z && c.homingZWithProbe then c.probe.offsetZ else 0.0)
  }

  /** `set_axis_is_at_home`: the axis is marked homed and placed at its
      homed position; nothing else changes. */
  function SetAxisIsAtHome(c: HomeConfig, s: Mech, a: Axis): (r: Mech)
    ensures r.homed == s.homed + {a}
    ensures Get(r.pos, a) == HomedPosition(c, a)
    ensures forall b :: b != a ==> Get(r.pos, b) == Get(s.pos, b)
    ensures r.pos.e == s.pos.e && r.out == s.out && r.flags == s.flags && r.softMaxZ == s.softMaxZ
  {
    s.(homed := s.homed + {a}, pos := Put(s.pos, a, HomedPosition(c, a)))
  }

  predicate Within(v: real, lo: real, hi: real)
  {
    lo <= v <= hi
  }

  /** `position_is_reachable` (no dual X carriage): inside the X and Y
      travel limits widened by the slop. */
  predicate PositionIsReachable(c: HomeConfig, rx: real, ry: real): (r: bool)
    // every point of the travel box is reachable
    ensures c.x.base.min <= rx <= c.x.base.max && c.y.base.min <= ry <= c.y.base.max ==> r
  {
    Within(ry, c.y.base.min - Slop, c.y.base.max + Slop) && Within(rx, c.x.base.min - Slop, c.x.base.max + Slop)
  }

  /** `position_is_reachable_by_probe`: the nozzle position that puts the
      probe at (rx, ry) is reachable and (rx, ry) is inside the probe box
      widened by the slop. */
  predicate PositionIsReachableByProbe(c: HomeConfig, rx: real, ry: real): (r: bool)
    // the nozzle must be able to reach the matching position
    ensures r ==> PositionIsReachable(c, rx - c.probe.offsetX, ry - c.probe.offsetY)
    // a point of the probe box whose nozzle position is in the travel box can be probed
    ensures (&& c.probe.minX <= rx <= c.probe.maxX && c.probe.minY <= ry <= c.probe.maxY
             && c.x.base.min <= rx - c.probe.offsetX <= c.x.base.max
             && c.y.base.min <= ry - c.probe.offsetY <= c.y.base.max) ==> r
  {
    PositionIsReachable(c, rx - c.probe.offsetX, ry - c.probe.offsetY)
      && Within(rx, c.probe.minX - Slop, c.probe.maxX + Slop)
      && Within(ry, c.probe.minY - Slop, c.probe.maxY + Slop)
  }

  /** The reachable box is the travel box grown by the slop on every side:
      every point of the travel box is reachable and no point farther than
      the slop outside it is. */
  lemma ReachableBox(c: HomeConfig, rx: real, ry: real)
    ensures c.x.base.min <= rx <= c.x.base.max && c.y.base.min <= ry <= c.y.base.max ==>
              PositionIsReachable(c, rx, ry)
    ensures PositionIsReachable(c, rx, ry) ==>
              c.x.base.min - rx <= Slop && rx - c.x.base.max <= Slop &&
              c.y.base.min - ry <= Slop && ry - c.y.base.max <= Slop
  {
  }

  /** With the home positions at the travel limits (no manual position,
      no bed-centre origin), the X/Y home point is reachable. */
  lemma HomePointReachable(c: HomeConfig)
    requires c.x.base.min <= c.x.base.max && c.y.base.min <= c.y.base.max
    requires c.x.manualHomePos.None? && c.y.manualHomePos.None? && !c.bedCenterAt00
    ensures PositionIsReachable(c, AxisHomePos(c, X), AxisHomePos(c, Y))
  {
    ReachableBox(c, AxisHomePos(c, X), AxisHomePos(c, Y));
  }

  /** Probing at a point is only possible when the nozzle can be brought
      to the matching position and the point lies in the probe box. */
  lemma ReachableByProbeNeedsNozzle(c: HomeConfig, rx: real, ry: real)
    ensures PositionIsReachableByProbe(c, rx, ry) <==>
              (PositionIsReachable(c, rx - c.probe.offsetX, ry - c.probe.offsetY) &&
               c.probe.minX - Slop <= rx <= c.probe.maxX + Slop &&
               c.probe.minY - Slop <= ry <= c.probe.maxY + Slop)
  {
  }

  // ---------------------------------------------------------------------
  // Homing moves

  /** `is_home_dir`: a homing move runs towards the endstop when its
      distance has the sign of the homing direction (0 counts as not
      positive). */
  predicate IsHomeDir(dir: int, distance: real)
  {
    (dir > 0) == (distance > 0.0)
  }

  /** `do_homing_move(axis, distance, fr)`: one segment of `distance` on
      the axis at `fr` (0 means the axis homing feedrate), with the motor
      locks in force; the endstop hit is validated only when the move runs
      towards the endstop. The current position is not changed. */
  function DoHomingMove(c: HomeConfig, s: Mech, a: Axis, distance: real, fr: real): (r: Mech)
    ensures r.out == s.out + [HomingMove(a, distance,
                                         if fr != 0.0 then fr else AxisCfg(c, a).homingFeedrate,
                                         IsHomeDir(AxisCfg(c, a).dir, distance), s.flags.locked)]
    ensures r.pos == s.pos && r.homed == s.homed && r.flags == s.flags && r.softMaxZ == s.softMaxZ
  {
    var f := if fr != 0.0 then fr else AxisCfg(c, a).homingFeedrate;
    Emit(s, HomingMove(a, distance, f, IsHomeDir(AxisCfg(c, a).dir, distance), s.flags.locked))
  }

  /** The signed bump of `homeaxis`: the homing direction times the bump
      distance, at least `Z_PROBE_BETWEEN_HEIGHT` when Z homes with the
      probe. */
  function Bump(c: HomeConfig, a: Axis): real
  {
    (AxisCfg(c, a).dir as real) *
      (if c.homingZWithProbe && a == Z then MaxR(c.probe.betweenHeight, c.z.bumpMm) else AxisCfg(c, a).bumpMm)
  }

  /** Fast move towards the endstop over one and a half times the travel. */
  function FastDistance(c: HomeConfig, a: Axis): real
  {
    1.5 * AxisCfg(c, a).base.max * (AxisCfg(c, a).dir as real)
  }

  /** The fast move, and when the bump is not 0 the retreat by the bump and
      the slow approach over twice the bump, of `homeaxis`; every move is
      validated exactly when it runs towards the endstop. */
  function HomingScript(c: HomeConfig, s: Mech, a: Axis): (r: Mech)
    ensures r.pos == s.pos && r.homed == s.homed && r.flags == s.flags && r.softMaxZ == s.softMaxZ
    ensures |r.out| == |s.out| + (if Bump(c, a) != 0.0 then 3 else 1) && r.out[..|s.out|] == s.out
    ensures var dir := AxisCfg(c, a).dir;
            r.out[|s.out|].HomingMove? && r.out[|s.out|].distance == FastDistance(c, a) &&
            r.out[|s.out|].validated == IsHomeDir(dir, FastDistance(c, a))
    ensures var dir := AxisCfg(c, a).dir;
            Bump(c, a) != 0.0 ==>
              r.out[|s.out| + 1].HomingMove? && r.out[|s.out| + 1].distance == -Bump(c, a) &&
              r.out[|s.out| + 1].validated == IsHomeDir(dir, -Bump(c, a)) &&
              r.out[|s.out| + 2].HomingMove? && r.out[|s.out| + 2].distance == 2.0 * Bump(c, a) &&
              r.out[|s.out| + 2].validated == IsHomeDir(dir, 2.0 * Bump(c, a))
    // the fast move runs at the homing feedrate
    ensures r.out[|s.out|].HomingMove? && r.out[|s.out|].feedrate == AxisCfg(c, a).homingFeedrate
    // the retreat runs at Z_PROBE_SPEED_FAST when Z homes with the probe, else at the homing feedrate
    ensures Bump(c, a) != 0.0 ==>
              r.out[|s.out| + 1].HomingMove? &&
              r.out[|s.out| + 1].feedrate ==
                (if c.homingZWithProbe && a == Z && c.probe.speedFast != 0.0 then c.probe.speedFast
                 else AxisCfg(c, a).homingFeedrate)
    // the slow approach runs at the bump feedrate (a 0 there falls back to the homing feedrate)
    ensures Bump(c, a) != 0.0 ==>
              r.out[|s.out| + 2].HomingMove? &&
              r.out[|s.out| + 2].feedrate ==
                (if AxisCfg(c, a).bumpFeedrate != 0.0 then AxisCfg(c, a).bumpFeedrate else AxisCfg(c, a).homingFeedrate)
  {
    var ac := AxisCfg(c, a);
    var s1 := DoHomingMove(c, s, a, FastDistance(c, a), 0.0);
    var bump := Bump(c, a);
    if bump != 0.0 then
      var s2 := DoHomingMove(c, s1, a, -bump, if c.homingZWithProbe && a == Z then c.probe.speedFast else 0.0);
      var s3 := DoHomingMove(c, s2, a, 2.0 * bump, ac.bumpFeedrate);
      assert s3.out[|s.out|] == s1.out[|s.out|];
      assert s3.out[|s.out| + 1] == s2.out[|s.out| + 1];
      s3
    else s1
  }

  /** For a homing direction of +1 or -1, a positive travel limit and a
      positive bump, the script is three moves: the first and last run
      towards the endstop and are validated, the retreat is not. */
  lemma HomingScriptMoves(c: HomeConfig, s: Mech, a: Axis)
    requires AxisCfg(c, a).dir == 1 || AxisCfg(c, a).dir == -1
    requires AxisCfg(c, a).base.max > 0.0
    requires (if c.homingZWithProbe && a == Z then MaxR(c.probe.betweenHeight, c.z.bumpMm) else AxisCfg(c, a).bumpMm) > 0.0
    ensures var r := HomingScript(c, s, a);
            |r.out| == |s.out| + 3 &&
            r.out[|s.out|].validated && !r.out[|s.out| + 1].validated && r.out[|s.out| + 2].validated
  {
    var d := AxisCfg(c, a).dir as real;
    var m := if c.homingZWithProbe && a == Z then MaxR(c.probe.betweenHeight, c.z.bumpMm) else AxisCfg(c, a).bumpMm;
    var f := FastDistance(c, a);
    assert Bump(c, a) == d * m;
    if d == 1.0 {
      assert d * m == m && f > 0.0;
    } else {
      assert d * m == -m && f < 0.0;
    }
  }

  // ---------------------------------------------------------------------
  // Squaring of multi-endstop axes

  /** The correction for an axis with two endstops: with a nonzero
      correction, lock the motor that reached its endstop first, move the
      other one by the correction away from the endstops, unlock both. */
  function TwoEndstopAdjust(c: HomeConfig, s: Mech, a: Axis, raw: real, m1: Motor, m2: Motor): (r: Mech)
    ensures raw == 0.0 ==> r == s
    ensures raw != 0.0 ==>
              var posDir := AxisCfg(c, a).dir > 0;
              var lockM := if (if posDir then raw > 0.0 else raw < 0.0) then m1 else m2;
              |r.out| == |s.out| + 1 && r.out[..|s.out|] == s.out &&
              r.out[|s.out|].HomingMove? && r.out[|s.out|].axis == a &&
              AbsR(r.out[|s.out|].distance) == AbsR(raw) &&
              lockM in r.out[|s.out|].locked
    ensures raw != 0.0 && (AxisCfg(c, a).dir == 1 || AxisCfg(c, a).dir == -1) ==> !r.out[|s.out|].validated
    ensures raw != 0.0 ==> m1 !in r.flags.locked && m2 !in r.flags.locked
    ensures forall m :: m != m1 && m != m2 ==> (m in r.flags.locked <==> m in s.flags.locked)
    ensures r.pos == s.pos && r.homed == s.homed && r.softMaxZ == s.softMaxZ
    ensures r.flags.separateMultiAxis == s.flags.separateMultiAxis
  {
    var adj := AbsR(raw);
    if adj != 0.0 then
      var posDir := AxisCfg(c, a).dir > 0;
      var lockM := if (if posDir then raw > 0.0 else raw < 0.0) then m1 else m2;
      var s1 := s.(flags := SetLock(s.flags, lockM, true));
      var s2 := DoHomingMove(c, s1, a, if posDir then -adj else adj, 0.0);
      s2.(flags := SetLock(SetLock(s2.flags, m1, false), m2, false))
    else s
  }

  /** One motor with its endstop correction. */
  datatype Adj = Adj(motor: Motor, adj: real)

  /** Swap entries `i` and `i + 1` when they are out of order. */
  function CompareSwap(a: seq<Adj>, i: nat): (r: seq<Adj>)
    requires i + 1 < |a|
    ensures |r| == |a| && multiset(r) == multiset(a)
    ensures r[i].adj <= r[i + 1].adj
    ensures {r[i], r[i + 1]} == {a[i], a[i + 1]}
    ensures forall j :: 0 <= j < |a| && j != i && j != i + 1 ==> r[j] == a[j]
  {
    if a[i + 1].adj < a[i].adj then
      var r := a[i := a[i + 1]][i + 1 := a[i]];
      assert multiset(r) == multiset(a) by {
        assert r == a[..i] + [a[i + 1], a[i]] + a[i + 2..];
        assert a == a[..i] + [a[i], a[i + 1]] + a[i + 2..];
      }
      r
    else a
  }

  /** The three compare-swaps of `homeaxis` on (Z, 0), (Z2, z2 adj),
      (Z3, z3 adj): the result is ordered by correction and is a
      permutation of the three pairs. */
  function SortTripleZ(z2Adj: real, z3Adj: real): (r: seq<Adj>)
    ensures |r| == 3
    ensures r[0].adj <= r[1].adj <= r[2].adj
    ensures multiset(r) == multiset([Adj(ZMotor, 0.0), Adj(Z2Motor, z2Adj), Adj(Z3Motor, z3Adj)])
  {
    var a0 := [Adj(ZMotor, 0.0), Adj(Z2Motor, z2Adj), Adj(Z3Motor, z3Adj)];
    var a1 := CompareSwap(a0, 0);
    var a2 := CompareSwap(a1, 1);
    var a3 := CompareSwap(a2, 0);
    assert a3[1] == a2[0] || a3[1] == a2[1];
    a3
  }

  /** Lock one more motor, then make a homing move on Z. */
  function LockAndMove(c: HomeConfig, s: Mech, m: Motor, distance: real): (r: Mech)
    ensures |r.out| == |s.out| + 1 && r.out[..|s.out|] == s.out
    ensures r.out[|s.out|].HomingMove? && r.out[|s.out|].distance == distance
    ensures r.out[|s.out|].locked == s.flags.locked + {m} && r.flags.locked == s.flags.locked + {m}
    ensures r.pos == s.pos && r.homed == s.homed && r.softMaxZ == s.softMaxZ
    ensures r.flags.separateMultiAxis == s.flags.separateMultiAxis
  {
    var s0 := s.(flags := SetLock(s.flags, m, true));
    DoHomingMove(c, s0, Z, distance, 0.0)
  }

  /** The two correction moves of the triple-Z alignment from the sorted
      corrections `t`: homing positive, lock the motor with the smallest
      correction and move up to the middle one, then lock that one too and
      move up to the largest; homing negative, the same from the largest
      down. */
  function TripleZMoves(c: HomeConfig, s: Mech, t: seq<Adj>): (r: Mech)
    requires |t| == 3 && t[0].adj <= t[1].adj <= t[2].adj
    ensures |r.out| == |s.out| + 2 && r.out[..|s.out|] == s.out
    ensures r.out[|s.out|].HomingMove? && r.out[|s.out| + 1].HomingMove?
    ensures c.z.dir > 0 ==> r.out[|s.out|].distance >= 0.0 && r.out[|s.out| + 1].distance >= 0.0
    ensures c.z.dir <= 0 ==> r.out[|s.out|].distance <= 0.0 && r.out[|s.out| + 1].distance <= 0.0
    ensures c.z.dir > 0 ==> t[0].motor in r.out[|s.out|].locked && {t[0].motor, t[1].motor} <= r.out[|s.out| + 1].locked
    ensures c.z.dir <= 0 ==> t[2].motor in r.out[|s.out|].locked && {t[2].motor, t[1].motor} <= r.out[|s.out| + 1].locked
    ensures r.pos == s.pos && r.homed == s.homed && r.softMaxZ == s.softMaxZ
    ensures r.flags.separateMultiAxis == s.flags.separateMultiAxis
  {
    var first := if c.z.dir > 0 then t[0] else t[2];
    var d1 := if c.z.dir > 0 then t[1].adj - t[0].adj else t[1].adj - t[2].adj;
    var d2 := if c.z.dir > 0 then t[2].adj - t[1].adj else t[0].adj - t[1].adj;
    var s1 := LockAndMove(c, s, first.motor, d1);
    var s2 := LockAndMove(c, s1, t[1].motor, d2);
    assert s2.out[..|s.out|] == s.out by {
      assert s2.out[..|s1.out|] == s1.out;
    }
    assert s2.out[|s.out|] == s1.out[|s.out|];
    s2
  }

  /** The triple-Z alignment: the two correction moves on the sorted
      corrections, after which the three Z motors are unlocked. */
  function TripleZAlign(c: HomeConfig, s: Mech): (r: Mech)
    ensures var t := SortTripleZ(c.squaring.z2Adj, c.squaring.z3Adj);
            r.out == TripleZMoves(c, s, t).out
    ensures |r.out| == |s.out| + 2 && r.out[..|s.out|] == s.out
    ensures ZMotor !in r.flags.locked && Z2Motor !in r.flags.locked && Z3Motor !in r.flags.locked
    ensures r.pos == s.pos && r.homed == s.homed && r.softMaxZ == s.softMaxZ
    ensures r.flags.separateMultiAxis == s.flags.separateMultiAxis
  {
    var t := SortTripleZ(c.squaring.z2Adj, c.squaring.z3Adj);
    var s2 := TripleZMoves(c, s, t);
    s2.(flags := SetLock(SetLock(SetLock(s2.flags, ZMotor, false), Z2Motor, false), Z3Motor, false))
  }

  /** Whether the squaring block of `homeaxis` is compiled in: it is
      guarded by the two-endstop options only. */
  predicate SquaringBlock(q: Squaring)
  {
    q.xTwo || q.yTwo || q.zTwo
  }

  /** Whether `homeaxis` switches the axis to separate multi-axis mode. */
  predicate SeparatesAxis(q: Squaring, a: Axis)
  {
    match a
    case X => q.xTwo
    case Y => q.yTwo
    case Z => q.zTwo || q.zThree
  }

  /** The squaring block for one axis, ending with separate multi-axis mode
      off. */
  function Square(c: HomeConfig, s: Mech, a: Axis): (r: Mech)
    requires SquaringBlock(c.squaring)
    ensures !r.flags.separateMultiAxis
    ensures r.pos == s.pos && r.homed == s.homed && r.softMaxZ == s.softMaxZ
    ensures |r.out| >= |s.out| && r.out[..|s.out|] == s.out
  {
    var q := c.squaring;
    var s1 :=
      match a
      case X => if q.xTwo then TwoEndstopAdjust(c, s, X, q.x2Adj, XMotor, X2Motor) else s
      case Y => if q.yTwo then TwoEndstopAdjust(c, s, Y, q.y2Adj, YMotor, Y2Motor) else s
      case Z =>
        if q.zThree then TripleZAlign(c, s)
        else if q.zTwo then TwoEndstopAdjust(c, s, Z, q.z2Adj, ZMotor, Z2Motor)
        else s;
    s1.(flags := SetSeparateMultiAxis(s1.flags, false))
  }

  /** The moves of `homeaxis` for an axis that can home: separate
      multi-axis mode for a squared axis, the homing script, and the
      squaring block when it is compiled in. The position is not changed. */
  function HomeAxisMoves(c: HomeConfig, s: Mech, a: Axis): (r: Mech)
    ensures r.pos == s.pos && r.homed == s.homed && r.softMaxZ == s.softMaxZ
    ensures |r.out| > |s.out| && r.out[..|s.out|] == s.out
    ensures SquaringBlock(c.squaring) ==> !r.flags.separateMultiAxis
  {
    var s1 := if SeparatesAxis(c.squaring, a) then s.(flags := SetSeparateMultiAxis(s.flags, true)) else s;
    var s2 := HomingScript(c, s1, a);
    var s3 := if SquaringBlock(c.squaring) then Square(c, s2, a) else s2;
    assert s3.out[..|s.out|] == s.out by {
      assert s2.out[..|s.out|] == s.out;
      assert s3.out[..|s2.out|] == s2.out;
    }
    s3
  }

  /** `homeaxis(axis)`: nothing when the axis cannot home; otherwise its
      moves, after which the axis is homed and at its homed position. */
  function HomeAxis(c: HomeConfig, s: Mech, a: Axis): (r: Mech)
    ensures !AxisCfg(c, a).canHome ==> r == s
    ensures AxisCfg(c, a).canHome ==>
              r.homed == s.homed + {a} &&
              Get(r.pos, a) == HomedPosition(c, a) &&
              (forall b :: b != a ==> Get(r.pos, b) == Get(s.pos, b)) &&
              |r.out| > |s.out| && r.out[..|s.out|] == s.out
    ensures r.pos.e == s.pos.e && r.softMaxZ == s.softMaxZ
    ensures AxisCfg(c, a).canHome && SquaringBlock(c.squaring) ==> !r.flags.separateMultiAxis
  {
    if !AxisCfg(c, a).canHome then s
    else SetAxisIsAtHome(c, HomeAxisMoves(c, s, a), a)
  }

  // ---------------------------------------------------------------------
  // Quick homing and the Z homing variants

  /** `quick_home_xy`: pretend X = Y = 0, travel diagonally one and a half
      times the travel towards both endstops, validate, and set X = Y = 0
      again. It does not mark X or Y homed. */
  function QuickHomeXY(c: HomeConfig, s: Mech): (r: Mech)
    ensures r.pos == s.pos.(x := 0.0, y := 0.0)
    ensures r.out == s.out + [Travel(Line(Pos(1.5 * c.x.base.max * (c.x.dir as real), 1.5 * c.y.base.max * (c.y.dir as real),
                                              s.pos.z, s.pos.e),
                                          XYFeedrate(c.quickHomeFeedrate, c.moves))),
                              ValidateQuick]
    ensures r.homed == s.homed && r.flags == s.flags && r.softMaxZ == s.softMaxZ
  {
    var s0 := s.(pos := s.pos.(x := 0.0, y := 0.0));
    var m := DoBlockingMoveToXY(s0.pos, 1.5 * c.x.base.max * (c.x.dir as real),
                                1.5 * c.y.base.max * (c.y.dir as real), c.quickHomeFeedrate, c.moves);
    var s1 := Emit(Blocking(s0, m), ValidateQuick);
    s1.(pos := s1.pos.(x := 0.0, y := 0.0))
  }

  /** `home_z_safely`: refused with an error when X or Y is not homed;
      otherwise travel to the safe point (corrected for the probe offset
      when Z homes with the probe) and home Z there, or report the point
      unreachable. */
  function HomeZSafely(c: HomeConfig, s: Mech): (r: Mech)
    ensures X !in s.homed || Y !in s.homed ==> r == Emit(s, ErrZHoming)
    ensures var dx := c.zSafeX - (if c.homingZWithProbe then c.probe.offsetX else 0.0);
            var dy := c.zSafeY - (if c.homingZWithProbe then c.probe.offsetY else 0.0);
            X in s.homed && Y in s.homed ==>
              (PositionIsReachable(c, dx, dy) && c.z.canHome ==>
                 r.homed == s.homed + {Z} && r.pos == Pos(dx, dy, HomedPosition(c, Z), s.pos.e)) &&
              (!PositionIsReachable(c, dx, dy) ==> r == Emit(s, ZProbeOut))
    ensures s.homed <= r.homed && r.softMaxZ == s.softMaxZ
  {
    if X !in s.homed || Y !in s.homed then Emit(s, ErrZHoming)
    else
      var dx := c.zSafeX - (if c.homingZWithProbe then c.probe.offsetX else 0.0);
      var dy := c.zSafeY - (if c.homingZWithProbe then c.probe.offsetY else 0.0);
      if PositionIsReachable(c, dx, dy) then HomeZAt(c, s, dx, dy)
      else Emit(s, ZProbeOut)
  }

  /** Travel to (dx, dy) at the current height, then home Z there. */
  function HomeZAt(c: HomeConfig, s: Mech, dx: real, dy: real): (r: Mech)
    ensures c.z.canHome ==> r.homed == s.homed + {Z} && r.pos == Pos(dx, dy, HomedPosition(c, Z), s.pos.e)
    ensures s.homed <= r.homed && r.softMaxZ == s.softMaxZ
  {
    var s1 := Blocking(s, DoBlockingMoveToXY(s.pos, dx, dy, 0.0, c.moves));
    assert s1.pos == Pos(dx, dy, s.pos.z, s.pos.e);
    HomeAxis(c, s1, Z)
  }

  /** `double_home_z`: refused with an error when X or Y is not homed;
      otherwise, at the double-homing point (corrected for the probe offset
      when there is a bed probe) probe the bed, which measures
      `probed.height` and leaves the nozzle at `probed.after`, shift Z and
      its soft maximum by the new zero and move to the minimum homing
      height over where the probe left the nozzle; or report the point
      unreachable. */
  function DoubleHomeZ(c: HomeConfig, s: Mech, probed: Probed): (r: Mech)
    ensures X !in s.homed || Y !in s.homed ==> r == Emit(s, ErrZHoming)
    ensures var dx := c.doubleZX - (if c.hasBedProbe then c.probe.offsetX else 0.0);
            var dy := c.doubleZY - (if c.hasBedProbe then c.probe.offsetY else 0.0);
            var newZero := probed.height - 2.0 * c.probe.offsetZ;
            X in s.homed && Y in s.homed ==>
              (PositionIsReachable(c, dx, dy) ==>
                 r.pos == probed.after.(z := c.minZHeightForHoming) &&
                 r.softMaxZ == c.z.base.max - newZero &&
                 |r.out| > |s.out| && r.out[|s.out|] == ProbeAt(dx, dy) &&
                 // the Z move runs at the XY where probing left the nozzle
                 (forall i :: |s.out| < i < |r.out| ==>
                    r.out[i].Travel? && r.out[i].line.target.x == probed.after.x &&
                    r.out[i].line.target.y == probed.after.y)) &&
              (!PositionIsReachable(c, dx, dy) ==> r == Emit(s, ZProbeOut))
    ensures r.homed == s.homed && r.flags == s.flags
  {
    if X !in s.homed || Y !in s.homed then Emit(s, ErrZHoming)
    else
      var dx := c.doubleZX - (if c.hasBedProbe then c.probe.offsetX else 0.0);
      var dy := c.doubleZY - (if c.hasBedProbe then c.probe.offsetY else 0.0);
      if PositionIsReachable(c, dx, dy) then
        var newZero := probed.height - 2.0 * c.probe.offsetZ;
        var s1 := Emit(s, ProbeAt(dx, dy)).(pos := probed.after);
        var s2 := s1.(pos := s1.pos.(z := s1.pos.z - newZero), softMaxZ := c.z.base.max - newZero);
        Blocking(s2, DoBlockingMoveToZ(s2.pos, c.minZHeightForHoming, 0.0, c.moves))
      else Emit(s, ZProbeOut)
  }

  // ---------------------------------------------------------------------
  // home()

  /** The steps of `home()` in the order the code takes them. */
  datatype HomeStep = HomeAxisStep(axis: Axis) | RaiseZ | QuickHomeStep | ZSafelyStep | DoubleZStep | ComeBackStep

  /** What `probe_pt` hands back to double Z homing: the measured height,
      and the position it leaves `current_position` at (the probe travels
      over the point and raises after probing, in code not part of this
      model). */
  datatype Probed = Probed(height: real, after: Pos)

  /** What `home()` reads from the command besides the axis flags:
      `R` (the raise height if given), `B` (come back) and what `probe_pt`
      does during double Z homing. */
  datatype HomeArgs = HomeArgs(doX: bool, doY: bool, raise: Option<real>, stored: Pos, probed: Probed)

  /** Z first when homing away from the bed. */
  function PlanZFirst(c: HomeConfig, doZ: bool): seq<HomeStep>
  {
    if c.z.dir > 0 && doZ then [HomeAxisStep(Z)] else []
  }

  /** The raise, quick homing, and X and Y in the configured order. */
  function PlanXY(c: HomeConfig, doX: bool, doY: bool): seq<HomeStep>
  {
    [RaiseZ]
      + (if c.quickHome && doX && doY then [QuickHomeStep] else [])
      + (if c.homeYBeforeX && (doY || doX) then [HomeAxisStep(Y)] else [])
      + (if doX then [HomeAxisStep(X)] else [])
      + (if !c.homeYBeforeX && doY then [HomeAxisStep(Y)] else [])
  }

  /** Z last when homing towards the bed (safely if configured), or the
      double Z homing when homing away from it. */
  function PlanZLast(c: HomeConfig, doZ: bool): seq<HomeStep>
  {
    if c.z.dir < 0 then
      (if doZ then [if c.zSafeHoming then ZSafelyStep else HomeAxisStep(Z)] else [])
    else if c.doubleZHoming && doZ then [DoubleZStep]
    else []
  }

  function HomePlan(c: HomeConfig, doX: bool, doY: bool, doZ: bool, comeBack: bool): (r: seq<HomeStep>)
    // the raise before X and Y is always considered
    ensures RaiseZ in r
    ensures QuickHomeStep in r <==> (c.quickHome && doX && doY)
    // Z is touched only when it is to be homed
    ensures forall st :: st in r && TouchesZ(st) ==> doZ
  {
    PlanZFirst(c, doZ) + PlanXY(c, doX, doY) + PlanZLast(c, doZ) + (if comeBack then [ComeBackStep] else [])
  }

  predicate TouchesZ(st: HomeStep)
  {
    st == HomeAxisStep(Z) || st == ZSafelyStep || st == DoubleZStep
  }

  /** Homing away from the bed, Z is homed first and nowhere else. */
  lemma HomePlanZFirst(c: HomeConfig, doX: bool, doY: bool, doZ: bool, comeBack: bool)
    requires c.z.dir > 0 && doZ
    ensures var p := HomePlan(c, doX, doY, doZ, comeBack);
            p[0] == HomeAxisStep(Z) && forall i :: 1 <= i < |p| ==> p[i] != HomeAxisStep(Z)
  {
    var rest := PlanXY(c, doX, doY) + PlanZLast(c, doZ) + (if comeBack then [ComeBackStep] else []);
    assert HomePlan(c, doX, doY, doZ, comeBack) == [HomeAxisStep(Z)] + rest;
    assert HomeAxisStep(Z) !in rest;
  }

  /** In `a + b`, nothing satisfying `Q` follows something satisfying `P`
      when `a` holds no `P` and `b` holds no `Q`. */
  lemma NoneAfter(a: seq<HomeStep>, b: seq<HomeStep>, P: HomeStep -> bool, Q: HomeStep -> bool)
    requires forall i :: 0 <= i < |a| ==> !P(a[i])
    requires forall i :: 0 <= i < |b| ==> !Q(b[i])
    ensures forall i, j :: 0 <= i < j < |a + b| && P((a + b)[i]) ==> !Q((a + b)[j])
  {
    forall i, j | 0 <= i < j < |a + b| && P((a + b)[i])
      ensures !Q((a + b)[j])
    {
      assert (a + b)[j] == b[j - |a|];
    }
  }

  predicate IsXOrY(st: HomeStep)
  {
    st == HomeAxisStep(X) || st == HomeAxisStep(Y)
  }

  /** Homing towards the bed, every Z step comes after every X and Y step. */
  lemma HomePlanZLast(c: HomeConfig, doX: bool, doY: bool, doZ: bool, comeBack: bool)
    requires c.z.dir < 0
    ensures var p := HomePlan(c, doX, doY, doZ, comeBack);
            forall i, j :: 0 <= i < j < |p| && TouchesZ(p[i]) ==> !IsXOrY(p[j])
  {
    var xy := PlanXY(c, doX, doY);
    var tail := PlanZLast(c, doZ) + (if comeBack then [ComeBackStep] else []);
    var p := HomePlan(c, doX, doY, doZ, comeBack);
    assert p == xy + tail by {
      assert PlanZFirst(c, doZ) == [];
    }
    XYStepsHaveNoZ(c, doX, doY);
    LastStepsHaveNoXY(c, doZ, comeBack);
    NoneAfter(xy, tail, TouchesZ, IsXOrY);
  }

  lemma LastStepsHaveNoXY(c: HomeConfig, doZ: bool, comeBack: bool)
    ensures var t := PlanZLast(c, doZ) + (if comeBack then [ComeBackStep] else []);
            forall i :: 0 <= i < |t| ==> !IsXOrY(t[i])
  {
    var t := PlanZLast(c, doZ) + (if comeBack then [ComeBackStep] else []);
    assert HomeAxisStep(X) !in t && HomeAxisStep(Y) !in t;
    assert forall i :: 0 <= i < |t| ==> t[i] in t;
  }

  lemma XYStepsHaveNoZ(c: HomeConfig, doX: bool, doY: bool)
    ensures forall i :: 0 <= i < |PlanXY(c, doX, doY)| ==> !TouchesZ(PlanXY(c, doX, doY)[i])
  {
    var xy := PlanXY(c, doX, doY);
    assert HomeAxisStep(Z) !in xy && ZSafelyStep !in xy && DoubleZStep !in xy;
    assert forall i :: 0 <= i < |xy| ==> xy[i] in xy;
  }

  lemma Assoc4(a: seq<HomeStep>, b: seq<HomeStep>, c: seq<HomeStep>, d: seq<HomeStep>, e: seq<HomeStep>)
    ensures ((a + (b + c)) + d) + e == (a + b) + ((c + d) + e)
  {
    assert a + (b + c) == (a + b) + c;
    assert ((a + b) + c) + d == (a + b) + (c + d);
    assert ((a + b) + (c + d)) + e == (a + b) + ((c + d) + e);
  }

  predicate IsX(st: HomeStep) { st == HomeAxisStep(X) }
  predicate IsY(st: HomeStep) { st == HomeAxisStep(Y) }

  /** With `HOME_Y_BEFORE_X`, no Y step follows an X step. */
  lemma HomePlanYBeforeX(c: HomeConfig, doX: bool, doY: bool, doZ: bool, comeBack: bool)
    requires c.homeYBeforeX
    ensures var p := HomePlan(c, doX, doY, doZ, comeBack);
            forall i, j :: 0 <= i < j < |p| && IsX(p[i]) ==> !IsY(p[j])
  {
    var zf := PlanZFirst(c, doZ);
    var h0 := [RaiseZ] + (if c.quickHome && doX && doY then [QuickHomeStep] else [])
              + (if doY || doX then [HomeAxisStep(Y)] else []);
    var xs: seq<HomeStep> := if doX then [HomeAxisStep(X)] else [];
    var zl := PlanZLast(c, doZ);
    var back: seq<HomeStep> := if comeBack then [ComeBackStep] else [];
    var head := zf + h0;
    var tail := (xs + zl) + back;
    assert PlanXY(c, doX, doY) == h0 + xs by {
      assert (h0 + xs) + [] == h0 + xs;
    }
    assert HomePlan(c, doX, doY, doZ, comeBack) == head + tail by {
      Assoc4(zf, h0, xs, zl, back);
    }
    assert HomeAxisStep(X) !in head && HomeAxisStep(Y) !in tail;
    assert forall i :: 0 <= i < |head| ==> head[i] in head;
    assert forall i :: 0 <= i < |tail| ==> tail[i] in tail;
    NoneAfter(head, tail, IsX, IsY);
  }

  /** X is homed exactly when asked for; Y when asked for or, with
      `HOME_Y_BEFORE_X`, when X is; the come-back move is last. */
  lemma HomePlanSteps(c: HomeConfig, doX: bool, doY: bool, doZ: bool, comeBack: bool)
    ensures var p := HomePlan(c, doX, doY, doZ, comeBack);
            (HomeAxisStep(X) in p <==> doX) &&
            (HomeAxisStep(Y) in p <==> (doY || (c.homeYBeforeX && doX))) &&
            (ComeBackStep in p <==> comeBack) &&
            (comeBack ==> p[|p| - 1] == ComeBackStep)
  {
    var zf := PlanZFirst(c, doZ);
    var xy := PlanXY(c, doX, doY);
    var zl := PlanZLast(c, doZ);
    var back: seq<HomeStep> := if comeBack then [ComeBackStep] else [];
    assert HomePlan(c, doX, doY, doZ, comeBack) == zf + xy + zl + back;
    assert HomeAxisStep(X) in xy <==> doX;
    assert HomeAxisStep(Y) in xy <==> (doY || (c.homeYBeforeX && doX));
    assert ComeBackStep !in zf && ComeBackStep !in xy && ComeBackStep !in zl;
    assert HomeAxisStep(X) !in zf && HomeAxisStep(X) !in zl && HomeAxisStep(X) !in back;
    assert HomeAxisStep(Y) !in zf && HomeAxisStep(Y) !in zl && HomeAxisStep(Y) !in back;
  }

  /** The height the pre-homing raise aims for: 0 (no raise) when Z is not
      homed, else `R` if given, else `MIN_Z_HEIGHT_FOR_HOMING`. */
  function ZHomingHeight(c: HomeConfig, s: Mech, raise: Option<real>): real
  {
    if Z !in s.homed then 0.0 else if raise.Some? then raise.value else c.minZHeightForHoming
  }

  /** The pre-homing raise: only when the height is nonzero, X or Y will be
      homed and the height is above the nozzle; it never lowers Z and moves
      only Z. */
  function RaiseBeforeHoming(c: HomeConfig, s: Mech, h: HomeArgs): (r: Mech)
    ensures var zh := ZHomingHeight(c, s, h.raise);
            var moves := zh != 0.0 && (h.doX || h.doY) && zh > s.pos.z;
            (moves ==> r.pos == s.pos.(z := zh) && |r.out| > |s.out|) &&
            (!moves ==> r == s)
    ensures r.pos.z >= s.pos.z && r.pos.x == s.pos.x && r.pos.y == s.pos.y
    ensures r.homed == s.homed && r.flags == s.flags && r.softMaxZ == s.softMaxZ
  {
    var zh := ZHomingHeight(c, s, h.raise);
    if zh != 0.0 && (h.doX || h.doY) && zh > s.pos.z then
      Blocking(s, DoBlockingMoveToZ(s.pos, zh, 0.0, c.moves))
    else s
  }

  /** The come-back move of `B`: one planner line to the stored position at
      the X homing feedrate. */
  function ComeBack(c: HomeConfig, s: Mech, stored: Pos): (r: Mech)
    ensures r.pos == stored && r.out == s.out + [Travel(Line(stored, c.x.homingFeedrate))]
    ensures r.homed == s.homed && r.flags == s.flags && r.softMaxZ == s.softMaxZ
  {
    Emit(s, Travel(Line(stored, c.x.homingFeedrate))).(pos := stored)
  }

  function ExecStep(c: HomeConfig, s: Mech, st: HomeStep, h: HomeArgs): (r: Mech)
    ensures s.homed <= r.homed
    ensures st.HomeAxisStep? && AxisCfg(c, st.axis).canHome ==> st.axis in r.homed
  {
    match st
    case HomeAxisStep(a) => HomeAxis(c, s, a)
    case RaiseZ => RaiseBeforeHoming(c, s, h)
    case QuickHomeStep => QuickHomeXY(c, s)
    case ZSafelyStep => HomeZSafely(c, s)
    case DoubleZStep => DoubleHomeZ(c, s, h.probed)
    case ComeBackStep => ComeBack(c, s, h.stored)
  }

  /** The steps executed in order (folded from the last one). Homing only
      ever adds axes to the homed set. */
  function Exec(c: HomeConfig, s: Mech, steps: seq<HomeStep>, h: HomeArgs): (r: Mech)
    ensures s.homed <= r.homed
    decreases |steps|
  {
    if |steps| == 0 then s
    else ExecStep(c, Exec(c, s, steps[..|steps| - 1], h), steps[|steps| - 1], h)
  }

  /** Every axis that has a homing step and can home is homed afterwards. */
  lemma {:induction false} ExecHomes(c: HomeConfig, s: Mech, steps: seq<HomeStep>, h: HomeArgs, a: Axis)
    requires HomeAxisStep(a) in steps && AxisCfg(c, a).canHome
    ensures a in Exec(c, s, steps, h).homed
    decreases |steps|
  {
    var init := steps[..|steps| - 1];
    if steps[|steps| - 1] != HomeAxisStep(a) {
      assert steps == init + [steps[|steps| - 1]];
      assert HomeAxisStep(a) in init;
      ExecHomes(c, s, init, h, a);
    }
  }

  lemma ExecSnoc(c: HomeConfig, s: Mech, steps: seq<HomeStep>, st: HomeStep, h: HomeArgs)
    ensures Exec(c, s, steps + [st], h) == ExecStep(c, Exec(c, s, steps, h), st, h)
  {
    assert (steps + [st])[..|steps|] == steps;
  }

  /** `home(homeX, homeY, homeZ)` with `B` given or not: in simulation every
      axis is set at home without motion; otherwise the plan is executed
      with the position at entry stored for the come-back move. */
  function Home(c: HomeConfig, s: Mech, homeX: bool, homeY: bool, homeZ: bool,
                comeBack: bool, raise: Option<real>, probed: Probed): (r: Mech)
    ensures c.simulation ==> r.homed == s.homed + {X, Y, Z} && r.out == s.out
    ensures s.homed <= r.homed
  {
    if c.simulation then
      SetAxisIsAtHome(c, SetAxisIsAtHome(c, SetAxisIsAtHome(c, s, X), Y), Z)
    else
      var axes := AxesToHome(homeX, homeY, homeZ);
      var h := HomeArgs(X in axes, Y in axes, raise, s.pos, probed);
      Exec(c, s, HomePlan(c, X in axes, Y in axes, Z in axes, comeBack), h)
  }

  /** With `B` the nozzle ends where it was before homing. */
  lemma HomeComesBack(c: HomeConfig, s: Mech, homeX: bool, homeY: bool, homeZ: bool,
                      raise: Option<real>, probed: Probed)
    requires !c.simulation
    ensures Home(c, s, homeX, homeY, homeZ, true, raise, probed).pos == s.pos
  {
    var axes := AxesToHome(homeX, homeY, homeZ);
    var h := HomeArgs(X in axes, Y in axes, raise, s.pos, probed);
    var pre := PlanZFirst(c, Z in axes) + PlanXY(c, X in axes, Y in axes) + PlanZLast(c, Z in axes);
    assert HomePlan(c, X in axes, Y in axes, Z in axes, true) == pre + [ComeBackStep];
    ExecSnoc(c, s, pre, ComeBackStep, h);
  }

  /** Homing all axes towards the bed homes X, Y and Z: X and Y are homed
      before the Z step, so safe Z homing passes its guard. */
  lemma HomeAllHomesEverything(c: HomeConfig, s: Mech, comeBack: bool, raise: Option<real>, probed: Probed)
    requires !c.simulation && c.z.dir < 0
    requires c.x.canHome && c.y.canHome && c.z.canHome
    requires c.zSafeHoming ==>
               PositionIsReachable(c, c.zSafeX - (if c.homingZWithProbe then c.probe.offsetX else 0.0),
                                      c.zSafeY - (if c.homingZWithProbe then c.probe.offsetY else 0.0))
    ensures {X, Y, Z} <= Home(c, s, false, false, false, comeBack, raise, probed).homed
  {
    var h := HomeArgs(true, true, raise, s.pos, probed);
    var pre := PlanZFirst(c, true) + PlanXY(c, true, true);
    var zstep := if c.zSafeHoming then ZSafelyStep else HomeAxisStep(Z);
    var back: seq<HomeStep> := if comeBack then [ComeBackStep] else [];
    assert AxesToHome(false, false, false) == {X, Y, Z};
    assert HomePlan(c, true, true, true, comeBack) == (pre + [zstep]) + back;
    assert HomeAxisStep(X) in pre && HomeAxisStep(Y) in pre;
    ExecHomes(c, s, pre, h, X);
    ExecHomes(c, s, pre, h, Y);
    ExecSnoc(c, s, pre, zstep, h);
    var before := Exec(c, s, pre, h);
    ZStepHomesZ(c, before, h);
    var mid := Exec(c, s, pre + [zstep], h);
    assert {X, Y, Z} <= mid.homed;
    if comeBack {
      ExecSnoc(c, s, pre + [zstep], ComeBackStep, h);
    } else {
      assert (pre + [zstep]) + back == pre + [zstep];
    }
  }

  /** The Z step of homing towards the bed homes Z once X and Y are homed
      and, for safe homing, the safe point is reachable. */
  lemma ZStepHomesZ(c: HomeConfig, s: Mech, h: HomeArgs)
    requires X in s.homed && Y in s.homed && c.z.canHome
    requires c.zSafeHoming ==>
               PositionIsReachable(c, c.zSafeX - (if c.homingZWithProbe then c.probe.offsetX else 0.0),
                                      c.zSafeY - (if c.homingZWithProbe then c.probe.offsetY else 0.0))
    ensures Z in ExecStep(c, s, if c.zSafeHoming then ZSafelyStep else HomeAxisStep(Z), h).homed
  {
    if c.zSafeHoming {
      assert ExecStep(c, s, ZSafelyStep, h) == HomeZSafely(c, s);
    }
  }

  /** `G28 Z`-style homing of Z alone with safe Z homing while X is not
      homed only reports the error: no motion, Z not homed. */
  lemma HomeZAloneRefused(c: HomeConfig, s: Mech, raise: Option<real>, probed: Probed)
    requires !c.simulation && c.z.dir < 0 && c.zSafeHoming
    requires X !in s.homed
    ensures Home(c, s, false, false, true, false, raise, probed) == Emit(s, ErrZHoming)
  {
    var h := HomeArgs(false, false, raise, s.pos, probed);
    assert AxesToHome(false, false, true) == {Z};
    assert PlanXY(c, false, false) == [RaiseZ];
    assert HomePlan(c, false, false, true, false) == [RaiseZ, ZSafelyStep];
    var s1 := ExecStep(c, s, RaiseZ, h);
    assert s1 == s;
    assert Exec(c, s, [RaiseZ], h) == s1 by {
      assert [RaiseZ][..0] == [];
    }
    assert Exec(c, s, [RaiseZ, ZSafelyStep], h) == ExecStep(c, s1, ZSafelyStep, h) by {
      assert [RaiseZ, ZSafelyStep][..1] == [RaiseZ];
    }
  }

  // ---------------------------------------------------------------------
  // Dual X carriage helpers

  /** The dual-X-carriage modes in declaration order; the enum itself is
      not part of this model. */
  datatype DualXMode = FullControl | AutoPark | Duplication | ScaledDuplication

  function ModeIndex(m: DualXMode): nat
  {
    match m
    case FullControl => 0
    case AutoPark => 1
    case Duplication => 2
    case ScaledDuplication => 3
  }

  /** `dxc_is_duplicating`: the mode is at least the duplication mode,
      i.e. one of the two duplicating modes. */
  function DxcIsDuplicating(m: DualXMode): (r: bool)
    ensures r <==> (m == Duplication || m == ScaledDuplication)
  {
    ModeIndex(m) >= ModeIndex(Duplication)
  }

  /** `x_home_dir(extruder)`: the first carriage homes by `X_HOME_DIR`,
      every other extruder by `X2_HOME_DIR`. */
  function XHomeDir(extruder: nat, xHomeDir: int, x2HomeDir: int): (r: int)
    ensures extruder == 0 ==> r == xHomeDir
    ensures extruder != 0 ==> r == x2HomeDir
  {
    if extruder != 0 then x2HomeDir else xHomeDir
  }
}
