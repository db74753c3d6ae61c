/** The park and clean move generators of core/nozzle/nozzle.cpp. Each one
    is a list of blocking-move requests (`Motion.Request`) built from the
    current position, the configured points and the counts; running the
    list with `Motion.Run` gives the planner lines and the final position.
    A request with feedrate 0 takes the default feedrate, as the calls
    without a feedrate argument do. */
module Nozzle {
  import opened Base
  import opened Motion

  /** `point_t`: a point in X, Y and Z. */
  datatype Point = Point(x: real, y: real, z: real)

  /** `NOZZLE_PARK_XY_FEEDRATE`, `NOZZLE_PARK_Z_FEEDRATE` and `Z_MAX_BED`. */
  datatype ParkConfig = ParkConfig(xyFeedrate: real, zFeedrate: real, zMaxBed: real)

  /** The clean options: `NOZZLE_CLEAN_START_POINT`, `NOZZLE_CLEAN_END_POINT`,
      `NOZZLE_CLEAN_CIRCLE_MIDDLE`, `NOZZLE_CLEAN_CIRCLE_FN`,
      `NOZZLE_CLEAN_NO_Z`, `NOZZLE_CLEAN_GOBACK`, and `SIN`, `COS` and
      `RADIANS(360)` as given functions and constant. */
  datatype CleanConfig = CleanConfig(startPoint: Point, endPoint: Point, circleMiddle: Point,
                                     circleFn: u8, noZ: bool, goBack: bool,
                                     sin: real -> real, cos: real -> real, fullTurn: real)

  // ---------------------------------------------------------------- park

  /** The Z target of `park(z_action, park_p)`: action 1 forces the park
      height, action 2 raises by it but not above the bed maximum, any
      other action raises to it and never lowers. */
  function ParkZ(cur: Pos, zAction: u8, park: Point, cfg: ParkConfig): (z: real)
    ensures zAction == 1 ==> z == park.z
    ensures zAction == 2 ==> z <= cfg.zMaxBed && (z == cur.z + park.z || z == cfg.zMaxBed)
    ensures zAction == 2 && cur.z + park.z <= cfg.zMaxBed ==> z == cur.z + park.z
    ensures zAction != 1 && zAction != 2 ==> z >= cur.z && z >= park.z && (z == cur.z || z == park.z)
  {
    match zAction
    case 1 => park.z
    case 2 => MinR(cur.z + park.z, cfg.zMaxBed)
    case _ => MaxR(park.z, cur.z)
  }

  /** `park`: the Z move first, then the XY move to the park point. */
  function Park(cur: Pos, zAction: u8, park: Point, cfg: ParkConfig): (r: seq<Request>)
    ensures |r| == 2 && r[0].ToZ? && r[1].ToXY?
    ensures r[0].fr == cfg.zFeedrate && r[1].fr == cfg.xyFeedrate
  {
    [ToZ(ParkZ(cur, zAction, park, cfg), cfg.zFeedrate), ToXY(park.x, park.y, cfg.xyFeedrate)]
  }

  /** After parking the nozzle is over the park point at the chosen height,
      with the extruder untouched. */
  lemma ParkEndsAtParkPoint(cur: Pos, zAction: u8, park: Point, cfg: ParkConfig, mc: MoveConfig)
    ensures Run(cur, Park(cur, zAction, park, cfg), mc).pos
            == Pos(park.x, park.y, ParkZ(cur, zAction, park, cfg), cur.e)
  {
    var r := Park(cur, zAction, park, cfg);
    RunCons(cur, r, mc);
    var p := Perform(cur, r[0], mc).pos;
    assert p.z == ParkZ(cur, zAction, park, cfg);
    RunKeepsZ(p, r[1..], mc);
    RunEndsAtLast(p, r[1..], mc);
  }

  // ------------------------------------------------------ shared pieces

  /** The move to the start point that opens every pattern (XY only under
      `NOZZLE_CLEAN_NO_Z`). */
  function Approach(start: Point, cfg: CleanConfig): Request
  {
    if cfg.noZ then ToXY(start.x, start.y, 0.0) else ToXYZ(start.x, start.y, start.z, 0.0)
  }

  /** The return to the saved coordinates under `NOZZLE_CLEAN_GOBACK`. */
  function GoBack(cur: Pos, cfg: CleanConfig): seq<Request>
  {
    if cfg.goBack then [ToXYZ(cur.x, cur.y, cur.z, 0.0)] else []
  }

  predicate AllXY(reqs: seq<Request>)
  {
    forall k :: 0 <= k < |reqs| ==> reqs[k].ToXY?
  }

  /** `n` round trips `a`, `b`. */
  function Alternate(a: Request, b: Request, n: nat): (r: seq<Request>)
    ensures |r| == 2 * n
    ensures forall k :: 0 <= k < |r| ==> r[k] == (if k % 2 == 0 then a else b)
  {
    if n == 0 then [] else [a, b] + Alternate(a, b, n - 1)
  }

  /** `n` copies of a pass, one after another. */
  function Repeat(pass: seq<Request>, n: nat): (r: seq<Request>)
    ensures n == 0 ==> r == []
    ensures n > 0 ==> |r| >= |pass| && r[|r| - |pass|..] == pass
    ensures forall k :: 0 <= k < |r| ==> r[k] in pass
  {
    if n == 0 then []
    else
      var prev := Repeat(pass, n - 1);
      assert forall k :: |prev| <= k < |prev| + |pass| ==> (prev + pass)[k] == pass[k - |prev|];
      prev + pass
  }

  lemma RepeatAllXY(pass: seq<Request>, n: nat)
    requires AllXY(pass)
    ensures AllXY(Repeat(pass, n))
  {
    var r := Repeat(pass, n);
    forall k | 0 <= k < |r| ensures r[k].ToXY? {
      assert r[k] in pass;
    }
  }

  /** A pattern that opens with the approach, continues with XY moves and
      ends with an XY move to the start ends over the start point, at the
      start height unless Z is left out of the approach. */
  lemma EndsOverStart(cur: Pos, start: Point, body: seq<Request>, cfg: CleanConfig, mc: MoveConfig)
    requires AllXY(body)
    requires body == [] || body[|body| - 1] == ToXY(start.x, start.y, 0.0)
    ensures var p := Run(cur, [Approach(start, cfg)] + body, mc).pos;
            p.x == start.x && p.y == start.y && (!cfg.noZ ==> p.z == start.z)
  {
    var all := [Approach(start, cfg)] + body;
    RunCons(cur, all, mc);
    assert all[1..] == body;
    var p0 := Perform(cur, Approach(start, cfg), mc).pos;
    RunKeepsZ(p0, body, mc);
    RunEndsAtLast(cur, all, mc);
  }

  /** A pattern followed by the go-back move ends where the nozzle was. */
  lemma GoBackReturns(cur: Pos, pattern: seq<Request>, cfg: CleanConfig, mc: MoveConfig)
    requires cfg.goBack
    ensures Run(cur, pattern + GoBack(cur, cfg), mc).pos == cur
  {
    var all := pattern + GoBack(cur, cfg);
    RunEndsAtLast(cur, all, mc);
  }

  // ------------------------------------------------------------- stroke

  /** `stroke`: to the start, then `strokes >> 1` trips to the end and back,
      then the go-back move. */
  function Stroke(cur: Pos, start: Point, end: Point, strokes: u8, cfg: CleanConfig): (r: seq<Request>)
    ensures |r| == 1 + 2 * (strokes / 2) + |GoBack(cur, cfg)|
    ensures r[0] == Approach(start, cfg)
    ensures forall k :: 1 <= k <= 2 * (strokes / 2) ==>
              r[k] == (if k % 2 == 1 then ToXY(end.x, end.y, 0.0) else ToXY(start.x, start.y, 0.0))
    ensures r[1 + 2 * (strokes / 2)..] == GoBack(cur, cfg)
  {
    var trips := Alternate(ToXY(end.x, end.y, 0.0), ToXY(start.x, start.y, 0.0), strokes / 2);
    assert forall k :: 1 <= k <= |trips| ==> ([Approach(start, cfg)] + trips + GoBack(cur, cfg))[k] == trips[k - 1];
    [Approach(start, cfg)] + trips + GoBack(cur, cfg)
  }

  /** A stroke wipe without go-back finishes over its start point; with
      go-back it finishes where it began. */
  lemma StrokeEndsAtStart(cur: Pos, start: Point, end: Point, strokes: u8, cfg: CleanConfig, mc: MoveConfig)
    ensures var p := Run(cur, Stroke(cur, start, end, strokes, cfg), mc).pos;
            (!cfg.goBack ==> p.x == start.x && p.y == start.y && (!cfg.noZ ==> p.z == start.z)) &&
            (cfg.goBack ==> p == cur)
  {
    var trips := Alternate(ToXY(end.x, end.y, 0.0), ToXY(start.x, start.y, 0.0), strokes / 2);
    var r := Stroke(cur, start, end, strokes, cfg);
    assert r == [Approach(start, cfg)] + trips + GoBack(cur, cfg);
    if cfg.goBack {
      GoBackReturns(cur, [Approach(start, cfg)] + trips, cfg, mc);
    } else {
      assert r == [Approach(start, cfg)] + trips;
      EndsOverStart(cur, start, trips, cfg, mc);
    }
  }

  // ------------------------------------------------------------- zigzag

  /** The shape of one zigzag wipe: the two corners, the number of zigs
      (`objects << 1` kept in a byte), the direction and the period. */
  datatype Zig = Zig(start: Point, end: Point, zigs: u8, horiz: bool, period: real)

  /** `zigs`: `objects << 1` stored in a `uint8_t`. */
  function Zigs(objects: u8): (z: u8)
    ensures z % 2 == 0
    ensures objects < 128 ==> z == 2 * objects
  {
    Wrap8(2 * objects)
  }

  /** The wipe geometry: horizontal when X spans at least as far as Y, and
      the span of that direction divided into `zigs` periods (no period
      when `zigs` is 0). */
  function MakeZig(start: Point, end: Point, objects: u8): (z: Zig)
    ensures z.horiz <==> AbsR(end.x - start.x) >= AbsR(end.y - start.y)
    ensures z.zigs > 0 ==>
              z.period * z.zigs as real == (if z.horiz then end.x - start.x else end.y - start.y)
  {
    var zigs := Zigs(objects);
    var horiz := AbsR(end.x - start.x) >= AbsR(end.y - start.y);
    var span := if horiz then end.x - start.x else end.y - start.y;
    Zig(start, end, zigs, horiz, if zigs == 0 then 0.0 else span / zigs as real)
  }

  /** `P = span / zigs` as the source computes it in floating point. With
      no zigs (`objects` 0 or 128) the quotient of the nonzero span is
      infinite, `None` here; otherwise it is the model's period. */
  function PeriodAsWritten(start: Point, end: Point, objects: u8): (p: Option<real>)
    ensures p.None? <==> Zigs(objects) == 0
    ensures p.Some? ==> p.value == MakeZig(start, end, objects).period
  {
    var z := MakeZig(start, end, objects);
    if z.zigs == 0 then None else Some(z.period)
  }

  /** The wipe coordinate `start + i * P` as written, `None` when it is not
      a number: with an infinite `P`, `0 * P` is NaN. */
  function AlongAsWritten(a: real, p: Option<real>, i: nat): (r: Option<real>)
    ensures r.None? <==> p.None?
    ensures p.Some? ==> r == Some(Along(a, p.value, i))
  {
    match p
    case None => None
    case Some(period) => Some(Along(a, period, i))
  }

  /** With no zigs the forward loop is skipped but the backward loop still
      runs once, at `i = 0`, and as written that move's wipe coordinate is
      NaN; the corrected pass moves to the start corner instead. */
  lemma ZeroZigsQueueNaN(start: Point, end: Point, objects: u8)
    ensures Zigs(objects) == 0 <==> objects == 0 || objects == 128
    ensures Zigs(objects) == 0 ==>
              |ZigPass(MakeZig(start, end, objects))| == 1 &&
              AlongAsWritten(start.x, PeriodAsWritten(start, end, objects), 0).None? &&
              AlongAsWritten(start.y, PeriodAsWritten(start, end, objects), 0).None?
  {
  }

  /** The move for index `i`: odd indices go to the end side, even ones to
      the start side, and the wipe direction advances by `i` periods. */
  function ZigPoint(z: Zig, i: nat): Request
  {
    var side := if i % 2 == 1 then z.end else z.start;
    if z.horiz then ToXY(Along(z.start.x, z.period, i), side.y, 0.0)
    else ToXY(side.x, Along(z.start.y, z.period, i), 0.0)
  }

  /** `i` periods on from `a`. */
  function Along(a: real, period: real, i: nat): real
  {
    a + i as real * period
  }

  /** The forward loop visits `0 .. zigs-1`, the backward loop `zigs .. 0`. */
  function ZigPass(z: Zig): (r: seq<Request>)
    ensures |r| == 2 * z.zigs + 1
    ensures forall i :: 0 <= i < z.zigs ==> r[i] == ZigPoint(z, i)
    ensures forall k :: z.zigs <= k < |r| ==> r[k] == ZigPoint(z, 2 * z.zigs - k)
    ensures AllXY(r)
  {
    seq(z.zigs, i requires 0 <= i < z.zigs => ZigPoint(z, i)) +
    seq(z.zigs + 1, k requires 0 <= k < z.zigs + 1 => ZigPoint(z, z.zigs - k))
  }

  /** `zigzag`: nothing when the corners share an X or a Y; otherwise to
      the start, `strokes` passes, then the go-back move. */
  function Zigzag(cur: Pos, start: Point, end: Point, strokes: u8, objects: u8, cfg: CleanConfig): (r: seq<Request>)
    ensures r == [] <==> end.x - start.x == 0.0 || end.y - start.y == 0.0
    ensures r != [] ==> r[0] == Approach(start, cfg)
  {
    if end.x - start.x == 0.0 || end.y - start.y == 0.0 then []
    else [Approach(start, cfg)] + Repeat(ZigPass(MakeZig(start, end, objects)), strokes) + GoBack(cur, cfg)
  }

  /** Every pass returns to the start corner, so a zigzag wipe without
      go-back finishes over the start point; with go-back it finishes
      where it began. */
  lemma ZigzagEndsAtStart(cur: Pos, start: Point, end: Point, strokes: u8, objects: u8, cfg: CleanConfig, mc: MoveConfig)
    requires end.x - start.x != 0.0 && end.y - start.y != 0.0
    ensures var p := Run(cur, Zigzag(cur, start, end, strokes, objects, cfg), mc).pos;
            (!cfg.goBack ==> p.x == start.x && p.y == start.y && (!cfg.noZ ==> p.z == start.z)) &&
            (cfg.goBack ==> p == cur)
  {
    var z := MakeZig(start, end, objects);
    var pass := ZigPass(z);
    var passes := Repeat(pass, strokes);
    var r := Zigzag(cur, start, end, strokes, objects, cfg);
    assert r == [Approach(start, cfg)] + passes + GoBack(cur, cfg);
    if cfg.goBack {
      GoBackReturns(cur, [Approach(start, cfg)] + passes, cfg, mc);
    } else {
      assert r == [Approach(start, cfg)] + passes;
      RepeatAllXY(pass, strokes);
      if strokes > 0 {
        assert passes[|passes| - 1] == pass[|pass| - 1];
        assert pass[|pass| - 1] == ZigPoint(z, 0);
      }
      EndsOverStart(cur, start, passes, cfg, mc);
    }
  }

  /** The backward loop begins at the far edge: index `zigs` lies on the
      end corner's coordinate in the wipe direction. */
  lemma ZigzagTurnsAtEnd(start: Point, end: Point, objects: u8)
    requires Zigs(objects) > 0
    ensures var z := MakeZig(start, end, objects);
            var p := ZigPoint(z, z.zigs);
            (z.horiz ==> p.x == end.x) && (!z.horiz ==> p.y == end.y)
  {
  }

  /** The span a wipe covers in its direction. */
  function Span(z: Zig): real
  {
    if z.horiz then z.end.x - z.start.x else z.end.y - z.start.y
  }

  /** `v` lies between `a` and `b`, in either order. */
  predicate Within(v: real, a: real, b: real)
  {
    MinR(a, b) <= v <= MaxR(a, b)
  }

  /** Every move of a pass stays inside the rectangle spanned by the two
      corners. */
  lemma ZigPointInBox(start: Point, end: Point, objects: u8, i: nat)
    requires i <= Zigs(objects)
    ensures var p := ZigPoint(MakeZig(start, end, objects), i);
            Within(p.x, start.x, end.x) && Within(p.y, start.y, end.y)
  {
    var z := MakeZig(start, end, objects);
    assert z.start == start && z.end == end && z.zigs == Zigs(objects);
    if z.zigs > 0 {
      assert z.period * z.zigs as real == Span(z);
      InBox(z, i);
    } else {
      assert ZigPoint(z, i) == ToXY(start.x, start.y, 0.0);
    }
  }

  /** Corrected: with no zigs a pass is the single move to the start
      corner. */
  lemma ZeroZigsStayAtStart(start: Point, end: Point, objects: u8)
    requires Zigs(objects) == 0
    ensures ZigPass(MakeZig(start, end, objects)) == [ToXY(start.x, start.y, 0.0)]
  {
  }

  lemma InBox(z: Zig, i: nat)
    requires 0 < z.zigs && i <= z.zigs && z.period * z.zigs as real == Span(z)
    ensures Within(ZigPoint(z, i).x, z.start.x, z.end.x) && Within(ZigPoint(z, i).y, z.start.y, z.end.y)
  {
    var side := if i % 2 == 1 then z.end else z.start;
    assert Within(side.x, z.start.x, z.end.x) && Within(side.y, z.start.y, z.end.y);
    if z.horiz {
      InBoxAlong(z.start.x, z.end.x, z.period, z.zigs, i);
      assert ZigPoint(z, i) == ToXY(Along(z.start.x, z.period, i), side.y, 0.0);
    } else {
      InBoxAlong(z.start.y, z.end.y, z.period, z.zigs, i);
      assert ZigPoint(z, i) == ToXY(side.x, Along(z.start.y, z.period, i), 0.0);
    }
  }

  lemma InBoxAlong(a: real, b: real, period: real, n: nat, i: nat)
    requires 0 < n && i <= n && period * n as real == b - a
    ensures Within(Along(a, period, i), a, b)
  {
    Advanced(a, b - a, period, n, i);
    assert a + (b - a) == b;
  }

  /** `i` of `n` periods from `a` lies between `a` and `a + span`. */
  lemma Advanced(a: real, span: real, period: real, n: nat, i: nat)
    requires 0 < n && i <= n && period * n as real == span
    ensures Within(a + i as real * period, a, a + span)
  {
    var t := i as real / n as real;
    assert i as real * period == t * span by {
      assert i as real == t * n as real;
    }
    BetweenEnds(a, span, t);
  }

  lemma BetweenEnds(a: real, d: real, t: real)
    requires 0.0 <= t <= 1.0
    ensures Within(a + t * d, a, a + d)
  {
    if d >= 0.0 {
      assert t * d <= d by { assert (1.0 - t) * d >= 0.0; }
    } else {
      assert t * d >= d by { assert (1.0 - t) * (-d) >= 0.0; }
    }
  }

  /** The forward loop as written: its index is an `int8_t`, incremented
      with wrap-around, compared against the byte `zigs`. The result is the
      indices visited, or `None` when the loop is still running after `fuel`
      iterations. */
  function ForwardAsWritten(zigs: u8, i: i8, fuel: nat): (r: Option<seq<int>>)
    decreases fuel
    // a finished loop took fewer iterations than the fuel, each with an index below `zigs`
    ensures r.Some? ==> |r.value| < fuel
    ensures r.Some? ==> forall k :: 0 <= k < |r.value| ==> r.value[k] < zigs
  {
    if fuel == 0 then None
    else if i >= zigs then Some([])
    else
      match ForwardAsWritten(zigs, ToInt8(Wrap8(i + 1)), fuel - 1)
      case None => None
      case Some(rest) => Some([i] + rest)
  }

  /** With 128 or more zigs (an `objects` count of 64 to 127, or 192 and
      up) every `int8_t` index is below `zigs`: the forward loop never
      ends, however long it runs. */
  lemma {:induction false} ForwardAsWrittenHangs(zigs: u8, i: i8, fuel: nat)
    requires zigs >= 128
    ensures ForwardAsWritten(zigs, i, fuel) == None
    decreases fuel
  {
    if fuel > 0 {
      ForwardAsWrittenHangs(zigs, ToInt8(Wrap8(i + 1)), fuel - 1);
    }
  }

  /** `G12 T64` reaches the hang. */
  lemma ZigzagHangsAt64()
    ensures Zigs(64) == 128
    ensures forall fuel: nat {:trigger ForwardAsWritten(128, 0, fuel)} :: ForwardAsWritten(128, 0, fuel) == None
  {
    forall fuel: nat ensures ForwardAsWritten(128, 0, fuel) == None {
      ForwardAsWrittenHangs(128, 0, fuel);
    }
  }

  /** Below 128 zigs the as-written loop visits exactly the indices the
      model's pass uses. */
  lemma {:induction false} ForwardAsWrittenBelow128(zigs: u8, i: i8, fuel: nat)
    requires 0 <= i <= zigs < 128 && fuel > zigs - i
    ensures ForwardAsWritten(zigs, i, fuel) == Some(seq(zigs - i, k => i + k))
    decreases zigs - i
  {
    if i < zigs {
      ForwardAsWrittenBelow128(zigs, i + 1, fuel - 1);
      assert seq(zigs - i, k => i + k) == [i] + seq(zigs - (i + 1), k => i + 1 + k);
    } else {
      assert seq(zigs - i, k => i + k) == [];
    }
  }

  // ------------------------------------------------------------- circle

  /** One turn of the circle: `NOZZLE_CLEAN_CIRCLE_FN` points around the
      middle at the given radius. */
  function CirclePass(middle: Point, radius: real, cfg: CleanConfig): (r: seq<Request>)
    ensures |r| == cfg.circleFn && AllXY(r)
  {
    seq(cfg.circleFn, i requires 0 <= i < cfg.circleFn =>
      ToXY(middle.x + cfg.sin(cfg.fullTurn / cfg.circleFn as real * i as real) * radius,
           middle.y + cfg.cos(cfg.fullTurn / cfg.circleFn as real * i as real) * radius, 0.0))
  }

  /** The part of `circle` shared by the as-written and the corrected
      versions: to the start, `strokes` turns, back to the start. */
  function CircleBody(start: Point, middle: Point, strokes: u8, radius: real, cfg: CleanConfig): (r: seq<Request>)
    ensures |r| >= 2 && r[0] == Approach(start, cfg)
    ensures AllXY(r[1..]) && r[|r| - 1] == ToXY(start.x, start.y, 0.0)
  {
    var turns := Repeat(CirclePass(middle, radius, cfg), strokes);
    RepeatAllXY(CirclePass(middle, radius, cfg), strokes);
    assert ([Approach(start, cfg)] + turns + [ToXY(start.x, start.y, 0.0)])[1..] == turns + [ToXY(start.x, start.y, 0.0)];
    [Approach(start, cfg)] + turns + [ToXY(start.x, start.y, 0.0)]
  }

  /** `circle` as written: the go-back call passes the saved Z height as
      the third argument of `do_blocking_move_to_xy`, its feedrate. */
  function CircleAsWritten(cur: Pos, start: Point, middle: Point, strokes: u8, radius: real, cfg: CleanConfig): (r: seq<Request>)
    // the same requests as the corrected circle except the final go-back
    ensures |r| == |Circle(cur, start, middle, strokes, radius, cfg)|
    ensures !cfg.goBack ==> r == Circle(cur, start, middle, strokes, radius, cfg)
    ensures r != [] ==> r[..|r| - 1] == Circle(cur, start, middle, strokes, radius, cfg)[..|r| - 1]
  {
    if strokes == 0 then []
    else CircleBody(start, middle, strokes, radius, cfg) + (if cfg.goBack then [ToXY(cur.x, cur.y, cur.z)] else [])
  }

  /** The as-written go-back leaves the nozzle at the start height and
      moves at a feedrate equal to the saved height. */
  lemma CircleAsWrittenStaysLow(cur: Pos, start: Point, middle: Point, strokes: u8, radius: real, cfg: CleanConfig, mc: MoveConfig)
    requires strokes > 0 && cfg.goBack && !cfg.noZ
    ensures var r := CircleAsWritten(cur, start, middle, strokes, radius, cfg);
            Run(cur, r, mc).pos == Pos(cur.x, cur.y, start.z, cur.e) &&
            r[|r| - 1].ToXY? && r[|r| - 1].fr == cur.z
  {
    var body := CircleBody(start, middle, strokes, radius, cfg);
    assert CircleAsWritten(cur, start, middle, strokes, radius, cfg) == body + [ToXY(cur.x, cur.y, cur.z)];
    ApproachThenXYKeepsZ(cur, start, body, ToXY(cur.x, cur.y, cur.z), cfg, mc);
  }

  /** After the Z-setting approach, XY-only moves ending with `back` leave
      the nozzle over `back` at the start height. */
  lemma ApproachThenXYKeepsZ(cur: Pos, start: Point, body: seq<Request>, back: Request, cfg: CleanConfig, mc: MoveConfig)
    requires !cfg.noZ && |body| >= 1 && body[0] == Approach(start, cfg) && AllXY(body[1..]) && back.ToXY?
    ensures Run(cur, body + [back], mc).pos == Pos(back.x, back.y, start.z, cur.e)
  {
    var r := body + [back];
    var tail := body[1..] + [back];
    assert r == [body[0]] + tail;
    assert AllXY(tail) by {
      forall k | 0 <= k < |tail| ensures tail[k].ToXY? {
        if k < |body| - 1 {
          assert tail[k] == body[1..][k];
        }
      }
    }
    RunCons(cur, r, mc);
    assert r[1..] == tail;
    RunKeepsZ(Perform(cur, body[0], mc).pos, tail, mc);
    RunEndsAtLast(cur, r, mc);
  }

  /** `circle` with the go-back move restoring X, Y and Z. */
  function Circle(cur: Pos, start: Point, middle: Point, strokes: u8, radius: real, cfg: CleanConfig): (r: seq<Request>)
    ensures strokes == 0 <==> r == []
    ensures r != [] ==> |r| == 2 + strokes * cfg.circleFn + |GoBack(cur, cfg)|
  {
    if strokes == 0 then []
    else
      assert |Repeat(CirclePass(middle, radius, cfg), strokes)| == strokes * cfg.circleFn by {
        RepeatLength(CirclePass(middle, radius, cfg), strokes);
      }
      CircleBody(start, middle, strokes, radius, cfg) + GoBack(cur, cfg)
  }

  lemma {:induction false} RepeatLength(pass: seq<Request>, n: nat)
    ensures |Repeat(pass, n)| == n * |pass|
  {
    if n > 0 {
      RepeatLength(pass, n - 1);
    }
  }

  /** A circle wipe without go-back finishes over its start point; with
      go-back it finishes where it began. */
  lemma CircleEndsAtStart(cur: Pos, start: Point, middle: Point, strokes: u8, radius: real, cfg: CleanConfig, mc: MoveConfig)
    requires strokes > 0
    ensures var p := Run(cur, Circle(cur, start, middle, strokes, radius, cfg), mc).pos;
            (!cfg.goBack ==> p.x == start.x && p.y == start.y && (!cfg.noZ ==> p.z == start.z)) &&
            (cfg.goBack ==> p == cur)
  {
    var body := CircleBody(start, middle, strokes, radius, cfg);
    if cfg.goBack {
      GoBackReturns(cur, body, cfg, mc);
    } else {
      assert Circle(cur, start, middle, strokes, radius, cfg) == body;
      assert body == [Approach(start, cfg)] + body[1..];
      EndsOverStart(cur, start, body[1..], cfg, mc);
    }
  }

  // -------------------------------------------------------------- clean

  /** The start and end corners of a clean pattern. */
  datatype Ends = Ends(start: Point, end: Point)

  /** `TEST(cleans, axis)`: bit 0 is X, bit 1 is Y, bit 2 is Z. */
  function Bit(c: u8, k: nat): bool
  {
    (c / Pow2(k)) % 2 == 1
  }

  /** `cleans & (_BV(X_AXIS) | _BV(Y_AXIS))` is zero exactly when neither
      the X nor the Y bit is set. */
  lemma NoXYBits(c: u8)
    ensures c % 4 == 0 <==> !Bit(c, 0) && !Bit(c, 1)
  {
    assert Pow2(0) == 1 && Pow2(1) == 2;
  }

  /** Copies the current coordinate of Z into both corners when Z is not
      selected. */
  function MaskZ(e: Ends, cleans: u8, cur: Pos): Ends
  {
    if Bit(cleans, 2) then e else Ends(e.start.(z := cur.z), e.end.(z := cur.z))
  }

  /** The corners `clean` computes as written: pattern 2 without X or Y
      refuses (`None`) and otherwise wipes around the middle; the other
      patterns copy the current X and Y into the corners when the X bit is
      clear. The Y copy tests the X bit. */
  function EndsAsWritten(pattern: u8, cleans: u8, cur: Pos, cfg: CleanConfig): (r: Option<Ends>)
    ensures r.None? <==> pattern == 2 && !Bit(cleans, 0) && !Bit(cleans, 1)
    ensures r.Some? && pattern != 2 ==>
              (r.value.start.y == cur.y && r.value.end.y == cur.y) || Bit(cleans, 0)
  {
    NoXYBits(cleans);
    if pattern == 2 then
      if cleans % 4 == 0 then None
      else Some(MaskZ(Ends(cfg.startPoint, cfg.circleMiddle), cleans, cur))
    else
      var s := cfg.startPoint;
      var e := cfg.endPoint;
      var s1 := if !Bit(cleans, 0) then s.(x := cur.x) else s;
      var e1 := if !Bit(cleans, 0) then e.(x := cur.x) else e;
      var s2 := if !Bit(cleans, 0) then s1.(y := cur.y) else s1;
      var e2 := if !Bit(cleans, 0) then e1.(y := cur.y) else e1;
      Some(MaskZ(Ends(s2, e2), cleans, cur))
  }

  /** The corners with the Y copy guarded by the Y bit: every axis that is
      not selected stays at its current coordinate and every selected axis
      uses the configured corners. */
  function CleanEnds(pattern: u8, cleans: u8, cur: Pos, cfg: CleanConfig): (r: Option<Ends>)
    ensures r.None? <==> pattern == 2 && !Bit(cleans, 0) && !Bit(cleans, 1)
    ensures r.Some? && pattern != 2 ==>
              (r.value.start.x == r.value.end.x == cur.x <== !Bit(cleans, 0)) &&
              (r.value.start.x == cfg.startPoint.x && r.value.end.x == cfg.endPoint.x <== Bit(cleans, 0)) &&
              (r.value.start.y == r.value.end.y == cur.y <== !Bit(cleans, 1)) &&
              (r.value.start.y == cfg.startPoint.y && r.value.end.y == cfg.endPoint.y <== Bit(cleans, 1))
    ensures r.Some? && pattern == 2 ==>
              r.value.start.x == cfg.startPoint.x && r.value.start.y == cfg.startPoint.y &&
              r.value.end.x == cfg.circleMiddle.x && r.value.end.y == cfg.circleMiddle.y
    ensures r.Some? ==>
              (r.value.start.z == r.value.end.z == cur.z <== !Bit(cleans, 2)) &&
              (r.value.start.z == cfg.startPoint.z &&
               r.value.end.z == (if pattern == 2 then cfg.circleMiddle.z else cfg.endPoint.z) <== Bit(cleans, 2))
  {
    NoXYBits(cleans);
    if pattern == 2 then
      if cleans % 4 == 0 then None
      else Some(MaskZ(Ends(cfg.startPoint, cfg.circleMiddle), cleans, cur))
    else
      var s := cfg.startPoint;
      var e := cfg.endPoint;
      var s1 := if !Bit(cleans, 0) then s.(x := cur.x) else s;
      var e1 := if !Bit(cleans, 0) then e.(x := cur.x) else e;
      var s2 := if !Bit(cleans, 1) then s1.(y := cur.y) else s1;
      var e2 := if !Bit(cleans, 1) then e1.(y := cur.y) else e1;
      Some(MaskZ(Ends(s2, e2), cleans, cur))
  }

  /** With X selected and Y not (`cleans` = 5, say), the as-written
      corners wipe in Y anyway; with Y selected and X not (`cleans` = 6),
      they hold Y at the current coordinate. */
  lemma EndsYMaskAsWritten(pattern: u8, cleans: u8, cur: Pos, cfg: CleanConfig)
    requires pattern != 2
    ensures Bit(cleans, 0) && !Bit(cleans, 1) ==>
              EndsAsWritten(pattern, cleans, cur, cfg).value.start.y == cfg.startPoint.y &&
              CleanEnds(pattern, cleans, cur, cfg).value.start.y == cur.y
    ensures !Bit(cleans, 0) && Bit(cleans, 1) ==>
              EndsAsWritten(pattern, cleans, cur, cfg).value.start.y == cur.y &&
              CleanEnds(pattern, cleans, cur, cfg).value.start.y == cfg.startPoint.y
  {
  }

  /** What a `clean` call does: the move requests and whether it printed
      the "Clean Circle requires XY" warning. */
  datatype Cleaned = Cleaned(moves: seq<Request>, warned: bool)

  /** The pattern switch of `clean`: 1 zigzag, 2 circle, anything else a
      stroke. */
  function Dispatch(cur: Pos, pattern: u8, strokes: u8, radius: real, objects: u8, ends: Option<Ends>, cfg: CleanConfig): (r: Cleaned)
    ensures ends.None? ==> r == Cleaned([], true)
    ensures ends.Some? ==> !r.warned
  {
    match ends
    case None => Cleaned([], true)
    case Some(e) =>
      Cleaned(match pattern
              case 1 => Zigzag(cur, e.start, e.end, strokes, objects, cfg)
              case 2 => Circle(cur, e.start, e.end, strokes, radius, cfg)
              case _ => Stroke(cur, e.start, e.end, strokes, cfg), false)
  }

  /** `clean` as written. */
  function CleanAsWritten(cur: Pos, pattern: u8, strokes: u8, radius: real, objects: u8, cleans: u8, cfg: CleanConfig): (r: Cleaned)
    ensures r.warned <==> pattern == 2 && !Bit(cleans, 0) && !Bit(cleans, 1)
    ensures r.warned ==> r.moves == []
  {
    Dispatch(cur, pattern, strokes, radius, objects, EndsAsWritten(pattern, cleans, cur, cfg), cfg)
  }

  /** `clean` with the Y mask on the Y bit. A circle without X and Y warns
      and does not move; a zero-stroke circle and a zigzag whose corners
      share a coordinate do not move either; everything else moves. */
  function Clean(cur: Pos, pattern: u8, strokes: u8, radius: real, objects: u8, cleans: u8, cfg: CleanConfig): (r: Cleaned)
    ensures r.warned <==> pattern == 2 && !Bit(cleans, 0) && !Bit(cleans, 1)
    ensures r.warned ==> r.moves == []
    ensures !r.warned && pattern == 2 ==> (r.moves == [] <==> strokes == 0)
    ensures !r.warned && pattern != 1 && pattern != 2 ==> r.moves != []
  {
    Dispatch(cur, pattern, strokes, radius, objects, CleanEnds(pattern, cleans, cur, cfg), cfg)
  }

  /** A clean that moves leaves the nozzle over the pattern's start corner,
      or with go-back where it began. */
  lemma CleanEndsAtStart(cur: Pos, pattern: u8, strokes: u8, radius: real, objects: u8, cleans: u8, cfg: CleanConfig, mc: MoveConfig)
    requires Clean(cur, pattern, strokes, radius, objects, cleans, cfg).moves != []
    ensures var e := CleanEnds(pattern, cleans, cur, cfg).value;
            var p := Run(cur, Clean(cur, pattern, strokes, radius, objects, cleans, cfg).moves, mc).pos;
            (!cfg.goBack ==> p.x == e.start.x && p.y == e.start.y) &&
            (cfg.goBack ==> p == cur)
  {
    var e := CleanEnds(pattern, cleans, cur, cfg).value;
    if pattern == 1 {
      ZigzagEndsAtStart(cur, e.start, e.end, strokes, objects, cfg, mc);
    } else if pattern == 2 {
      CircleEndsAtStart(cur, e.start, e.end, strokes, radius, cfg, mc);
    } else {
      StrokeEndsAtStart(cur, e.start, e.end, strokes, cfg, mc);
    }
  }
}
