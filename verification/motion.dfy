/** Blocking moves of the Cartesian mechanics
    (core/mechanics/cartesian_mechanics.cpp and .h): the current position,
    the planner lines a blocking move queues, and the variants that move one
    or two axes. The planner is represented by the list of lines it is given
    (`line_to_current_position`); the `planner.synchronize()` that ends every
    blocking move is the point at which that list is complete. */
module Motion {
  import opened Base

  datatype Axis = X | Y | Z

  /** `current_position[XYZE]` in millimetres. */
  datatype Pos = Pos(x: real, y: real, z: real, e: real)

  function Get(p: Pos, a: Axis): real
  {
    match a
    case X => p.x
    case Y => p.y
    case Z => p.z
  }

  function Put(p: Pos, a: Axis, v: real): (r: Pos)
    ensures Get(r, a) == v && r.e == p.e
    ensures forall b :: b != a ==> Get(r, b) == Get(p, b)
  {
    match a
    case X => p.(x := v)
    case Y => p.(y := v)
    case Z => p.(z := v)
  }

  /** A planner line to `target` at `feedrate` mm/s. */
  datatype Line = Line(target: Pos, feedrate: real)

  /** `homing_feedrate_mm_s[Z_AXIS]` and `XY_PROBE_FEEDRATE_MM_S`, the
      feedrates used when a blocking move is given feedrate 0. */
  datatype MoveConfig = MoveConfig(homingFeedrateZ: real, xyProbeFeedrate: real)

  /** The lines a blocking move queued and the position it leaves. */
  datatype Motion = Motion(lines: seq<Line>, pos: Pos)

  /** The position before line `i` of a list started at `start`. */
  function From(start: Pos, lines: seq<Line>, i: nat): Pos
    requires i <= |lines|
  {
    if i == 0 then start else lines[i - 1].target
  }

  /** A line that moves Z only, and one that moves X and Y only. */
  predicate ZLeg(from: Pos, l: Line)
  {
    l.target.x == from.x && l.target.y == from.y && l.target.e == from.e
  }

  predicate XYLeg(from: Pos, l: Line)
  {
    l.target.z == from.z && l.target.e == from.e
  }

  function ZFeedrate(fr: real, cfg: MoveConfig): real
  {
    if fr != 0.0 then fr else cfg.homingFeedrateZ
  }

  function XYFeedrate(fr: real, cfg: MoveConfig): real
  {
    if fr != 0.0 then fr else cfg.xyProbeFeedrate
  }

  /** `do_blocking_move_to(rx, ry, rz, fr)`: raise Z first if it has to
      go up, travel in XY, lower Z last if it has to go down. The XY travel
      therefore always happens at the higher of the two heights, every line
      moves either Z alone or XY alone, and Z moves at most once. */
  function DoBlockingMoveTo(cur: Pos, rx: real, ry: real, rz: real, fr: real, cfg: MoveConfig): (m: Motion)
    ensures m.pos == Pos(rx, ry, rz, cur.e)
    ensures 1 <= |m.lines| <= 2 && m.lines[|m.lines| - 1].target == m.pos
    ensures |m.lines| == 2 <==> cur.z != rz
    ensures forall i :: 0 <= i < |m.lines| ==> ZLeg(From(cur, m.lines, i), m.lines[i]) || XYLeg(From(cur, m.lines, i), m.lines[i])
    ensures forall i :: 0 <= i < |m.lines| && !ZLeg(From(cur, m.lines, i), m.lines[i]) ==>
              m.lines[i].target.z == MaxR(cur.z, rz) && m.lines[i].feedrate == XYFeedrate(fr, cfg)
    ensures forall i :: 0 <= i < |m.lines| && !XYLeg(From(cur, m.lines, i), m.lines[i]) ==>
              m.lines[i].feedrate == ZFeedrate(fr, cfg)
  {
    var zf := ZFeedrate(fr, cfg);
    var xyf := XYFeedrate(fr, cfg);
    var raise := if cur.z < rz then [Line(cur.(z := rz), zf)] else [];
    var p1 := if cur.z < rz then cur.(z := rz) else cur;
    var p2 := p1.(x := rx, y := ry);
    var travel := [Line(p2, xyf)];
    var lower := if p2.z > rz then [Line(p2.(z := rz), zf)] else [];
    Motion(raise + travel + lower, Pos(rx, ry, rz, cur.e))
  }

  /** `do_blocking_move_to_x`: only X changes, so only one line. */
  function DoBlockingMoveToX(cur: Pos, rx: real, fr: real, cfg: MoveConfig): (m: Motion)
    ensures m.pos == cur.(x := rx)
    ensures m.lines == [Line(m.pos, XYFeedrate(fr, cfg))]
  {
    DoBlockingMoveTo(cur, rx, cur.y, cur.z, fr, cfg)
  }

  /** `do_blocking_move_to_z`: X and Y stay where they are. */
  function DoBlockingMoveToZ(cur: Pos, rz: real, fr: real, cfg: MoveConfig): (m: Motion)
    ensures m.pos == cur.(z := rz)
    ensures forall i :: 0 <= i < |m.lines| ==> m.lines[i].target.x == cur.x && m.lines[i].target.y == cur.y
  {
    DoBlockingMoveTo(cur, cur.x, cur.y, rz, fr, cfg)
  }

  /** `do_blocking_move_to_xy`: Z stays where it is, one XY line. */
  function DoBlockingMoveToXY(cur: Pos, rx: real, ry: real, fr: real, cfg: MoveConfig): (m: Motion)
    ensures m.pos == cur.(x := rx, y := ry)
    ensures m.lines == [Line(m.pos, XYFeedrate(fr, cfg))]
  {
    DoBlockingMoveTo(cur, rx, ry, cur.z, fr, cfg)
  }

  /** The two array overloads of `do_blocking_move_to` (`raw[XYZ]` and
      `raw[XYZE]`): both use X, Y and Z and ignore a fourth entry. */
  function DoBlockingMoveToRaw(cur: Pos, raw: seq<real>, fr: real, cfg: MoveConfig): (m: Motion)
    requires |raw| == 3 || |raw| == 4
    ensures m == DoBlockingMoveTo(cur, raw[0], raw[1], raw[2], fr, cfg)
    ensures m.pos.e == cur.e
  {
    DoBlockingMoveTo(cur, raw[0], raw[1], raw[2], fr, cfg)
  }

  /** A blocking move requested by a caller, with feedrate 0 meaning the
      default one. */
  datatype Request = ToXYZ(x: real, y: real, z: real, fr: real)
                   | ToXY(x: real, y: real, fr: real)
                   | ToZ(z: real, fr: real)

  function Perform(cur: Pos, r: Request, cfg: MoveConfig): Motion
  {
    match r
    case ToXYZ(x, y, z, fr) => DoBlockingMoveTo(cur, x, y, z, fr, cfg)
    case ToXY(x, y, fr) => DoBlockingMoveToXY(cur, x, y, fr, cfg)
    case ToZ(z, fr) => DoBlockingMoveToZ(cur, z, fr, cfg)
  }

  /** A list of blocking moves performed one after another. */
  function Run(cur: Pos, reqs: seq<Request>, cfg: MoveConfig): (m: Motion)
    ensures m.pos.e == cur.e
    ensures |m.lines| >= |reqs|
    ensures reqs == [] ==> m == Motion([], cur)
    decreases |reqs|
  {
    if |reqs| == 0 then Motion([], cur)
    else
      var first := Perform(cur, reqs[0], cfg);
      var rest := Run(first.pos, reqs[1..], cfg);
      Motion(first.lines + rest.lines, rest.pos)
  }

  lemma RunCons(cur: Pos, reqs: seq<Request>, cfg: MoveConfig)
    requires |reqs| >= 1
    ensures Run(cur, reqs, cfg).pos == Run(Perform(cur, reqs[0], cfg).pos, reqs[1..], cfg).pos
    ensures Run(cur, reqs, cfg).lines == Perform(cur, reqs[0], cfg).lines + Run(Perform(cur, reqs[0], cfg).pos, reqs[1..], cfg).lines
  {
  }

  /** Running two lists back to back ends where running their
      concatenation ends. */
  lemma {:induction false} RunAppend(cur: Pos, a: seq<Request>, b: seq<Request>, cfg: MoveConfig)
    ensures Run(cur, a + b, cfg).pos == Run(Run(cur, a, cfg).pos, b, cfg).pos
    decreases |a|
  {
    if |a| == 0 {
      assert a + b == b;
    } else {
      var p := Perform(cur, a[0], cfg).pos;
      assert (a + b)[0] == a[0];
      assert (a + b)[1..] == a[1..] + b;
      RunCons(cur, a, cfg);
      RunCons(cur, a + b, cfg);
      RunAppend(p, a[1..], b, cfg);
    }
  }

  /** XY-only blocking moves keep the height. */
  lemma {:induction false} RunKeepsZ(cur: Pos, reqs: seq<Request>, cfg: MoveConfig)
    requires forall k :: 0 <= k < |reqs| ==> reqs[k].ToXY?
    ensures Run(cur, reqs, cfg).pos.z == cur.z
    decreases |reqs|
  {
    if |reqs| > 0 {
      RunCons(cur, reqs, cfg);
      RunKeepsZ(Perform(cur, reqs[0], cfg).pos, reqs[1..], cfg);
    }
  }

  /** Where a list of blocking moves ends: the XY of the last request
      that names XY, and the Z of the last one that names Z. */
  lemma {:induction false} RunEndsAtLast(cur: Pos, reqs: seq<Request>, cfg: MoveConfig)
    requires |reqs| >= 1
    ensures var last := reqs[|reqs| - 1];
            var p := Run(cur, reqs, cfg).pos;
            (last.ToXYZ? ==> p == Pos(last.x, last.y, last.z, cur.e)) &&
            (last.ToXY? ==> p.x == last.x && p.y == last.y) &&
            (last.ToZ? ==> p.z == last.z)
  {
    var init := reqs[..|reqs| - 1];
    assert reqs == init + [reqs[|reqs| - 1]];
    RunAppend(cur, init, [reqs[|reqs| - 1]], cfg);
    var mid := Run(cur, init, cfg).pos;
    assert Run(mid, [reqs[|reqs| - 1]], cfg).pos == Perform(mid, reqs[|reqs| - 1], cfg).pos;
  }
}
