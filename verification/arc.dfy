/** Arc moves (commands/gcode/motion/g2_g3.h): `plan_arc`, which cuts an arc
    into short planner lines, and `gcode_G2_G3`, which turns the `R` or
    `I`/`J` words into the offset from the current position to the centre.

    Arithmetic is over the reals. `sin`, `cos`, `atan2`, `HYPOT` and `SQRT`
    are the function-valued fields of `MathLib`, about which only the facts
    of `ValidMath` are assumed; the model states the control structure (segment
    count, which points are queued and in which order, where the exact
    radius is recomputed), not numeric accuracy. The planner is the list of
    lines it accepts plus an oracle saying whether `buffer_line` accepts the
    `i`-th interior point; `apply_motion_limits` is a given function. */
module Arc {
  import opened Base
  import opened Motion

  /** Travel shorter than this (mm) queues nothing. */
  const MinTravel: real := 0.001

  datatype MathLib = MathLib(pi: real, sin: real -> real, cos: real -> real,
                             atan2: (real, real) -> real, hypot: (real, real) -> real,
                             sqrt: real -> real)

  /** `atan2` answers in `(-pi, pi]` and is 0 along the positive x axis,
      and `HYPOT` of a nonzero vector is positive. */
  ghost predicate ValidMath(m: MathLib)
  {
    && m.pi > 0.0
    && (forall y: real, x: real :: -m.pi < m.atan2(y, x) <= m.pi)
    && (forall x: real :: x > 0.0 ==> m.atan2(0.0, x) == 0.0)
    && (forall a: real, b: real :: (a != 0.0 || b != 0.0) ==> m.hypot(a, b) > 0.0)
  }

  /** `CNC_WORKSPACE_PLANES`: the two axes of the arc and the linear one. */
  datatype Plane = PlaneXY | PlaneZX | PlaneYZ

  function PAxis(pl: Plane): Axis { match pl case PlaneXY => X case PlaneZX => Z case PlaneYZ => Y }
  function QAxis(pl: Plane): Axis { match pl case PlaneXY => Y case PlaneZX => X case PlaneYZ => Z }
  function LAxis(pl: Plane): Axis { match pl case PlaneXY => Z case PlaneZX => Y case PlaneYZ => X }

  /** The point with the given plane coordinates, linear coordinate and
      extruder position (the `raw[]` array of the loop). */
  function Place(pl: Plane, p: real, q: real, l: real, e: real): (r: Pos)
    ensures Get(r, PAxis(pl)) == p && Get(r, QAxis(pl)) == q && Get(r, LAxis(pl)) == l && r.e == e
  {
    match pl
    case PlaneXY => Pos(p, q, l, e)
    case PlaneZX => Pos(q, l, p, e)
    case PlaneYZ => Pos(l, p, q, e)
  }

  /** The collaborators and build constants of `plan_arc`:
      `MM_PER_ARC_SEGMENT`, `N_ARC_CORRECTION`, the planner's answer for the
      `i`-th interior point, `endstops.apply_motion_limits` and the scaled
      feedrate. */
  datatype ArcEnv = ArcEnv(math: MathLib, plane: Plane, mmPerSegment: real, nCorrection: int,
                           accept: int -> bool, limits: Pos -> Pos, feedrate: real)

  /** `mmPerSegment` is positive and the correction counter, an `int8_t`,
      can hold `N_ARC_CORRECTION`. */
  ghost predicate ValidEnv(env: ArcEnv)
  {
    ValidMath(env.math) && env.mmPerSegment > 0.0 && env.nCorrection <= 127
  }

  /** `N_ARC_CORRECTION` below 1 is redefined as 1. */
  function Correction(n: int): (r: int)
    ensures r >= 1 && (n >= 1 ==> r == n)
  {
    if n < 1 then 1 else n
  }

  /** The angle swept, counter-clockwise in `[0, 2 pi)` from `atan2`, moved
      into `[-2 pi, 0)` for a clockwise arc, and a whole turn when a
      counter-clockwise arc would sweep nothing and ends where it starts. */
  function AngularTravel(m: MathLib, rP: real, rQ: real, rtX: real, rtY: real,
                         clockwise: bool, samePoint: bool): (a: real)
    requires ValidMath(m)
    ensures !clockwise ==> 0.0 <= a < 2.0 * m.pi || (a == 2.0 * m.pi && samePoint)
    ensures clockwise ==> -2.0 * m.pi <= a < 0.0
    ensures a == 2.0 * m.pi ==> !clockwise && samePoint
  {
    var a0 := m.atan2(rP * rtY - rQ * rtX, rP * rtX + rQ * rtY);
    var a1 := if a0 < 0.0 then a0 + 2.0 * m.pi else a0;
    var a2 := if clockwise then a1 - 2.0 * m.pi else a1;
    if a2 == 0.0 && samePoint then 2.0 * m.pi else a2
  }

  /** `FLOOR(mm_of_travel / MM_PER_ARC_SEGMENT)` stored in a `uint16_t`,
      raised to 1 when it is 0; `MIN_ARC_SEGMENTS` plays no part. */
  function Segments(mm: real, mmPerSegment: real): (n: nat)
    requires mm >= 0.0 && mmPerSegment > 0.0
    ensures 1 <= n < 0x1_0000
    ensures (mm / mmPerSegment).Floor < 0x1_0000 ==> n == Max(1, (mm / mmPerSegment).Floor)
  {
    var f := (mm / mmPerSegment).Floor;
    var s := Wrap16(f);
    if s == 0 then 1 else s
  }

  /** The quantities `plan_arc` fixes before its loop. The rotation by
      one segment angle and the exact radius vector of point `i` are kept
      as functions, built from `Rotate` and `ExactR` by `SetupArc`. */
  datatype Setup = Setup(env: ArcEnv, centerP: real, centerQ: real, theta: real,
                         linPer: real, extPer: real, segments: nat, n: int,
                         rotate: (real, real) -> (real, real), exactAt: nat -> (real, real))

  predicate ValidSetup(a: Setup)
  {
    1 <= a.n <= 127 && a.segments >= 1
  }

  /** One step of the small-angle rotation of the radius vector:
      `sin_T = theta`, `cos_T = 1 - theta^2 / 2`. */
  function Rotate(theta: real, rP: real, rQ: real): (real, real)
  {
    var sinT := theta;
    var cosT := 1.0 - 0.5 * (theta * theta);
    (rP * cosT - rQ * sinT, rP * sinT + rQ * cosT)
  }

  /** The radius vector of point `i` computed from the initial one
      (`-offset`) with `cos`/`sin` of `i * theta`. */
  function ExactR(m: MathLib, off0: real, off1: real, theta: real, i: nat): (real, real)
  {
    var cosTi := m.cos(i as real * theta);
    var sinTi := m.sin(i as real * theta);
    (-off0 * cosTi + off1 * sinTi, -off0 * sinTi - off1 * cosTi)
  }

  /** One queued interior point: its radius vector, whether that vector
      was recomputed exactly, and the planner line. */
  datatype Segment = Segment(rP: real, rQ: real, exact: bool, line: Line)

  /** The value of `arc_recalc_count` when iteration `i` begins: `n` at
      the first one, then one less each iteration, reloaded with `n` after
      the iteration that took it to 0. With `n == 1` it stays 1. */
  function Counter(n: int, i: nat): (c: int)
    requires n >= 1 && i >= 1
    ensures 1 <= c <= n
    decreases i
  {
    if i == 1 then n
    else
      var c := Counter(n, i - 1);
      if c == 1 then n else c - 1
  }

  /** The counter is `n - (i - 1) % n`, so it is 1 exactly at the
      multiples of `n`. */
  lemma {:induction false} CounterClosedForm(n: int, i: nat)
    requires n >= 1 && i >= 1
    ensures Counter(n, i) == n - (i - 1) % n
    ensures Counter(n, i) == 1 <==> i % n == 0
    decreases i
  {
    if i > 1 {
      CounterClosedForm(n, i - 1);
      ModStep(n, i - 2);
    }
    ModStep(n, i - 1);
  }

  /** Adding one to a number moves its remainder on by one, wrapping from
      `n - 1` to 0. */
  lemma ModStep(n: int, j: nat)
    requires n >= 1
    ensures (j + 1) % n == (if j % n == n - 1 then 0 else j % n + 1)
  {
    var q, m := j / n, j % n;
    assert j == q * n + m && 0 <= m < n;
    if m == n - 1 {
      DivUnique(j + 1, n, q + 1, 0);
    } else {
      DivUnique(j + 1, n, q, m + 1);
    }
  }

  /** The radius vector of one iteration and the counter after it:
      `--arc_recalc_count` reaching 0 (or a correction interval of 1)
      selects the exact recomputation and reloads the counter, any other
      value the rotation of the previous vector. */
  datatype Turn = Turn(exact: bool, rP: real, rQ: real, count: i8)

  function NextTurn(a: Setup, i: nat, rP: real, rQ: real, count: i8): (t: Turn)
    requires ValidSetup(a) && 1 <= count <= a.n
    ensures 1 <= t.count <= a.n
    ensures t.exact <==> a.n == 1 || count == 1
    ensures t.exact ==> (t.rP, t.rQ) == a.exactAt(i) && t.count == a.n
    ensures !t.exact ==> (t.rP, t.rQ) == a.rotate(rP, rQ) && t.count == count - 1
  {
    var dec := count - 1;
    if a.n == 1 || dec == 0 then
      var r := a.exactAt(i);
      Turn(true, r.0, r.1, a.n)
    else
      var r := a.rotate(rP, rQ);
      Turn(false, r.0, r.1, dec)
  }

  /** The `raw[]` of one iteration after `apply_motion_limits`: the point
      at radius vector `(rP, rQ)` from the centre with linear coordinate
      `l` and extruder position `e`, clamped in place. */
  function Point(a: Setup, rP: real, rQ: real, l: real, e: real): Pos
  {
    a.env.limits(Place(a.env.plane, a.centerP + rP, a.centerQ + rQ, l, e))
  }

  /** Iterations `i .. segments - 1` of the loop, from radius vector
      `(rP, rQ)`, linear position `lin`, extruder position `ext` and
      counter `count`. Each iteration adds one share to the `raw[]` the
      previous one left clamped, so the next one goes on from the clamped
      linear and extruder values; the loop ends at the first point the
      planner refuses. */
  function Interior(a: Setup, i: nat, rP: real, rQ: real, lin: real, ext: real, count: i8): (r: seq<Segment>)
    requires ValidSetup(a) && i >= 1 && 1 <= count <= a.n
    ensures |r| <= (if i < a.segments then a.segments - i else 0)
    decreases a.segments - i
  {
    if i >= a.segments then []
    else
      var t := NextTurn(a, i, rP, rQ, count);
      var raw := Point(a, t.rP, t.rQ, lin + a.linPer, ext + a.extPer);
      if !a.env.accept(i) then []
      else
        [Segment(t.rP, t.rQ, t.exact, Line(raw, a.env.feedrate))]
        + Interior(a, i + 1, t.rP, t.rQ, Get(raw, LAxis(a.env.plane)), raw.e, t.count)
  }

  /** The points `pts`, produced from iteration `i` on, were all
      accepted, and the loop stopped only at the last iteration or at the
      first refusal. */
  predicate StopsAtRefusal(a: Setup, i: nat, pts: seq<Segment>)
  {
    (forall j :: i <= j < i + |pts| ==> a.env.accept(j)) &&
    (i + |pts| < a.segments ==> !a.env.accept(i + |pts|))
  }

  /** The points produced from iteration `i` on are exact where the
      counter is 1. */
  predicate ExactWhereCounterIsOne(a: Setup, i: nat, pts: seq<Segment>)
    requires a.n >= 1 && i >= 1
  {
    forall k :: 0 <= k < |pts| ==> (pts[k].exact <==> Counter(a.n, i + k) == 1)
  }

  /** The radius vector of each point: the recomputed one of its
      iteration at an exact point, otherwise the rotation of the previous
      point's vector (of `(rP, rQ)` for the first). */
  predicate RadiiFollow(a: Setup, i: nat, rP: real, rQ: real, pts: seq<Segment>)
  {
    forall k :: 0 <= k < |pts| ==>
      (pts[k].exact ==> (pts[k].rP, pts[k].rQ) == a.exactAt(i + k)) &&
      (!pts[k].exact ==> (pts[k].rP, pts[k].rQ) == a.rotate(if k == 0 then rP else pts[k - 1].rP,
                                                          if k == 0 then rQ else pts[k - 1].rQ))
  }

  /** `start` advanced `k` times by `share`, as the loop accumulates
      `raw[l_axis]` and `raw[E_AXIS]`. */
  function Advance(start: real, share: real, k: nat): (r: real)
    decreases k
  {
    if k == 0 then start else Advance(start, share, k - 1) + share
  }

  /** `k` accumulated shares are `k` times the share. */
  lemma {:induction false} AdvanceIsLinear(start: real, share: real, k: nat)
    ensures Advance(start, share, k) == start + k as real * share
    decreases k
  {
    if k > 0 {
      AdvanceIsLinear(start, share, k - 1);
    }
  }

  /** The linear coordinate and the extruder position `raw[]` holds
      before point `k` of a run from `lin` and `ext`: the start values for
      the first point, the clamped values of the previous point after. */
  function LinBefore(a: Setup, lin: real, pts: seq<Segment>, k: nat): real
    requires k <= |pts|
  {
    if k == 0 then lin else Get(pts[k - 1].line.target, LAxis(a.env.plane))
  }

  function ExtBefore(ext: real, pts: seq<Segment>, k: nat): real
    requires k <= |pts|
  {
    if k == 0 then ext else pts[k - 1].line.target.e
  }

  /** The planner line of each point: the clamped position at its radius
      vector, with the linear axis and the extruder one share past the
      clamped values of the point before (a running clamp). */
  predicate LinesFollow(a: Setup, lin: real, ext: real, pts: seq<Segment>)
  {
    forall k {:trigger LinBefore(a, lin, pts, k)} :: 0 <= k < |pts| ==>
      pts[k].line == Line(Point(a, pts[k].rP, pts[k].rQ,
                                LinBefore(a, lin, pts, k) + a.linPer, ExtBefore(ext, pts, k) + a.extPer),
                          a.env.feedrate)
  }

  /** `apply_motion_limits` leaves the linear axis and the extruder alone
      (it clamps only the arc's plane, or nothing). */
  ghost predicate KeepsLinear(a: Setup)
  {
    forall p: Pos {:trigger a.env.limits(p)} ::
      Get(a.env.limits(p), LAxis(a.env.plane)) == Get(p, LAxis(a.env.plane)) && a.env.limits(p).e == p.e
  }

  /** The planner line of each point with the linear axis and the
      extruder `k + 1` shares of their travel past `lin` and `ext`. */
  predicate LinesAdvance(a: Setup, lin: real, ext: real, pts: seq<Segment>)
  {
    forall k :: 0 <= k < |pts| ==>
      pts[k].line == Line(Point(a, pts[k].rP, pts[k].rQ,
                                Advance(lin, a.linPer, k + 1), Advance(ext, a.extPer, k + 1)),
                          a.env.feedrate)
  }

  /** When the limits leave L and E alone, the running clamp is the plain
      accumulation: point `k` holds `k + 1` shares past the start. */
  lemma {:induction false} LinesFollowUnclamped(a: Setup, lin: real, ext: real, pts: seq<Segment>)
    requires LinesFollow(a, lin, ext, pts) && KeepsLinear(a)
    ensures LinesAdvance(a, lin, ext, pts)
  {
    forall k | 0 <= k < |pts|
      ensures pts[k].line == Line(Point(a, pts[k].rP, pts[k].rQ,
                                        Advance(lin, a.linPer, k + 1), Advance(ext, a.extPer, k + 1)),
                                  a.env.feedrate)
    {
      BeforeIsAdvance(a, lin, ext, pts, k);
    }
  }

  /** Under `KeepsLinear`, `raw[]` holds `k` shares past the start before
      point `k`. */
  lemma {:induction false} BeforeIsAdvance(a: Setup, lin: real, ext: real, pts: seq<Segment>, k: nat)
    requires LinesFollow(a, lin, ext, pts) && KeepsLinear(a) && k <= |pts|
    ensures LinBefore(a, lin, pts, k) == Advance(lin, a.linPer, k)
    ensures ExtBefore(ext, pts, k) == Advance(ext, a.extPer, k)
    decreases k
  {
    if k > 0 {
      var j := k - 1;
      BeforeIsAdvance(a, lin, ext, pts, j);
      var l, e := LinBefore(a, lin, pts, j) + a.linPer, ExtBefore(ext, pts, j) + a.extPer;
      var q := Place(a.env.plane, a.centerP + pts[j].rP, a.centerQ + pts[j].rQ, l, e);
      assert pts[j].line.target == a.env.limits(q);
      assert Get(a.env.limits(q), LAxis(a.env.plane)) == Get(q, LAxis(a.env.plane)) && a.env.limits(q).e == q.e;
      assert LinBefore(a, lin, pts, k) == l && ExtBefore(ext, pts, k) == e;
    }
  }

  /** The first point of a nonempty run of the loop and the run that
      follows it. */
  lemma InteriorCons(a: Setup, i: nat, rP: real, rQ: real, lin: real, ext: real, count: i8)
    requires ValidSetup(a) && i >= 1 && 1 <= count <= a.n
    requires i < a.segments && a.env.accept(i)
    ensures var t := NextTurn(a, i, rP, rQ, count);
            var r := Interior(a, i, rP, rQ, lin, ext, count);
            |r| >= 1 && r[0].rP == t.rP && r[0].rQ == t.rQ && r[0].exact == t.exact &&
            var raw := Point(a, t.rP, t.rQ, lin + a.linPer, ext + a.extPer);
            r[0].line == Line(raw, a.env.feedrate) &&
            r[1..] == Interior(a, i + 1, t.rP, t.rQ, Get(raw, LAxis(a.env.plane)), raw.e, t.count)
  {
  }

  lemma {:induction false} InteriorStopsAtRefusal(a: Setup, i: nat, rP: real, rQ: real, lin: real, ext: real, count: i8)
    requires ValidSetup(a) && i >= 1 && 1 <= count <= a.n
    ensures StopsAtRefusal(a, i, Interior(a, i, rP, rQ, lin, ext, count))
    decreases a.segments - i
  {
    if i < a.segments && a.env.accept(i) {
      var t := NextTurn(a, i, rP, rQ, count);
      var raw := Point(a, t.rP, t.rQ, lin + a.linPer, ext + a.extPer);
      InteriorCons(a, i, rP, rQ, lin, ext, count);
      InteriorStopsAtRefusal(a, i + 1, t.rP, t.rQ, Get(raw, LAxis(a.env.plane)), raw.e, t.count);
    }
  }

  /** The loop recomputes the radius vector exactly at the iterations
      where the counter is 1 and rotates it everywhere else. */
  lemma {:induction false} InteriorCorrection(a: Setup, i: nat, rP: real, rQ: real, lin: real, ext: real, count: i8)
    requires ValidSetup(a) && i >= 1 && 1 <= count <= a.n
    requires count == Counter(a.n, i)
    ensures ExactWhereCounterIsOne(a, i, Interior(a, i, rP, rQ, lin, ext, count))
    decreases a.segments - i
  {
    if i < a.segments && a.env.accept(i) {
      var t := NextTurn(a, i, rP, rQ, count);
      assert t.count == Counter(a.n, i + 1);
      var raw := Point(a, t.rP, t.rQ, lin + a.linPer, ext + a.extPer);
      InteriorCons(a, i, rP, rQ, lin, ext, count);
      var rest := Interior(a, i + 1, t.rP, t.rQ, Get(raw, LAxis(a.env.plane)), raw.e, t.count);
      InteriorCorrection(a, i + 1, t.rP, t.rQ, Get(raw, LAxis(a.env.plane)), raw.e, t.count);
      var r := Interior(a, i, rP, rQ, lin, ext, count);
      forall k | 1 <= k < |r| ensures r[k].exact <==> Counter(a.n, i + k) == 1 {
        assert r[k] == rest[k - 1];
        assert (i + 1) + (k - 1) == i + k;
      }
    }
  }

  lemma {:induction false} InteriorRadii(a: Setup, i: nat, rP: real, rQ: real, lin: real, ext: real, count: i8)
    requires ValidSetup(a) && i >= 1 && 1 <= count <= a.n
    ensures RadiiFollow(a, i, rP, rQ, Interior(a, i, rP, rQ, lin, ext, count))
    decreases a.segments - i
  {
    if i < a.segments && a.env.accept(i) {
      var t := NextTurn(a, i, rP, rQ, count);
      var raw := Point(a, t.rP, t.rQ, lin + a.linPer, ext + a.extPer);
      InteriorCons(a, i, rP, rQ, lin, ext, count);
      var rest := Interior(a, i + 1, t.rP, t.rQ, Get(raw, LAxis(a.env.plane)), raw.e, t.count);
      InteriorRadii(a, i + 1, t.rP, t.rQ, Get(raw, LAxis(a.env.plane)), raw.e, t.count);
      var r := Interior(a, i, rP, rQ, lin, ext, count);
      forall k | 1 <= k < |r|
        ensures (r[k].exact ==> (r[k].rP, r[k].rQ) == a.exactAt(i + k)) &&
                (!r[k].exact ==> (r[k].rP, r[k].rQ) == a.rotate(r[k - 1].rP, r[k - 1].rQ))
      {
        assert r[k] == rest[k - 1];
        assert (i + 1) + (k - 1) == i + k;
        if k > 1 {
          assert r[k - 1] == rest[k - 2];
        }
      }
    }
  }

  lemma {:induction false} InteriorLines(a: Setup, i: nat, rP: real, rQ: real, lin: real, ext: real, count: i8)
    requires ValidSetup(a) && i >= 1 && 1 <= count <= a.n
    ensures LinesFollow(a, lin, ext, Interior(a, i, rP, rQ, lin, ext, count))
    decreases a.segments - i
  {
    if i < a.segments && a.env.accept(i) {
      var t := NextTurn(a, i, rP, rQ, count);
      var raw := Point(a, t.rP, t.rQ, lin + a.linPer, ext + a.extPer);
      InteriorCons(a, i, rP, rQ, lin, ext, count);
      InteriorLines(a, i + 1, t.rP, t.rQ, Get(raw, LAxis(a.env.plane)), raw.e, t.count);
      LinesFollowCons(a, lin, ext, Interior(a, i, rP, rQ, lin, ext, count));
    }
  }

  /** A point one share on, followed by points that follow from its
      clamped values. */
  lemma LinesFollowCons(a: Setup, lin: real, ext: real, pts: seq<Segment>)
    requires |pts| >= 1
    requires pts[0].line == Line(Point(a, pts[0].rP, pts[0].rQ, lin + a.linPer, ext + a.extPer), a.env.feedrate)
    requires LinesFollow(a, Get(pts[0].line.target, LAxis(a.env.plane)), pts[0].line.target.e, pts[1..])
    ensures LinesFollow(a, lin, ext, pts)
  {
    var l0, e0 := Get(pts[0].line.target, LAxis(a.env.plane)), pts[0].line.target.e;
    forall k | 1 <= k < |pts|
      ensures pts[k].line == Line(Point(a, pts[k].rP, pts[k].rQ,
                                        LinBefore(a, lin, pts, k) + a.linPer, ExtBefore(ext, pts, k) + a.extPer),
                                  a.env.feedrate)
    {
      assert pts[k] == pts[1..][k - 1];
      assert LinBefore(a, lin, pts, k) == LinBefore(a, l0, pts[1..], k - 1);
      assert ExtBefore(ext, pts, k) == ExtBefore(e0, pts[1..], k - 1);
    }
  }

  /** What `plan_arc` queued and where it left `current_position`. */
  datatype ArcRun = ArcRun(points: seq<Segment>, lines: seq<Line>, pos: Pos)

  /** The geometry `plan_arc` derives from the current position, the
      target and the offset to the centre. */
  datatype Geometry = Geometry(centerP: real, centerQ: real, linear: real, extruder: real,
                               angular: real, mm: real)

  /** The centre (current position plus offset), the linear and extruder
      travel, the swept angle and the length of the helix,
      `HYPOT(radius * angle, linear)` or `|radius * angle|` without linear
      travel. */
  function ArcGeometry(env: ArcEnv, cur: Pos, cart: Pos, off0: real, off1: real, clockwise: bool): (g: Geometry)
    requires ValidEnv(env)
    ensures g.centerP == Get(cur, PAxis(env.plane)) + off0 && g.centerQ == Get(cur, QAxis(env.plane)) + off1
    ensures g.linear == Get(cart, LAxis(env.plane)) - Get(cur, LAxis(env.plane)) && g.extruder == cart.e - cur.e
    ensures !clockwise ==> 0.0 <= g.angular <= 2.0 * env.math.pi
    ensures clockwise ==> -2.0 * env.math.pi <= g.angular < 0.0
  {
    var m := env.math;
    var p, q, l := PAxis(env.plane), QAxis(env.plane), LAxis(env.plane);
    var rP, rQ := -off0, -off1;
    var radius := m.hypot(rP, rQ);
    var centerP := Get(cur, p) - rP;
    var centerQ := Get(cur, q) - rQ;
    var rtX := Get(cart, p) - centerP;
    var rtY := Get(cart, q) - centerQ;
    var linear := Get(cart, l) - Get(cur, l);
    var angular := AngularTravel(m, rP, rQ, rtX, rtY, clockwise,
                                 Get(cur, p) == Get(cart, p) && Get(cur, q) == Get(cart, q));
    var flat := radius * angular;
    var mm := if linear != 0.0 then m.hypot(flat, linear) else AbsR(flat);
    Geometry(centerP, centerQ, linear, cart.e - cur.e, angular, mm)
  }

  /** An arc that ends where it starts, around a centre away from the
      start, is a whole turn in its direction. */
  lemma FullCircle(env: ArcEnv, cur: Pos, cart: Pos, off0: real, off1: real, clockwise: bool)
    requires ValidEnv(env) && (off0 != 0.0 || off1 != 0.0)
    requires Get(cur, PAxis(env.plane)) == Get(cart, PAxis(env.plane))
    requires Get(cur, QAxis(env.plane)) == Get(cart, QAxis(env.plane))
    ensures ArcGeometry(env, cur, cart, off0, off1, clockwise).angular == (if clockwise then -2.0 else 2.0) * env.math.pi
  {
    var m := env.math;
    var p, q := PAxis(env.plane), QAxis(env.plane);
    var rP, rQ := -off0, -off1;
    var rtX := Get(cart, p) - (Get(cur, p) - rP);
    var rtY := Get(cart, q) - (Get(cur, q) - rQ);
    assert rtX == rP && rtY == rQ;
    assert rP * rtY - rQ * rtX == 0.0;
    assert rP * rtX + rQ * rtY > 0.0 by {
      if rP != 0.0 { assert rP * rP > 0.0; } else { assert rQ * rQ > 0.0; }
    }
    assert m.atan2(rP * rtY - rQ * rtX, rP * rtX + rQ * rtY) == 0.0;
    assert ArcGeometry(env, cur, cart, off0, off1, clockwise).angular == AngularTravel(m, rP, rQ, rtX, rtY, clockwise, true);
  }

  /** The pre-loop computations of `plan_arc`, or `None` when the travel is
      under 0.001 mm: the segment count, the angle, linear and extruder
      share of one segment, the effective correction interval and the two
      rotations. */
  function SetupArc(env: ArcEnv, cur: Pos, cart: Pos, off0: real, off1: real, clockwise: bool): (r: Option<Setup>)
    requires ValidEnv(env)
    ensures var g := ArcGeometry(env, cur, cart, off0, off1, clockwise);
            (r.None? <==> g.mm < MinTravel) &&
            (r.Some? ==> r.value.segments == Segments(g.mm, env.mmPerSegment) &&
                         r.value.theta == g.angular / r.value.segments as real &&
                         r.value.linPer == g.linear / r.value.segments as real &&
                         r.value.extPer == g.extruder / r.value.segments as real &&
                         r.value.centerP == g.centerP && r.value.centerQ == g.centerQ)
    ensures r.Some? ==> ValidSetup(r.value) && r.value.env == env && r.value.n == Correction(env.nCorrection)
    ensures r.Some? ==> (forall x: real, y: real :: r.value.rotate(x, y) == Rotate(r.value.theta, x, y))
    ensures r.Some? ==> (forall i: nat :: r.value.exactAt(i) == ExactR(env.math, off0, off1, r.value.theta, i))
  {
    var g := ArcGeometry(env, cur, cart, off0, off1, clockwise);
    if g.mm < MinTravel then None
    else
      var segs := Segments(g.mm, env.mmPerSegment);
      var theta := g.angular / segs as real;
      Some(Setup(env, g.centerP, g.centerQ, theta, g.linear / segs as real, g.extruder / segs as real,
                 segs, Correction(env.nCorrection),
                 (x: real, y: real) => Rotate(theta, x, y), (i: nat) => ExactR(env.math, off0, off1, theta, i)))
  }

  /** The loop and the final line of `plan_arc` for a fixed setup: the
      interior points the planner took, then the target itself, whatever
      the planner said before; afterwards `current_position` is the
      target. */
  function RunArc(a: Setup, cur: Pos, cart: Pos, off0: real, off1: real): (r: ArcRun)
    requires ValidSetup(a)
    ensures r.pos == cart && |r.lines| == |r.points| + 1 && |r.points| <= a.segments - 1
    ensures r.lines[|r.points|] == Line(cart, a.env.feedrate)
    ensures forall k :: 0 <= k < |r.points| ==> r.lines[k] == r.points[k].line
  {
    var pts := Interior(a, 1, -off0, -off1, Get(cur, LAxis(a.env.plane)), cur.e, a.n);
    var lines := seq(|pts|, k requires 0 <= k < |pts| => pts[k].line);
    ArcRun(pts, lines + [Line(cart, a.env.feedrate)], cart)
  }

  /** `plan_arc(cart, offset, clockwise)`. A travel under 0.001 mm queues
      nothing and moves nothing; any other arc ends with a line to the
      target and leaves the nozzle there. */
  function PlanArc(env: ArcEnv, cur: Pos, cart: Pos, off0: real, off1: real, clockwise: bool): (r: ArcRun)
    requires ValidEnv(env)
    ensures ArcGeometry(env, cur, cart, off0, off1, clockwise).mm < MinTravel ==> r == ArcRun([], [], cur)
    ensures SetupArc(env, cur, cart, off0, off1, clockwise).Some? ==>
              r == RunArc(SetupArc(env, cur, cart, off0, off1, clockwise).value, cur, cart, off0, off1) &&
              r.pos == cart && r.lines[|r.lines| - 1] == Line(cart, env.feedrate)
  {
    match SetupArc(env, cur, cart, off0, off1, clockwise)
    case None => ArcRun([], [], cur)
    case Some(a) => RunArc(a, cur, cart, off0, off1)
  }

  /** Point `k` of a run is exact when `k + 1` is a multiple of the
      effective `N_ARC_CORRECTION`. */
  predicate ExactAtMultiples(n: int, pts: seq<Segment>)
    requires n >= 1
  {
    forall k :: 0 <= k < |pts| ==> (pts[k].exact <==> (k + 1) % n == 0)
  }

  /** The interior points of one arc are the accepted ones, up to the
      first refusal. */
  lemma RunArcStops(a: Setup, cur: Pos, cart: Pos, off0: real, off1: real)
    requires ValidSetup(a)
    ensures StopsAtRefusal(a, 1, RunArc(a, cur, cart, off0, off1).points)
  {
    InteriorStopsAtRefusal(a, 1, -off0, -off1, Get(cur, LAxis(a.env.plane)), cur.e, a.n);
  }

  /** The radius vector is recomputed exactly from the offset at every
      N-th point and rotated from the previous one otherwise. */
  lemma RunArcCorrection(a: Setup, cur: Pos, cart: Pos, off0: real, off1: real)
    requires ValidSetup(a)
    ensures ExactAtMultiples(a.n, RunArc(a, cur, cart, off0, off1).points)
    ensures RadiiFollow(a, 1, -off0, -off1, RunArc(a, cur, cart, off0, off1).points)
  {
    var l := LAxis(a.env.plane);
    var pts := RunArc(a, cur, cart, off0, off1).points;
    assert a.n == Counter(a.n, 1);
    InteriorCorrection(a, 1, -off0, -off1, Get(cur, l), cur.e, a.n);
    InteriorRadii(a, 1, -off0, -off1, Get(cur, l), cur.e, a.n);
    forall k | 0 <= k < |pts| ensures pts[k].exact <==> (k + 1) % a.n == 0 {
      CounterClosedForm(a.n, 1 + k);
    }
  }

  /** Each point lies one share of the linear and extruder travel past
      the clamped point before it (past the current position for the
      first); when the limits leave L and E alone, point `k` lies `k + 1`
      shares past the start. */
  lemma RunArcLinear(a: Setup, cur: Pos, cart: Pos, off0: real, off1: real)
    requires ValidSetup(a)
    ensures LinesFollow(a, Get(cur, LAxis(a.env.plane)), cur.e, RunArc(a, cur, cart, off0, off1).points)
    ensures KeepsLinear(a) ==>
              LinesAdvance(a, Get(cur, LAxis(a.env.plane)), cur.e, RunArc(a, cur, cart, off0, off1).points)
  {
    var pts := RunArc(a, cur, cart, off0, off1).points;
    InteriorLines(a, 1, -off0, -off1, Get(cur, LAxis(a.env.plane)), cur.e, a.n);
    if KeepsLinear(a) {
      LinesFollowUnclamped(a, Get(cur, LAxis(a.env.plane)), cur.e, pts);
    }
  }

  /** The exact radius vector at point `k` is the initial one turned by
      `(k + 1) * theta`, and the rotation is the small-angle one. */
  lemma SetupRotation(env: ArcEnv, cur: Pos, cart: Pos, off0: real, off1: real, clockwise: bool, a: Setup, k: nat)
    requires ValidEnv(env) && SetupArc(env, cur, cart, off0, off1, clockwise) == Some(a)
    ensures a.exactAt(k + 1) == ExactR(env.math, off0, off1, a.theta, k + 1)
    ensures forall x: real, y: real :: a.rotate(x, y) == Rotate(a.theta, x, y)
  {
  }

  // ---------------------------------------------------------------------
  // G2 / G3
  // ---------------------------------------------------------------------

  /** The words of a `G2`/`G3` line after `get_destination`: the target,
      `R`, `I`, `J` (already in millimetres) and `P` (`value_long`). */
  datatype ArcWords = ArcWords(dest: Pos, r: Option<real>, i: Option<real>, j: Option<real>, p: Option<int>)

  /** The offset from the current position to the centre. With `R` the
      centre is on the perpendicular bisector of the chord, on the side
      given by the direction and the sign of `R`; a zero `R` or a target
      equal to the current XY gives no offset. Without `R`, `I` and `J`
      give it directly. */
  function ArcOffset(m: MathLib, cur: Pos, w: ArcWords, clockwise: bool): (r: (real, real))
    requires ValidMath(m)
    ensures w.r.Some? && (w.r.value == 0.0 || (w.dest.x == cur.x && w.dest.y == cur.y)) ==> r == (0.0, 0.0)
    ensures w.r.Some? && w.r.value != 0.0 && (w.dest.x != cur.x || w.dest.y != cur.y) ==>
              r != (0.0, 0.0) &&
              var dx, dy := w.dest.x - cur.x, w.dest.y - cur.y;
              r.0 * dx + r.1 * dy == (dx * dx + dy * dy) * 0.5
    ensures w.r.None? ==> r == (if w.i.Some? then w.i.value else 0.0, if w.j.Some? then w.j.value else 0.0)
  {
    match w.r
    case Some(rad) =>
      if rad != 0.0 && (w.dest.x != cur.x || w.dest.y != cur.y) then
        ChordCentre(m, cur.x, cur.y, w.dest.x, w.dest.y, rad, clockwise)
      else (0.0, 0.0)
    case None =>
      (if w.i.Some? then w.i.value else 0.0, if w.j.Some? then w.j.value else 0.0)
  }

  /** The centre of the arc of radius `|rad|` from `(p1, q1)` to a
      different point `(p2, q2)`, relative to `(p1, q1)`: the midpoint of
      the chord moved along its perpendicular by `SQRT(rad^2 - (d/2)^2)`,
      to the side the direction and the sign of `rad` select. */
  function ChordCentre(m: MathLib, p1: real, q1: real, p2: real, q2: real, rad: real, clockwise: bool): (r: (real, real))
    requires ValidMath(m) && (p2 != p1 || q2 != q1)
    // the centre projects onto the middle of the chord: it lies on the
    // perpendicular bisector, whatever SQRT answers
    ensures r.0 * (p2 - p1) + r.1 * (q2 - q1) == ((p2 - p1) * (p2 - p1) + (q2 - q1) * (q2 - q1)) * 0.5
    ensures r != (0.0, 0.0)
  {
    var e := if clockwise != (rad < 0.0) then -1.0 else 1.0;
    var dx, dy := p2 - p1, q2 - q1;
    var d := m.hypot(dx, dy);
    var dinv := 1.0 / d;
    var h := m.sqrt(rad * rad - (d * 0.5) * (d * 0.5));
    var mx, my := (p1 + p2) * 0.5, (q1 + q2) * 0.5;
    var sx, sy := -dy * dinv, dx * dinv;
    var o0, o1 := mx + e * h * sx - p1, my + e * h * sy - q1;
    var k := e * h * dinv;
    assert o0 == dx * 0.5 - k * dy && o1 == dy * 0.5 + k * dx;
    assert o0 * dx + o1 * dy == (dx * dx + dy * dy) * 0.5;
    assert dx * dx + dy * dy > 0.0;
    (o0, o1)
  }

  /** `R` wins over `I` and `J`: with `R` given they make no difference. */
  lemma RadiusWins(m: MathLib, cur: Pos, w: ArcWords, i2: Option<real>, j2: Option<real>, clockwise: bool)
    requires ValidMath(m) && w.r.Some?
    ensures ArcOffset(m, cur, w, clockwise) == ArcOffset(m, cur, w.(i := i2, j := j2), clockwise)
  {
    var w2 := w.(i := i2, j := j2);
    assert w2.r == w.r && w2.dest == w.dest;
  }

  /** `byteval('P')`: the value clamped into a byte, 0 when absent. */
  function ByteVal(p: Option<int>): (b: u8)
    ensures p.None? ==> b == 0
    ensures p.Some? && 0 <= p.value <= 255 ==> b == p.value
  {
    if p.None? then 0 else Clamp(p.value, 0, 255)
  }

  /** `circles_to_do--` on an `int8_t`. */
  function Dec8(c: i8): i8
  {
    if c == -128 then 127 else c - 1
  }

  /** The unsigned byte an `int8_t` holds. */
  function AsByte(c: i8): (b: u8)
    ensures ToInt8(b) == c
  {
    if c >= 0 then c else c + 256
  }

  /** The number of times `while (circles_to_do--)` runs its body. */
  function WhileCount(c: i8): nat
    decreases AsByte(c)
  {
    if c == 0 then 0 else 1 + WhileCount(Dec8(c))
  }

  /** The loop runs exactly as many times as the byte read for `P`, even
      for the values 128..255 that the `int8_t` sees as negative. */
  lemma {:induction false} WhileCountIsByte(c: i8)
    ensures WhileCount(c) == AsByte(c)
    decreases AsByte(c)
  {
    if c != 0 {
      WhileCountIsByte(Dec8(c));
    }
  }

  /** `n` full circles from the current position, as the `P` loop plans
      them. */
  function Circles(env: ArcEnv, cur: Pos, off0: real, off1: real, clockwise: bool, n: nat): (r: ArcRun)
    requires ValidEnv(env)
    ensures n == 0 ==> r == ArcRun([], [], cur)
    ensures r.pos == cur
  {
    if n == 0 then ArcRun([], [], cur)
    else
      var first := PlanArc(env, cur, cur, off0, off1, clockwise);
      var rest := Circles(env, first.pos, off0, off1, clockwise, n - 1);
      ArcRun(first.points + rest.points, first.lines + rest.lines, rest.pos)
  }

  /** The outcome of one `G2`/`G3`: the lines queued, the final position
      and whether `MSG_ERR_ARC_ARGS` was reported. */
  datatype ArcCommand = ArcCommand(lines: seq<Line>, pos: Pos, error: bool)

  /** `gcode_G2_G3`. Nothing happens unless the printer is running. A zero
      offset reports the error and queues no arc. Otherwise `P` full
      circles come first, then the arc to the target; a `P` outside
      0..100 reports the error and the circles are still planned. */
  function G2G3(env: ArcEnv, running: bool, cur: Pos, w: ArcWords, clockwise: bool): (r: ArcCommand)
    requires ValidEnv(env)
    ensures !running ==> r == ArcCommand([], cur, false)
    ensures running && ArcOffset(env.math, cur, w, clockwise) == (0.0, 0.0) ==> r == ArcCommand([], cur, true)
    ensures running && ArcOffset(env.math, cur, w, clockwise) != (0.0, 0.0) ==>
              var off := ArcOffset(env.math, cur, w, clockwise);
              var circles := Circles(env, cur, off.0, off.1, clockwise, ByteVal(w.p));
              (r.error <==> !(0 <= ToInt8(ByteVal(w.p)) <= 100)) &&
              r.lines == circles.lines + PlanArc(env, cur, w.dest, off.0, off.1, clockwise).lines &&
              r.pos == PlanArc(env, cur, w.dest, off.0, off.1, clockwise).pos
  {
    if !running then ArcCommand([], cur, false)
    else
      var off := ArcOffset(env.math, cur, w, clockwise);
      if off.0 == 0.0 && off.1 == 0.0 then ArcCommand([], cur, true)
      else
        var toDo := ToInt8(ByteVal(w.p));
        WhileCountIsByte(toDo);
        var circles := Circles(env, cur, off.0, off.1, clockwise, WhileCount(toDo));
        var last := PlanArc(env, circles.pos, w.dest, off.0, off.1, clockwise);
        ArcCommand(circles.lines + last.lines, last.pos, !(0 <= toDo <= 100))
  }

  /** A usable `R` word, nonzero and with the target off the current XY,
      and no `P`: `G2`/`G3` plans exactly the arc, without an error. */
  lemma RadiusWordPlansArc(env: ArcEnv, cur: Pos, w: ArcWords, clockwise: bool)
    requires ValidEnv(env) && w.r.Some? && w.r.value != 0.0 && (w.dest.x != cur.x || w.dest.y != cur.y)
    requires w.p.None?
    ensures var off := ArcOffset(env.math, cur, w, clockwise);
            var arc := PlanArc(env, cur, w.dest, off.0, off.1, clockwise);
            G2G3(env, true, cur, w, clockwise) == ArcCommand(arc.lines, arc.pos, false)
  {
  }

  /** An arc that is not dropped ends with a line to the target, so after
      `G2`/`G3` with a usable offset the nozzle is at the target unless the
      whole arc was under 0.001 mm. */
  lemma G2G3EndsAtTarget(env: ArcEnv, cur: Pos, w: ArcWords, clockwise: bool)
    requires ValidEnv(env)
    requires ArcOffset(env.math, cur, w, clockwise) != (0.0, 0.0)
    requires SetupArc(env, cur, w.dest, ArcOffset(env.math, cur, w, clockwise).0,
                      ArcOffset(env.math, cur, w, clockwise).1, clockwise).Some?
    ensures var r := G2G3(env, true, cur, w, clockwise);
            r.pos == w.dest && |r.lines| >= 1 && r.lines[|r.lines| - 1] == Line(w.dest, env.feedrate)
  {
  }
}
