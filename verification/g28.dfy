/** `G28` (commands/gcode/calibrate/g28.h): the skip for an already homed
    machine and the translation of the `X`, `Y`, `Z` letters into the three
    flags of `home()`. The parser becomes the `Letters` record; `O` and `B`
    are read with `boolval`, so they hold the boolean the parser reports. */
module G28 {
  import opened Base
  import opened Motion
  import opened Homing

  /** The words of one `G28` line: `O`, `B`, `R` and the three axis
      letters (`seen`). */
  datatype Letters = Letters(o: bool, b: bool, r: Option<real>, x: bool, y: bool, z: bool)

  /** The two build options that change the command: `IS_KINEMATIC` and
      `FORCE_HOME_XY_BEFORE_Z`. */
  datatype Build = Build(kinematic: bool, forceXYBeforeZ: bool)

  /** What the command does: return at once, or call `home` with three
      flags (a kinematic build calls it with the defaults, all false). */
  datatype Call = Skip | HomeCall(homeX: bool, homeY: bool, homeZ: bool)

  /** `isHomedAll()`: X, Y and Z are all homed. */
  predicate IsHomedAll(s: Mech)
  {
    {X, Y, Z} <= s.homed
  }

  /** The decision of `gcode_G28`. */
  function Decide(b: Build, homedAll: bool, l: Letters): (r: Call)
    ensures r.Skip? <==> homedAll && l.o
    ensures r.HomeCall? && b.kinematic ==> !r.homeX && !r.homeY && !r.homeZ
    ensures r.HomeCall? && !b.kinematic ==> r.homeZ == l.z
    ensures r.HomeCall? && !b.kinematic && b.forceXYBeforeZ && l.z ==> r.homeX && r.homeY
    ensures r.HomeCall? && !b.kinematic && !b.forceXYBeforeZ ==> r.homeX == l.x && r.homeY == l.y
    ensures r.HomeCall? && !b.kinematic ==> (l.x ==> r.homeX) && (l.y ==> r.homeY)
    ensures r.HomeCall? && !b.kinematic && !l.z ==> r.homeX == l.x && r.homeY == l.y
  {
    if homedAll && l.o then Skip
    else if b.kinematic then HomeCall(false, false, false)
    else if b.forceXYBeforeZ then HomeCall(l.z || l.x, l.z || l.y, l.z)
    else HomeCall(l.x, l.y, l.z)
  }

  /** The axes letters name. */
  function Named(l: Letters): (r: set<Axis>)
    ensures X in r <==> l.x
    ensures Y in r <==> l.y
    ensures Z in r <==> l.z
  {
    (if l.x then {X} else {}) + (if l.y then {Y} else {}) + (if l.z then {Z} else {})
  }

  /** The axes the resulting `home` call homes: a line without axis letters
      homes all three; otherwise the named ones, widened to X, Y and Z when
      Z is named in a build that forces X and Y first. */
  lemma DecideAxes(b: Build, homedAll: bool, l: Letters)
    requires !b.kinematic && !(homedAll && l.o)
    ensures var c := Decide(b, homedAll, l);
            var axes := AxesToHome(c.homeX, c.homeY, c.homeZ);
            (Named(l) == {} ==> axes == {X, Y, Z}) &&
            (b.forceXYBeforeZ && l.z ==> axes == {X, Y, Z}) &&
            (!b.forceXYBeforeZ && Named(l) != {} ==> axes == Named(l)) &&
            Named(l) <= axes
  {
    var c := Decide(b, homedAll, l);
    var axes := AxesToHome(c.homeX, c.homeY, c.homeZ);
    if Named(l) == {} {
      assert !l.x && !l.y && !l.z by {
        assert l.x ==> X in Named(l);
        assert l.y ==> Y in Named(l);
        assert l.z ==> Z in Named(l);
      }
    }
    assert X in axes && Y in axes && Z in axes ==> axes == {X, Y, Z} by {
      forall a | a in axes ensures a in {X, Y, Z} { }
    }
    if !b.forceXYBeforeZ && Named(l) != {} {
      assert l.x || l.y || l.z by {
        var a :| a in Named(l);
      }
      forall a ensures a in axes <==> a in Named(l) { }
    }
    forall a | a in Named(l) ensures a in axes { }
  }

  /** `gcode_G28` on the machine state: the skip leaves everything as it
      was; otherwise `home` runs with the flags, `B` and `R`. */
  function Run(c: HomeConfig, b: Build, s: Mech, l: Letters, probed: Probed): (r: Mech)
    ensures IsHomedAll(s) && l.o ==> r == s
    ensures s.homed <= r.homed
  {
    match Decide(b, IsHomedAll(s), l)
    case Skip => s
    case HomeCall(hx, hy, hz) => Home(c, s, hx, hy, hz, l.b, l.r, probed)
  }

  /** `G28 O` is idempotent: once a `G28` has homed every axis, a
      following `G28 O` changes nothing. */
  lemma SecondG28OIsNoop(c: HomeConfig, b: Build, s: Mech, l: Letters, l2: Letters, probed: Probed)
    requires IsHomedAll(Run(c, b, s, l, probed)) && l2.o
    ensures Run(c, b, Run(c, b, s, l, probed), l2, probed) == Run(c, b, s, l, probed)
  {
  }
}
