/** The Trinamic driver layer of feature/tmc: the values the firmware keeps
    beside each driver (`TMCStorage`), the setters that cache and apply
    them, the hybrid-threshold formula, the StallGuard clamp, the lookup of
    a driver by index, the connection test, the decoding of the driver
    status word for each driver family, and the periodic health monitor
    with its error and prewarning counters.

    The driver library (TMCStepper) is not part of this model: a register
    write is recorded as the value written, and a register read returns
    the last value written. */
module Tmc {
  import opened Base

  // ------------------------------------------------------------ config

  /** The driver family the firmware is built for: `TMC2208`, `TMC2660`,
      or one of the SPI drivers TMC2130/2160/5130/5160 (`HAS_TMCX1X0`). */
  datatype Chip = Tmc2208 | Tmc2660 | TmcX1X0

  /** The build options that change behaviour: the family, `__AVR__`
      (byte-wise status decoding), `HAS_LCD_MENU` (values cached for the
      menu), `STOP_ON_ERROR` and `CURRENT_STEP_DOWN` (0 switches the
      step-down off). */
  datatype Config = Config(chip: Chip, avr: bool, lcdMenu: bool, stopOnError: bool, currentStepDown: u16)

  // ----------------------------------------------------------- storage

  /** `TMCStorage`: the requested current and microsteps, the menu copies
      of the hybrid threshold and homing threshold, the stealthChop wish,
      and the monitor's counters. */
  datatype Storage = Storage(valMA: u16, valMs: u16, hybridThrs: u8, stealthChopEnabled: bool,
                             homingThrs: i16, otpwCount: u8, errorCount: u8, flagOtpw: bool)

  /** The driver registers the firmware writes: run current, microsteps,
      `TPWMTHRS`, `SGT`, `en_spreadCycle` (TMC2208) and `en_pwm_mode`. */
  datatype Regs = Regs(current: u16, microsteps: u16, tpwmthrs: u16, sgt: i16,
                       enSpreadCycle: bool, enPwmMode: bool)

  /** One `MKTMC` object: its storage, its registers, and whether the
      driver output stage is enabled (`isEnabled()`). */
  datatype Driver = Driver(store: Storage, regs: Regs, enabled: bool)

  /** The in-class initialisers of `TMCStorage`: everything zero. */
  function InitialStorage(): (s: Storage)
    ensures s.valMA == 0 && s.valMs == 0 && s.hybridThrs == 0 && s.homingThrs == 0
    ensures !s.stealthChopEnabled && !s.flagOtpw && s.otpwCount == 0 && s.errorCount == 0
  {
    Storage(0, 0, 0, false, 0, 0, 0, false)
  }

  /** `getMilliamps()`. */
  function Milliamps(d: Driver): u16 { d.store.valMA }

  /** `getMicrosteps()`. */
  function Microsteps(d: Driver): u16 { d.store.valMs }

  /** `getOTPW()`. */
  function Otpw(d: Driver): bool { d.store.flagOtpw }

  /** `rms_current(mA)`: the request is cached and written to the driver. */
  function SetRmsCurrent(d: Driver, mA: u16): (r: Driver)
    ensures Milliamps(r) == mA && r.regs.current == mA
    ensures r.store == d.store.(valMA := mA) && r.regs == d.regs.(current := mA) && r.enabled == d.enabled
  {
    d.(store := d.store.(valMA := mA), regs := d.regs.(current := mA))
  }

  /** `microsteps(ms)`: the request is cached and written to the driver. */
  function SetMicrosteps(d: Driver, ms: u16): (r: Driver)
    ensures Microsteps(r) == ms && r.regs.microsteps == ms
    ensures r.store == d.store.(valMs := ms) && r.regs == d.regs.(microsteps := ms) && r.enabled == d.enabled
  {
    d.(store := d.store.(valMs := ms), regs := d.regs.(microsteps := ms))
  }

  /** `refresh_stepper_current()`: write the cached current again. */
  function RefreshStepperCurrent(d: Driver): (r: Driver)
    // the register is brought back to the cached request; nothing else moves
    ensures r.regs == d.regs.(current := d.store.valMA)
    ensures r.store == d.store && r.enabled == d.enabled
  {
    SetRmsCurrent(d, d.store.valMA)
  }

  /** `refresh_stepper_microstep()`: write the cached microsteps again. */
  function RefreshStepperMicrostep(d: Driver): (r: Driver)
    ensures r.regs == d.regs.(microsteps := d.store.valMs)
    ensures r.store == d.store && r.enabled == d.enabled
  {
    SetMicrosteps(d, d.store.valMs)
  }

  /** Refreshing only brings the register back to the cached request:
      refreshing twice is refreshing once, refreshing right after a setter
      changes nothing, and the cache is never touched. */
  lemma RefreshIdempotent(d: Driver, mA: u16, ms: u16)
    ensures RefreshStepperCurrent(RefreshStepperCurrent(d)) == RefreshStepperCurrent(d)
    ensures RefreshStepperCurrent(SetRmsCurrent(d, mA)) == SetRmsCurrent(d, mA)
    ensures RefreshStepperCurrent(d).store == d.store && RefreshStepperCurrent(d).regs.current == d.store.valMA
    ensures RefreshStepperMicrostep(RefreshStepperMicrostep(d)) == RefreshStepperMicrostep(d)
    ensures RefreshStepperMicrostep(SetMicrosteps(d, ms)) == SetMicrosteps(d, ms)
    ensures RefreshStepperMicrostep(d).store == d.store && RefreshStepperMicrostep(d).regs.microsteps == d.store.valMs
  {
  }

  /** `clear_otpw()`. */
  function ClearOtpw(d: Driver): (r: Driver)
    ensures !Otpw(r) && r.store.otpwCount == d.store.otpwCount && r.regs == d.regs
  {
    d.(store := d.store.(flagOtpw := false))
  }

  // ------------------------------------------------------ stealthChop

  /** `refresh_stepping_mode()`: the TMC2208 selects spreadCycle when
      stealthChop is not wanted, the SPI drivers enable PWM mode when it
      is; the TMC2660 has no stealthChop. */
  function RefreshSteppingMode(c: Config, d: Driver): (r: Driver)
    // only the mode bits change, and the cached wish is untouched
    ensures r.store == d.store && r.enabled == d.enabled
    ensures r.regs.(enSpreadCycle := d.regs.enSpreadCycle, enPwmMode := d.regs.enPwmMode) == d.regs
    ensures c.chip == Tmc2208 ==> r.regs.enSpreadCycle == !d.store.stealthChopEnabled && r.regs.enPwmMode == d.regs.enPwmMode
    ensures c.chip == TmcX1X0 ==> r.regs.enPwmMode == d.store.stealthChopEnabled && r.regs.enSpreadCycle == d.regs.enSpreadCycle
    ensures c.chip == Tmc2660 ==> r == d
  {
    match c.chip
    case Tmc2208 => d.(regs := d.regs.(enSpreadCycle := !d.store.stealthChopEnabled))
    case TmcX1X0 => d.(regs := d.regs.(enPwmMode := d.store.stealthChopEnabled))
    case Tmc2660 => d
  }

  /** `get_stealthChop_status()`. */
  function StealthChopStatus(c: Config, d: Driver): (r: bool)
    // spreadCycle off on the TMC2208, PWM mode on for the other families
    ensures c.chip == Tmc2208 ==> (r <==> !d.regs.enSpreadCycle)
    ensures c.chip != Tmc2208 ==> (r <==> d.regs.enPwmMode)
  {
    if c.chip == Tmc2208 then !d.regs.enSpreadCycle else d.regs.enPwmMode
  }

  /** After the stepping mode is refreshed, the status read back is the
      wish, on both families with stealthChop; nothing else changes. */
  lemma SteppingModeReadsBack(c: Config, d: Driver)
    requires c.chip != Tmc2660
    ensures StealthChopStatus(c, RefreshSteppingMode(c, d)) == d.store.stealthChopEnabled
    ensures RefreshSteppingMode(c, d).store == d.store
  {
  }

  // -------------------------------------------------------- thresholds

  /** `tmc_thrs(msteps, thrs, spmm)`: `12650000 * msteps / (256 * thrs *
      spmm)` in 32-bit unsigned arithmetic, returned as `uint16_t`. A zero
      divisor is undefined behaviour in C++ and gives `None`. */
  function TmcThrs(msteps: u16, thrs: u32, spmm: u32): (r: Option<u16>)
    ensures thrs == 0 || spmm == 0 ==> r.None?
  {
    var den := Wrap32(256 * thrs * spmm);
    if den == 0 then None else Some(Wrap16(Wrap32(12650000 * msteps) / den))
  }

  /** Without overflow the register value is the exact quotient: the
      largest `v` with `v * 256 * thrs * spmm <= 12650000 * msteps`. */
  lemma TmcThrsExact(msteps: u16, thrs: u32, spmm: u32)
    requires thrs > 0 && spmm > 0
    requires 256 * thrs * spmm < 0x1_0000_0000 && 12650000 * msteps < 0x1_0000_0000
    requires 12650000 * msteps / (256 * thrs * spmm) < 0x1_0000
    ensures TmcThrs(msteps, thrs, spmm).Some?
    ensures var v := TmcThrs(msteps, thrs, spmm).value;
            v * (256 * thrs * spmm) <= 12650000 * msteps < (v + 1) * (256 * thrs * spmm)
  {
    var den := 256 * thrs * spmm;
    var num := 12650000 * msteps;
    assert den > 0 by {
      MulPositive(256 * thrs, spmm);
    }
    NoWrap32(den);
    NoWrap32(num);
    var q := num / den;
    DivNonNeg(num, den);
    NoWrap16(q);
    QuotientBounds(num, den);
  }

  lemma MulPositive(a: int, b: int)
    requires a > 0 && b > 0
    ensures a * b > 0
  {
  }

  lemma DivNonNeg(a: nat, b: int)
    requires b > 0
    ensures a / b >= 0
  {
  }

  lemma NoWrap32(x: int)
    requires 0 <= x < 0x1_0000_0000
    ensures Wrap32(x) == x
  {
    DivUnique(x, 0x1_0000_0000, 0, x);
  }

  lemma NoWrap16(x: int)
    requires 0 <= x < 0x1_0000
    ensures Wrap16(x) == x
  {
    DivUnique(x, 0x1_0000, 0, x);
  }

  lemma QuotientBounds(num: nat, den: nat)
    requires den > 0
    ensures (num / den) * den <= num < (num / den + 1) * den
  {
  }

  /** `set_pwm_thrs(thrs)` as written: `TPWMTHRS` gets the formula with
      the driver's microsteps and the axis steps per mm, and menu builds
      keep `thrs` in the 8-bit `hybrid_thrs`. */
  function SetPwmThrsAsWritten(c: Config, d: Driver, thrs: u32, spmm: u32): (r: Option<Driver>)
    ensures r.Some? <==> TmcThrs(d.regs.microsteps, thrs, spmm).Some?
    ensures r.Some? ==> r.value.regs.tpwmthrs == TmcThrs(d.regs.microsteps, thrs, spmm).value
    ensures r.Some? && c.lcdMenu ==> r.value.store.hybridThrs == Wrap8(thrs)
  {
    match TmcThrs(d.regs.microsteps, thrs, spmm)
    case None => None
    case Some(v) =>
      var d1 := d.(regs := d.regs.(tpwmthrs := v));
      Some(if c.lcdMenu then d1.(store := d1.store.(hybridThrs := Wrap8(thrs))) else d1)
  }

  /** `refresh_hybrid_thrs()` as written: apply the menu copy again. */
  function RefreshHybridThrsAsWritten(c: Config, d: Driver, spmm: u32): (r: Option<Driver>)
    ensures r.None? <==> TmcThrs(d.regs.microsteps, d.store.hybridThrs, spmm).None?
    ensures r.Some? ==> r.value.store == d.store
  {
    NoWrap8(d.store.hybridThrs);
    SetPwmThrsAsWritten(c, d, d.store.hybridThrs, spmm)
  }

  /** The menu edits `hybrid_thrs` over 0..255 and then refreshes; the
      value 0 makes the refresh divide by zero. */
  lemma MenuZeroDividesByZero(c: Config, d: Driver, spmm: u32)
    requires d.store.hybridThrs == 0
    ensures RefreshHybridThrsAsWritten(c, d, spmm).None?
  {
  }

  /** `set_pwm_thrs(thrs)` with the zero threshold guarded: a threshold of
      0 writes `TPWMTHRS = 0`, which switches the hybrid mode off. */
  function SetPwmThrs(c: Config, d: Driver, thrs: u32, spmm: u32): (r: Option<Driver>)
    ensures thrs == 0 ==> r.Some? && r.value.regs.tpwmthrs == 0
    ensures thrs > 0 ==> r == SetPwmThrsAsWritten(c, d, thrs, spmm)
    ensures r.Some? && c.lcdMenu ==> r.value.store.hybridThrs == Wrap8(thrs)
    ensures r.Some? ==> r.value.store.valMA == d.store.valMA && r.value.regs.current == d.regs.current
  {
    if thrs == 0 then
      var d1 := d.(regs := d.regs.(tpwmthrs := 0));
      Some(if c.lcdMenu then d1.(store := d1.store.(hybridThrs := 0)) else d1)
    else SetPwmThrsAsWritten(c, d, thrs, spmm)
  }

  /** `refresh_hybrid_thrs()` with the guarded setter. */
  function RefreshHybridThrs(c: Config, d: Driver, spmm: u32): (r: Option<Driver>)
    // a menu value of 0 switches the hybrid mode off instead of dividing by zero
    ensures d.store.hybridThrs == 0 ==> r.Some? && r.value.regs.tpwmthrs == 0
    ensures d.store.hybridThrs > 0 ==> r == RefreshHybridThrsAsWritten(c, d, spmm)
    ensures r.Some? ==> r.value.store == d.store
  {
    NoWrap8(d.store.hybridThrs);
    SetPwmThrs(c, d, d.store.hybridThrs, spmm)
  }

  /** With the guard, every value the menu can store refreshes without a
      division by zero for any steps per mm below 65536, and the refresh
      keeps the menu value. */
  lemma MenuRefreshDefined(c: Config, d: Driver, spmm: u32)
    requires c.lcdMenu && 0 < spmm < 0x1_0000
    ensures RefreshHybridThrs(c, d, spmm).Some?
    ensures RefreshHybridThrs(c, d, spmm).value.store.hybridThrs == d.store.hybridThrs
  {
    var t := d.store.hybridThrs;
    if t > 0 {
      var den := 256 * t * spmm;
      assert 0 < den < 0x1_0000_0000 by {
        MulPositive(256 * t, spmm);
        MulBelow(256 * t, 256 * 256, spmm, 0x1_0000);
      }
      NoWrap32(den);
    }
    NoWrap8(t);
  }

  lemma MulBelow(a: nat, a1: nat, b: nat, b1: nat)
    requires a < a1 && b < b1
    ensures a * b < a1 * b1
  {
    assert a * b <= a * b1;
    assert a * b1 < a1 * b1;
  }

  lemma NoWrap8(x: int)
    requires 0 <= x < 0x100
    ensures Wrap8(x) == x
  {
    DivUnique(x, 0x100, 0, x);
  }

  /** `get_pwm_thrs()`: the formula applied to the register value. */
  function PwmThrs(d: Driver, spmm: u32): Option<u16>
  {
    TmcThrs(d.regs.microsteps, d.regs.tpwmthrs, spmm)
  }

  // -------------------------------------------------------- StallGuard

  /** `sgt_min` and `sgt_max`. */
  const SgtMin: int := -64
  const SgtMax: int := 63

  /** `homing_threshold(sgt_val)`: the value is constrained to
      [-64, 63], written to `SGT`, and kept for the menu. */
  function HomingThreshold(c: Config, d: Driver, v: i16): (r: Driver)
    ensures SgtMin <= r.regs.sgt <= SgtMax
    ensures SgtMin <= v <= SgtMax ==> r.regs.sgt == v
    ensures v < SgtMin ==> r.regs.sgt == SgtMin
    ensures v > SgtMax ==> r.regs.sgt == SgtMax
    ensures c.lcdMenu ==> r.store.homingThrs == r.regs.sgt
    ensures !c.lcdMenu ==> r.store == d.store
    ensures r.regs == d.regs.(sgt := r.regs.sgt) && r.enabled == d.enabled
  {
    var s := Clamp(v, SgtMin, SgtMax);
    var d1 := d.(regs := d.regs.(sgt := s));
    if c.lcdMenu then d1.(store := d1.store.(homingThrs := s)) else d1
  }

  /** `refresh_homing_thrs()`. */
  function RefreshHomingThrs(c: Config, d: Driver): (r: Driver)
    ensures SgtMin <= r.regs.sgt <= SgtMax
    ensures r.regs == d.regs.(sgt := r.regs.sgt) && r.enabled == d.enabled
    // a menu copy already in range is written back unchanged
    ensures SgtMin <= d.store.homingThrs <= SgtMax ==> r.regs.sgt == d.store.homingThrs && r.store == d.store
  {
    HomingThreshold(c, d, d.store.homingThrs)
  }

  /** Clamping is idempotent: setting the threshold again, or refreshing
      it from the menu copy, changes nothing. */
  lemma HomingThresholdIdempotent(c: Config, d: Driver, v: i16)
    ensures HomingThreshold(c, HomingThreshold(c, d, v), HomingThreshold(c, d, v).regs.sgt) == HomingThreshold(c, d, v)
    ensures c.lcdMenu ==> RefreshHomingThrs(c, HomingThreshold(c, d, v)) == HomingThreshold(c, d, v)
  {
  }

  // -------------------------------------------------------------- axes

  /** The thirteen driver slots (`TMC_AXIS`). */
  datatype Axis = X | Y | Z | X2 | Y2 | Z2 | Z3 | E0 | E1 | E2 | E3 | E4 | E5

  /** The slot of each driver in `driver_by_index`. */
  function Index(a: Axis): (i: nat)
    ensures i < 13
  {
    match a
    case X => 0 case Y => 1 case Z => 2 case X2 => 3 case Y2 => 4 case Z2 => 5 case Z3 => 6
    case E0 => 7 case E1 => 8 case E2 => 9 case E3 => 10 case E4 => 11 case E5 => 12
  }

  /** `driver_by_index(index)`: the configured driver in that slot, or
      `NULL` for an empty slot or an index past the last. */
  function DriverByIndex(present: set<Axis>, index: u8): (r: Option<Axis>)
    ensures r.Some? ==> r.value in present && Index(r.value) == index
    ensures r.None? ==> forall a :: a in present ==> Index(a) != index
  {
    var a := match index
      case 0 => Some(X) case 1 => Some(Y) case 2 => Some(Z) case 3 => Some(X2) case 4 => Some(Y2)
      case 5 => Some(Z2) case 6 => Some(Z3) case 7 => Some(E0) case 8 => Some(E1) case 9 => Some(E2)
      case 10 => Some(E3) case 11 => Some(E4) case 12 => Some(E5) case _ => None;
    if a.Some? && a.value in present then a else None
  }

  /** Looking a driver up by its own slot finds it exactly when it is
      configured, and every index from 13 on finds nothing. */
  lemma DriverByIndexRoundTrip(present: set<Axis>, a: Axis, index: u8)
    ensures DriverByIndex(present, Index(a)) == (if a in present then Some(a) else None)
    ensures index >= 13 ==> DriverByIndex(present, index) == None
  {
  }

  /** The label printed for a driver (`TMC_X_LABEL` ...). */
  function Label(a: Axis): string
  {
    match a
    case X => "X" case Y => "Y" case Z => "Z" case X2 => "X2" case Y2 => "Y2" case Z2 => "Z2" case Z3 => "Z3"
    case E0 => "E0" case E1 => "E1" case E2 => "E2" case E3 => "E3" case E4 => "E4" case E5 => "E5"
  }

  /** The axis number each driver uses for its steps per mm: the second
      and third drivers of an axis share the first one's, extruder `k` is
      `3 + k`. */
  function AxisId(a: Axis): (id: nat)
    ensures id <= 8
    ensures a in {X, X2} <==> id == 0
    ensures a in {Y, Y2} <==> id == 1
    ensures a in {Z, Z2, Z3} <==> id == 2
    ensures id >= 3 <==> Index(a) >= 7
    ensures id >= 3 ==> id == Index(a) - 4
  {
    match a
    case X => 0 case X2 => 0 case Y => 1 case Y2 => 1 case Z => 2 case Z2 => 2 case Z3 => 2
    case E0 => 3 case E1 => 4 case E2 => 5 case E3 => 6 case E4 => 7 case E5 => 8
  }

  // --------------------------------------------------- connection test

  /** The word printed for a test result: 1 is "HIGH", 2 is "LOW", any
      other value "OK". */
  function ResultWord(result: u8): (w: string)
    ensures result == 1 ==> w == "HIGH"
    ensures result == 2 ==> w == "LOW"
    ensures result != 1 && result != 2 ==> w == "OK"
  {
    match result
    case 1 => "HIGH"
    case 2 => "LOW"
    case _ => "OK"
  }

  /** `test_connection(st)`: the line printed for one driver and whether
      the driver failed (a non-zero result). */
  function TestConnection(a: Axis, result: u8): (r: (bool, string))
    ensures r.0 <==> result != 0
    ensures |r.1| > 8 && r.1[..8] == "Testing "
    ensures result == 0 ==> r.1 == "Testing " + Label(a) + " connection... OK\n"
  {
    (result != 0,
     "Testing " + Label(a) + " connection... " + (if result > 0 then "Error: All " else "") + ResultWord(result) + "\n")
  }

  /** The order in which `test_connection(x, y, z, e)` tests the drivers. */
  const TestOrder: seq<Axis> := [X, X2, Y, Y2, Z, Z2, Z3, E0, E1, E2, E3, E4, E5]

  /** Whether a driver belongs to one of the groups asked for. */
  predicate Selected(a: Axis, tx: bool, ty: bool, tz: bool, te: bool)
  {
    match a
    case X => tx case X2 => tx
    case Y => ty case Y2 => ty
    case Z => tz case Z2 => tz case Z3 => tz
    case _ => te
  }

  /** Test the configured, selected drivers of `order` one after another:
      the number that failed (`axis_connection`) and the lines printed. */
  function TestAll(present: set<Axis>, results: Axis -> u8, tx: bool, ty: bool, tz: bool, te: bool,
                   order: seq<Axis>): (r: (nat, seq<string>))
    ensures r.0 <= |order| && |r.1| <= |order|
    ensures r.0 > 0 <==> exists a :: a in order && a in present && Selected(a, tx, ty, tz, te) && results(a) != 0
    decreases |order|
  {
    if |order| == 0 then (0, [])
    else
      var rest := TestAll(present, results, tx, ty, tz, te, order[1..]);
      var a := order[0];
      if a in present && Selected(a, tx, ty, tz, te) then
        var (failed, line) := TestConnection(a, results(a));
        ((if failed then 1 else 0) + rest.0, [line] + rest.1)
      else rest
  }

  /** `test_connection(test_x, test_y, test_z, test_e)`: the lines of the
      drivers tested and whether "TMC CONNECTION ERROR" is shown. The
      count of failures never exceeds 13, so the `uint8_t` sum does not
      wrap. */
  function TestConnections(present: set<Axis>, results: Axis -> u8, tx: bool, ty: bool, tz: bool, te: bool)
    : (r: (bool, seq<string>))
    // at most one line per driver
    ensures |r.1| <= |TestOrder|
  {
    var t := TestAll(present, results, tx, ty, tz, te, TestOrder);
    (Wrap8(t.0) != 0, t.1)
  }

  /** The error status is set exactly when some configured driver of a
      selected group failed its test. */
  lemma ConnectionErrorIffSomeFailed(present: set<Axis>, results: Axis -> u8, tx: bool, ty: bool, tz: bool, te: bool)
    ensures TestConnections(present, results, tx, ty, tz, te).0 <==>
            exists a :: a in present && Selected(a, tx, ty, tz, te) && results(a) != 0
  {
    var t := TestAll(present, results, tx, ty, tz, te, TestOrder);
    NoWrap8(t.0);
    forall a | a in present
      ensures a in TestOrder
    {
      InTestOrder(a);
    }
  }

  /** Every driver is in the test order. */
  lemma InTestOrder(a: Axis)
    ensures a in TestOrder
  {
    match a
    case X => assert TestOrder[0] == a;
    case X2 => assert TestOrder[1] == a;
    case Y => assert TestOrder[2] == a;
    case Y2 => assert TestOrder[3] == a;
    case Z => assert TestOrder[4] == a;
    case Z2 => assert TestOrder[5] == a;
    case Z3 => assert TestOrder[6] == a;
    case E0 => assert TestOrder[7] == a;
    case E1 => assert TestOrder[8] == a;
    case E2 => assert TestOrder[9] == a;
    case E3 => assert TestOrder[10] == a;
    case E4 => assert TestOrder[11] == a;
    case E5 => assert TestOrder[12] == a;
  }

  // ------------------------------------------------------ status word

  /** `TEST(ds, k)` on the 32-bit status word and on one of its bytes. */
  function Bit32(ds: bv32, k: nat): bool
    requires k < 32
  {
    (ds >> k) & 1 == 1
  }

  function Bit8(b: bv8, k: nat): bool
    requires k < 8
  {
    (b >> k) & 1 == 1
  }

  /** Assigning a 32-bit value to a `uint8_t`: the low byte. */
  function Low8(x: bv32): bv8
  {
    (x & 0xFF) as bv8
  }

  /** `TMC_driver_data` with the `TMC_DEBUG` fields; a field a family
      leaves unset is `None`. */
  datatype DriverData = DriverData(drvStatus: bv32, otpw: bool, ot: bool, s2g: bool,
                                   stall: Option<bool>, stealth: Option<bool>, standstill: bool,
                                   sgReasonable: bool, csActual: Option<bv8>, sgResult: Option<bv16>)

  /** `get_driver_data` of the SPI drivers on 32-bit targets: overtemperature
      in bit 25, prewarning in bit 26, short to ground in bits 27-28,
      StallGuard result in bits 0-9, stealth in bit 14, actual current in
      bits 16-20, stall in bit 24, standstill in bit 31. */
  function DecodeX1X0Word(ds: bv32): (r: DriverData)
    ensures r.drvStatus == ds && r.ot == Bit32(ds, 25) && r.otpw == Bit32(ds, 26)
    ensures r.s2g <==> Bit32(ds, 27) || Bit32(ds, 28)
    ensures r.stall == Some(Bit32(ds, 24)) && r.stealth == Some(Bit32(ds, 14)) && r.standstill == Bit32(ds, 31)
    // the StallGuard result means nothing at standstill
    ensures r.sgReasonable <==> !r.standstill
    ensures r.csActual.Some? && r.csActual.value < 32 && r.sgResult.Some? && r.sgResult.value < 0x400
  {
    DriverData(ds, Bit32(ds, 26), Bit32(ds, 25), ds & 0x1800_0000 != 0,
               Some(Bit32(ds, 24)), Some(Bit32(ds, 14)), Bit32(ds, 31), !Bit32(ds, 31),
               Some(((ds & 0x1F_0000) >> 16) as bv8), Some((ds & 0x3FF) as bv16))
  }

  /** The AVR branch reads the same fields from single bytes of the
      word, and agrees with the word branch on every status. */
  function DecodeX1X0Avr(ds: bv32): (r: DriverData)
    ensures r == DecodeX1X0Word(ds)
  {
    var sg := (ds & 0x3FF) as bv16;
    var s1 := Low8(ds >> 8);
    var stealth := Bit8(s1, 14 - 8);
    var s2 := Low8(ds >> 16);
    var cs := s2 & 0x1F;
    var s3 := Low8(ds >> 24);
    DriverData(ds, Bit8(s3, 26 - 24), Bit8(s3, 25 - 24), s3 & 0x18 != 0,
               Some(Bit8(s3, 24 - 24)), Some(stealth), Bit8(s3, 31 - 24), !Bit8(s3, 31 - 24),
               Some(cs), Some(sg))
  }

  /** The short-to-ground mask of the TMC2208 as written, `0b11110`
      (bits 1-4), and the mask of bits 2-5 that its comment names. */
  const S2gMask2208AsWritten: bv32 := 0x1E
  const S2gMask2208: bv32 := 0x3C

  /** `get_driver_data` of the TMC2208 on 32-bit targets, for a given
      short-to-ground mask: prewarning in bit 0, overtemperature in bit 1,
      actual current in bits 16-20, stealth in bit 30, standstill in bit
      31. */
  function Decode2208Word(ds: bv32, s2gMask: bv32): (r: DriverData)
    ensures r.drvStatus == ds && r.otpw == Bit32(ds, 0) && r.ot == Bit32(ds, 1)
    ensures r.s2g <==> ds & s2gMask != 0
    ensures r.stealth == Some(Bit32(ds, 30)) && r.standstill == Bit32(ds, 31)
    // the TMC2208 has no StallGuard
    ensures r.stall.None? && r.sgResult.None? && !r.sgReasonable
    ensures r.csActual.Some? && r.csActual.value < 32
  {
    DriverData(ds, Bit32(ds, 0), Bit32(ds, 1), ds & s2gMask != 0,
               None, Some(Bit32(ds, 30)), Bit32(ds, 31), false,
               Some(((ds & 0x1F_0000) >> 16) as bv8), None)
  }

  /** The AVR branch of the TMC2208 agrees with the word branch. */
  function Decode2208Avr(ds: bv32, s2gMask: bv32): (r: DriverData)
    ensures r == Decode2208Word(ds, s2gMask)
  {
    var s2 := Low8(ds >> 16);
    var cs := s2 & 0x1F;
    var s3 := Low8(ds >> 24);
    DriverData(ds, Bit32(ds, 0), Bit32(ds, 1), ds & s2gMask != 0,
               None, Some(Bit8(s3, 30 - 24)), Bit8(s3, 31 - 24), false, Some(cs), None)
  }

  /** As written, the TMC2208 mask takes the overtemperature bit for a
      short and misses bit 5: an overtemperature alone reads as a short
      (and a driver stopped for it reports "coil short circuit"), and a
      short on bit 5 alone is missed. */
  lemma S2gMask2208Wrong(ds: bv32)
    ensures Bit32(ds, 1) ==> Decode2208Word(ds, S2gMask2208AsWritten).s2g
    ensures Decode2208Word(0x2, S2gMask2208AsWritten).s2g && !Decode2208Word(0x2, S2gMask2208).s2g
    ensures !Decode2208Word(0x20, S2gMask2208AsWritten).s2g && Decode2208Word(0x20, S2gMask2208).s2g
  {
  }

  /** With the mask of bits 2-5 a short is reported exactly when one of
      the four short bits is set. */
  lemma S2gMask2208Bits(ds: bv32)
    ensures Decode2208Word(ds, S2gMask2208).s2g <==>
            Bit32(ds, 2) || Bit32(ds, 3) || Bit32(ds, 4) || Bit32(ds, 5)
  {
  }

  /** `get_driver_data` of the TMC2660: from the low byte, stall in bit 0,
      overtemperature in bit 1, prewarning in bit 2, standstill in bit 7;
      short to ground in bits 3-4; StallGuard result in bits 10-19. */
  function Decode2660(ds: bv32): (r: DriverData)
    ensures r.ot == Bit32(ds, 1) && r.otpw == Bit32(ds, 2) && r.standstill == Bit32(ds, 7)
    ensures r.s2g <==> Bit32(ds, 3) || Bit32(ds, 4)
    ensures r.sgResult == Some(((ds >> 10) & 0x3FF) as bv16) && r.sgResult.value < 0x400
  {
    var s := Low8(ds);
    DriverData(ds, Bit8(s, 2), Bit8(s, 1), ds & 0x18 != 0,
               Some(Bit8(s, 0)), None, Bit8(s, 7), true, None, Some(((ds & 0xF_FC00) >> 10) as bv16))
  }

  /** `get_driver_data` of the configured family and target. */
  function Decode(c: Config, ds: bv32): (r: DriverData)
    ensures r.drvStatus == ds
    ensures c.chip == TmcX1X0 ==> r == DecodeX1X0Word(ds)
    ensures c.chip == Tmc2208 ==> r == Decode2208Word(ds, S2gMask2208)
  {
    match c.chip
    case TmcX1X0 => if c.avr then DecodeX1X0Avr(ds) else DecodeX1X0Word(ds)
    case Tmc2208 => if c.avr then Decode2208Avr(ds, S2gMask2208) else Decode2208Word(ds, S2gMask2208)
    case Tmc2660 => Decode2660(ds)
  }

  /** `get_status_response` of the TMC2208: bit 31 of the status (`stst`)
      in bit 3, the two low bits of `GSTAT` in bits 0-1. */
  function StatusResponse2208(ds: bv32, gstat: bv8): (r: bv8)
    ensures r & 0xF4 == 0
    ensures (r & 8 != 0) == Bit32(ds, 31) && r & 3 == gstat & 3
  {
    Low8((ds >> (31 - 3)) & 8) | (gstat & 3)
  }

  // ------------------------------------------------------ driver monitor

  /** What one poll reports: the first overtemperature prewarning (with
      the current at that moment) and the driver error that stops the
      printer. */
  datatype Event = Prewarning(mA: u16) | DriverError(status: bv32, overtemp: bool, short: bool)

  datatype Poll = Poll(d: Driver, killed: bool, events: seq<Event>)

  /** A status of all ones or all zeros means the driver did not answer. */
  predicate Ignored(ds: bv32)
  {
    ds == 0xFFFF_FFFF || ds == 0
  }

  /** The error counter rises on an overtemperature and otherwise decays
      towards zero. */
  function ErrorStep(e: u8, ot: bool): (r: u8)
    ensures ot ==> r == Wrap8(e + 1)
    ensures !ot ==> r == Max(e - 1, 0)
  {
    if ot then Wrap8(e + 1) else if e > 0 then e - 1 else e
  }

  /** The current after a step-down, as `rms_current(I_rms - step)`
      truncates it to 16 bits. */
  function SteppedDown(c: Config, d: Driver): (r: Driver)
    ensures c.currentStepDown <= Milliamps(d) ==> Milliamps(r) == Milliamps(d) - c.currentStepDown
  {
    SetRmsCurrent(d, Wrap16(d.store.valMA - c.currentStepDown))
  }

  /** The prewarning part of a poll that did not stop the printer: after
      more than four prewarnings in a row an enabled driver above 100 mA
      is stepped down, and the prewarning counter and latched flag follow
      the status. */
  function AfterPrewarning(c: Config, d: Driver, data: DriverData): (r: Driver)
    ensures r.store.errorCount == d.store.errorCount
    ensures r.store.otpwCount == if data.otpw then Wrap8(d.store.otpwCount + 1) else 0
    ensures r.store.flagOtpw == (d.store.flagOtpw || data.otpw)
    ensures r.enabled == d.enabled && r.regs == d.regs.(current := r.regs.current)
  {
    var d2 := if c.currentStepDown > 0 && data.otpw && d.store.otpwCount > 4 && d.enabled && d.store.valMA > 100
              then SteppedDown(c, d) else d;
    if data.otpw then d2.(store := d2.store.(otpwCount := Wrap8(d2.store.otpwCount + 1), flagOtpw := true))
    else if d2.store.otpwCount > 0 then d2.(store := d2.store.(otpwCount := 0))
    else d2
  }

  /** `monitor_driver(st, need_update_error_counters, ...)`: one poll of
      one driver, given what `get_driver_data` read from it. */
  function MonitorDriver(c: Config, d: Driver, data: DriverData, update: bool): (r: Poll)
    ensures Ignored(data.drvStatus) || !update ==> r == Poll(d, false, [])
    ensures r.killed <==> update && !Ignored(data.drvStatus) && c.stopOnError &&
                          ErrorStep(d.store.errorCount, data.ot) >= 10
    ensures update && !Ignored(data.drvStatus) ==> r.d.store.errorCount == ErrorStep(d.store.errorCount, data.ot)
    ensures !r.killed && update && !Ignored(data.drvStatus) ==>
              r.d.store.otpwCount == (if data.otpw then Wrap8(d.store.otpwCount + 1) else 0) &&
              r.d.store.flagOtpw == (d.store.flagOtpw || data.otpw)
  {
    var ds := data.drvStatus;
    if Ignored(ds) || !update then Poll(d, false, [])
    else
      var e := ErrorStep(d.store.errorCount, data.ot);
      var d1 := d.(store := d.store.(errorCount := e));
      if c.stopOnError && e >= 10 then
        Poll(d1, true, [DriverError(ds, data.ot, data.s2g)])
      else
        var warn := if data.otpw && d.store.otpwCount == 0 then [Prewarning(d.store.valMA)] else [];
        Poll(AfterPrewarning(c, d1, data), false, warn)
  }

  /** What a poll reports: the driver error when it stops the printer, and
      otherwise the prewarning exactly on the first of a run of them, with
      the current before any step-down. */
  lemma MonitorDriverReports(c: Config, d: Driver, data: DriverData, update: bool)
    ensures var r := MonitorDriver(c, d, data, update);
            r.killed ==> r.events == [DriverError(data.drvStatus, data.ot, data.s2g)]
    ensures var r := MonitorDriver(c, d, data, update);
            !r.killed && update && !Ignored(data.drvStatus) ==>
              (Prewarning(Milliamps(d)) in r.events <==> data.otpw && d.store.otpwCount == 0)
  {
  }

  /** A poll changes no driver register but the current, and the current
      only by the step-down: on a prewarning after more than four in a row,
      with the driver enabled above 100 mA. */
  lemma MonitorDriverCurrent(c: Config, d: Driver, data: DriverData, update: bool)
    ensures var r := MonitorDriver(c, d, data, update);
            r.d.enabled == d.enabled && r.d.regs == d.regs.(current := r.d.regs.current)
    ensures var r := MonitorDriver(c, d, data, update);
            r.d.regs.current != d.regs.current || Milliamps(r.d) != Milliamps(d) ==>
              !r.killed && update && data.otpw && d.store.otpwCount > 4 && d.enabled &&
              Milliamps(d) > 100 && c.currentStepDown > 0 && r.d.regs.current == Milliamps(r.d) &&
              (c.currentStepDown <= Milliamps(d) ==> Milliamps(r.d) == Milliamps(d) - c.currentStepDown)
  {
  }

  /** A driver polled once per elapsed interval with the statuses `ps`, up
      to the poll that stops the printer. */
  function MonitorRun(c: Config, d: Driver, ps: seq<DriverData>): (r: Poll)
    ensures r.d.enabled == d.enabled
  {
    if |ps| == 0 then Poll(d, false, [])
    else
      var prev := MonitorRun(c, d, ps[..|ps| - 1]);
      if prev.killed then prev
      else
        var p := MonitorDriver(c, prev.d, ps[|ps| - 1], true);
        Poll(p.d, p.killed, prev.events + p.events)
  }

  /** Reference definitions over the answered polls: the length of the
      current run of prewarnings, whether any prewarning was seen, and the
      error balance (one up per overtemperature, one down, not below zero,
      otherwise). */
  function WarnRun(w0: nat, ps: seq<DriverData>): nat
  {
    if |ps| == 0 then w0
    else
      var w := WarnRun(w0, ps[..|ps| - 1]);
      var ds := ps[|ps| - 1];
      if Ignored(ds.drvStatus) then w else if ds.otpw then w + 1 else 0
  }

  predicate WarnedIn(ps: seq<DriverData>)
  {
    exists k :: 0 <= k < |ps| && !Ignored(ps[k].drvStatus) && ps[k].otpw
  }

  function ErrBalance(e0: nat, ps: seq<DriverData>): nat
  {
    if |ps| == 0 then e0 else ErrStepped(ErrBalance(e0, ps[..|ps| - 1]), ps[|ps| - 1])
  }

  function ErrStepped(e: nat, ds: DriverData): nat
  {
    if Ignored(ds.drvStatus) then e else if ds.ot then e + 1 else Max(e - 1, 0)
  }

  /** The last poll of a run, in terms of the run before it: nothing after
      the printer is stopped, and otherwise one poll whose counters move as
      the status says. */
  lemma MonitorRunLast(c: Config, d: Driver, ps: seq<DriverData>)
    requires |ps| > 0
    ensures var prev := MonitorRun(c, d, ps[..|ps| - 1]);
            var r := MonitorRun(c, d, ps);
            var x := ps[|ps| - 1];
            (prev.killed ==> r == prev) &&
            (!prev.killed && Ignored(x.drvStatus) ==> r.d == prev.d && !r.killed) &&
            (!prev.killed && !Ignored(x.drvStatus) ==>
               r.d.store.errorCount == ErrorStep(prev.d.store.errorCount, x.ot) &&
               (r.killed <==> c.stopOnError && ErrorStep(prev.d.store.errorCount, x.ot) >= 10) &&
               (!r.killed ==> r.d.store.otpwCount == (if x.otpw then Wrap8(prev.d.store.otpwCount + 1) else 0) &&
                              r.d.store.flagOtpw == (prev.d.store.flagOtpw || x.otpw)))
  {
  }

  /** Until the printer is stopped, the prewarning counter is the length of
      the current run of prewarnings, in 8 bits. */
  lemma {:induction false} MonitorRunWarnCount(c: Config, d: Driver, ps: seq<DriverData>)
    ensures var r := MonitorRun(c, d, ps);
            !r.killed ==> r.d.store.otpwCount == Wrap8(WarnRun(d.store.otpwCount, ps))
  {
    if |ps| > 0 {
      var init := ps[..|ps| - 1];
      MonitorRunLast(c, d, ps);
      if !MonitorRun(c, d, init).killed {
        MonitorRunWarnCount(c, d, init);
        Wrap8Succ(WarnRun(d.store.otpwCount, init));
      }
    }
  }

  lemma Wrap8Succ(w: nat)
    ensures Wrap8(Wrap8(w) + 1) == Wrap8(w + 1)
  {
    var q := w / 0x100;
    assert w == q * 0x100 + Wrap8(w);
    if Wrap8(w) == 0xFF {
      DivUnique(w + 1, 0x100, q + 1, 0);
    } else {
      DivUnique(w + 1, 0x100, q, Wrap8(w) + 1);
    }
  }

  /** Until the printer is stopped, the latched prewarning flag is set
      exactly when it was set before or some answered poll carried a
      prewarning. */
  lemma {:induction false} MonitorRunWarnFlag(c: Config, d: Driver, ps: seq<DriverData>)
    ensures var r := MonitorRun(c, d, ps);
            !r.killed ==> (r.d.store.flagOtpw <==> d.store.flagOtpw || WarnedIn(ps))
  {
    if |ps| > 0 {
      var init := ps[..|ps| - 1];
      MonitorRunLast(c, d, ps);
      if !MonitorRun(c, d, init).killed {
        MonitorRunWarnFlag(c, d, init);
        ElementSplit(ps, init, (x: DriverData) => !Ignored(x.drvStatus) && x.otpw);
      }
    }
  }

  /** A property holds of some element exactly when it holds of one of all
      but the last, or of the last. */
  lemma ElementSplit<T>(ps: seq<T>, init: seq<T>, p: T -> bool)
    requires |ps| > 0 && init == ps[..|ps| - 1]
    ensures (exists k :: 0 <= k < |ps| && p(ps[k])) <==>
            (exists k :: 0 <= k < |init| && p(init[k])) || p(ps[|ps| - 1])
  {
    if exists k :: 0 <= k < |ps| && p(ps[k]) {
      var k :| 0 <= k < |ps| && p(ps[k]);
      if k < |init| {
        assert init[k] == ps[k];
      }
    }
    if exists k :: 0 <= k < |init| && p(init[k]) {
      var k :| 0 <= k < |init| && p(init[k]);
      assert init[k] == ps[k];
    }
  }

  /** With `STOP_ON_ERROR` and a counter below the limit, the error counter
      follows the error balance while the printer runs, and the printer is
      stopped exactly when the balance of some prefix of the polls reaches
      ten. */
  lemma {:induction false} MonitorRunStops(c: Config, d: Driver, ps: seq<DriverData>)
    requires c.stopOnError && d.store.errorCount < 10
    ensures var r := MonitorRun(c, d, ps);
            !r.killed ==> r.d.store.errorCount == ErrBalance(d.store.errorCount, ps) < 10
    ensures MonitorRun(c, d, ps).killed <==>
            exists k :: 1 <= k <= |ps| && ErrBalance(d.store.errorCount, ps[..k]) >= 10
  {
    var e0 := d.store.errorCount;
    if |ps| > 0 {
      var init := ps[..|ps| - 1];
      var prev := MonitorRun(c, d, init);
      MonitorRunLast(c, d, ps);
      MonitorRunStops(c, d, init);
      BalanceReachesTen(e0, ps, init);
      if !prev.killed {
        assert ErrBalance(e0, ps) == ErrStepped(ErrBalance(e0, init), ps[|ps| - 1]);
      }
    }
  }

  /** Some prefix of the polls brings the balance to ten exactly when some
      prefix of all but the last does, or all of them do. */
  lemma BalanceReachesTen(e0: nat, ps: seq<DriverData>, init: seq<DriverData>)
    requires |ps| > 0 && init == ps[..|ps| - 1]
    ensures (exists k :: 1 <= k <= |ps| && ErrBalance(e0, ps[..k]) >= 10) <==>
            (exists k :: 1 <= k <= |init| && ErrBalance(e0, init[..k]) >= 10) || ErrBalance(e0, ps) >= 10
  {
    PrefixSplit(ps, init, q => ErrBalance(e0, q) >= 10);
  }

  /** A property holds of some non-empty prefix exactly when it holds of a
      non-empty prefix of all but the last element, or of the whole
      sequence. */
  lemma PrefixSplit<T>(ps: seq<T>, init: seq<T>, p: seq<T> -> bool)
    requires |ps| > 0 && init == ps[..|ps| - 1]
    ensures (exists k :: 1 <= k <= |ps| && p(ps[..k])) <==>
            (exists k :: 1 <= k <= |init| && p(init[..k])) || p(ps)
  {
    assert ps[..|ps|] == ps;
    if exists k :: 1 <= k <= |ps| && p(ps[..k]) {
      var k :| 1 <= k <= |ps| && p(ps[..k]);
      if k < |ps| {
        assert init[..k] == ps[..k];
      }
    }
    if exists k :: 1 <= k <= |init| && p(init[..k]) {
      var k :| 1 <= k <= |init| && p(init[..k]);
      assert init[..k] == ps[..k];
    }
  }

  /** The `LOOP_TMC` pass of `monitor_driver()`: every present driver, in
      `driver_by_index` order from slot `i`, is polled once with `poll`
      (its new state, and whether it stops the printer); the first one
      that stops the printer ends the pass. */
  function PollPass<T>(drivers: map<Axis, T>, poll: (Axis, T) -> (T, bool), i: nat)
    : (r: (map<Axis, T>, bool))
    requires i <= 13
    decreases 13 - i
    ensures r.0.Keys == drivers.Keys
  {
    if i == 13 then (drivers, false)
    else
      match DriverByIndex(drivers.Keys, i)
      case None => PollPass(drivers, poll, i + 1)
      case Some(a) =>
        var p := poll(a, drivers[a]);
        var next := drivers[a := p.0];
        if p.1 then (next, true)
        else PollPass(next, poll, i + 1)
  }

  /** The pass stops the printer exactly when some driver from slot `i` on
      stops it on its own. */
  lemma {:induction false} PollPassStops<T>(drivers: map<Axis, T>, poll: (Axis, T) -> (T, bool), i: nat)
    requires i <= 13
    decreases 13 - i
    ensures PollPass(drivers, poll, i).1 <==>
            exists a :: a in drivers && Index(a) >= i && poll(a, drivers[a]).1
  {
    if i < 13 {
      match DriverByIndex(drivers.Keys, i)
      case None =>
        PollPassStops(drivers, poll, i + 1);
      case Some(a) =>
        var p := poll(a, drivers[a]);
        var next := drivers[a := p.0];
        if !p.1 {
          PollPassStops(next, poll, i + 1);
          assert Index(a) == i;
          forall b | b in drivers && b != a
            ensures next[b] == drivers[b]
          {
          }
        }
    }
  }

  /** A pass leaves the drivers before slot `i` untouched, and one that
      does not stop the printer leaves each driver from slot `i` on as its
      own poll leaves it. */
  lemma {:induction false} PollPassFrame<T>(drivers: map<Axis, T>, poll: (Axis, T) -> (T, bool), i: nat)
    requires i <= 13
    decreases 13 - i
    ensures forall a :: a in drivers && Index(a) < i ==> PollPass(drivers, poll, i).0[a] == drivers[a]
    ensures !PollPass(drivers, poll, i).1 ==>
              forall a :: a in drivers && Index(a) >= i ==> PollPass(drivers, poll, i).0[a] == poll(a, drivers[a]).0
  {
    if i < 13 {
      match DriverByIndex(drivers.Keys, i)
      case None =>
        PollPassFrame(drivers, poll, i + 1);
      case Some(a) =>
        var p := poll(a, drivers[a]);
        var next := drivers[a := p.0];
        if p.1 {
          PollPassStep(drivers, poll, i, a, next, true);
        } else {
          PollPassFrame(next, poll, i + 1);
          var r := PollPass(next, poll, i + 1);
          PollPassStep(drivers, poll, i, a, r.0, r.1);
        }
    }
  }

  /** One slot of the pass: the driver in slot `i` takes its polled state
      and the rest follow the remaining pass `m` (or, when it stopped the
      printer, keep their state). */
  lemma PollPassStep<T>(drivers: map<Axis, T>, poll: (Axis, T) -> (T, bool), i: nat, a: Axis, m: map<Axis, T>,
                        stopped: bool)
    requires a in drivers && Index(a) == i && m.Keys == drivers.Keys
    requires forall b :: b in drivers && Index(b) <= i ==> m[b] == drivers[a := poll(a, drivers[a]).0][b]
    requires !stopped ==> forall b :: b in drivers && Index(b) > i ==> m[b] == poll(b, drivers[b]).0
    ensures forall b :: b in drivers && Index(b) < i ==> m[b] == drivers[b]
    ensures !stopped ==> forall b :: b in drivers && Index(b) >= i ==> m[b] == poll(b, drivers[b]).0
  {
    var next := drivers[a := poll(a, drivers[a]).0];
    forall b | b in drivers && Index(b) < i
      ensures m[b] == drivers[b]
    {
      assert next[b] == drivers[b];
    }
    if !stopped {
      forall b | b in drivers && Index(b) >= i
        ensures m[b] == poll(b, drivers[b]).0
      {
        if b == a {
          assert m[b] == next[a];
        }
      }
    }
  }

  /** `monitor_driver()` once the poll interval has elapsed (`update`),
      with `status(a)` what `get_driver_data` reads from driver `a`. */
  function MonitorAll(c: Config, drivers: map<Axis, Driver>, status: Axis -> DriverData, update: bool)
    : (r: (map<Axis, Driver>, bool))
    ensures r.0.Keys == drivers.Keys
  {
    PollPass(drivers, (a, d) => PollOne(c, d, status(a), update), 0)
  }

  function PollOne(c: Config, d: Driver, data: DriverData, update: bool): (Driver, bool)
  {
    var p := MonitorDriver(c, d, data, update);
    (p.d, p.killed)
  }

  /** The printer is stopped exactly when the poll of some configured
      driver stops it; otherwise every driver ends as its own poll leaves
      it, independently of the others. */
  lemma MonitorAllEffect(c: Config, drivers: map<Axis, Driver>, status: Axis -> DriverData, update: bool)
    ensures var r := MonitorAll(c, drivers, status, update);
            r.0.Keys == drivers.Keys &&
            (r.1 <==> exists a :: a in drivers && MonitorDriver(c, drivers[a], status(a), update).killed) &&
            (!r.1 ==> forall a :: a in drivers ==> r.0[a] == MonitorDriver(c, drivers[a], status(a), update).d)
  {
    var poll := (a, d) => PollOne(c, d, status(a), update);
    PollPassStops(drivers, poll, 0);
    PollPassFrame(drivers, poll, 0);
    forall a | a in drivers
      ensures poll(a, drivers[a]) == PollOne(c, drivers[a], status(a), update)
    {
    }
  }
}
