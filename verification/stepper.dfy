/** The pure parts of the stepper driver (core/stepper/stepper.h): the timer
    interval and multistepping choice for a step rate, the per-axis
    direction flag word, the motor locks used while squaring multi-endstop
    axes, and the request to abort the running block. */
module Stepper {
  import opened Base

  /** The frequency ladder `HAL_frequency_limit[]` of the platform and the
      timer clock `STEPPER_TIMER_RATE`; both come from platform headers. */
  datatype TimerConfig = TimerConfig(limit: seq<u32>, timerRate: u32)

  /** The multistepping loop reads `limit[0] .. limit[6]`. */
  predicate ValidTimerConfig(c: TimerConfig)
  {
    |c.limit| >= 7
  }

  /** Reference definition of the number of halvings the quad-stepping loop
      performs, counting from `idx`: the first index at which the halved rate
      no longer exceeds the ladder, or 7. */
  function MultistepIndex(rate: nat, limit: seq<u32>, idx: nat): (k: nat)
    requires |limit| >= 7 && idx <= 7
    ensures idx <= k <= 7
    ensures k == 7 || rate / Pow2(k) <= limit[k]
    ensures forall j :: idx <= j < k ==> rate / Pow2(j) > limit[j]
    decreases 7 - idx
  {
    if idx < 7 && rate / Pow2(idx) > limit[idx] then MultistepIndex(rate, limit, idx + 1) else idx
  }

  /** The rate after `step_rate <<= scale` on a 32-bit unsigned variable. */
  function ScaledRate(stepRate: u32, scale: nat): u32
  {
    Wrap32(stepRate * Pow2(scale))
  }

  /** The quad-stepping loop of `calc_timer_interval`: halve the rate and
      double the steps per interrupt while the rate exceeds the ladder, at
      most seven times. */
  method Multistep(scaled: u32, limit: seq<u32>) returns (loops: u8, rate: u32)
    requires |limit| >= 7
    ensures loops == Pow2(MultistepIndex(scaled, limit, 0))
    ensures rate == scaled / loops
    ensures loops * rate <= scaled < loops * (rate + 1)
  {
    var sr: u32 := scaled;
    var multistep: u8 := 1;
    var idx := 0;
    while idx < 7 && sr > limit[idx]
      invariant 0 <= idx <= 7
      invariant multistep == Pow2(idx)
      invariant sr == scaled / Pow2(idx)
      invariant MultistepIndex(scaled, limit, idx) == MultistepIndex(scaled, limit, 0)
      decreases 7 - idx
    {
      ShiftStep(scaled, idx);
      sr := sr / 2;
      multistep := multistep * 2;
      idx := idx + 1;
    }
    DivBracket(scaled, multistep);
    loops := multistep;
    rate := sr;
  }

  /** `STEPPER_TIMER_RATE / step_rate`, absent when the rate is 0. */
  function TimerInterval(timerRate: u32, rate: u32): (r: Option<u32>)
    ensures r.None? <==> rate == 0
    ensures r.Some? ==> r.value * rate <= timerRate < (r.value + 1) * rate
  {
    if rate == 0 then None
    else
      DivNoGreater(timerRate, rate);
      DivBracket(timerRate, rate);
      Some(timerRate / rate)
  }

  /** `calc_timer_interval` on a 32-bit processor. `loops` is the number of
      steps issued per interrupt, `rate` the interrupt rate after
      multistepping, `interval` the timer ticks between interrupts, absent
      when the rate is 0 and the division is undefined. */
  method CalcTimerInterval(stepRate: u32, scale: u8, quad: bool, cfg: TimerConfig)
    returns (interval: Option<u32>, loops: u8, rate: u32)
    requires ValidTimerConfig(cfg) && scale < 32
    ensures quad ==> loops == Pow2(MultistepIndex(ScaledRate(stepRate, scale), cfg.limit, 0))
    ensures quad ==> loops * rate <= ScaledRate(stepRate, scale) < loops * (rate + 1)
    ensures !quad ==> loops == 1 && rate == Min(ScaledRate(stepRate, scale), cfg.limit[0])
    ensures interval == TimerInterval(cfg.timerRate, rate)
  {
    var sr: u32 := ScaledRate(stepRate, scale);
    if quad {
      loops, rate := Multistep(sr, cfg.limit);
    } else {
      loops := 1;
      rate := if sr > cfg.limit[0] then cfg.limit[0] else sr;
    }
    interval := TimerInterval(cfg.timerRate, rate);
  }

  lemma DivNoGreater(x: nat, d: nat)
    requires d > 0
    ensures x / d <= x
  {
    DivBracket(x, d);
    if x / d > x {
      MulAtLeast(d, x / d);
    }
  }

  lemma DivBracket(x: nat, d: nat)
    requires d > 0
    ensures d * (x / d) <= x < d * (x / d + 1)
  {
    assert x == d * (x / d) + x % d;
  }

  /** The bit of `axis` in the direction flag word. */
  function Mask(axis: nat): bv16
    requires axis < 16
  {
    (1 as bv16) << (axis as bv5)
  }

  lemma MaskDistinct(a: nat, b: nat)
    requires a < 16 && b < 16 && a != b
    ensures Mask(a) & Mask(b) == 0
  {
  }

  lemma DisjointBits(f: bv16, m: bv16, n: bv16)
    requires m & n == 0
    ensures (f | m) & n == f & n && (f & !m) & n == f & n
  {
  }

  /** `isStepDir`: bit `axis` of the direction flag word. */
  function IsStepDir(flags: bv16, axis: nat): bool
    requires axis < 16
  {
    flags & Mask(axis) != 0
  }

  /** `setStepDir`: writes bit `axis` and no other. */
  function SetStepDir(flags: bv16, axis: nat, onoff: bool): (r: bv16)
    requires axis < 16
    ensures IsStepDir(r, axis) == onoff
    ensures forall a :: 0 <= a < 16 && a != axis ==> IsStepDir(r, a) == IsStepDir(flags, a)
  {
    var r := if onoff then flags | Mask(axis) else flags & !Mask(axis);
    assert forall a :: 0 <= a < 16 && a != axis ==> IsStepDir(r, a) == IsStepDir(flags, a) by {
      forall a | 0 <= a < 16 && a != axis
        ensures IsStepDir(r, a) == IsStepDir(flags, a)
      {
        MaskDistinct(axis, a);
        DisjointBits(flags, Mask(axis), Mask(a));
      }
    }
    r
  }

  /** The motors of multi-endstop axes that can be locked individually. */
  datatype Motor = XMotor | X2Motor | YMotor | Y2Motor | ZMotor | Z2Motor | Z3Motor

  /** The stepper's flags that the homing code drives. */
  datatype StepperFlags = StepperFlags(separateMultiAxis: bool, locked: set<Motor>, abortCurrentBlock: bool)

  /** `set_x_lock`, `set_x2_lock`, ..., `set_z3_lock`. */
  function SetLock(st: StepperFlags, m: Motor, state: bool): (r: StepperFlags)
    ensures (m in r.locked) == state
    ensures forall n :: n != m ==> (n in r.locked <==> n in st.locked)
    ensures r.separateMultiAxis == st.separateMultiAxis && r.abortCurrentBlock == st.abortCurrentBlock
  {
    st.(locked := if state then st.locked + {m} else st.locked - {m})
  }

  /** `set_separate_multi_axis`. */
  function SetSeparateMultiAxis(st: StepperFlags, state: bool): (r: StepperFlags)
    ensures r.separateMultiAxis == state
    ensures r.locked == st.locked && r.abortCurrentBlock == st.abortCurrentBlock
  {
    st.(separateMultiAxis := state)
  }

  /** `quick_stop`: only requests the abort of the running block; locks and
      the multi-axis mode are untouched. */
  function QuickStop(st: StepperFlags): (r: StepperFlags)
    ensures r.abortCurrentBlock
    ensures r.locked == st.locked && r.separateMultiAxis == st.separateMultiAxis
  {
    st.(abortCurrentBlock := true)
  }
}
