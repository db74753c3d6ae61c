/** The compare-match interrupt of the AVR servo driver
    (platform/HAL_AVR/servo.cpp, `handle_interrupts`). Each 16-bit timer
    serves up to `SERVOS_PER_TIMER` servos one after another: the interrupt
    ends the pulse of the current channel, starts the pulse of the next one
    and, after the last channel, waits out the refresh period with the
    channel counter at -1.

    `SERVO_INDEX(timer, channel)` is `timer * SERVOS_PER_TIMER + channel`
    as in the Arduino servo library; servo.h is not part of this model. The
    timer counter is read as the value it holds when the interrupt starts
    (or 0 once the handler has reset it); the ticks it advances while the
    handler runs are not modelled. */
module Servo {
  import opened Base

  /** One entry of the `servo_info` table: output pin, pulse width in
      timer ticks and whether the pin is attached. */
  datatype ServoEntry = ServoEntry(pin: nat, ticks: u16, active: bool)

  /** `servos[]` and `ServoCount`, the timer served by this interrupt,
      `SERVOS_PER_TIMER` and `usToTicks(REFRESH_INTERVAL)`. */
  datatype ServoConfig = ServoConfig(servos: seq<ServoEntry>, servoCount: nat, timer: nat,
                                     perTimer: nat, refreshTicks: u16)

  predicate ValidConfig(c: ServoConfig)
  {
    c.servoCount <= |c.servos| && 1 <= c.perTimer < 0x80
  }

  /** `Channel[timer]` with the timer registers `TCNTn` and `OCRnA`. */
  datatype TimerState = TimerState(channel: i8, tcnt: u16, ocr: u16)

  /** `Channel[timer]` is -1 during the refresh wait or a channel of this
      timer. */
  predicate ValidState(c: ServoConfig, s: TimerState)
  {
    -1 <= s.channel < c.perTimer
  }

  datatype PinWrite = PinWrite(pin: nat, high: bool)

  function ServoIndex(c: ServoConfig, channel: nat): nat
  {
    c.timer * c.perTimer + channel
  }

  /** The number of attached servos on this timer. */
  function ChannelsOnTimer(c: ServoConfig): nat
  {
    var base := c.timer * c.perTimer;
    if c.servoCount <= base then 0 else Min(c.perTimer, c.servoCount - base)
  }

  lemma ChannelsOnTimerSpec(c: ServoConfig, ch: nat)
    ensures ch < ChannelsOnTimer(c) <==> (ServoIndex(c, ch) < c.servoCount && ch < c.perTimer)
  {
  }

  datatype Step = Step(state: TimerState, writes: seq<PinWrite>)

  /** One call of `handle_interrupts`. */
  function HandleInterrupt(c: ServoConfig, s: TimerState): (r: Step)
    requires ValidConfig(c) && ValidState(c, s)
    ensures ValidState(c, r.state)
    // the channel advances to the next attached servo of this timer, or to -1
    ensures r.state.channel == (if s.channel + 1 < ChannelsOnTimer(c) then s.channel + 1 else -1)
    // the timer count restarts from 0 after the refresh wait
    ensures r.state.tcnt == (if s.channel < 0 then 0 else s.tcnt)
    // a running pulse of an attached servo is ended first, and no other pin goes low
    ensures (s.channel >= 0 && ServoIndex(c, s.channel) < c.servoCount && c.servos[ServoIndex(c, s.channel)].active) ==>
              |r.writes| >= 1 && r.writes[0] == PinWrite(c.servos[ServoIndex(c, s.channel)].pin, false)
    ensures !(s.channel >= 0 && ServoIndex(c, s.channel) < c.servoCount && c.servos[ServoIndex(c, s.channel)].active) ==>
              forall w :: w in r.writes ==> w.high
    // the next pulse is timed by its width and raised only on an attached pin
    ensures r.state.channel >= 0 ==>
              var e := c.servos[ServoIndex(c, r.state.channel)];
              r.state.ocr == Wrap16(r.state.tcnt + e.ticks) &&
              (e.active <==> PinWrite(e.pin, true) in r.writes)
    // the refresh wait lasts until the refresh tick count, or at least 4 ticks
    ensures r.state.channel == -1 ==>
              r.state.ocr == (if Wrap16(r.state.tcnt + 4) < c.refreshTicks then c.refreshTicks
                              else Wrap16(r.state.tcnt + 4))
    ensures |r.writes| <= 2 && forall w :: w in r.writes && w.high ==> r.state.channel >= 0
  {
    var tcnt: u16 := if s.channel < 0 then 0 else s.tcnt;
    var low: seq<PinWrite> :=
      if s.channel >= 0 && ServoIndex(c, s.channel) < c.servoCount && c.servos[ServoIndex(c, s.channel)].active
      then [PinWrite(c.servos[ServoIndex(c, s.channel)].pin, false)] else [];
    var next: int := s.channel + 1;
    ChannelsOnTimerSpec(c, next);
    if ServoIndex(c, next) < c.servoCount && next < c.perTimer then
      var e := c.servos[ServoIndex(c, next)];
      var high := if e.active then [PinWrite(e.pin, true)] else [];
      Step(TimerState(next, tcnt, Wrap16(tcnt + e.ticks)), low + high)
    else
      var ocr := if Wrap16(tcnt + 4) < c.refreshTicks then c.refreshTicks else Wrap16(tcnt + 4);
      Step(TimerState(-1, tcnt, ocr), low)
  }

  /** `n` interrupts in a row; the counter value seen by each one is not
      tracked, only the channel sequence. */
  function Run(c: ServoConfig, s: TimerState, n: nat): (r: TimerState)
    requires ValidConfig(c) && ValidState(c, s)
    ensures ValidState(c, r)
    decreases n
  {
    if n == 0 then s else Run(c, HandleInterrupt(c, s).state, n - 1)
  }

  /** From the refresh wait, the interrupts walk through the attached
      channels of the timer in order, one per interrupt, and return to the
      refresh wait right after the last one. */
  lemma {:induction false} ChannelCycle(c: ServoConfig, s: TimerState, j: nat)
    requires ValidConfig(c) && ValidState(c, s) && s.channel == -1
    requires j <= ChannelsOnTimer(c)
    ensures j >= 1 ==> Run(c, s, j).channel == j - 1
    ensures j == ChannelsOnTimer(c) ==> Run(c, s, j + 1).channel == -1
  {
    if j >= 1 {
      RunFrom(c, s, j - 1);
    }
    if j == ChannelsOnTimer(c) {
      RunFrom(c, s, j);
    }
  }

  lemma {:induction false} RunFrom(c: ServoConfig, s: TimerState, j: nat)
    requires ValidConfig(c) && ValidState(c, s) && s.channel == -1
    requires j <= ChannelsOnTimer(c)
    ensures Run(c, s, j + 1).channel == (if j < ChannelsOnTimer(c) then j else -1)
  {
    if j == 0 {
      assert Run(c, s, 1) == Run(c, HandleInterrupt(c, s).state, 0);
    } else {
      RunFrom(c, s, j - 1);
      RunSplit(c, s, j);
      var t := Run(c, s, j);
      assert t.channel == j - 1;
      assert Run(c, t, 1) == Run(c, HandleInterrupt(c, t).state, 0);
    }
  }

  lemma {:induction false} RunSplit(c: ServoConfig, s: TimerState, n: nat)
    requires ValidConfig(c) && ValidState(c, s)
    ensures Run(c, s, n + 1) == Run(c, Run(c, s, n), 1)
    decreases n
  {
    if n == 0 {
      assert Run(c, s, 0) == s;
    } else {
      var t := HandleInterrupt(c, s).state;
      RunSplit(c, t, n - 1);
      assert Run(c, s, n + 1) == Run(c, t, n);
      assert Run(c, s, n) == Run(c, t, n - 1);
    }
  }
}
