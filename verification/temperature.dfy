/** The bookkeeping of core/temperature/temperature.cpp that does not depend
    on sensors or PID: the lowest minimum and highest maximum temperature of a
    group of heaters, whether any heater is active, switching every heater
    off, pausing the hotends while probing, the MCU temperature extremes and
    the index into the filament-width measurement ring. */
module Temperature {
  import opened Base

  /** `MAX_TEMP_RANGE`, subtracted from the highest configured maximum. */
  const MaxTempRange: int := 10

  /** Start value of the minimum search. */
  const MinTempStart: int := 9999

  /** One heater as the code above sees it. `active` stands for
      `Heater::isActive()`, `watching` records that `start_watching()` was
      called and `idleTimeout` the idle timer of a hotend (`Some(0)` after
      `start_idle_timer(0)`, `None` after `reset_idle_timer()`); the heater
      class itself is not part of this model. */
  datatype Heater = Heater(mintemp: i16, maxtemp: i16, target: int, active: bool,
                           watching: bool, idleTimeout: Option<nat>)

  datatype Heaters = Heaters(hotends: seq<Heater>, beds: seq<Heater>,
                             chambers: seq<Heater>, coolers: seq<Heater>,
                             autotempEnabled: bool, printJobRunning: bool, paused: bool)

  /** `hotend_mintemp_all` and its bed, chamber and cooler twins over the
      `data.mintemp` of each heater of the group: `9999` lowered by every
      configured minimum in turn. The result is a lower
      bound of every minimum and is either one of them or the start value. */
  function MintempAll(temps: seq<i16>): (r: i16)
    ensures r <= MinTempStart
    ensures forall i :: 0 <= i < |temps| ==> r <= temps[i]
    ensures r == MinTempStart || exists i :: 0 <= i < |temps| && temps[i] == r
  {
    if |temps| == 0 then MinTempStart
    else
      var prev := MintempAll(temps[..|temps| - 1]);
      var last := temps[|temps| - 1];
      assert forall i :: 0 <= i < |temps| - 1 ==> temps[..|temps| - 1][i] == temps[i];
      if prev <= last then prev else last
  }

  /** The running maximum of the `*_maxtemp_all` loops, starting at 0. */
  function MaxOf(temps: seq<i16>): (m: i16)
    ensures m >= 0
    ensures forall i :: 0 <= i < |temps| ==> temps[i] <= m
    ensures m == 0 || exists i :: 0 <= i < |temps| && temps[i] == m
  {
    if |temps| == 0 then 0
    else
      var prev := MaxOf(temps[..|temps| - 1]);
      var last := temps[|temps| - 1];
      assert forall i :: 0 <= i < |temps| - 1 ==> temps[..|temps| - 1][i] == temps[i];
      if prev >= last then prev else last
  }

  /** `hotend_maxtemp_all`, `chamber_maxtemp_all`, `cooler_maxtemp_all`:
      the highest configured maximum (never below 0) less `MAX_TEMP_RANGE`,
      so every heater of the group may be set up to the result plus 10. */
  function MaxtempAll(temps: seq<i16>): (r: i16)
    ensures r >= -MaxTempRange
    ensures forall i :: 0 <= i < |temps| ==> temps[i] <= r + MaxTempRange
    ensures r == -MaxTempRange || exists i :: 0 <= i < |temps| && temps[i] == r + MaxTempRange
  {
    MaxOf(temps) - MaxTempRange
  }

  /** `bed_maxtemp_all` as written: the loop runs over the hotend count
      (`LOOP_HOTEND`) but reads `beds[h]`. With more hotends than beds it
      reads past the bed array, which the model reports as `None`. */
  function BedMaxtempAllAsWritten(hotendCount: nat, beds: seq<i16>): (r: Option<i16>)
    ensures r.Some? <==> hotendCount <= |beds|
    ensures r.Some? ==> r.value == MaxtempAll(beds[..hotendCount])
  {
    if hotendCount <= |beds| then Some(MaxtempAll(beds[..hotendCount])) else None
  }

  /** One hotend and two beds rated 100 and 150: the as-written loop sees
      only the first bed and answers 90, the group's answer is 140. */
  lemma BedMaxtempAllCounterexample()
    ensures BedMaxtempAllAsWritten(1, [100, 150]) == Some(90)
    ensures BedMaxtempAll([100, 150]) == 140
  {
    assert [100, 150][..1] == [100];
    assert [100 as i16, 150][..1] == [100];
    assert MaxOf([100]) == 100 by {
      assert [100 as i16][..0] == [];
    }
    assert [100 as i16, 150][..1] == [100];
    assert MaxOf([100, 150]) == 150;
  }

  /** `bed_maxtemp_all` with the loop over the beds, as for the other
      groups: every bed may be set up to the result plus 10. */
  function BedMaxtempAll(beds: seq<i16>): (r: i16)
    ensures forall i :: 0 <= i < |beds| ==> beds[i] <= r + MaxTempRange
    ensures r == -MaxTempRange || exists i :: 0 <= i < |beds| && beds[i] == r + MaxTempRange
  {
    MaxtempAll(beds)
  }

  /** True when some heater of the list reports itself active. */
  function AnyActive(hs: seq<Heater>): (r: bool)
    ensures r <==> exists i :: 0 <= i < |hs| && hs[i].active
  {
    if |hs| == 0 then false
    else if hs[0].active then true
    else
      assert forall i :: 1 <= i < |hs| ==> hs[1..][i - 1] == hs[i];
      AnyActive(hs[1..])
  }

  /** `heaters_isActive`: hotends, then beds, chambers and coolers, first
      active heater wins. */
  function HeatersIsActive(t: Heaters): (r: bool)
    ensures r <==> exists h :: h in t.hotends + t.beds + t.chambers + t.coolers && h.active
  {
    var all := t.hotends + t.beds + t.chambers + t.coolers;
    var r := AnyActive(t.hotends) || AnyActive(t.beds) || AnyActive(t.chambers) || AnyActive(t.coolers);
    assert r ==> exists h :: h in all && h.active;
    assert (exists h :: h in all && h.active) ==> r by {
      if h :| h in all && h.active {
        assert h in t.hotends || h in t.beds || h in t.chambers || h in t.coolers;
      }
    }
    r
  }

  /** Every heater of a group with target 0 and its watch restarted; the
      configuration of each heater is kept. */
  function SwitchOff(hs: seq<Heater>): (r: seq<Heater>)
    ensures |r| == |hs|
    ensures forall i :: 0 <= i < |hs| ==> r[i] == hs[i].(target := 0, watching := true)
  {
    if |hs| == 0 then [] else [hs[0].(target := 0, watching := true)] + SwitchOff(hs[1..])
  }

  /** `disable_all_heaters`: all targets of all four groups become 0, each
      watch is restarted, autotemp is switched off and the print job
      counter is stopped. `laser.extinguish()` and `probe.probing_pause(false)`
      belong to code outside this model, so the contract says nothing about
      `paused`. */
  function DisableAllHeaters(t: Heaters): (r: Heaters)
    ensures forall h :: h in r.hotends + r.beds + r.chambers + r.coolers ==> h.target == 0 && h.watching
    ensures |r.hotends| == |t.hotends| && |r.beds| == |t.beds|
    ensures |r.chambers| == |t.chambers| && |r.coolers| == |t.coolers|
    ensures forall i :: 0 <= i < |t.hotends| ==>
              r.hotends[i].mintemp == t.hotends[i].mintemp && r.hotends[i].maxtemp == t.hotends[i].maxtemp
    ensures forall i :: 0 <= i < |t.beds| ==>
              r.beds[i].mintemp == t.beds[i].mintemp && r.beds[i].maxtemp == t.beds[i].maxtemp
    ensures forall i :: 0 <= i < |t.chambers| ==>
              r.chambers[i].mintemp == t.chambers[i].mintemp && r.chambers[i].maxtemp == t.chambers[i].maxtemp
    ensures forall i :: 0 <= i < |t.coolers| ==>
              r.coolers[i].mintemp == t.coolers[i].mintemp && r.coolers[i].maxtemp == t.coolers[i].maxtemp
    ensures !r.autotempEnabled && !r.printJobRunning
  {
    var r := t.(hotends := SwitchOff(t.hotends), beds := SwitchOff(t.beds),
                chambers := SwitchOff(t.chambers), coolers := SwitchOff(t.coolers),
                autotempEnabled := false, printJobRunning := false);
    assert forall h :: h in r.hotends + r.beds + r.chambers + r.coolers ==> h.target == 0 && h.watching by {
      forall h | h in r.hotends + r.beds + r.chambers + r.coolers
        ensures h.target == 0 && h.watching
      {
        assert h in r.hotends || h in r.beds || h in r.chambers || h in r.coolers;
      }
    }
    r
  }

  function SetIdle(hs: seq<Heater>, timeout: Option<nat>): (r: seq<Heater>)
    ensures |r| == |hs|
    ensures forall i :: 0 <= i < |hs| ==> r[i] == hs[i].(idleTimeout := timeout)
  {
    if |hs| == 0 then [] else [hs[0].(idleTimeout := timeout)] + SetIdle(hs[1..], timeout)
  }


  /** Switching everything off a second time changes nothing. */
  lemma DisableAllHeatersIdempotent(t: Heaters)
    ensures DisableAllHeaters(DisableAllHeaters(t)) == DisableAllHeaters(t)
  {
    var r := DisableAllHeaters(t);
    SwitchOffIdempotent(r.hotends);
    SwitchOffIdempotent(r.beds);
    SwitchOffIdempotent(r.chambers);
    SwitchOffIdempotent(r.coolers);
  }

  lemma SwitchOffIdempotent(hs: seq<Heater>)
    requires forall h :: h in hs ==> h.target == 0 && h.watching
    ensures SwitchOff(hs) == hs
  {
    var r := SwitchOff(hs);
    forall i | 0 <= i < |hs| ensures r[i] == hs[i] {
      assert hs[i] in hs;
    }
  }
  /** `pause(p)` while probing: a change of the pause state times every
      hotend out at once (pausing) or resets its idle timer (resuming);
      asking for the current state changes nothing. */
  function Pause(t: Heaters, p: bool): (r: Heaters)
    ensures r.paused == p
    ensures p == t.paused ==> r == t
    ensures p != t.paused ==> |r.hotends| == |t.hotends|
    ensures p != t.paused ==>
              forall i :: 0 <= i < |t.hotends| ==>
                (r.hotends[i].idleTimeout == (if p then Some(0) else None) &&
                 r.hotends[i].target == t.hotends[i].target)
    ensures r.beds == t.beds && r.chambers == t.chambers && r.coolers == t.coolers
  {
    if p == t.paused then t
    else t.(paused := p, hotends := SetIdle(t.hotends, if p then Some(0) else None))
  }

  /** The MCU temperature extremes after one reading (`NOLESS`/`NOMORE`). */
  datatype McuExtremes = McuExtremes(highest: real, lowest: real)

  function UpdateMcuExtremes(e: McuExtremes, current: real): (r: McuExtremes)
    ensures r.lowest <= current <= r.highest
    ensures r.highest >= e.highest && (r.highest == e.highest || r.highest == current)
    ensures r.lowest <= e.lowest && (r.lowest == e.lowest || r.lowest == current)
  {
    McuExtremes(MaxR(e.highest, current), MinR(e.lowest, current))
  }

  /** The index of the filament-width measurement used now: the write
      index less the sensor-to-nozzle delay, wrapped once around the ring of
      `MAX_MEASUREMENT_DELAY + 1` entries, then clamped into the ring. */
  function MeasShiftIndex(delayIndex0: int, measDelayCm: int, maxDelay: nat): (r: int)
    ensures 0 <= r <= maxDelay
    ensures 0 <= delayIndex0 <= maxDelay && 0 <= measDelayCm <= maxDelay ==>
              r == (delayIndex0 - measDelayCm) % (maxDelay + 1)
  {
    var idx := delayIndex0 - measDelayCm;
    assert 0 <= delayIndex0 <= maxDelay && 0 <= measDelayCm <= maxDelay ==>
             idx % (maxDelay + 1) == (if idx < 0 then idx + maxDelay + 1 else idx) by {
      if 0 <= delayIndex0 <= maxDelay && 0 <= measDelayCm <= maxDelay {
        ModOnce(idx, maxDelay + 1);
      }
    }
    var idx := if idx < 0 then idx + maxDelay + 1 else idx;
    Clamp(idx, 0, maxDelay)
  }

  /** A value less than one period away from the range `[0, n)` is brought
      into it by adding the period at most once. */
  lemma ModOnce(x: int, n: int)
    requires n > 0 && -n <= x < n
    ensures x % n == (if x < 0 then x + n else x)
  {
    if x < 0 {
      DivUnique(x, n, -1, x + n);
    } else {
      DivUnique(x, n, 0, x);
    }
  }
}
