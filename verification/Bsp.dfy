/** bsp/src/bsp.c: the 180 MHz bring-up of the NUCLEO-F446RE. */
module Bsp {
  import opened Status
  import opened ClockState
  import opened ClockHw
  import Flash
  import Pwr
  import Rcc

  const PLL_M: u32 := 8
  const PLL_N: u32 := 360
  const PLL_P_DIV2: u32 := 0
  const FLASH_LATENCY: u32 := 5
  const HPRE_DIV1: u32 := 0
  const PPRE_DIV2: u32 := 4
  const PPRE_DIV4: u32 := 5

  /** The configurations a completed bring-up goes through, one per write. */
  function BringUp(d: Config): (plan: seq<Config>)
    ensures |plan| == 12
  {
    var c1 := Rcc.PwrClocked(d);
    var c2 := Rcc.HseBypass(c1, true);
    var c3 := Rcc.HseSet(c2, true);
    var c4 := Pwr.WithVos(c3, VOS_SCALE1);
    var c5 := Rcc.WithPll(c4, Rcc.PLLSRC_HSE, PLL_M, PLL_N, PLL_P_DIV2);
    var c6 := Rcc.PllSet(c5, true);
    var c7 := Pwr.WithOden(c6);
    var c8 := Pwr.WithOdswen(c7);
    var c9 := Rcc.WithPrescalers(c8, HPRE_DIV1, PPRE_DIV4, PPRE_DIV2);
    var c10 := Flash.WithLatency(c9, FLASH_LATENCY);
    var c11 := Rcc.WithSw(c10, SYSCLK_PLL);
    [c1, c2, c3, c4, c5, c6, c7, c8, c9, c10, c11, Flash.CachesOn(c11)]
  }

  // Positions in the plan.
  const HSE_ON: nat := 2
  const PLL_ON: nat := 5
  const OD_ON: nat := 6
  const OD_SWITCHED: nat := 7
  const LATENCY_RAISED: nat := 9
  const SWITCHED: nat := 10

  /** The registers the documented starting point pins down: HSE and the PLL off,
      and fewer wait states than the bring-up asks for. */
  predicate Startable(d: Config) {
    !d.cr.hseon && !d.cr.pllon && d.acr.latency < 5
  }

  /** How far each outcome gets, and that every write before the end is taken. */
  ghost predicate Outcome(d: Config, status: DriverStatus, ws: seq<Write>, after: Config) {
    var plan := BringUp(d);
    && 1 <= |ws| <= 12
    && (status.Ok? <==> |ws| == 12)
    && (status.HwFault? ==>
          && |ws| == LATENCY_RAISED + 1 && Performs(ws[..LATENCY_RAISED], d, plan[..LATENCY_RAISED])
          && ws[LATENCY_RAISED].before.drv == plan[LATENCY_RAISED - 1]
          && ws[LATENCY_RAISED].want == plan[LATENCY_RAISED] && Refused(ws[LATENCY_RAISED])
          && after == plan[LATENCY_RAISED - 1])
    && (!status.HwFault? ==> Performs(ws, d, plan[..|ws|]) && after == plan[|ws| - 1])
    && (status.NotInitialized? ==> |ws| == LATENCY_RAISED + 1)
    && (status.Timeout? ==> |ws| - 1 in {HSE_ON, PLL_ON, OD_ON, OD_SWITCHED, SWITCHED})
    && !status.Busy? && !status.InvalidParam?
  }

  /* ---- why a bring-up stops ---- */

  /** The reads from number `n` on are a poll of the flag that gave up on it. */
  ghost predicate TimedOut(loads: seq<Reading>, n: nat, f: Flag)
    requires n <= |loads|
  {
    if RegisterOf(f) == CR then Rcc.Polled(loads[n..], f, true, Timeout) else Pwr.PolledSet(loads[n..], f, Timeout)
  }

  /** The reads end with such a poll, begun at read number `from` or later. */
  ghost predicate GaveUp(loads: seq<Reading>, from: nat, f: Flag) {
    exists n :: from <= n < |loads| && TimedOut(loads, n, f)
  }

  /** The same for a poll of SWS that waits for the PLL. */
  ghost predicate SwitchTimedOut(loads: seq<Reading>, n: nat)
    requires n <= |loads|
  {
    Rcc.PolledSws(loads[n..], SYSCLK_PLL, false)
  }

  ghost predicate SwitchGaveUp(loads: seq<Reading>, from: nat) {
    exists n :: from <= n < |loads| && SwitchTimedOut(loads, n)
  }

  /** The last read, number `from` or later, was of CR and did not show the lock. */
  ghost predicate Unlocked(loads: seq<Reading>, from: nat) {
    from < |loads| && loads[|loads| - 1].reg == CR && PLLRDY !in loads[|loads| - 1].s.flags
  }

  /** TIMEOUT means that the flag which the last write lets rise, or SWS after the
      request for the PLL, was polled after that write to the end and in vain.
      NOT_INITIALIZED means that CR was read last, without the lock. `k` is the
      position of the last write and `from` the number of reads made before it. */
  ghost predicate Cause(status: DriverStatus, k: nat, from: nat, loads: seq<Reading>) {
    && (status.Timeout? ==>
          || (k == HSE_ON && GaveUp(loads, from, HSERDY))
          || (k == PLL_ON && LockGaveUp(loads, from))
          || (k == OD_ON && GaveUp(loads, from, ODRDY))
          || (k == OD_SWITCHED && GaveUp(loads, from, ODSWRDY))
          || (k == SWITCHED && SwitchGaveUp(loads, from)))
    && (status.NotInitialized? ==> k == LATENCY_RAISED && Unlocked(loads, 0))
  }

  ghost predicate Caused(status: DriverStatus, ws: seq<Write>, loads: seq<Reading>) {
    ws != [] && Cause(status, |ws| - 1, ws[|ws| - 1].readsSoFar, loads)
  }

  lemma GaveUpAtEnd(before: seq<Reading>, rs: seq<Reading>, n: nat, f: Flag)
    requires n < |rs|
    requires if RegisterOf(f) == CR then Rcc.Polled(rs[n..], f, true, Timeout) else Pwr.PolledSet(rs[n..], f, Timeout)
    ensures GaveUp(before + rs, |before| + n, f)
  {
    hide Rcc.Polled, Pwr.PolledSet;
    assert (before + rs)[|before| + n..] == rs[n..];
    assert TimedOut(before + rs, |before| + n, f);
  }

  lemma SwitchGaveUpAtEnd(before: seq<Reading>, rs: seq<Reading>, n: nat)
    requires n < |rs| && Rcc.PolledSws(rs[n..], SYSCLK_PLL, false)
    ensures SwitchGaveUp(before + rs, |before| + n)
  {
    hide Rcc.PolledSws;
    assert (before + rs)[|before| + n..] == rs[n..];
    assert SwitchTimedOut(before + rs, |before| + n);
  }

  lemma GaveUpEarlier(loads: seq<Reading>, from: nat, since: nat, f: Flag)
    requires GaveUp(loads, from, f) && since <= from
    ensures GaveUp(loads, since, f)
  {
    hide TimedOut;
  }

  /* ---- one lemma per step: where its writes leave the plan ---- */

  /** The first `k` configurations of the plan are written and `now` is in force. */
  ghost predicate At(d: Config, k: nat, ws: seq<Write>, now: Config) {
    1 <= k <= 12 && |ws| == k && Performs(ws, d, BringUp(d)[..k]) && now == BringUp(d)[k - 1]
  }

  lemma Advance(d: Config, k: nat, ws: seq<Write>, now: Config, w: seq<Write>, next: seq<Config>)
    requires At(d, k, ws, now) && k + |next| <= 12 && next == BringUp(d)[k..k + |next|]
    requires Performs(w, now, next)
    ensures At(d, k + |next|, ws + w, Prior(now, next, |next|))
  {
    hide Moves;
    assert Prior(d, BringUp(d)[..k], k) == now;
    assert BringUp(d)[..k] + next == BringUp(d)[..k + |next|];
    PerformsAppend(ws, d, BringUp(d)[..k], w, next);
  }

  lemma LatencyIsLow(d: Config, ws: seq<Write>, now: Config)
    requires Startable(d) && At(d, 9, ws, now)
    ensures Rcc.Raises(now, FLASH_LATENCY)
  {
  }

  lemma PllIsOff(d: Config, ws: seq<Write>, now: Config)
    requires Startable(d) && At(d, 4, ws, now)
    ensures !now.cr.pllon
  {
  }

  lemma Begun(d: Config, ws: seq<Write>)
    requires Performs(ws, d, [Rcc.PwrClocked(d)])
    ensures At(d, 1, ws, Rcc.PwrClocked(d))
  {
    assert BringUp(d)[..1] == [Rcc.PwrClocked(d)];
  }

  lemma AfterHse(d: Config, ws: seq<Write>, now: Config, w: seq<Write>, next: Config)
    requires At(d, 1, ws, now) && next == Rcc.HseSet(Rcc.HseBypass(now, true), true)
    requires Performs(w, now, [Rcc.HseBypass(now, true), next])
    ensures At(d, 3, ws + w, next)
  {
    Advance(d, 1, ws, now, w, [Rcc.HseBypass(now, true), next]);
  }

  lemma AfterOne(d: Config, k: nat, ws: seq<Write>, now: Config, w: seq<Write>, next: Config)
    requires At(d, k, ws, now) && k < 12 && next == BringUp(d)[k] && Performs(w, now, [next])
    ensures At(d, k + 1, ws + w, next)
  {
    Advance(d, k, ws, now, w, [next]);
  }

  lemma AfterVos(d: Config, ws: seq<Write>, now: Config, w: seq<Write>)
    requires At(d, 3, ws, now) && Performs(w, now, [Pwr.WithVos(now, VOS_SCALE1)])
    ensures At(d, 4, ws + w, Pwr.WithVos(now, VOS_SCALE1))
  {
    AfterOne(d, 3, ws, now, w, Pwr.WithVos(now, VOS_SCALE1));
  }

  lemma AfterPllConfig(d: Config, ws: seq<Write>, now: Config, w: seq<Write>, next: Config)
    requires At(d, 4, ws, now) && next == Rcc.WithPll(now, Rcc.PLLSRC_HSE, PLL_M, PLL_N, PLL_P_DIV2)
    requires Performs(w, now, [next])
    ensures At(d, 5, ws + w, next)
  {
    AfterOne(d, 4, ws, now, w, next);
  }

  lemma AfterPll(d: Config, ws: seq<Write>, now: Config, w: seq<Write>)
    requires At(d, 5, ws, now) && Performs(w, now, [Rcc.PllSet(now, true)])
    ensures At(d, 6, ws + w, Rcc.PllSet(now, true))
  {
    AfterOne(d, 5, ws, now, w, Rcc.PllSet(now, true));
  }

  lemma AfterOverdrive(d: Config, ws: seq<Write>, now: Config, w: seq<Write>)
    requires At(d, 6, ws, now) && 1 <= |w| <= 2 && Performs(w, now, Pwr.OverdrivePlan(now)[..|w|])
    ensures At(d, 6 + |w|, ws + w, Pwr.OverdrivePlan(now)[|w| - 1])
  {
    Advance(d, 6, ws, now, w, Pwr.OverdrivePlan(now)[..|w|]);
  }

  lemma AfterPrescalers(d: Config, ws: seq<Write>, now: Config, w: seq<Write>)
    requires At(d, 8, ws, now) && Performs(w, now, [Rcc.WithPrescalers(now, HPRE_DIV1, PPRE_DIV4, PPRE_DIV2)])
    ensures At(d, 9, ws + w, Rcc.WithPrescalers(now, HPRE_DIV1, PPRE_DIV4, PPRE_DIV2))
  {
    AfterOne(d, 8, ws, now, w, Rcc.WithPrescalers(now, HPRE_DIV1, PPRE_DIV4, PPRE_DIV2));
  }

  lemma AfterSwitch(d: Config, ws: seq<Write>, now: Config, status: DriverStatus, w: seq<Write>, after: Config)
    requires Startable(d) && At(d, 9, ws, now)
    requires Rcc.SwitchWrites(now, SYSCLK_PLL, FLASH_LATENCY, status, w, after)
    ensures |ws| == 9 && w != []
    ensures status.Ok? ==> At(d, 11, ws + w, after) && |w| == 2
    ensures !status.Ok? ==> Outcome(d, status, ws + w, after)
  {
    var plan := BringUp(d);
    assert w[0].want == plan[9];
    if status.Ok? || status.Timeout? {
      Advance(d, 9, ws, now, w, [plan[9], plan[10]]);
    } else if status.NotInitialized? {
      AfterOne(d, 9, ws, now, w, plan[9]);
    } else {
      assert (ws + w)[..9] == ws && (ws + w)[9] == w[0];
    }
  }

  lemma SwitchStopped(d: Config, status: DriverStatus, ws: seq<Write>, w: seq<Write>, after: Config,
                      loads: seq<Reading>)
    requires Outcome(d, status, ws + w, after) && |ws| == 9 && w != []
    requires status.Timeout? ==> SwitchGaveUp(loads, w[|w| - 1].readsSoFar)
    requires status.NotInitialized? ==> Unlocked(loads, 0)
    ensures Caused(status, ws + w, loads)
  {
    hide GaveUp, SwitchGaveUp, Unlocked;
  }

  lemma AfterCaches(d: Config, ws: seq<Write>, now: Config, w: seq<Write>)
    requires At(d, 11, ws, now) && Performs(w, now, [Flash.CachesOn(now)])
    ensures At(d, 12, ws + w, Flash.CachesOn(now)) && Outcome(d, Ok, ws + w, Flash.CachesOn(now))
  {
    AfterOne(d, 11, ws, now, w, Flash.CachesOn(now));
  }

  lemma Stopped(d: Config, k: nat, ws: seq<Write>, now: Config, loads: seq<Reading>)
    requires At(d, k, ws, now) && Cause(Timeout, k - 1, ws[k - 1].readsSoFar, loads)
    ensures Outcome(d, Timeout, ws, now) && Caused(Timeout, ws, loads)
  {
    hide GaveUp, SwitchGaveUp;
  }

  /** Where a stretch of the bring-up that starts at step `k` leaves the plan:
      at step `next`, or stopped with a cause. Says nothing about other starting
      points. */
  ghost predicate Progress(d: Config, k: nat, next: nat, ws: seq<Write>, from: Config,
                           status: DriverStatus, w: seq<Write>, now: Config, loads: seq<Reading>) {
    Startable(d) && At(d, k, ws, from) ==>
      if status.Ok? then At(d, next, ws + w, now)
      else Outcome(d, status, ws + w, now) && Caused(status, ws + w, loads)
  }

  lemma Join(d: Config, k: nat, next: nat, ws: seq<Write>, from: Config, status: DriverStatus, w: seq<Write>,
             now: Config, loads: seq<Reading>)
    requires Progress(d, k, next, ws, from, status, w, now, loads)
    ensures Startable(d) && At(d, k, ws, from) ==>
      && |ws| == k
      && (status.Ok? ==> At(d, next, ws + w, now) && |ws + w| == next)
      && (!status.Ok? || next == 12 ==> Outcome(d, status, ws + w, now))
      && (!status.Ok? ==> Caused(status, ws + w, loads))
  {
    hide Caused;
  }

  /* ---- the bring-up, in four stretches ---- */

  /** PWR clock, HSE, voltage scale. */
  method PowerAndHse(hw: ClockRegisters) returns (status: DriverStatus, ghost ws: seq<Write>, ghost rs: seq<Reading>)
    requires hw.Valid()
    modifies hw
    ensures Ran(hw, ws, rs) && hw.s.drv.pwren && hw.s.drv.cr.hseon
    ensures status.Busy? <==> old(hw.s).drv.cr.hseon
    ensures hw.s.drv.cr.pllon == old(hw.s).drv.cr.pllon
    ensures (status.Ok? || status.Timeout? || status.Busy?) && |ws| <= 4
    ensures status.Busy? ==> |ws| == 1 && hw.s.drv == Rcc.PwrClocked(old(hw.s).drv)
    ensures status.Timeout? ==> |ws| == 3 && GaveUp(hw.loads, ws[2].readsSoFar, HSERDY)
    ensures status.Ok? ==> |ws| == 4 && ReadSet(hw.loads, ws[2].readsSoFar, |hw.loads|, HSERDY)
    ensures Startable(old(hw.s).drv) ==>
      if status.Ok? then At(old(hw.s).drv, 4, ws, hw.s.drv)
      else Outcome(old(hw.s).drv, status, ws, hw.s.drv) && Caused(status, ws, hw.loads)
    ensures |rs| <= Rcc.WAIT_READS + 6
  {
    hide Chain, ClockRegisters.Valid, Performs, BringUp, At, Outcome, EnvReach, Rcc.Polled, GaveUp, Caused, ReadSet;
    ghost var d := hw.s.drv;
    ghost var w, r;
    ws, rs := Rcc.PwrClockEnable(hw);
    ghost var now := hw.s.drv;
    Begun(d, ws);
    ghost var clocked := hw.loads;
    status, w, r := Rcc.HseEnable(hw, Rcc.CR_HSEBYP);
    if status.Timeout? { GaveUpAtEnd(clocked, r, 3, HSERDY); }
    if Startable(d) {
      AfterHse(d, ws, now, w, hw.s.drv);
      if !status.Ok? { Stopped(d, 3, ws + w, hw.s.drv, hw.loads); }
    }
    ws, rs, now := ws + w, rs + r, hw.s.drv;
    if status.Ok? {
      ghost var ready := hw.loads;
      status, w, r := Pwr.SetVoltageScale(hw, VOS_SCALE1);
      if Startable(d) { AfterVos(d, ws, now, w); }
      ReadSetStays(ready, ws[2].readsSoFar, |ready|, HSERDY, hw.loads, ws[2].readsSoFar, |hw.loads|);
      ws, rs := ws + w, rs + r;
    }
  }

  /** The lock or the voltage scale did not come. */
  ghost predicate LockGaveUp(loads: seq<Reading>, from: nat) {
    GaveUp(loads, from, PLLRDY) || GaveUp(loads, from, VOSRDY)
  }

  /** PLLON, lock, voltage scale ready. */
  method LockPll(hw: ClockRegisters)
    returns (status: DriverStatus, ghost ws: seq<Write>, ghost rs: seq<Reading>)
    requires hw.Valid()
    modifies hw
    ensures Ran(hw, ws, rs) && |ws| == 1 && Performs(ws, old(hw.s).drv, [Rcc.PllSet(old(hw.s).drv, true)])
    ensures hw.s.drv == Rcc.PllSet(old(hw.s).drv, true)
    ensures status.Ok? ==>
      && ReadSet(hw.loads, ws[0].readsSoFar, |hw.loads|, PLLRDY)
      && ReadSet(hw.loads, ws[0].readsSoFar, |hw.loads|, VOSRDY)
      && (hw.steady ==> PLLRDY in hw.s.flags)
    ensures ws[0].readsSoFar == |old(hw.loads)| + 1
    ensures status.Timeout? ==> LockGaveUp(hw.loads, ws[0].readsSoFar)
    ensures (status.Ok? || status.Timeout?) && |rs| <= 2 * Rcc.WAIT_READS + 1
  {
    hide Chain, ClockRegisters.Valid, Performs, Rcc.Polled, Pwr.PolledSet, ReadSet, EnvReach, GaveUp;
    status, ws, rs := Rcc.PllEnable(hw);
    if status.Timeout? { GaveUpAtEnd(old(hw.loads), rs, 1, PLLRDY); }
    if status.Ok? {
      ghost var locked, seen, r := hw.s, hw.loads, [];
      status, r := Pwr.WaitVoltageScaleReady(hw);
      EnvKeepsLock(locked, hw.s, hw.steady);
      ReadSetStays(seen, ws[0].readsSoFar, |seen|, PLLRDY, hw.loads, ws[0].readsSoFar, |hw.loads|);
      if status.Ok? {
        ReadSetStays(hw.loads, |seen|, |hw.loads|, VOSRDY, hw.loads, ws[0].readsSoFar, |hw.loads|);
      } else {
        GaveUpAtEnd(seen, r, 0, VOSRDY);
        GaveUpEarlier(hw.loads, |seen|, ws[0].readsSoFar, VOSRDY);
      }
      rs := rs + r;
    }
  }

  /** PLL configuration, then the above. */
  method StartPll(hw: ClockRegisters, ghost d: Config, ghost ws0: seq<Write>)
    returns (status: DriverStatus, ghost ws: seq<Write>, ghost rs: seq<Reading>)
    requires hw.Valid()
    modifies hw
    ensures Ran(hw, ws, rs) && hw.s.drv.pwren == old(hw.s).drv.pwren && hw.s.drv.cr.hseon == old(hw.s).drv.cr.hseon
    ensures Progress(d, 4, 6, ws0, old(hw.s).drv, status, ws, hw.s.drv, hw.loads)
    ensures |ws| == 2 ==> ws[1].readsSoFar > |old(hw.loads)|
    ensures status.Timeout? ==> |ws| == 2 && LockGaveUp(hw.loads, ws[1].readsSoFar)
    ensures status.Ok? ==>
      && |ws| == 2
      && ReadSet(hw.loads, ws[1].readsSoFar, |hw.loads|, PLLRDY)
      && ReadSet(hw.loads, ws[1].readsSoFar, |hw.loads|, VOSRDY)
      && (hw.steady ==> hw.s.drv.cr.pllon && PLLRDY in hw.s.flags)
    ensures (status.Ok? || status.Timeout? || status.Busy?) && |ws| <= 2
    ensures status.Busy? <==> old(hw.s).drv.cr.pllon
    ensures |rs| <= 2 * Rcc.WAIT_READS + 3
  {
    hide Chain, ClockRegisters.Valid, Performs, BringUp, At, Outcome, ReadSet, EnvReach, LockGaveUp, Caused;
    ghost var starts, now := Startable(d) && At(d, 4, ws0, hw.s.drv), hw.s.drv;
    if starts { PllIsOff(d, ws0, now); }
    ghost var w, r;
    status, ws, rs := Rcc.PllConfig(hw, Rcc.PLLSRC_HSE, PLL_M, PLL_N, PLL_P_DIV2);
    if status.Ok? {
      if starts { AfterPllConfig(d, ws0, now, ws, hw.s.drv); }
      ghost var ws1 := ws0 + ws;
      now := hw.s.drv;
      status, w, r := LockPll(hw);
      if starts { AfterPll(d, ws1, now, w); }
      assert ws1 + w == ws0 + (ws + w);
      ws, rs := ws + w, rs + r;
      if starts && !status.Ok? { Stopped(d, 6, ws0 + ws, hw.s.drv, hw.loads); }
    }
  }

  /** Over-drive, bus prescalers. */
  method RaisePower(hw: ClockRegisters, ghost d: Config, ghost ws0: seq<Write>)
    returns (status: DriverStatus, ghost ws: seq<Write>, ghost rs: seq<Reading>)
    requires hw.Valid() && hw.s.drv.pwren
    modifies hw
    ensures Ran(hw, ws, rs) && KeepsLock(old(hw.s), hw.s, hw.steady)
    ensures hw.s.drv.pwren && hw.s.drv.cr.hseon == old(hw.s).drv.cr.hseon
    ensures Progress(d, 6, 9, ws0, old(hw.s).drv, status, ws, hw.s.drv, hw.loads)
    ensures (status.Ok? || status.Timeout?) && 1 <= |ws| <= 3 && (status.Ok? ==> |ws| == 3)
    ensures status.Timeout? ==>
      |ws| <= 2 && GaveUp(hw.loads, ws[|ws| - 1].readsSoFar, if |ws| == 1 then ODRDY else ODSWRDY)
    ensures |ws| >= 2 ==> ReadSet(hw.loads, ws[0].readsSoFar, ws[1].readsSoFar, ODRDY)
    ensures status.Ok? ==> ReadSet(hw.loads, ws[1].readsSoFar, |hw.loads|, ODSWRDY)
    ensures |rs| <= 2 * Rcc.WAIT_READS + 3
  {
    hide Chain, ClockRegisters.Valid, Performs, BringUp, At, Outcome, Pwr.PolledSet, ReadSet, EnvReach, GaveUp, Caused;
    ghost var starts, now := Startable(d) && At(d, 6, ws0, hw.s.drv), hw.s.drv;
    ghost var od, sw;
    status, ws, rs, od, sw := Pwr.EnableOverdrive(hw);
    if status.Timeout? {
      if |ws| == 1 {
        GaveUpAtEnd(old(hw.loads), rs, 1, ODRDY);
      } else {
        GaveUpAtEnd(old(hw.loads), rs, 2 + |od|, ODSWRDY);
      }
    }
    if starts {
      AfterOverdrive(d, ws0, now, ws);
      if !status.Ok? { Stopped(d, 6 + |ws|, ws0 + ws, hw.s.drv, hw.loads); }
    }
    if status.Ok? {
      ghost var ws1, w, r, seen := ws0 + ws, [], [], hw.loads;
      now := hw.s.drv;
      status, w, r := Rcc.BusPrescalerConfig(hw, HPRE_DIV1, PPRE_DIV4, PPRE_DIV2);
      if starts { AfterPrescalers(d, ws1, now, w); }
      ReadSetStays(seen, ws[0].readsSoFar, ws[1].readsSoFar, ODRDY, hw.loads, ws[0].readsSoFar, ws[1].readsSoFar);
      ReadSetStays(seen, ws[1].readsSoFar, |seen|, ODSWRDY, hw.loads, ws[1].readsSoFar, |hw.loads|);
      assert ws1 + w == ws0 + (ws + w);
      ws, rs := ws + w, rs + r;
    }
  }

  /** What a switch to the PLL leaves alone, and why it stops. */
  lemma SwitchCause(s: Clk, status: DriverStatus, ws: seq<Write>, rs: seq<Reading>, poll: seq<Reading>,
                    before: seq<Reading>, t: Clk)
    requires Rcc.Switched(SYSCLK_PLL, FLASH_LATENCY, s, status, ws, rs, poll, |before|, t)
    ensures t.drv.pwren == s.drv.pwren && t.drv.cr.hseon == s.drv.cr.hseon
    ensures status.Timeout? ==> ws != [] && SwitchGaveUp(before + rs, ws[|ws| - 1].readsSoFar)
    ensures status.NotInitialized? ==> Unlocked(before + rs, |before|)
    ensures status.Ok? ==> t.sws == SYSCLK_PLL == t.drv.cfgr.sw
    ensures |rs| <= Rcc.WAIT_READS + 5
  {
    hide SwitchGaveUp;
    Rcc.SwitchFrame(s.drv, SYSCLK_PLL, FLASH_LATENCY, status, ws, t.drv);
    if status.Timeout? {
      Rcc.TimedOutSwitch(s.drv, SYSCLK_PLL, FLASH_LATENCY, ws, rs, poll, |before|, t.drv);
      hide *;
      SwitchGaveUpAtEnd(before, rs, |rs| - |poll|);
    } else if status.NotInitialized? {
      Rcc.UnreadySwitch(s.drv, SYSCLK_PLL, FLASH_LATENCY, ws, rs, poll, |before|);
    }
  }

  lemma SwitchProgress(d: Config, ws0: seq<Write>, s: Clk, status: DriverStatus, ws: seq<Write>, rs: seq<Reading>,
                       poll: seq<Reading>, before: seq<Reading>, t: Clk)
    requires Rcc.Switched(SYSCLK_PLL, FLASH_LATENCY, s, status, ws, rs, poll, |before|, t)
    ensures Progress(d, 9, 11, ws0, s.drv, status, ws, t.drv, before + rs)
    ensures Startable(d) && At(d, 9, ws0, s.drv) ==>
      && (|ws| >= 2 ==> ws[1].readsSoFar >= |before|)
      && (status.Ok? ==> |ws| == 2)
  {
    hide At, Outcome, BringUp, Rcc.SwitchWrites, Caused, SwitchGaveUp;
    SwitchCause(s, status, ws, rs, poll, before, t);
    if Startable(d) && At(d, 9, ws0, s.drv) {
      LatencyIsLow(d, ws0, s.drv);
      AfterSwitch(d, ws0, s.drv, status, ws, t.drv);
      if !status.Ok? { SwitchStopped(d, status, ws0, ws, t.drv, before + rs); }
    }
  }

  /** The SYSCLK switch. */
  method RequestPll(hw: ClockRegisters, ghost d: Config, ghost ws0: seq<Write>)
    returns (status: DriverStatus, ghost ws: seq<Write>, ghost rs: seq<Reading>)
    requires hw.Valid()
    modifies hw
    ensures Ran(hw, ws, rs)
    ensures hw.s.drv.pwren == old(hw.s).drv.pwren && hw.s.drv.cr.hseon == old(hw.s).drv.cr.hseon
    ensures Progress(d, 9, 11, ws0, old(hw.s).drv, status, ws, hw.s.drv, hw.loads)
    ensures Startable(d) && At(d, 9, ws0, old(hw.s).drv) ==>
      && (|ws| >= 2 ==> ws[1].readsSoFar >= |old(hw.loads)|)
      && (status.Ok? ==> |ws| == 2)
    ensures status.NotInitialized? && old(hw.s).drv.cr.pllon && PLLRDY in old(hw.s).flags ==> !hw.steady
    ensures status.Timeout? ==> ws != [] && SwitchGaveUp(hw.loads, ws[|ws| - 1].readsSoFar)
    ensures status.NotInitialized? ==> Unlocked(hw.loads, |old(hw.loads)|)
    ensures status.Ok? ==> hw.s.sws == SYSCLK_PLL == hw.s.drv.cfgr.sw
    ensures |rs| <= Rcc.WAIT_READS + 5
  {
    hide Chain, ClockRegisters.Valid, Performs, BringUp, At, Outcome, EnvReach, Rcc.Switched, SwitchGaveUp, Unlocked,
         Caused, Progress;
    ghost var s, poll := hw.s, [];
    status, ws, rs, poll := Rcc.SysclkSwitch(hw, SYSCLK_PLL, FLASH_LATENCY);
    SwitchCause(s, status, ws, rs, poll, old(hw.loads), hw.s);
    SwitchProgress(d, ws0, s, status, ws, rs, poll, old(hw.loads), hw.s);
  }

  /** SYSCLK switch, caches. */
  method SwitchToPll(hw: ClockRegisters, ghost d: Config, ghost ws0: seq<Write>)
    returns (status: DriverStatus, ghost ws: seq<Write>, ghost rs: seq<Reading>)
    requires hw.Valid()
    modifies hw
    ensures Ran(hw, ws, rs)
    ensures hw.s.drv.pwren == old(hw.s).drv.pwren && hw.s.drv.cr.hseon == old(hw.s).drv.cr.hseon
    ensures Progress(d, 9, 12, ws0, old(hw.s).drv, status, ws, hw.s.drv, hw.loads)
    ensures Startable(d) && At(d, 9, ws0, old(hw.s).drv) && |ws| >= 2 ==> ws[1].readsSoFar >= |old(hw.loads)|
    ensures status.NotInitialized? && old(hw.s).drv.cr.pllon && PLLRDY in old(hw.s).flags ==> !hw.steady
    ensures status.Timeout? ==> ws != [] && SwitchGaveUp(hw.loads, ws[|ws| - 1].readsSoFar)
    ensures status.NotInitialized? ==> Unlocked(hw.loads, |old(hw.loads)|)
    ensures status.Ok? ==> hw.s.sws == SYSCLK_PLL
    ensures |rs| <= Rcc.WAIT_READS + 6
  {
    hide Chain, ClockRegisters.Valid, Performs, BringUp, At, Outcome, EnvReach, SwitchGaveUp, Unlocked, Caused;
    ghost var from := hw.s.drv;
    status, ws, rs := RequestPll(hw, d, ws0);
    Join(d, 9, 11, ws0, from, status, ws, hw.s.drv, hw.loads);
    if status.Ok? {
      ghost var ws1, w, r := ws0 + ws, [], [];
      ghost var now := hw.s.drv;
      w, r := Flash.EnableCaches(hw);
      if Startable(d) && At(d, 9, ws0, from) { AfterCaches(d, ws1, now, w); }
      assert ws1 + w == ws0 + (ws + w);
      ws, rs := ws + w, rs + r;
    }
  }

  /** Every ready flag was read set after the write that lets it rise and before the
      write that depends on it. `ws` are the writes that follow PLLON, which was
      written when `locking` reads had been made. */
  ghost predicate SeenBefore(ws: seq<Write>, locking: nat, loads: seq<Reading>) {
    && (|ws| >= 2 ==> ReadSet(loads, ws[0].readsSoFar, ws[1].readsSoFar, ODRDY))
    && (|ws| >= 5 ==>
          && ReadSet(loads, locking, ws[4].readsSoFar, PLLRDY)
          && ReadSet(loads, locking, ws[4].readsSoFar, VOSRDY)
          && ReadSet(loads, ws[1].readsSoFar, ws[4].readsSoFar, ODSWRDY))
  }

  /** The same for a whole run, HSERDY and PLLON included. */
  ghost predicate SeenInTime(ws: seq<Write>, loads: seq<Reading>) {
    |ws| >= PLL_ON + 1 ==>
      && ReadSet(loads, ws[HSE_ON].readsSoFar, ws[PLL_ON].readsSoFar, HSERDY)
      && SeenBefore(ws[PLL_ON + 1..], ws[PLL_ON].readsSoFar, loads)
  }

  /** Both of the above: everything after VOSRDY. */
  method PowerAndSwitch(hw: ClockRegisters, ghost d: Config, ghost ws0: seq<Write>, ghost locking: nat)
    returns (status: DriverStatus, ghost ws: seq<Write>, ghost rs: seq<Reading>)
    requires hw.Valid() && hw.s.drv.pwren
    requires ReadSet(hw.loads, locking, |hw.loads|, PLLRDY) && ReadSet(hw.loads, locking, |hw.loads|, VOSRDY)
    modifies hw
    ensures Ran(hw, ws, rs) && hw.s.drv.pwren && hw.s.drv.cr.hseon == old(hw.s).drv.cr.hseon
    ensures Progress(d, 6, 12, ws0, old(hw.s).drv, status, ws, hw.s.drv, hw.loads)
    ensures Startable(d) && At(d, 6, ws0, old(hw.s).drv) ==>
      && SeenBefore(ws, locking, hw.loads)
      && (status.NotInitialized? && old(hw.s).drv.cr.pllon && PLLRDY in old(hw.s).flags ==> !hw.steady)
    ensures status.Ok? ==> hw.s.sws == SYSCLK_PLL
    ensures |rs| <= 3 * Rcc.WAIT_READS + 9
  {
    hide Chain, ClockRegisters.Valid, Performs, BringUp, EnvReach, ReadSet, Outcome, At, Caused, GaveUp, SwitchGaveUp;
    ghost var from, locked := hw.s.drv, hw.loads;
    status, ws, rs := RaisePower(hw, d, ws0);
    Join(d, 6, 9, ws0, from, status, ws, hw.s.drv, hw.loads);
    if status.Ok? {
      ghost var ready, ws1, w, r := hw.loads, ws0 + ws, [], [];
      from := hw.s.drv;
      status, w, r := SwitchToPll(hw, d, ws1);
      Join(d, 9, 12, ws1, from, status, w, hw.s.drv, hw.loads);
      ReadSetStays(ready, ws[0].readsSoFar, ws[1].readsSoFar, ODRDY, hw.loads, ws[0].readsSoFar, ws[1].readsSoFar);
      if |w| >= 2 && Startable(d) && At(d, 9, ws1, from) {
        ReadSetStays(locked, locking, |locked|, PLLRDY, hw.loads, locking, w[1].readsSoFar);
        ReadSetStays(locked, locking, |locked|, VOSRDY, hw.loads, locking, w[1].readsSoFar);
        ReadSetStays(ready, ws[1].readsSoFar, |ready|, ODSWRDY, hw.loads, ws[1].readsSoFar, w[1].readsSoFar);
      }
      assert ws1 + w == ws0 + (ws + w);
      ws, rs := ws + w, rs + r;
    }
  }

  /** The bring-up. From a state with HSE on it is refused and changes nothing but
      PWREN; with the PLL on it never gets to configure it. From a startable state its
      writes are a prefix of the plan, in order, each taken by the hardware, the status says
      how far it got, and a failure has its cause. */
  method ClockInit(hw: ClockRegisters) returns (status: DriverStatus, ghost ws: seq<Write>, ghost rs: seq<Reading>)
    requires hw.Valid()
    modifies hw
    ensures Ran(hw, ws, rs) && hw.s.drv.pwren && hw.s.drv.cr.hseon
    ensures old(hw.s).drv.cr.hseon ==> status.Busy? && |ws| == 1 && hw.s.drv == Rcc.PwrClocked(old(hw.s).drv)
    ensures old(hw.s).drv.cr.pllon ==> status.Busy? || status.Timeout?
    ensures Startable(old(hw.s).drv) ==>
      && Outcome(old(hw.s).drv, status, ws, hw.s.drv)
      && (!status.Ok? ==> Caused(status, ws, hw.loads))
      && SeenInTime(ws, hw.loads)
      && (status.NotInitialized? ==> !hw.steady)
    ensures status.Ok? ==> hw.s.sws == SYSCLK_PLL
    ensures |rs| <= 6 * Rcc.WAIT_READS + 18
  {
    hide Chain, ClockRegisters.Valid, Performs, BringUp, EnvReach, ReadSet, Progress, Outcome, At, Caused, GaveUp,
         LockGaveUp;
    ghost var d := hw.s.drv;
    status, ws, rs := PowerAndHse(hw);
    if status.Ok? {
      ghost var w, r, from, ready := [], [], hw.s.drv, hw.loads;
      status, w, r := StartPll(hw, d, ws);
      Join(d, 4, 6, ws, from, status, w, hw.s.drv, hw.loads);
      ghost var locking := if |w| == 2 then w[1].readsSoFar else |ready|;
      ReadSetStays(ready, ws[2].readsSoFar, |ready|, HSERDY, hw.loads, ws[2].readsSoFar, locking);
      ws, rs := ws + w, rs + r;
      if status.Ok? {
        ghost var locked := hw.loads;
        from := hw.s.drv;
        status, w, r := PowerAndSwitch(hw, d, ws, locking);
        Join(d, 6, 12, ws, from, status, w, hw.s.drv, hw.loads);
        ReadSetStays(locked, ws[2].readsSoFar, locking, HSERDY, hw.loads, ws[2].readsSoFar, locking);
        ws, rs := ws + w, rs + r;
        assert Startable(d) ==> ws[6..] == w;
      }
    }
  }
}
