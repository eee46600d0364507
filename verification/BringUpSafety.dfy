/** What the bring-up guarantees from reset, for every hardware schedule: ordering
    rules at every write, frequency and voltage limits at every moment, and what
    is left behind when it fails. */
module BringUpSafety {
  import opened Status
  import opened ClockState
  import opened ClockHw
  import ClockSafety
  import Rcc
  import Bsp

  /* ---- decoded frequencies ---- */

  function PllPDivisor(p: bits2): (div: nat)
    ensures div in {2, 4, 6, 8}
  {
    2 * (p + 1)
  }

  function AhbDivisor(hpre: bits4): (div: nat)
    ensures div > 0
  {
    if hpre < 8 then 1 else [2, 4, 8, 16, 64, 128, 256, 512][hpre - 8]
  }

  function ApbDivisor(ppre: bits3): (div: nat)
    ensures div > 0
  {
    if ppre < 4 then 1 else [2, 4, 8, 16][ppre - 4]
  }

  /** HSE, the ST-LINK's 8 MHz output. */
  const HSE_HZ: nat := 8_000_000

  /** The PLL's VCO with HSE as its input. */
  function VcoInputHz(d: Config): nat {
    if d.pllcfgr.m == 0 then 0 else HSE_HZ / d.pllcfgr.m
  }

  function VcoHz(d: Config): nat {
    VcoInputHz(d) * d.pllcfgr.n
  }

  /** SYSCLK when it runs from that PLL. */
  function PllHz(d: Config): nat {
    VcoHz(d) / PllPDivisor(d.pllcfgr.p)
  }

  /** The wait states a HCLK needs at 2.7 to 3.6 V: one for every 30 MHz begun, less
      one (RM0390, Table 5). */
  function WaitStates(hz: nat): (n: nat)
    ensures hz > 0 ==> 30_000_000 * n < hz <= 30_000_000 * (n + 1)
  {
    if hz == 0 then 0 else (hz - 1) / 30_000_000
  }

  function HclkHz(d: Config): nat {
    PllHz(d) / AhbDivisor(d.cfgr.hpre)
  }

  function Pclk1Hz(d: Config): nat {
    HclkHz(d) / ApbDivisor(d.cfgr.ppre1)
  }

  function Pclk2Hz(d: Config): nat {
    HclkHz(d) / ApbDivisor(d.cfgr.ppre2)
  }

  /** Everything 180 MHz needs is in force: the PLL on HSE with 1 MHz into the VCO and
      360 MHz out of it, the frequencies, scale 1 with over-drive, and the wait states
      of the frequency. */
  predicate Full(d: Config) {
    && d.cr.hseon && d.cr.hsebyp && d.cr.pllon && d.pllcfgr.src == Hse
    && VcoInputHz(d) == 1_000_000 && 1_000_000 * d.pllcfgr.m == HSE_HZ && VcoHz(d) == 360_000_000
    && HclkHz(d) == 180_000_000 && Pclk1Hz(d) == 45_000_000 && Pclk2Hz(d) == 90_000_000
    && d.pwrcr.vos == 3 && d.pwrcr.oden && d.pwrcr.odswen
    && d.acr.latency == WaitStates(HclkHz(d))
  }

  /** Whenever the PLL is in use or requested, everything it needs is in force. */
  predicate Safe(s: Clk) {
    s.sws == SYSCLK_PLL || s.drv.cfgr.sw == SYSCLK_PLL ==> Full(s.drv)
  }

  /* ---- the reset state and the ordering rules ---- */

  /** The documented starting point: running from HSI; HSE, the PLL and over-drive
      off, so none of their flags up; no wait states. Everything else is free. */
  predicate Reset(s: Clk) {
    && s.sws == s.drv.cfgr.sw == SYSCLK_HSI && s.drv.cr.hsion
    && !s.drv.cr.hseon && !s.drv.cr.pllon && !s.drv.pwrcr.oden && !s.drv.pwrcr.odswen
    && s.flags <= {HSIRDY} && s.drv.acr.latency == 0
  }

  /** The write lets the flag rise. */
  ghost predicate Enables(w: Write, f: Flag) {
    f !in CanRise(w.before.drv) && f in CanRise(w.after.drv)
  }

  /** Before write `i` the flag was read set, and that read came after the write that
      lets it rise. */
  ghost predicate Confirmed(ws: seq<Write>, i: nat, loads: seq<Reading>, f: Flag)
    requires i < |ws|
  {
    exists j :: 0 <= j < i && Enables(ws[j], f) && ReadSet(loads, ws[j].readsSoFar, ws[i].readsSoFar, f)
  }

  /** RM0390's rules for one write: VOS and PLLCFGR change only with the PLL off,
      HSEBYP only with HSE off, PWR only when clocked, PLLON is set only once HSE is
      confirmed by HSERDY, ODSWEN only once ODEN is
      confirmed by ODRDY, and SW = PLL only once the PLL is confirmed by its lock and
      by VOSRDY, over-drive by ODSWRDY, and everything 180 MHz needs is in force. */
  ghost predicate Lawful(ws: seq<Write>, i: nat, loads: seq<Reading>)
    requires i < |ws|
  {
    var now, next := ws[i].before.drv, ws[i].want;
    && (next.pllcfgr != now.pllcfgr || next.pwrcr.vos != now.pwrcr.vos ==> !now.cr.pllon)
    && (next.cr.hsebyp != now.cr.hsebyp ==> !now.cr.hseon)
    && (next.pwrcr != now.pwrcr ==> now.pwren)
    && (next.cr.pllon && !now.cr.pllon ==> Confirmed(ws, i, loads, HSERDY))
    && (next.pwrcr.odswen && !now.pwrcr.odswen ==> now.pwrcr.oden && Confirmed(ws, i, loads, ODRDY))
    && (next.cfgr.sw == SYSCLK_PLL && now.cfgr.sw != SYSCLK_PLL ==>
          && Full(next)
          && Confirmed(ws, i, loads, PLLRDY)
          && Confirmed(ws, i, loads, VOSRDY)
          && Confirmed(ws, i, loads, ODSWRDY))
  }

  /** The 180 MHz configuration is complete from the prescaler write on, and the
      request for the PLL comes after it. */
  lemma PlanIsFull(d: Config, k: nat)
    requires k < 12
    ensures k >= Bsp.LATENCY_RAISED ==>
      var c := Bsp.BringUp(d)[k];
      Full(c) && 30_000_000 * c.acr.latency < HclkHz(c) <= 30_000_000 * (c.acr.latency + 1)
    ensures Bsp.BringUp(d)[k].cfgr.sw == if k >= Bsp.SWITCHED then SYSCLK_PLL else d.cfgr.sw
  {
  }

  /** Every write of a run asks for the planned configuration from the one before
      it, and is taken or, for LATENCY alone, refused. */
  lemma WriteOfPlan(d: Config, status: DriverStatus, ws: seq<Write>, after: Config, i: nat)
    requires Bsp.Outcome(d, status, ws, after) && i < |ws|
    ensures ws[i].want == Bsp.BringUp(d)[i] && ws[i].before.drv == Prior(d, Bsp.BringUp(d), i)
    ensures Taken(ws[i]) || (i == Bsp.LATENCY_RAISED && Refused(ws[i]))
  {
    hide Refused;
    var plan := Bsp.BringUp(d);
    if status.HwFault? {
      if i < Bsp.LATENCY_RAISED {
        assert ws[..Bsp.LATENCY_RAISED][i] == ws[i];
        assert Moves(ws[i], Prior(d, plan[..Bsp.LATENCY_RAISED], i), plan[i]);
      }
    } else {
      assert Moves(ws[i], Prior(d, plan[..|ws|], i), plan[i]);
    }
  }

  /** What may rise at each stage of the plan. */
  lemma PlanCanRise(d: Config, k: nat)
    requires k < 12 && !d.cr.hseon && !d.cr.pllon && !d.pwrcr.oden && !d.pwrcr.odswen
    ensures var up := CanRise(Bsp.BringUp(d)[k]);
      && (HSERDY in up <==> k >= Bsp.HSE_ON)
      && (PLLRDY in up <==> k >= Bsp.PLL_ON) && (VOSRDY in up <==> k >= Bsp.PLL_ON)
      && (ODRDY in up <==> k >= Bsp.OD_ON) && (ODSWRDY in up <==> k >= Bsp.OD_SWITCHED)
  {
  }

  lemma WriteEnables(d: Config, status: DriverStatus, ws: seq<Write>, after: Config, j: nat)
    requires Bsp.Outcome(d, status, ws, after) && 0 < j < |ws| && j != Bsp.LATENCY_RAISED
    requires !d.cr.hseon && !d.cr.pllon && !d.pwrcr.oden && !d.pwrcr.odswen
    ensures j == Bsp.HSE_ON ==> Enables(ws[j], HSERDY)
    ensures j == Bsp.PLL_ON ==> Enables(ws[j], PLLRDY) && Enables(ws[j], VOSRDY)
    ensures j == Bsp.OD_ON ==> Enables(ws[j], ODRDY)
    ensures j == Bsp.OD_SWITCHED ==> Enables(ws[j], ODSWRDY)
  {
    WriteOfPlan(d, status, ws, after, j);
    PlanCanRise(d, j);
    PlanCanRise(d, j - 1);
    hide CanRise, Bsp.Outcome, Refused;
  }

  /** The flags each write of a run needs were read set in time. */
  lemma OutcomeIsConfirmed(d: Config, status: DriverStatus, ws: seq<Write>, after: Config, loads: seq<Reading>, i: nat)
    requires !d.cr.hseon && !d.cr.pllon && !d.pwrcr.oden && !d.pwrcr.odswen
    requires Bsp.Outcome(d, status, ws, after) && i < |ws| && Bsp.PLL_ON < |ws|
    requires Bsp.SeenInTime(ws, loads)
    ensures i == Bsp.PLL_ON ==> Confirmed(ws, i, loads, HSERDY)
    ensures i == Bsp.OD_SWITCHED ==> Confirmed(ws, i, loads, ODRDY)
    ensures i == Bsp.SWITCHED ==>
      Confirmed(ws, i, loads, PLLRDY) && Confirmed(ws, i, loads, VOSRDY) && Confirmed(ws, i, loads, ODSWRDY)
  {
    WriteEnables(d, status, ws, after, Bsp.HSE_ON);
    WriteEnables(d, status, ws, after, Bsp.PLL_ON);
    hide ReadSet, Bsp.Outcome, Enables;
    if i == Bsp.OD_SWITCHED || i == Bsp.SWITCHED {
      WriteEnables(d, status, ws, after, Bsp.OD_ON);
      WriteEnables(d, status, ws, after, Bsp.OD_SWITCHED);
      assert ws[6..][0] == ws[6] && ws[6..][1] == ws[7];
    }
    if i == Bsp.SWITCHED {
      assert ws[6..][4] == ws[10];
    }
  }

  /** What each step of the plan changes, and what is in force when it does. */
  lemma PlanStep(d: Config, i: nat)
    requires Bsp.Startable(d) && d.cfgr.sw == SYSCLK_HSI && !d.pwrcr.oden && !d.pwrcr.odswen && i < 12
    ensures var now, next := Prior(d, Bsp.BringUp(d), i), Bsp.BringUp(d)[i];
      && (next.pllcfgr != now.pllcfgr || next.pwrcr.vos != now.pwrcr.vos ==> !now.cr.pllon)
      && (next.cr.hsebyp != now.cr.hsebyp ==> !now.cr.hseon)
      && (next.pwrcr != now.pwrcr ==> now.pwren)
      && (next.cr.pllon && !now.cr.pllon ==> i == Bsp.PLL_ON)
      && (next.pwrcr.odswen && !now.pwrcr.odswen ==> i == Bsp.OD_SWITCHED && now.pwrcr.oden)
      && (next.cfgr.sw == SYSCLK_PLL && now.cfgr.sw != SYSCLK_PLL ==> i == Bsp.SWITCHED)
  {
  }

  lemma OutcomeIsLawful(d: Config, status: DriverStatus, ws: seq<Write>, after: Config, loads: seq<Reading>, i: nat)
    requires Bsp.Startable(d) && d.cfgr.sw == SYSCLK_HSI && !d.pwrcr.oden && !d.pwrcr.odswen
    requires Bsp.Outcome(d, status, ws, after) && i < |ws|
    requires Bsp.SeenInTime(ws, loads)
    ensures Lawful(ws, i, loads)
  {
    WriteOfPlan(d, status, ws, after, i);
    if |ws| > Bsp.PLL_ON {
      OutcomeIsConfirmed(d, status, ws, after, loads, i);
    }
    hide Confirmed, Bsp.Outcome, Full, Bsp.SeenInTime, Bsp.BringUp, Prior, Refused, Taken;
    PlanStep(d, i);
    PlanIsFull(d, i);
  }

  /* ---- every moment of the run ---- */

  /** Where a bring-up can be: still on HSI with nothing requested, or with the PLL
      requested and everything it needs in force. */
  predicate Bounded(s: Clk) {
    && s.drv.cr.hsion
    && (s.drv.cfgr.sw == SYSCLK_HSI || s.drv.cfgr.sw == SYSCLK_PLL)
    && (s.sws == SYSCLK_HSI || s.sws == s.drv.cfgr.sw)
    && (s.drv.cfgr.sw == SYSCLK_PLL ==> Full(s.drv))
  }

  /** The wait states each source needs at these frequencies. */
  function Need(source: bits2): nat {
    WaitStates(if source == SYSCLK_HSI then 16_000_000 else if source == SYSCLK_HSE then HSE_HZ else 180_000_000)
  }

  const NEED: bits2 -> nat := source => Need(source)

  /** Bounded states respect every limit, and no hardware step leaves them: a switch
      that completes after the call has returned is as safe as a prompt one. */
  lemma BoundedIsSafe(s: Clk, t: Clk, steady: bool)
    requires Bounded(s) && EnvReach(s, t, steady)
    ensures Bounded(t) && Safe(t) && ClockSafety.Good(t, NEED)
  {
    hide PathFlags, CanRise, HclkHz, Pclk1Hz, Pclk2Hz, VcoHz, VcoInputHz;
    NeedIsEnough(t.drv);
  }

  lemma NeedIsEnough(d: Config)
    ensures NEED(SYSCLK_HSI) == NEED(SYSCLK_HSE) == 0
    ensures Full(d) ==> d.acr.latency == NEED(SYSCLK_PLL)
  {
    assert WaitStates(16_000_000) == WaitStates(8_000_000) == 0;
    hide WaitStates;
  }

  /** Each write keeps the bounds. */
  lemma WriteKeepsBounds(d: Config, status: DriverStatus, ws: seq<Write>, after: Config, i: nat)
    requires Bsp.Outcome(d, status, ws, after) && i < |ws| && d.cfgr.sw == SYSCLK_HSI
    requires Bounded(ws[i].before)
    ensures Bounded(ws[i].after)
  {
    WriteOfPlan(d, status, ws, after, i);
    PlanIsFull(d, i);
    if i > 0 {
      PlanIsFull(d, i - 1);
      KeepsHsi(d, i - 1);
    }
    KeepsHsi(d, i);
    hide Bsp.Outcome, Full, PathFlags, CanRise;
  }

  lemma KeepsHsi(d: Config, i: nat)
    requires i < 12
    ensures Bsp.BringUp(d)[i].cr.hsion == d.cr.hsion
    ensures Bsp.BringUp(d)[i].acr ==
      if i < Bsp.LATENCY_RAISED then d.acr
      else if i <= Bsp.SWITCHED then d.acr.(latency := Bsp.FLASH_LATENCY)
      else d.acr.(latency := Bsp.FLASH_LATENCY, prften := true, icen := true, dcen := true)
  {
  }

  /** Bounds at every write, every read and the end of a run that starts from a
      bounded state. */
  lemma RunIsBounded(start: Clk, d: Config, status: DriverStatus, ws: seq<Write>, loads: seq<Reading>, now: Clk,
                     steady: bool)
    requires Bounded(start) && History(start, ws, loads, now, steady)
    requires d.cfgr.sw == SYSCLK_HSI && Bsp.Outcome(d, status, ws, now.drv)
    ensures forall i | 0 <= i < |ws| :: Bounded(ws[i].before) && Bounded(ws[i].after)
    ensures forall k | 0 <= k < |loads| :: Bounded(loads[k].s)
    ensures Bounded(now)
  {
    hide Bsp.Outcome, Bounded, History;
    var good := s => Bounded(s);
    forall x, y | good(x) && EnvReach(x, y, steady) ensures good(y) {
      BoundedIsSafe(x, y, steady);
    }
    forall i | 0 <= i < |ws| && good(ws[i].before) ensures good(ws[i].after) {
      WriteKeepsBounds(d, status, ws, now.drv, i);
    }
    HistoryKeeps(start, ws, loads, now, steady, good);
    forall i | 0 <= i < |ws| ensures Bounded(ws[i].before) && Bounded(ws[i].after) {
      assert good(ws[i].before) && good(ws[i].after);
    }
    forall k | 0 <= k < |loads| ensures Bounded(loads[k].s) {
      assert good(loads[k].s);
    }
  }

  /** A run that has not requested the PLL has never read it in SWS. */
  lemma NeverOnPll(start: Clk, d: Config, status: DriverStatus, ws: seq<Write>, loads: seq<Reading>, now: Clk,
                   steady: bool)
    requires History(start, ws, loads, now, steady) && Bsp.Outcome(d, status, ws, now.drv)
    requires d.cfgr.sw == now.drv.cfgr.sw == SYSCLK_HSI
    requires forall k | 0 <= k < |loads| :: Bounded(loads[k].s)
    ensures forall k | 0 <= k < |loads| :: loads[k].s.sws == SYSCLK_HSI
  {
    hide Chain, Full, Bsp.Outcome, EnvReach;
    forall k | 0 <= k < |loads| ensures loads[k].s.sws == SYSCLK_HSI {
      var i := PlaceOf(ws, |loads|, k);
      Rcc.ReachKeepsConfig(loads[k].s, Until(ws, now, i), steady);
      if i < |ws| {
        WriteOfPlan(d, status, ws, now.drv, i);
        NotYetSwitched(d, status, ws, now.drv, i);
        if i > 0 { PlanIsFull(d, i - 1); }
      }
    }
  }

  lemma NotYetSwitched(d: Config, status: DriverStatus, ws: seq<Write>, after: Config, i: nat)
    requires Bsp.Outcome(d, status, ws, after) && i < |ws| && d.cfgr.sw == after.cfgr.sw == SYSCLK_HSI
    ensures i <= Bsp.SWITCHED
  {
    if !status.HwFault? {
      PlanIsFull(d, |ws| - 1);
    }
  }

  /** What a bring-up that stops early leaves: the cache bits as they were, and a
      request for the PLL only if it is the switch itself that timed out. */
  lemma StoppedShort(d: Config, status: DriverStatus, ws: seq<Write>, after: Config)
    requires Bsp.Outcome(d, status, ws, after) && !status.Ok? && d.cfgr.sw == SYSCLK_HSI
    ensures after.acr == d.acr.(latency := after.acr.latency)
    ensures after.cfgr.sw == SYSCLK_PLL <==> status.Timeout? && |ws| == Bsp.SWITCHED + 1
    ensures after.cfgr.sw != SYSCLK_PLL ==> after.cfgr.sw == SYSCLK_HSI
  {
    var k := if status.HwFault? then Bsp.LATENCY_RAISED - 1 else |ws| - 1;
    PlanIsFull(d, k);
    KeepsHsi(d, k);
    assert after == Bsp.BringUp(d)[k];
  }

  lemma AllLawful(d: Config, status: DriverStatus, ws: seq<Write>, after: Config, loads: seq<Reading>)
    requires Bsp.Startable(d) && d.cfgr.sw == SYSCLK_HSI && !d.pwrcr.oden && !d.pwrcr.odswen
    requires Bsp.Outcome(d, status, ws, after)
    requires Bsp.SeenInTime(ws, loads)
    ensures forall i | 0 <= i < |ws| :: Lawful(ws, i, loads)
  {
    hide Lawful, Bsp.Outcome, Bsp.SeenInTime;
    forall i | 0 <= i < |ws| ensures Lawful(ws, i, loads) {
      OutcomeIsLawful(d, status, ws, after, loads, i);
    }
  }

  lemma LaterIsSafe(s: Clk, steady: bool)
    requires Bounded(s)
    ensures forall t | EnvReach(s, t, steady) :: Bounded(t) && Safe(t) && ClockSafety.Good(t, NEED)
  {
    hide Bounded, EnvReach, Safe, ClockSafety.Good;
    forall t | EnvReach(s, t, steady) ensures Bounded(t) && Safe(t) && ClockSafety.Good(t, NEED) {
      BoundedIsSafe(s, t, steady);
    }
  }

  lemma ResetIsBounded(start: Clk, now: Clk, steady: bool)
    requires Reset(start) && EnvReach(start, now, steady)
    ensures Bounded(start) && now.drv == start.drv && Bsp.Startable(now.drv)
    ensures now.drv.cfgr.sw == SYSCLK_HSI && !now.drv.pwrcr.oden && !now.drv.pwrcr.odswen
  {
  }

  /** It is the switch itself that timed out. */
  predicate SwitchTimedOut(status: DriverStatus, ws: seq<Write>) {
    status.Timeout? && |ws| == Bsp.SWITCHED + 1
  }

  /** Every write is lawful, and every limit holds at every write, at every read and
      from then on. */
  ghost predicate SafeThroughout(ws: seq<Write>, loads: seq<Reading>, now: Clk, steady: bool) {
    && (forall i | 0 <= i < |ws| :: Lawful(ws, i, loads) && Bounded(ws[i].before) && Bounded(ws[i].after))
    && (forall k | 0 <= k < |loads| :: Bounded(loads[k].s))
    && (forall t | EnvReach(now, t, steady) :: Bounded(t) && Safe(t) && ClockSafety.Good(t, NEED))
  }

  /** The run follows the plan as far as its status says and a failure has its cause.
      Success means 180 MHz. A failure leaves the cache bits and leaves SYSCLK on HSI,
      never read otherwise, unless it was the switch that timed out. With steady ready
      flags only TIMEOUT and HW_FAULT can be reported. */
  ghost predicate Concluded(start: Clk, status: DriverStatus, ws: seq<Write>, loads: seq<Reading>, now: Clk,
                            steady: bool)
  {
    && Bsp.Outcome(start.drv, status, ws, now.drv)
    && (!status.Ok? ==> Bsp.Caused(status, ws, loads))
    && (status.Ok? || status.Timeout? || status.HwFault? || (status.NotInitialized? && !steady))
    && (status.Ok? ==> now.sws == SYSCLK_PLL && Full(now.drv))
    && (!status.Ok? ==> now.drv.acr == start.drv.acr.(latency := now.drv.acr.latency))
    && (!status.Ok? && !SwitchTimedOut(status, ws) ==>
          now.sws == now.drv.cfgr.sw == SYSCLK_HSI && forall k | 0 <= k < |loads| :: loads[k].s.sws == SYSCLK_HSI)
    && (SwitchTimedOut(status, ws) ==> now.drv.cfgr.sw == SYSCLK_PLL)
  }

  lemma OutcomeIsSafe(start: Clk, d: Config, status: DriverStatus, ws: seq<Write>, loads: seq<Reading>, now: Clk,
                      steady: bool)
    requires Reset(start) && d == start.drv && History(start, ws, loads, now, steady)
    requires Bsp.Outcome(d, status, ws, now.drv) && Bsp.SeenInTime(ws, loads)
    ensures SafeThroughout(ws, loads, now, steady) && Bounded(now)
  {
    ReachRefl(start, steady);
    ResetIsBounded(start, start, steady);
    hide Chain, History, Bsp.Outcome, Bsp.SeenInTime, Bsp.Startable, Bounded, EnvReach, Lawful, Reset, Safe,
         ClockSafety.Good;
    RunIsBounded(start, d, status, ws, loads, now, steady);
    AllLawful(d, status, ws, now.drv, loads);
    LaterIsSafe(now, steady);
  }

  lemma OutcomeConcludes(start: Clk, d: Config, status: DriverStatus, ws: seq<Write>, loads: seq<Reading>, now: Clk,
                         steady: bool)
    requires Reset(start) && d == start.drv && History(start, ws, loads, now, steady)
    requires Bsp.Outcome(d, status, ws, now.drv) && SafeThroughout(ws, loads, now, steady) && Bounded(now)
    requires !status.Ok? ==> Bsp.Caused(status, ws, loads)
    requires status.NotInitialized? ==> !steady
    requires status.Ok? ==> now.sws == SYSCLK_PLL
    ensures Concluded(start, status, ws, loads, now, steady)
  {
    assert d.cfgr.sw == SYSCLK_HSI;
    OnlyTheseStatuses(d, status, ws, now.drv);
    hide Chain, History, Bsp.Outcome, Full, EnvReach, Lawful, Reset, Safe, ClockSafety.Good, Bsp.Caused;
    if status.Ok? {
      Completed(d, ws, now.drv);
    } else {
      StoppedShort(d, status, ws, now.drv);
      if now.drv.cfgr.sw == SYSCLK_HSI {
        NeverOnPll(start, d, status, ws, loads, now, steady);
      }
    }
  }

  lemma OnlyTheseStatuses(d: Config, status: DriverStatus, ws: seq<Write>, after: Config)
    requires Bsp.Outcome(d, status, ws, after)
    ensures status.Ok? || status.Timeout? || status.HwFault? || status.NotInitialized?
  {
  }

  /** The bring-up from reset is safe on every hardware schedule, and ends. */
  method InitFromReset(hw: ClockRegisters) returns (status: DriverStatus, ghost ws: seq<Write>, ghost rs: seq<Reading>)
    requires hw.Valid() && hw.stores == [] && Reset(hw.origin)
    modifies hw
    ensures hw.Valid() && hw.stores == ws && hw.loads == old(hw.loads) + rs
    ensures SafeThroughout(ws, hw.loads, hw.s, hw.steady)
    ensures Concluded(hw.origin, status, ws, hw.loads, hw.s, hw.steady)
    ensures |rs| <= 6 * Rcc.WAIT_READS + 18
  {
    ghost var start := hw.origin;
    assert EnvReach(start, hw.s, hw.steady);
    hide Chain, Bsp.Outcome, Bsp.SeenInTime, Bsp.Caused, Bsp.Startable, Reset, SafeThroughout, Concluded, EnvReach;
    ResetIsBounded(start, hw.s, hw.steady);
    status, ws, rs := Bsp.ClockInit(hw);
    assert hw.stores == ws;
    OutcomeIsSafe(start, start.drv, status, ws, hw.loads, hw.s, hw.steady);
    OutcomeConcludes(start, start.drv, status, ws, hw.loads, hw.s, hw.steady);
  }

  lemma Completed(d: Config, ws: seq<Write>, after: Config)
    requires Bsp.Outcome(d, Ok, ws, after)
    ensures Full(after)
  {
    PlanIsFull(d, 11);
    hide Full;
  }

  /** A second call reports BUSY and changes no driver-owned bit, whatever the first
      one did and wherever it started. */
  method InitTwice(hw: ClockRegisters) returns (first: DriverStatus, second: DriverStatus, ghost between: Config)
    requires hw.Valid()
    modifies hw
    ensures hw.Valid() && second.Busy? && hw.s.drv == between
  {
    hide Chain, ClockRegisters.Valid, Bsp.Outcome;
    ghost var ws, rs;
    first, ws, rs := Bsp.ClockInit(hw);
    between := hw.s.drv;
    second, ws, rs := Bsp.ClockInit(hw);
  }
}
