/** How a bring-up from reset ends: when it succeeds, and what a failure leaves
    SYSCLK on. */
module BringUpEnds {
  import opened Status
  import opened Polling
  import opened ClockState
  import opened ClockHw
  import opened ClockRuns
  import opened LostLock
  import opened BringUpSafety
  import Flash
  import Pwr
  import Rcc
  import Bsp

  /* ---- prompt hardware ---- */

  /** As many reads of one register in a row as a wait makes at most, from number
      `n` on. */
  ghost predicate InARow(loads: seq<Reading>, n: nat, reg: Register) {
    && n + Rcc.WAIT_READS <= |loads|
    && forall i | n <= i < n + Rcc.WAIT_READS :: loads[i].reg == reg
  }

  /** A flag that a write lets rise is up by the last of that many reads. */
  ghost predicate FlagsComeUp(ws: seq<Write>, loads: seq<Reading>) {
    forall j: nat, f, n: nat |
      j < |ws| && Enables(ws[j], f) && ws[j].readsSoFar <= n && InARow(loads, n, RegisterOf(f)) ::
      f in loads[n + Rcc.WAIT_READS - 1].s.flags
  }

  predicate AsksForPll(w: Write) {
    w.want.cfgr.sw == SYSCLK_PLL
  }

  /** SWS shows the PLL by the last of that many reads after the request for it. */
  ghost predicate SwitchComesThrough(ws: seq<Write>, loads: seq<Reading>) {
    forall j: nat, n: nat | j < |ws| && AsksForPll(ws[j]) && ws[j].readsSoFar <= n && InARow(loads, n, CFGR) ::
      loads[n + Rcc.WAIT_READS - 1].s.sws == SYSCLK_PLL
  }

  /** No write of LATENCY is refused. */
  ghost predicate NoneRefused(ws: seq<Write>) {
    forall j | 0 <= j < |ws| :: !Refused(ws[j])
  }

  /** A later read of a run that makes no more writes still shows what an earlier one
      did: a flag that stays enabled, in a steady environment, and the source that is
      requested. */
  lemma ReadsAgree(start: Clk, ws: seq<Write>, loads: seq<Reading>, now: Clk, steady: bool, k: nat, l: nat)
    requires History(start, ws, loads, now, steady) && k <= l < |loads|
    requires ws != [] && ws[|ws| - 1].readsSoFar <= k
    ensures loads[k].s.drv == now.drv
    ensures steady ==> loads[k].s.flags * CanRise(now.drv) <= loads[l].s.flags
    ensures loads[k].s.sws == now.drv.cfgr.sw ==> loads[l].s.sws == now.drv.cfgr.sw
  {
    assert MadeAfter(ws, |ws|, k) && MadeAfter(ws, |ws|, l);
    hide Chain, Ordered, MadeAfter, CanRise, PathOn;
    assert EnvReach(loads[k].s, Until(ws, now, |ws|), steady) && EnvReach(loads[k].s, loads[l].s, steady);
  }

  /** What a poll that gave up has seen: the condition unmet by its last read, and
      either met by the read before or unmet by the most reads a wait makes. */
  lemma GaveUpSees(loads: seq<Reading>, n: nat, f: Flag)
    requires n <= |loads| && Bsp.TimedOut(loads, n, f)
    ensures n + 2 <= |loads| && f !in loads[|loads| - 1].s.flags
    ensures f in loads[|loads| - 2].s.flags || (n + Rcc.WAIT_READS == |loads| && InARow(loads, n, RegisterOf(f)))
  {
    var poll := loads[n..];
    assert forall i | 0 <= i < |poll| :: poll[i] == loads[n + i];
    assert forall i | n <= i < |loads| :: loads[i] == poll[i - n];
  }

  lemma SwitchGaveUpSees(loads: seq<Reading>, n: nat)
    requires n <= |loads| && Bsp.SwitchTimedOut(loads, n)
    ensures n + 2 <= |loads| && loads[|loads| - 1].s.sws != SYSCLK_PLL
    ensures loads[|loads| - 2].s.sws == SYSCLK_PLL || (n + Rcc.WAIT_READS == |loads| && InARow(loads, n, CFGR))
  {
    var poll := loads[n..];
    assert forall i | 0 <= i < |poll| :: poll[i] == loads[n + i];
    assert forall i | n <= i < |loads| :: loads[i] == poll[i - n];
  }

  /** Steady, prompt hardware leaves no wait for a flag in vain. */
  lemma FlagIsFound(start: Clk, ws: seq<Write>, loads: seq<Reading>, now: Clk, f: Flag)
    requires History(start, ws, loads, now, true) && ws != [] && FlagsComeUp(ws, loads)
    requires Enables(ws[|ws| - 1], f) && f in CanRise(now.drv)
    ensures !Bsp.GaveUp(loads, ws[|ws| - 1].readsSoFar, f)
  {
    var from := ws[|ws| - 1].readsSoFar;
    if Bsp.GaveUp(loads, from, f) {
      var n :| from <= n < |loads| && Bsp.TimedOut(loads, n, f);
      GaveUpSees(loads, n, f);
      ReadsAgree(start, ws, loads, now, true, |loads| - 2, |loads| - 1);
      hide History, Bsp.TimedOut, Enables, CanRise, InARow;
      assert false;
    }
  }

  lemma SwitchIsFound(start: Clk, ws: seq<Write>, loads: seq<Reading>, now: Clk, steady: bool)
    requires History(start, ws, loads, now, steady) && ws != [] && SwitchComesThrough(ws, loads)
    requires AsksForPll(ws[|ws| - 1]) && now.drv.cfgr.sw == SYSCLK_PLL
    ensures !Bsp.SwitchGaveUp(loads, ws[|ws| - 1].readsSoFar)
  {
    var from := ws[|ws| - 1].readsSoFar;
    if Bsp.SwitchGaveUp(loads, from) {
      var n :| from <= n < |loads| && Bsp.SwitchTimedOut(loads, n);
      SwitchGaveUpSees(loads, n);
      ReadsAgree(start, ws, loads, now, steady, |loads| - 2, |loads| - 1);
      hide History, Bsp.SwitchTimedOut, InARow;
      assert false;
    }
  }

  /** A bring-up that stops at a wait has just made the write that lets the awaited
      flag rise, or the request for the PLL. */
  lemma StoppedAtWait(d: Config, ws: seq<Write>, after: Config)
    requires !d.cr.hseon && !d.cr.pllon && !d.pwrcr.oden && !d.pwrcr.odswen
    requires Bsp.Outcome(d, Timeout, ws, after)
    ensures var w, k := ws[|ws| - 1], |ws| - 1;
      && (k == Bsp.HSE_ON ==> HSERDY in CanRise(after) && Enables(w, HSERDY))
      && (k == Bsp.PLL_ON ==>
            && {PLLRDY, VOSRDY} <= CanRise(after)
            && Enables(w, PLLRDY) && Enables(w, VOSRDY))
      && (k == Bsp.OD_ON ==> ODRDY in CanRise(after) && Enables(w, ODRDY))
      && (k == Bsp.OD_SWITCHED ==> ODSWRDY in CanRise(after) && Enables(w, ODSWRDY))
      && (k == Bsp.SWITCHED ==> AsksForPll(w) && after.cfgr.sw == SYSCLK_PLL)
  {
    var k := |ws| - 1;
    WriteOfPlan(d, Timeout, ws, after, k);
    WriteEnables(d, Timeout, ws, after, k);
    PlanCanRise(d, k);
    PlanIsFull(d, k);
    hide CanRise, Bsp.BringUp, Full, Enables;
  }

  /** With steady ready flags, prompt hardware and a flash interface that takes the
      latency, the bring-up from reset succeeds. */
  lemma PromptMeansOk(start: Clk, status: DriverStatus, ws: seq<Write>, loads: seq<Reading>, now: Clk)
    requires Reset(start) && History(start, ws, loads, now, true)
    requires Concluded(start, status, ws, loads, now, true)
    requires FlagsComeUp(ws, loads) && SwitchComesThrough(ws, loads) && NoneRefused(ws)
    ensures status.Ok?
  {
    if status.Timeout? {
      StoppedAtWait(start.drv, ws, now.drv);
      hide History, Bsp.Outcome, Enables, CanRise, Full, FlagsComeUp, SwitchComesThrough, Bsp.GaveUp, Bsp.SwitchGaveUp;
      var k := |ws| - 1;
      if k == Bsp.HSE_ON {
        FlagIsFound(start, ws, loads, now, HSERDY);
      } else if k == Bsp.PLL_ON {
        FlagIsFound(start, ws, loads, now, PLLRDY);
        FlagIsFound(start, ws, loads, now, VOSRDY);
      } else if k == Bsp.OD_ON {
        FlagIsFound(start, ws, loads, now, ODRDY);
      } else if k == Bsp.OD_SWITCHED {
        FlagIsFound(start, ws, loads, now, ODSWRDY);
      } else {
        SwitchIsFound(start, ws, loads, now, true);
      }
    }
  }

  /** The same of the driver itself. */
  method InitPromptly(hw: ClockRegisters) returns (status: DriverStatus, ghost ws: seq<Write>, ghost rs: seq<Reading>)
    requires hw.Valid() && hw.stores == [] && Reset(hw.origin)
    modifies hw
    ensures hw.Valid() && hw.stores == ws && hw.loads == old(hw.loads) + rs
    ensures SafeThroughout(ws, hw.loads, hw.s, hw.steady)
    ensures Concluded(hw.origin, status, ws, hw.loads, hw.s, hw.steady)
    ensures hw.steady && FlagsComeUp(ws, hw.loads) && SwitchComesThrough(ws, hw.loads) && NoneRefused(ws) ==>
      status.Ok? && hw.s.sws == SYSCLK_PLL && Full(hw.s.drv)
  {
    hide SafeThroughout, FlagsComeUp, SwitchComesThrough, NoneRefused, Full, History, Reset, Bsp.Outcome, Bsp.Caused;
    status, ws, rs := InitFromReset(hw);
    if hw.steady && FlagsComeUp(ws, hw.loads) && SwitchComesThrough(ws, hw.loads) && NoneRefused(ws) {
      PromptMeansOk(hw.origin, status, ws, hw.loads, hw.s);
    }
  }

  /* ---- a switch that times out, and may still complete ---- */

  /** From the latency write to the request for the PLL: the lock is up when the
      switch looks at CR. */
  lemma RequestedRun(s: Clk, powered: Run) returns (r: Run)
    requires Bsp.Startable(s.drv) && s.drv.cr.hsion && OnPlan(s, 10, powered)
    requires powered.now.drv == Bsp.BringUp(s.drv)[9]
    ensures OnPlan(s, 11, r) && r.now.drv == Bsp.BringUp(s.drv)[10] && powered.rs <= r.rs
    ensures Registers(r.rs) == Registers(powered.rs) + LAST_READS + [CFGR]
    ensures Shows(r.rs[|powered.rs| + 1], PLLRDY) && r.ws[10].readsSoFar == |r.rs|
  {
    hide Possible, CanRise, Bsp.BringUp, Bsp.At, Bsp.Startable;
    FlagsOfPlan(s.drv, PLLRDY, 9);
    ReadStaysOnPlan(s, 10, powered, ACR);
    var acr := Read(powered, ACR);
    RiseStaysOnPlan(s, 10, acr, PLLRDY);
    var up := Moved(acr, acr.now.(flags := acr.now.flags + {PLLRDY}));
    ReadStaysOnPlan(s, 10, up, CR);
    var seen := Read(up, CR);
    hide OnPlan;
    r := WriteStaysOnPlan(s, 10, seen, [CFGR]);
    assert r.rs[|powered.rs| + 1] == seen.rs[|powered.rs| + 1];
  }

  /** SWS never moves while the wait reads it. */
  lemma StuckRun(s: Clk, requested: Run) returns (r: Run)
    requires OnPlan(s, 11, requested)
    ensures Possible(s, r) && r.ws == requested.ws && r.now == requested.now
    ensures requested.rs <= r.rs && |r.rs| == |requested.rs| + Rcc.WAIT_READS
    ensures Rcc.PolledSws(r.rs[|requested.rs|..], SYSCLK_PLL, false)
  {
    hide History, Bsp.At;
    r := ReadTimes(requested, CFGR, Rcc.WAIT_READS);
    ReadTimesIsPossible(s, requested, CFGR, Rcc.WAIT_READS);
    assert r.rs[|requested.rs|..] == seq(Rcc.WAIT_READS, _ => Reading(CFGR, requested.now));
  }

  lemma EndsStuck(d: Config, ws: seq<Write>, rs: seq<Reading>, after: Config)
    requires Bsp.Startable(d) && Bsp.At(d, 11, ws, after)
    requires |rs| == 27 + Rcc.WAIT_READS && Shows(rs[25], PLLRDY) && ws[10].readsSoFar == 27
    requires Rcc.PolledSws(rs[27..], SYSCLK_PLL, false)
    ensures Bsp.Outcome(d, Timeout, ws, after) && Bsp.Caused(Timeout, ws, rs)
    ensures var p := Bsp.BringUp(d)[8];
      && Rcc.SwitchWrites(p, SYSCLK_PLL, Bsp.FLASH_LATENCY, Timeout, ws[9..], after)
      && Rcc.SwitchReads(p, SYSCLK_PLL, Bsp.FLASH_LATENCY, Timeout, ws[9..], rs[22..], rs[27..], 22)
  {
    assert Bsp.SwitchTimedOut(rs, 27);
    assert Moves(ws[9], Prior(d, Bsp.BringUp(d)[..11], 9), Bsp.BringUp(d)[..11][9]);
    assert Moves(ws[10], Prior(d, Bsp.BringUp(d)[..11], 10), Bsp.BringUp(d)[..11][10]);
    hide IsPoll;
    assert rs[22..][5..5 + Rcc.WAIT_READS] == rs[27..] && rs[22..][3] == rs[25];
    assert ws[9..] == [ws[9], ws[10]];
  }

  /** With the PLL requested, SYSCLK can move to it. */
  lemma LateFrom(now: Clk) returns (acts: seq<EnvAction>)
    requires Bounded(now) && now.drv.cfgr.sw == SYSCLK_PLL
    ensures EnvRun(now, acts, false).sws == SYSCLK_PLL
  {
    acts := ReachIsRun(now, now.(sws := SYSCLK_PLL));
  }

  /** From every reset state there is a bring-up that times out at the switch, and
      whose SYSCLK still moves to the PLL afterwards: a history of the hardware in
      which every wait before the switch is answered and SWS is polled in vain. */
  lemma SwitchCanBeLate(start: Clk) returns (ws: seq<Write>, rs: seq<Reading>, now: Clk, acts: seq<EnvAction>)
    requires Reset(start)
    ensures History(start, ws, rs, now, false) && Bsp.Outcome(start.drv, Timeout, ws, now.drv)
    ensures SwitchTimedOut(Timeout, ws) && Bsp.Caused(Timeout, ws, rs) && now.sws == SYSCLK_HSI
    ensures |rs| == 27 + Rcc.WAIT_READS && WaitsAnswered(rs)
    ensures var d := Bsp.BringUp(start.drv)[8];
      && Rcc.SwitchWrites(d, SYSCLK_PLL, Bsp.FLASH_LATENCY, Timeout, ws[9..], now.drv)
      && Rcc.SwitchReads(d, SYSCLK_PLL, Bsp.FLASH_LATENCY, Timeout, ws[9..], rs[22..], rs[27..], 22)
    ensures EnvRun(now, acts, false).sws == SYSCLK_PLL
  {
    hide History, Bsp.BringUp, Bsp.At, Rcc.SwitchWrites, Rcc.SwitchReads, Bsp.Outcome, Rcc.PolledSws, Bsp.Caused,
         WaitsAnswered, Reset;
    var answered := AnsweredRun(start);
    var requested := RequestedRun(start, answered);
    assert |Registers(requested.rs)| == 27;
    var r := StuckRun(start, requested);
    ws, rs, now := r.ws, r.rs, r.now;
    HistoryWeakens(start, ws, rs, now);
    StaysAnswered(answered.rs, rs);
    EndsStuck(start.drv, ws, rs, now.drv);
    acts := LateAfter(start, ws, rs, now);
  }

  lemma LateAfter(start: Clk, ws: seq<Write>, rs: seq<Reading>, now: Clk) returns (acts: seq<EnvAction>)
    requires Reset(start) && History(start, ws, rs, now, false) && Bsp.Outcome(start.drv, Timeout, ws, now.drv)
    requires SwitchTimedOut(Timeout, ws)
    ensures EnvRun(now, acts, false).sws == SYSCLK_PLL
  {
    ReachRefl(start, false);
    ResetIsBounded(start, start, false);
    hide History, Bsp.Outcome, Full, Reset, Bounded;
    RunIsBounded(start, start.drv, Timeout, ws, rs, now, false);
    StoppedShort(start.drv, Timeout, ws, now.drv);
    acts := LateFrom(now);
  }

  /** "After a failure SYSCLK is still HSI": true of a failed bring-up from reset, on
      every later schedule, exactly when it was not the switch that timed out, which CFGR.SW shows. */
  lemma StillHsiIff(start: Clk, status: DriverStatus, ws: seq<Write>, loads: seq<Reading>, now: Clk, steady: bool)
    requires Reset(start) && History(start, ws, loads, now, steady) && !status.Ok?
    requires Bsp.Outcome(start.drv, status, ws, now.drv)
    ensures (forall acts :: EnvRun(now, acts, false).sws == SYSCLK_HSI) <==> !SwitchTimedOut(status, ws)
    ensures SwitchTimedOut(status, ws) <==> now.drv.cfgr.sw == SYSCLK_PLL
  {
    ReachRefl(start, steady);
    ResetIsBounded(start, start, steady);
    hide History, Bsp.Outcome, Full, Reset;
    RunIsBounded(start, start.drv, status, ws, loads, now, steady);
    StoppedShort(start.drv, status, ws, now.drv);
    if SwitchTimedOut(status, ws) {
      hide Bounded;
      var acts := LateFrom(now);
      assert EnvRun(now, acts, false).sws == SYSCLK_PLL;
    } else {
      forall acts ensures EnvRun(now, acts, false).sws == SYSCLK_HSI {
        RunIsReach(now, acts, false);
      }
    }
  }

  /* ---- a switch that completes ---- */

  /** SWS moves to the PLL before the wait looks, and the caches are enabled. */
  lemma CompletedRun(s: Clk, requested: Run) returns (r: Run)
    requires Bsp.Startable(s.drv) && OnPlan(s, 11, requested)
    ensures Possible(s, r) && Bsp.Outcome(s.drv, Ok, r.ws, r.now.drv) && r.now.sws == SYSCLK_PLL
    ensures requested.rs <= r.rs && |r.rs| == |requested.rs| + 3
    ensures Rcc.PolledSws(r.rs[|requested.rs|..|requested.rs| + 2], SYSCLK_PLL, true)
    ensures requested.ws <= r.ws
  {
    var next := Bsp.BringUp(s.drv)[11];
    var moved := Moved(requested, requested.now.(sws := SYSCLK_PLL));
    PriorOnPlan(s, 11, requested);
    CachesAreTaken(s.drv, requested.now, moved.now);
    hide History, Bsp.BringUp, Bsp.At, Accepted, EnvReach, Performs, Bsp.Outcome, Bsp.Startable;
    MoveIsPossible(s, requested, moved.now);
    ReadIsPossible(s, moved, CFGR);
    ReadIsPossible(s, Read(moved, CFGR), CFGR);
    ReadIsPossible(s, Read(Read(moved, CFGR), CFGR), ACR);
    var ready := Read(Read(Read(moved, CFGR), CFGR), ACR);
    StoreIsPossible(s, ready, next);
    TakenPerforms(ready, next);
    r := Stored(ready, next);
    hide Stored;
    Bsp.AfterCaches(s.drv, requested.ws, requested.now.drv, [r.ws[11]]);
    assert r.rs[|requested.rs|..|requested.rs| + 2] == [Reading(CFGR, moved.now), Reading(CFGR, moved.now)];
  }

  lemma CachesAreTaken(d: Config, now: Clk, moved: Clk)
    requires now.drv == Bsp.BringUp(d)[10] && moved == now.(sws := SYSCLK_PLL)
    ensures EnvReach(now, moved, true) && Bsp.BringUp(d)[11] == Flash.CachesOn(now.drv)
    ensures Accepted(moved, Bsp.BringUp(d)[11]) == Bsp.BringUp(d)[11]
  {
  }

  /** From every reset state the bring-up can succeed, on steady hardware: what makes
      it succeed is not impossible. */
  lemma InitCanSucceed(start: Clk) returns (ws: seq<Write>, rs: seq<Reading>, now: Clk)
    requires Reset(start)
    ensures History(start, ws, rs, now, true) && Bsp.Outcome(start.drv, Ok, ws, now.drv) && now.sws == SYSCLK_PLL
    ensures |rs| == 30 && WaitsAnswered(rs) && Rcc.PolledSws(rs[27..29], SYSCLK_PLL, true)
    ensures FlagsComeUp(ws, rs) && SwitchComesThrough(ws, rs) && NoneRefused(ws)
  {
    hide Bsp.BringUp, Bsp.At, Rcc.PolledSws, WaitsAnswered, Reset, Refused;
    var answered := AnsweredRun(start);
    var requested := RequestedRun(start, answered);
    assert |Registers(requested.rs)| == 27;
    hide OnPlan, History;
    var r := CompletedRun(start, requested);
    ws, rs, now := r.ws, r.rs, r.now;
    StaysAnswered(answered.rs, rs);
    forall j | 0 <= j < |ws| ensures !Refused(ws[j]) {
      OkIsTaken(start.drv, ws, now.drv, j);
    }
  }

  lemma OkIsTaken(d: Config, ws: seq<Write>, after: Config, j: nat)
    requires Bsp.Outcome(d, Ok, ws, after) && j < |ws|
    ensures !Refused(ws[j])
  {
    assert Moves(ws[j], Prior(d, Bsp.BringUp(d)[..12], j), Bsp.BringUp(d)[..12][j]);
    hide Bsp.BringUp, Prior;
  }
}
