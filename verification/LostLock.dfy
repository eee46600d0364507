/** A bring-up that reports NOT_INITIALIZED, which bsp.h says cannot occur: the lock
    is lost between the wait for it and the switch's own look at CR. */
module LostLock {
  import opened Status
  import opened Polling
  import opened ClockState
  import opened ClockRuns
  import Flash
  import Pwr
  import Rcc
  import Bsp
  import BringUpSafety

  function Reads(r: Run, regs: seq<Register>): Run
    decreases |regs|
  {
    if regs == [] then r else Reads(Read(r, regs[0]), regs[1..])
  }

  /** The registers a run has read, in order. */
  function Registers(rs: seq<Reading>): (regs: seq<Register>)
    ensures |regs| == |rs| && forall i | 0 <= i < |rs| :: regs[i] == rs[i].reg
  {
    seq(|rs|, i requires 0 <= i < |rs| => rs[i].reg)
  }

  /** The flag rises, and the wait for it reads it twice. */
  function Awaited(r: Run, f: Flag): Run {
    var up := Moved(r, r.now.(flags := r.now.flags + {f}));
    Read(Read(up, RegisterOf(f)), RegisterOf(f))
  }

  /** Reads `at` and `at + 1` saw the flag set. */
  predicate SeenTwice(rs: seq<Reading>, at: nat, f: Flag) {
    at + 2 <= |rs| && Shows(rs[at], f) && Shows(rs[at + 1], f)
  }

  lemma SeenTwiceIsPolled(rs: seq<Reading>, at: nat, f: Flag)
    requires SeenTwice(rs, at, f)
    ensures RegisterOf(f) == CR ==> Rcc.Polled(rs[at..at + 2], f, true, Ok)
    ensures RegisterOf(f) == PWR_CSR ==> Pwr.PolledSet(rs[at..at + 2], f, Ok)
  {
    var p := rs[at..at + 2];
    assert p[0] == rs[at] && p[1] == rs[at + 1];
  }

  /** Where a run of the bring-up stands: `k` writes of the plan made and taken, and
      SYSCLK still on HSI. */
  ghost predicate OnPlan(s: Clk, k: nat, r: Run) {
    && Possible(s, r) && k <= 12 && |r.ws| == k && r.now.sws == SYSCLK_HSI
    && (k > 0 ==> Bsp.At(s.drv, k, r.ws, r.now.drv)) && (k == 0 ==> r.now.drv == s.drv)
  }

  lemma ReadStaysOnPlan(s: Clk, k: nat, r: Run, reg: Register)
    requires OnPlan(s, k, r)
    ensures OnPlan(s, k, Read(r, reg)) && Registers(Read(r, reg).rs) == Registers(r.rs) + [reg]
  {
    hide Possible, Bsp.At;
    ReadIsPossible(s, r, reg);
  }

  lemma {:induction false} ReadsStayOnPlan(s: Clk, k: nat, r: Run, regs: seq<Register>)
    requires OnPlan(s, k, r)
    ensures var t := Reads(r, regs);
      OnPlan(s, k, t) && t.now == r.now && r.rs <= t.rs && Registers(t.rs) == Registers(r.rs) + regs
    decreases |regs|
  {
    hide OnPlan;
    if regs != [] {
      ReadStaysOnPlan(s, k, r, regs[0]);
      ReadsStayOnPlan(s, k, Read(r, regs[0]), regs[1..]);
    }
  }

  lemma RiseStaysOnPlan(s: Clk, k: nat, r: Run, f: Flag)
    requires OnPlan(s, k, r) && f in CanRise(r.now.drv)
    ensures OnPlan(s, k, Moved(r, r.now.(flags := r.now.flags + {f})))
  {
    var next := r.now.(flags := r.now.flags + {f});
    assert EnvReach(r.now, next, true);
    hide Possible, Bsp.At, CanRise, EnvReach;
    MoveIsPossible(s, r, next);
  }

  lemma AwaitStaysOnPlan(s: Clk, k: nat, r: Run, f: Flag)
    requires OnPlan(s, k, r) && f in CanRise(r.now.drv)
    ensures var t := Awaited(r, f);
      && OnPlan(s, k, t) && t.now == r.now.(flags := r.now.flags + {f})
      && r.rs <= t.rs && Registers(t.rs) == Registers(r.rs) + [RegisterOf(f), RegisterOf(f)]
      && SeenTwice(t.rs, |r.rs|, f)
  {
    var up, reg := Moved(r, r.now.(flags := r.now.flags + {f})), RegisterOf(f);
    RiseStaysOnPlan(s, k, r, f);
    hide OnPlan, CanRise;
    ReadStaysOnPlan(s, k, up, reg);
    ReadStaysOnPlan(s, k, Read(up, reg), reg);
  }

  /** The configuration a run on the plan is in. */
  lemma PriorOnPlan(s: Clk, k: nat, r: Run)
    requires OnPlan(s, k, r) && k < 12
    ensures r.now.drv == Prior(s.drv, Bsp.BringUp(s.drv), k)
  {
    hide Possible, Bsp.BringUp, Performs;
  }

  /** Each planned write up to the request for the PLL is taken. */
  lemma PlanIsTaken(s: Clk, k: nat, now: Clk)
    requires Bsp.Startable(s.drv) && k <= Bsp.SWITCHED && now.sws == SYSCLK_HSI && s.drv.cr.hsion
    requires now.drv == Prior(s.drv, Bsp.BringUp(s.drv), k)
    ensures Accepted(now, Bsp.BringUp(s.drv)[k]) == Bsp.BringUp(s.drv)[k]
  {
  }

  lemma TakenPerforms(r: Run, next: Config)
    requires Accepted(r.now, next) == next
    ensures var t := Stored(r, next);
      && t.now == r.now.(drv := next) && t.rs == r.rs && |t.ws| == |r.ws| + 1
      && t.ws == r.ws + [t.ws[|r.ws|]] && t.ws[|r.ws|].readsSoFar == |r.rs|
      && Performs([t.ws[|r.ws|]], r.now.drv, [next])
  {
    hide Accepted;
  }

  lemma FirstOnPlan(d: Config, w: seq<Write>, next: Config)
    requires Performs(w, d, [next]) && next == Bsp.BringUp(d)[0]
    ensures Bsp.At(d, 1, w, next)
  {
    Bsp.Begun(d, w);
  }

  lemma StoreStaysOnPlan(s: Clk, k: nat, r: Run)
    requires Bsp.Startable(s.drv) && s.drv.cr.hsion && OnPlan(s, k, r) && k <= Bsp.SWITCHED
    ensures var next := Bsp.BringUp(s.drv)[k]; var t := Stored(r, next);
      OnPlan(s, k + 1, t) && t.now == r.now.(drv := next) && t.rs == r.rs && t.ws[k].readsSoFar == |t.rs|
  {
    var next := Bsp.BringUp(s.drv)[k];
    PriorOnPlan(s, k, r);
    PlanIsTaken(s, k, r.now);
    hide Possible, Accepted, Bsp.BringUp, Bsp.Startable, Performs, Bsp.At;
    StoreIsPossible(s, r, next);
    TakenPerforms(r, next);
    var t := Stored(r, next);
    var w := [t.ws[k]];
    hide Stored;
    if k == 0 {
      assert t.ws == w;
      FirstOnPlan(s.drv, w, next);
    } else {
      Bsp.AfterOne(s.drv, k, r.ws, r.now.drv, w, next);
    }
  }

  /** Some reads, then the next write of the plan. */
  lemma WriteStaysOnPlan(s: Clk, k: nat, r: Run, regs: seq<Register>) returns (t: Run)
    requires Bsp.Startable(s.drv) && s.drv.cr.hsion && OnPlan(s, k, r) && k <= Bsp.SWITCHED
    ensures OnPlan(s, k + 1, t) && t.now == r.now.(drv := Bsp.BringUp(s.drv)[k])
    ensures r.rs <= t.rs && Registers(t.rs) == Registers(r.rs) + regs && t.ws[k].readsSoFar == |t.rs|
  {
    hide OnPlan, Stored, Accepted, Bsp.Startable, Bsp.BringUp;
    ReadsStayOnPlan(s, k, r, regs);
    StoreStaysOnPlan(s, k, Reads(r, regs));
    t := Stored(Reads(r, regs), Bsp.BringUp(s.drv)[k]);
  }

  lemma FlagsOfPlan(d: Config, f: Flag, k: nat)
    requires k < 12
    ensures k >= Bsp.HSE_ON ==> HSERDY in CanRise(Bsp.BringUp(d)[k])
    ensures k >= Bsp.PLL_ON ==> {PLLRDY, VOSRDY} <= CanRise(Bsp.BringUp(d)[k])
    ensures k >= Bsp.OD_ON ==> ODRDY in CanRise(Bsp.BringUp(d)[k])
    ensures k >= Bsp.OD_SWITCHED ==> ODSWRDY in CanRise(Bsp.BringUp(d)[k])
  {
  }

  /** The registers the calls up to VOSRDY read, each wait reading its flag twice. */
  const LOCKED_READS: seq<Register> :=
    [APB1ENR, APB1ENR, CR, CR, CR, CR, CR, PWR_CR, CR, PLLCFGR, CR, CR, CR, PWR_CSR, PWR_CSR]

  /** ... from there to the latency write ... */
  const POWERED_READS: seq<Register> :=
    [PWR_CR, PWR_CSR, PWR_CSR, PWR_CR, PWR_CSR, PWR_CSR, CFGR, ACR, ACR]

  /** ... and to the end of a call that reports NOT_INITIALIZED. */
  const LAST_READS: seq<Register> := [ACR, CR]

  /** PWR clock and HSE: three writes ... */
  lemma HseOnRun(s: Clk) returns (r: Run)
    requires Bsp.Startable(s.drv) && s.drv.cr.hsion && s.sws == SYSCLK_HSI
    ensures OnPlan(s, 3, r) && r.now.drv == Bsp.BringUp(s.drv)[2] && Registers(r.rs) == LOCKED_READS[..5]
  {
    StartIsPossible(s);
    assert OnPlan(s, 0, Started(s));
    hide OnPlan, CanRise, Bsp.BringUp, Bsp.Startable;
    r := WriteStaysOnPlan(s, 0, Started(s), [APB1ENR]);
    r := WriteStaysOnPlan(s, 1, r, [APB1ENR, CR, CR]);
    r := WriteStaysOnPlan(s, 2, r, [CR]);
  }

  /** ... and a wait that sees HSERDY. */
  lemma HseRun(s: Clk) returns (r: Run)
    requires Bsp.Startable(s.drv) && s.drv.cr.hsion && s.sws == SYSCLK_HSI
    ensures OnPlan(s, 3, r) && Registers(r.rs) == LOCKED_READS[..7] && SeenTwice(r.rs, 5, HSERDY)
  {
    hide OnPlan, CanRise, Bsp.BringUp, Bsp.Startable;
    r := HseOnRun(s);
    assert |Registers(r.rs)| == 5;
    FlagsOfPlan(s.drv, HSERDY, 2);
    AwaitStaysOnPlan(s, 3, r, HSERDY);
    hide SeenTwice;
    r := Awaited(r, HSERDY);
  }

  /** Voltage scale and PLL: three more writes, and two waits that see their flag. */
  lemma LockedRun(s: Clk, started: Run) returns (r: Run)
    requires Bsp.Startable(s.drv) && s.drv.cr.hsion
    requires OnPlan(s, 3, started) && Registers(started.rs) == LOCKED_READS[..7] && SeenTwice(started.rs, 5, HSERDY)
    ensures OnPlan(s, 6, r) && r.now.drv == Bsp.BringUp(s.drv)[5] && Registers(r.rs) == LOCKED_READS
    ensures SeenTwice(r.rs, 5, HSERDY) && SeenTwice(r.rs, 11, PLLRDY) && SeenTwice(r.rs, 13, VOSRDY)
  {
    hide Possible, CanRise, Bsp.BringUp, Bsp.At;
    r := WriteStaysOnPlan(s, 3, started, [PWR_CR]);
    r := WriteStaysOnPlan(s, 4, r, [CR, PLLCFGR]);
    r := WriteStaysOnPlan(s, 5, r, [CR]);
    FlagsOfPlan(s.drv, PLLRDY, 5);
    AwaitStaysOnPlan(s, 6, r, PLLRDY);
    r := Awaited(r, PLLRDY);
    AwaitStaysOnPlan(s, 6, r, VOSRDY);
    r := Awaited(r, VOSRDY);
  }

  /** Over-drive, prescalers, latency: four more writes, two more waits. */
  lemma PoweredRun(s: Clk, locked: Run) returns (r: Run)
    requires Bsp.Startable(s.drv) && s.drv.cr.hsion && OnPlan(s, 6, locked) && Registers(locked.rs) == LOCKED_READS
    requires locked.now.drv == Bsp.BringUp(s.drv)[5]
    ensures OnPlan(s, 10, r) && r.now.drv == Bsp.BringUp(s.drv)[9] && locked.rs <= r.rs
    ensures Registers(r.rs) == LOCKED_READS + POWERED_READS
    ensures SeenTwice(r.rs, 16, ODRDY) && SeenTwice(r.rs, 19, ODSWRDY)
  {
    hide Possible, CanRise, Bsp.BringUp, Bsp.At;
    r := WriteStaysOnPlan(s, 6, locked, [PWR_CR]);
    FlagsOfPlan(s.drv, ODRDY, 6);
    AwaitStaysOnPlan(s, 7, r, ODRDY);
    r := Awaited(r, ODRDY);
    r := WriteStaysOnPlan(s, 7, r, [PWR_CR]);
    FlagsOfPlan(s.drv, ODSWRDY, 7);
    AwaitStaysOnPlan(s, 8, r, ODSWRDY);
    r := Awaited(r, ODSWRDY);
    r := WriteStaysOnPlan(s, 8, r, [CFGR]);
    r := WriteStaysOnPlan(s, 9, r, [ACR, ACR]);
  }

  /** The first 24 reads of a bring-up whose five waits all read their flag set. */
  ghost predicate WaitsAnswered(rs: seq<Reading>) {
    && |rs| >= 24 && Registers(rs[..24]) == LOCKED_READS + POWERED_READS
    && Rcc.Polled(rs[5..7], HSERDY, true, Ok) && Rcc.Polled(rs[11..13], PLLRDY, true, Ok)
    && Pwr.PolledSet(rs[13..15], VOSRDY, Ok)
    && Pwr.PolledSet(rs[16..18], ODRDY, Ok) && Pwr.PolledSet(rs[19..21], ODSWRDY, Ok)
  }

  /** From reset to the latency write, all waits answered. */
  lemma AnsweredRun(start: Clk) returns (r: Run)
    requires BringUpSafety.Reset(start)
    ensures Bsp.Startable(start.drv) && start.drv.cr.hsion
    ensures OnPlan(start, 10, r) && r.now.drv == Bsp.BringUp(start.drv)[9]
    ensures |r.rs| == 24 && WaitsAnswered(r.rs)
  {
    assert Bsp.Startable(start.drv) && start.drv.cr.hsion && start.sws == SYSCLK_HSI;
    hide Bsp.BringUp, Bsp.Startable, BringUpSafety.Reset, WaitsAnswered, OnPlan;
    var started := HseRun(start);
    var locked := LockedRun(start, started);
    r := PoweredRun(start, locked);
    assert |Registers(r.rs)| == 24;
    SeenIsAnswered(r.rs);
  }

  lemma SeenIsAnswered(rs: seq<Reading>)
    requires |rs| == 24 && Registers(rs) == LOCKED_READS + POWERED_READS
    requires SeenTwice(rs, 5, HSERDY) && SeenTwice(rs, 11, PLLRDY) && SeenTwice(rs, 13, VOSRDY)
    requires SeenTwice(rs, 16, ODRDY) && SeenTwice(rs, 19, ODSWRDY)
    ensures WaitsAnswered(rs)
  {
    hide Rcc.Polled, Pwr.PolledSet;
    assert rs[..24] == rs;
    SeenTwiceIsPolled(rs, 5, HSERDY);
    SeenTwiceIsPolled(rs, 11, PLLRDY);
    SeenTwiceIsPolled(rs, 13, VOSRDY);
    SeenTwiceIsPolled(rs, 16, ODRDY);
    SeenTwiceIsPolled(rs, 19, ODSWRDY);
  }

  lemma StaysAnswered(rs: seq<Reading>, longer: seq<Reading>)
    requires WaitsAnswered(rs) && rs <= longer
    ensures WaitsAnswered(longer)
  {
    hide Rcc.Polled, Pwr.PolledSet;
    assert longer[..24] == rs[..24] && longer[5..7] == rs[5..7] && longer[11..13] == rs[11..13];
    assert longer[13..15] == rs[13..15] && longer[16..18] == rs[16..18] && longer[19..21] == rs[19..21];
  }

  /** The lock falls after the read-back of the latency, before the switch looks. */
  lemma LostRun(s: Clk, powered: Run) returns (r: Run)
    requires OnPlan(s, 10, powered)
    ensures History(s, r.ws, r.rs, r.now, false) && r.ws == powered.ws && r.now.drv == powered.now.drv
    ensures powered.rs <= r.rs && Registers(r.rs) == Registers(powered.rs) + LAST_READS
    ensures !Shows(r.rs[|r.rs| - 1], PLLRDY)
  {
    var acr := Read(powered, ACR);
    var lost := acr.now.(flags := acr.now.flags - {PLLRDY});
    assert EnvReach(acr.now, lost, false);
    hide History, EnvReach, Bsp.At;
    ReadIsPossible(s, powered, ACR);
    HistoryWeakens(s, acr.ws, acr.rs, acr.now);
    HistoryDrifts(s, acr.ws, acr.rs, acr.now, lost, false);
    r := Read(Moved(acr, lost), CR);
    HistoryReads(s, r.ws, acr.rs, lost, Reading(CR, lost), false);
  }

  /** From every reset state there is such a run: the hardware can answer every wait
      and still be found without PLLRDY by the switch. It is a history of the
      hardware, the writes are the first ten of the plan, and the calls behave as
      their contracts say. */
  lemma LockCanBeLost(start: Clk) returns (ws: seq<Write>, rs: seq<Reading>, now: Clk)
    requires BringUpSafety.Reset(start)
    ensures History(start, ws, rs, now, false) && Bsp.Outcome(start.drv, NotInitialized, ws, now.drv)
    ensures WaitsAnswered(rs) && Registers(rs) == LOCKED_READS + POWERED_READS + LAST_READS
    ensures rs[25].reg == CR && !Shows(rs[25], PLLRDY)
    ensures var d := Bsp.BringUp(start.drv)[8];
      && Rcc.SwitchWrites(d, SYSCLK_PLL, Bsp.FLASH_LATENCY, NotInitialized, ws[9..], now.drv)
      && Rcc.SwitchReads(d, SYSCLK_PLL, Bsp.FLASH_LATENCY, NotInitialized, ws[9..], rs[22..], [], 22)
  {
    hide History, Bsp.BringUp, Bsp.At, Rcc.SwitchWrites, Rcc.SwitchReads, Bsp.Outcome, BringUpSafety.Reset,
         Rcc.Polled, Pwr.PolledSet;
    var answered := AnsweredRun(start);
    var r := LostRun(start, answered);
    ws, rs, now := r.ws, r.rs, r.now;
    assert answered.rs[..24] == answered.rs && |Registers(rs)| == 26;
    StaysAnswered(answered.rs, rs);
    EndsNotInitialized(start.drv, ws, rs, now.drv);
  }

  lemma EndsNotInitialized(d: Config, ws: seq<Write>, rs: seq<Reading>, after: Config)
    requires Bsp.Startable(d) && Bsp.At(d, 10, ws, after)
    requires |rs| == 26 && rs[25].reg == CR && !Shows(rs[25], PLLRDY)
    ensures Bsp.Outcome(d, NotInitialized, ws, after)
    ensures var p := Bsp.BringUp(d)[8];
      && Rcc.SwitchWrites(p, SYSCLK_PLL, Bsp.FLASH_LATENCY, NotInitialized, ws[9..], after)
      && Rcc.SwitchReads(p, SYSCLK_PLL, Bsp.FLASH_LATENCY, NotInitialized, ws[9..], rs[22..], [], 22)
  {
    assert Moves(ws[9], Prior(d, Bsp.BringUp(d)[..10], 9), Bsp.BringUp(d)[..10][9]);
    assert ws[9..] == [ws[9]] && rs[22..][3] == rs[25];
  }
}
