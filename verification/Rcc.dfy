/** drivers/src/rcc.c: oscillators, main PLL, bus prescalers and the SYSCLK switch.
    `ws` and `rs` are the stores and loads a call makes, in order. */
module Rcc {
  import opened Status
  import opened Polling
  import opened ClockState
  import opened ClockHw
  import Flash

  const CLOCK_READY_TIMEOUT_ITERATIONS: nat := 100000

  /** The most reads one wait makes. */
  const WAIT_READS: nat := 100_002

  /** CR.HSEBYP, as rccHseEnable() takes it. */
  const CR_HSEBYP: u32 := 0x40000

  /** PLLCFGR.PLLSRC, as rccPllConfig() takes it: clear for HSI, set for HSE. */
  const PLLSRC_HSI: u32 := 0
  const PLLSRC_HSE: u32 := 0x400000

  function PwrClocked(d: Config): Config {
    d.(pwren := true)
  }

  method PwrClockEnable(hw: ClockRegisters) returns (ghost ws: seq<Write>, ghost rs: seq<Reading>)
    requires hw.Valid()
    modifies hw
    ensures Ran(hw, ws, rs) && |rs| == 2 && |ws| == 1
    ensures Performs(ws, old(hw.s).drv, [PwrClocked(old(hw.s).drv)]) && hw.s.drv == PwrClocked(old(hw.s).drv)
  {
    hide Chain, ClockRegisters.Valid;
    var v := hw.ReadApb1enr();
    ghost var w := hw.WriteApb1enr(true);
    v := hw.ReadApb1enr();
    ws, rs := [w], hw.loads[|old(hw.loads)|..];
  }

  /* ---- waits and guards ---- */

  /** `rs` polled CR until the flag was read as wanted or the budget ran out. */
  ghost predicate Polled(rs: seq<Reading>, f: Flag, want: bool, status: DriverStatus) {
    && AllReadOf(rs, CR)
    && (status.Ok? || status.Timeout?)
    && IsPoll(FlagAnswers(rs, f, want), 100_000, status.Ok?)
  }

  lemma PollFoundSet(rs: seq<Reading>, f: Flag)
    requires Polled(rs, f, true, Ok) && f in {HSIRDY, HSERDY, PLLRDY}
    ensures |rs| >= 2 && Shows(rs[|rs| - 1], f)
  {
  }

  /** `rs` are reads of CR, the last one seeing `s`, and none before it matched. */
  ghost predicate Waiting(rs: seq<Reading>, f: Flag, want: bool, s: Clk) {
    && |rs| >= 1 && AllReadOf(rs, CR) && rs[|rs| - 1].s == s
    && forall i | 0 <= i < |rs| - 1 :: (f in rs[i].s.flags) != want
  }

  lemma WaitFirst(f: Flag, want: bool, s: Clk)
    ensures Waiting([Reading(CR, s)], f, want, s)
  {
  }

  lemma WaitOn(rs: seq<Reading>, f: Flag, want: bool, s: Clk, t: Clk)
    requires Waiting(rs, f, want, s) && (f in s.flags) != want
    ensures Waiting(rs + [Reading(CR, t)], f, want, t)
  {
  }

  lemma WaitOver(rs: seq<Reading>, f: Flag, want: bool, s: Clk, t: Clk)
    requires Waiting(rs, f, want, s) && |rs| <= CLOCK_READY_TIMEOUT_ITERATIONS + 1
    requires (f in s.flags) == want || |rs| == CLOCK_READY_TIMEOUT_ITERATIONS + 1
    ensures Polled(rs + [Reading(CR, t)], f, want, if (f in t.flags) == want then Ok else Timeout)
  {
  }

  method WaitCrFlag(hw: ClockRegisters, f: Flag, want: bool) returns (status: DriverStatus, ghost rs: seq<Reading>)
    requires hw.Valid() && f in {HSIRDY, HSERDY, PLLRDY}
    modifies hw
    ensures Ran(hw, [], rs) && EnvReach(old(hw.s), hw.s, hw.steady)
    ensures Polled(rs, f, want, status) && 2 <= |rs| <= WAIT_READS && rs[|rs| - 1].s == hw.s
    ensures status.Ok? || status.Timeout?
    ensures status.Ok? && want ==> ReadSet(hw.loads, |old(hw.loads)|, |hw.loads|, f)
  {
    hide Chain, ClockRegisters.Valid, EnvReach, Waiting, Polled;
    status := Ok;
    var timeout := CLOCK_READY_TIMEOUT_ITERATIONS;
    var cr, rdy := hw.ReadCr();
    rs := [Reading(CR, hw.s)];
    WaitFirst(f, want, hw.s);
    while (f in rdy) != want && timeout > 0
      invariant 1 <= |rs| == CLOCK_READY_TIMEOUT_ITERATIONS - timeout + 1
      invariant hw.loads == old(hw.loads) + rs && hw.stores == old(hw.stores)
      invariant hw.Valid() && EnvReach(old(hw.s), hw.s, hw.steady)
      invariant Waiting(rs, f, want, hw.s) && (f in rdy <==> f in hw.s.flags)
    {
      timeout := timeout - 1;
      ghost var seen := hw.s;
      cr, rdy := hw.ReadCr();
      ReachTrans(old(hw.s), seen, hw.s, hw.steady);
      WaitOn(rs, f, want, seen, hw.s);
      rs := rs + [Reading(CR, hw.s)];
    }
    ghost var seen := hw.s;
    cr, rdy := hw.ReadCr();
    ReachTrans(old(hw.s), seen, hw.s, hw.steady);
    WaitOver(rs, f, want, seen, hw.s);
    rs := rs + [Reading(CR, hw.s)];
    if (f in rdy) != want {
      status := Timeout;
    } else if want {
      assert Shows(hw.loads[|hw.loads| - 1], f);
    }
  }

  method ActiveSysclkSource(hw: ClockRegisters) returns (source: bits2)
    requires hw.Valid()
    modifies hw
    ensures Ran(hw, [], [Reading(CFGR, hw.s)]) && EnvReach(old(hw.s), hw.s, hw.steady)
    ensures source == hw.s.sws
  {
    hide Chain, ClockRegisters.Valid;
    var _, sws := hw.ReadCfgr();
    source := sws;
  }

  /** The oscillator drives this SYSCLK source, directly or through the PLL. */
  predicate Feeds(o: Oscillator, pll: Pllcfgr, source: bits2) {
    || source == (if o.Hsi? then SYSCLK_HSI else SYSCLK_HSE)
    || (source == SYSCLK_PLL && pll.src == o)
  }

  /** Busy iff the oscillator fed SYSCLK when CFGR was read. */
  method OscillatorDisableGuard(hw: ClockRegisters, o: Oscillator)
    returns (status: DriverStatus, ghost rs: seq<Reading>)
    requires hw.Valid()
    modifies hw
    ensures Ran(hw, [], rs) && EnvReach(old(hw.s), hw.s, hw.steady)
    ensures |rs| == 2 && rs[0].reg == CFGR && rs[1].reg == PLLCFGR
    ensures EnvReach(old(hw.s), rs[0].s, hw.steady) && EnvReach(rs[0].s, hw.s, hw.steady)
    ensures status == if Feeds(o, hw.s.drv.pllcfgr, rs[0].s.sws) then Busy else Ok
  {
    hide Chain, ClockRegisters.Valid;
    status := Ok;
    var active := ActiveSysclkSource(hw);
    ghost var r0 := Reading(CFGR, hw.s);
    var pll := hw.ReadPllcfgr();
    rs := [r0, Reading(PLLCFGR, hw.s)];
    if active == (if o.Hsi? then SYSCLK_HSI else SYSCLK_HSE) {
      status := Busy;
    } else if active == SYSCLK_PLL && pll.src == o {
      status := Busy;
    }
  }

  /* ---- oscillators and PLL ---- */

  function HsiSet(d: Config, on: bool): Config {
    d.(cr := d.cr.(hsion := on))
  }

  function HseSet(d: Config, on: bool): Config {
    d.(cr := d.cr.(hseon := on))
  }

  function HseBypass(d: Config, bypass: bool): Config {
    d.(cr := d.cr.(hsebyp := bypass))
  }

  function PllSet(d: Config, on: bool): Config {
    d.(cr := d.cr.(pllon := on))
  }

  ghost predicate HsiEnabled(s: Clk, status: DriverStatus, ws: seq<Write>, rs: seq<Reading>, t: Clk) {
    && Performs(ws, s.drv, [HsiSet(s.drv, true)]) && t.drv == HsiSet(s.drv, true)
    && t.drv == s.drv.(cr := s.drv.cr.(hsion := true))
    && |rs| >= 1 && rs[0].reg == CR && Polled(rs[1..], HSIRDY, true, status)
  }

  method HsiEnable(hw: ClockRegisters) returns (status: DriverStatus, ghost ws: seq<Write>, ghost rs: seq<Reading>)
    requires hw.Valid()
    modifies hw
    ensures Ran(hw, ws, rs)
    ensures HsiEnabled(old(hw.s), status, ws, rs, hw.s)
  {
    hide Chain, ClockRegisters.Valid, Polled, CanRise, PathOn, PathFlags;
    var cr, _ := hw.ReadCr();
    ghost var r0 := Reading(CR, hw.s);
    ghost var w := hw.WriteCr(cr.(hsion := true));
    ghost var p;
    status, p := WaitCrFlag(hw, HSIRDY, true);
    ws, rs := [w], [r0] + p;
    assert rs[1..] == p;
  }

  function OscillatorOff(d: Config, o: Oscillator): Config {
    if o.Hsi? then HsiSet(d, false) else HseSet(d, false)
  }

  predicate OscillatorOn(d: Config, o: Oscillator) {
    if o.Hsi? then d.cr.hsion else d.cr.hseon
  }

  /** `off` is asked for once, from the state the guard passed or a later one. A
      protected clock that has come into use meanwhile stays on. */
  ghost predicate ClearAsked(w: Write, guard: Clk, d: Config, off: Config, steady: bool) {
    && w.before.drv == d && w.want == off && EnvReach(guard, w.before, steady)
    && w.after == w.before.(drv := Accepted(w.before, off))
  }

  /** The guard, then one write and a wait for the ready flag to clear, from state `s`
      to `t`. A disable call does this with its own oscillator. */
  ghost predicate Disabled(o: Oscillator, s: Clk, steady: bool, status: DriverStatus, ws: seq<Write>,
                           rs: seq<Reading>, t: Clk) {
    && |rs| >= 2 && rs[0].reg == CFGR && rs[1].reg == PLLCFGR && EnvReach(s, rs[0].s, steady)
    && (status.Busy? <==> Feeds(o, s.drv.pllcfgr, rs[0].s.sws))
    && (status.Busy? ==> ws == [] && |rs| == 2 && t.drv == s.drv)
    && (!status.Busy? ==>
          && |ws| == 1 && ClearAsked(ws[0], rs[0].s, s.drv, OscillatorOff(s.drv, o), steady)
          && |rs| >= 5 && rs[2].reg == CR && Polled(rs[3..], OscillatorFlag(o), false, status)
          && rs[|rs| - 1].s == t && EnvReach(ws[0].after, t, steady))
  }

  lemma ReachKeepsConfig(s: Clk, t: Clk, steady: bool)
    requires EnvReach(s, t, steady)
    ensures t.drv == s.drv
  {
  }

  method HsiDisable(hw: ClockRegisters) returns (status: DriverStatus, ghost ws: seq<Write>, ghost rs: seq<Reading>)
    requires hw.Valid()
    modifies hw
    ensures Ran(hw, ws, rs)
    ensures Disabled(Hsi, old(hw.s), hw.steady, status, ws, rs, hw.s)
  {
    hide Chain, ClockRegisters.Valid, Polled, EnvReach, Accepted;
    status, rs := OscillatorDisableGuard(hw, Hsi);
    ReachKeepsConfig(old(hw.s), hw.s, hw.steady);
    ws := [];
    if status.Ok? {
      ghost var guarded := hw.s;
      var cr, _ := hw.ReadCr();
      ghost var r2, read := Reading(CR, hw.s), hw.s;
      ghost var w := hw.WriteCr(cr.(hsion := false));
      ClearCame(rs[0].s, guarded, read, w, hw.s, hw.steady);
      ghost var p;
      status, p := WaitCrFlag(hw, HSIRDY, false);
      ws, rs := [w], rs + [r2] + p;
      assert rs[3..] == p;
    }
  }

  /** The guard, the read of CR and the write see one state after another. */
  lemma ClearCame(guard: Clk, guarded: Clk, seen: Clk, w: Write, after: Clk, steady: bool)
    requires EnvReach(guard, guarded, steady) && EnvReach(guarded, seen, steady) && EnvReach(seen, w.before, steady)
    ensures EnvReach(guard, w.before, steady) && w.before.drv == guard.drv == guarded.drv == seen.drv
  {
    hide CanRise, PathFlags;
  }

  /** HSEBYP, HSEON, then the wait; nothing at all if `bypass` is neither value, and
      one read if HSE is on. */
  ghost predicate HseEnabled(bypass: u32, s: Clk, status: DriverStatus, ws: seq<Write>, rs: seq<Reading>, t: Clk) {
    && (status.InvalidParam? <==> bypass != 0 && bypass != 0x4_0000)
    && (status.InvalidParam? ==> ws == [] && rs == [] && t == s)
    && (status.Busy? <==> !status.InvalidParam? && s.drv.cr.hseon)
    && (status.Busy? ==> ws == [] && |rs| == 1 && t.drv == s.drv)
    && (!status.InvalidParam? && !status.Busy? ==>
          var d := HseBypass(s.drv, bypass != 0);
          && Performs(ws, s.drv, [d, HseSet(d, true)]) && t.drv == HseSet(d, true)
          && |ws| == 2 && ws[0].want == s.drv.(cr := s.drv.cr.(hsebyp := bypass != 0))
          && t.drv == s.drv.(cr := s.drv.cr.(hsebyp := bypass != 0, hseon := true))
          && 5 <= |rs| <= 3 + WAIT_READS && Polled(rs[3..], HSERDY, true, status)
          && rs[|rs| - 1].s == t && (status.Ok? || status.Timeout?))
  }

  method HseEnable(hw: ClockRegisters, bypass: u32)
    returns (status: DriverStatus, ghost ws: seq<Write>, ghost rs: seq<Reading>)
    requires hw.Valid()
    modifies hw
    ensures Ran(hw, ws, rs)
    ensures HseEnabled(bypass, old(hw.s), status, ws, rs, hw.s)
    ensures status.Ok? || status.Timeout? ==>
      && ws[1].readsSoFar == |old(hw.loads)| + 3
      && (status.Ok? ==> ReadSet(hw.loads, ws[1].readsSoFar, |hw.loads|, HSERDY))
  {
    hide Chain, ClockRegisters.Valid, Polled, ReadSet, CanRise, PathOn, PathFlags;
    status, ws, rs := Ok, [], [];
    if bypass != 0 && bypass != CR_HSEBYP {
      status := InvalidParam;
    } else {
      var cr, rdy := hw.ReadCr();
      rs := [Reading(CR, hw.s)];
      if cr.hseon {
        status := Busy;
      } else {
        cr, rdy := hw.ReadCr();
        rs := rs + [Reading(CR, hw.s)];
        ghost var w0 := hw.WriteCr(cr.(hsebyp := bypass == CR_HSEBYP));
        cr, rdy := hw.ReadCr();
        rs := rs + [Reading(CR, hw.s)];
        ghost var w1 := hw.WriteCr(cr.(hseon := true));
        ghost var p;
        status, p := WaitCrFlag(hw, HSERDY, true);
        ws, rs := [w0, w1], rs + p;
        assert rs[3..] == p;
      }
    }
  }

  method HseDisable(hw: ClockRegisters) returns (status: DriverStatus, ghost ws: seq<Write>, ghost rs: seq<Reading>)
    requires hw.Valid()
    modifies hw
    ensures Ran(hw, ws, rs)
    ensures Disabled(Hse, old(hw.s), hw.steady, status, ws, rs, hw.s)
  {
    hide Chain, ClockRegisters.Valid, Polled, EnvReach, Accepted;
    status, rs := OscillatorDisableGuard(hw, Hse);
    ReachKeepsConfig(old(hw.s), hw.s, hw.steady);
    ws := [];
    if status.Ok? {
      ghost var guarded := hw.s;
      var cr, _ := hw.ReadCr();
      ghost var r2, read := Reading(CR, hw.s), hw.s;
      ghost var w := hw.WriteCr(cr.(hseon := false));
      ClearCame(rs[0].s, guarded, read, w, hw.s, hw.steady);
      ghost var p;
      status, p := WaitCrFlag(hw, HSERDY, false);
      ws, rs := [w], rs + [r2] + p;
      assert rs[3..] == p;
    }
  }

  predicate ValidPll(source: u32, m: u32, n: u32, p: u32) {
    (source == 0 || source == 0x40_0000) && 2 <= m <= 63 && 50 <= n <= 432 && p <= 3
  }

  function WithPll(d: Config, source: u32, m: u32, n: u32, p: u32): Config
    requires ValidPll(source, m, n, p)
  {
    d.(pllcfgr := Pllcfgr(if source == 0 then Hsi else Hse, m, n, p))
  }

  ghost predicate PllConfigured(source: u32, m: u32, n: u32, p: u32, s: Clk, status: DriverStatus, ws: seq<Write>,
                                rs: seq<Reading>, t: Clk) {
    && |rs| <= 2 && |ws| <= 1
    && status == (if !ValidPll(source, m, n, p) then InvalidParam else if s.drv.cr.pllon then Busy else Ok)
    && (!status.Ok? ==> ws == [] && t.drv == s.drv)
    && (status.Ok? ==>
          var d := WithPll(s.drv, source, m, n, p);
          && |ws| == 1 && Performs(ws, s.drv, [d]) && t.drv == d
          && t.drv == s.drv.(pllcfgr := Pllcfgr(if source == 0 then Hsi else Hse, m, n, p)))
  }

  method PllConfig(hw: ClockRegisters, source: u32, m: u32, n: u32, p: u32)
    returns (status: DriverStatus, ghost ws: seq<Write>, ghost rs: seq<Reading>)
    requires hw.Valid()
    modifies hw
    ensures Ran(hw, ws, rs) && PllConfigured(source, m, n, p, old(hw.s), status, ws, rs, hw.s)
  {
    hide Chain, ClockRegisters.Valid, Polled, CanRise, PathOn, PathFlags;
    status, ws, rs := Ok, [], [];
    if source != PLLSRC_HSI && source != PLLSRC_HSE {
      status := InvalidParam;
    } else if m < 2 || m > 63 {
      status := InvalidParam;
    } else if n < 50 || n > 432 {
      status := InvalidParam;
    } else if p > 3 {
      status := InvalidParam;
    } else {
      var cr, _ := hw.ReadCr();
      rs := [Reading(CR, hw.s)];
      if cr.pllon {
        status := Busy;
      } else {
        var v := hw.ReadPllcfgr();
        rs := rs + [Reading(PLLCFGR, hw.s)];
        ghost var w := hw.WritePllcfgr(
          v.(src := if source == PLLSRC_HSE then Hse else Hsi, m := m, n := n, p := p));
        ws := [w];
      }
    }
  }

  ghost predicate PllEnabled(s: Clk, status: DriverStatus, ws: seq<Write>, rs: seq<Reading>, t: Clk) {
    && Performs(ws, s.drv, [PllSet(s.drv, true)]) && t.drv == PllSet(s.drv, true)
    && t.drv == s.drv.(cr := s.drv.cr.(pllon := true))
    && |ws| == 1 && 3 <= |rs| <= 1 + WAIT_READS && rs[0].reg == CR && Polled(rs[1..], PLLRDY, true, status)
  }

  method PllEnable(hw: ClockRegisters) returns (status: DriverStatus, ghost ws: seq<Write>, ghost rs: seq<Reading>)
    requires hw.Valid()
    modifies hw
    ensures Ran(hw, ws, rs)
    ensures PllEnabled(old(hw.s), status, ws, rs, hw.s)
    ensures ws[0].readsSoFar == |old(hw.loads)| + 1
    ensures status.Ok? || status.Timeout?
    ensures status.Ok? ==> PLLRDY in hw.s.flags && ReadSet(hw.loads, ws[0].readsSoFar, |hw.loads|, PLLRDY)
  {
    hide Chain, ClockRegisters.Valid, Polled, ReadSet, CanRise, PathOn, PathFlags;
    var cr, _ := hw.ReadCr();
    ghost var r0 := Reading(CR, hw.s);
    ghost var w := hw.WriteCr(cr.(pllon := true));
    ghost var p;
    status, p := WaitCrFlag(hw, PLLRDY, true);
    ws, rs := [w], [r0] + p;
    assert rs[1..] == p;
    if status.Ok? {
      PollFoundSet(p, PLLRDY);
    }
  }

  /** The same for the PLL, whose guard reads SWS only. */
  ghost predicate PllDisabled(s: Clk, steady: bool, status: DriverStatus, ws: seq<Write>, rs: seq<Reading>, t: Clk) {
    && |rs| >= 1 && rs[0].reg == CFGR && EnvReach(s, rs[0].s, steady)
    && (status.Busy? <==> rs[0].s.sws == SYSCLK_PLL)
    && (status.Busy? ==> ws == [] && |rs| == 1 && t.drv == s.drv)
    && (!status.Busy? ==>
          && |ws| == 1 && ClearAsked(ws[0], rs[0].s, s.drv, PllSet(s.drv, false), steady)
          && |rs| >= 4 && rs[1].reg == CR && Polled(rs[2..], PLLRDY, false, status)
          && rs[|rs| - 1].s == t && EnvReach(ws[0].after, t, steady))
  }

  method PllDisable(hw: ClockRegisters) returns (status: DriverStatus, ghost ws: seq<Write>, ghost rs: seq<Reading>)
    requires hw.Valid()
    modifies hw
    ensures Ran(hw, ws, rs)
    ensures PllDisabled(old(hw.s), hw.steady, status, ws, rs, hw.s)
  {
    hide Chain, ClockRegisters.Valid, Polled, EnvReach, Accepted;
    status, ws := Ok, [];
    var active := ActiveSysclkSource(hw);
    rs := [Reading(CFGR, hw.s)];
    ReachKeepsConfig(old(hw.s), hw.s, hw.steady);
    if active == SYSCLK_PLL {
      status := Busy;
    } else {
      ghost var guarded := hw.s;
      ReachRefl(guarded, hw.steady);
      var cr, _ := hw.ReadCr();
      rs := rs + [Reading(CR, hw.s)];
      ghost var read := hw.s;
      ghost var w := hw.WriteCr(cr.(pllon := false));
      ClearCame(guarded, guarded, read, w, hw.s, hw.steady);
      ghost var p;
      status, p := WaitCrFlag(hw, PLLRDY, false);
      ws, rs := [w], rs + p;
      assert rs[2..] == p;
    }
  }

  /* ---- bus prescalers ---- */

  predicate ValidHpre(hpre: u32) {
    hpre == 0 || 8 <= hpre <= 15
  }

  predicate ValidPpre(ppre: u32) {
    ppre == 0 || 4 <= ppre <= 7
  }

  function ValidateHpre(hpre: u32): (status: DriverStatus)
    ensures status == if ValidHpre(hpre) then Ok else InvalidParam
  {
    if hpre !in {0x0, 0x8, 0x9, 0xA, 0xB, 0xC, 0xD, 0xE, 0xF} then InvalidParam else Ok
  }

  function ValidatePpre(ppre: u32): (status: DriverStatus)
    ensures status == if ValidPpre(ppre) then Ok else InvalidParam
  {
    if ppre !in {0x0, 0x4, 0x5, 0x6, 0x7} then InvalidParam else Ok
  }

  function WithPrescalers(d: Config, hpre: u32, ppre1: u32, ppre2: u32): Config
    requires ValidHpre(hpre) && ValidPpre(ppre1) && ValidPpre(ppre2)
  {
    d.(cfgr := d.cfgr.(hpre := hpre, ppre1 := ppre1, ppre2 := ppre2))
  }

  ghost predicate PrescalersSet(hpre: u32, ppre1: u32, ppre2: u32, s: Clk, status: DriverStatus, ws: seq<Write>,
                                rs: seq<Reading>, t: Clk) {
    && |rs| <= 1 && |ws| <= 1
    && status == (if ValidHpre(hpre) && ValidPpre(ppre1) && ValidPpre(ppre2) then Ok else InvalidParam)
    && (status.InvalidParam? ==> ws == [] && t == s)
    && (status.Ok? ==>
          var d := WithPrescalers(s.drv, hpre, ppre1, ppre2);
          && |ws| == 1 && Performs(ws, s.drv, [d]) && t.drv == d
          && t.drv == s.drv.(cfgr := s.drv.cfgr.(hpre := hpre, ppre1 := ppre1, ppre2 := ppre2)))
  }

  method BusPrescalerConfig(hw: ClockRegisters, hpre: u32, ppre1: u32, ppre2: u32)
    returns (status: DriverStatus, ghost ws: seq<Write>, ghost rs: seq<Reading>)
    requires hw.Valid()
    modifies hw
    ensures Ran(hw, ws, rs) && KeepsLock(old(hw.s), hw.s, hw.steady)
    ensures PrescalersSet(hpre, ppre1, ppre2, old(hw.s), status, ws, rs, hw.s)
  {
    hide Chain, ClockRegisters.Valid;
    status, ws, rs := ValidateHpre(hpre), [], [];
    if status.Ok? {
      status := ValidatePpre(ppre1);
    }
    if status.Ok? {
      status := ValidatePpre(ppre2);
    }
    if status.Ok? {
      var v, _ := hw.ReadCfgr();
      rs := [Reading(CFGR, hw.s)];
      ghost var w := hw.WriteCfgr(v.(hpre := hpre, ppre1 := ppre1, ppre2 := ppre2));
      ws := [w];
    }
  }

  /* ---- SYSCLK switch ---- */

  function ReadyFlag(source: bits2): Flag {
    if source == SYSCLK_HSI then HSIRDY else if source == SYSCLK_HSE then HSERDY else PLLRDY
  }

  function WithSw(d: Config, source: bits2): Config {
    d.(cfgr := d.cfgr.(sw := source))
  }

  predicate ValidSwitch(source: u32, latency: u32) {
    source <= 2 && latency <= 15
  }

  /** The call raises the latency, so the flash write comes before the switch. */
  predicate Raises(d: Config, latency: nat) {
    latency > d.acr.latency
  }

  /** The writes of a call that raises the latency: flash first, then the switch,
      which is reached only if the flash write was taken. */
  ghost predicate RaisedWrites(d: Config, source: u32, latency: u32, status: DriverStatus, ws: seq<Write>,
                               after: Config)
    requires ValidSwitch(source, latency)
  {
    var raised := Flash.WithLatency(d, latency);
    var switched := WithSw(raised, source);
    && |ws| >= 1 && ws[0].before.drv == d && ws[0].want == raised
    && (status.HwFault? ==> |ws| == 1 && Refused(ws[0]) && after == d)
    && (!status.HwFault? ==> Taken(ws[0]))
    && (status.NotInitialized? ==> |ws| == 1 && after == raised)
    && (status.Ok? || status.Timeout? ==>
          |ws| == 2 && ws[1].before.drv == raised && ws[1].want == switched == after && Taken(ws[1]))
    && (status.HwFault? || status.NotInitialized? || status.Ok? || status.Timeout?)
  }

  /** The writes of a call that does not: the switch first, then flash, which is
      reached only once SWS reports the new source. */
  ghost predicate LoweredWrites(d: Config, source: u32, latency: u32, status: DriverStatus, ws: seq<Write>,
                                after: Config)
    requires ValidSwitch(source, latency)
  {
    var switched := WithSw(d, source);
    var lowered := Flash.WithLatency(switched, latency);
    && (status.NotInitialized? ==> ws == [] && after == d)
    && (!status.NotInitialized? ==>
          |ws| >= 1 && ws[0].before.drv == d && ws[0].want == switched && Taken(ws[0]))
    && (status.Timeout? ==> |ws| == 1 && after == switched)
    && (status.Ok? || status.HwFault? ==>
          && |ws| == 2 && ws[1].want == lowered
          && ws[1].before.drv == switched && ws[1].before.sws == source)
    && (status.Ok? ==> Taken(ws[1]) && after == lowered)
    && (status.HwFault? ==> Refused(ws[1]) && after == switched)
    && (status.HwFault? || status.NotInitialized? || status.Ok? || status.Timeout?)
  }

  ghost predicate SwitchWrites(d: Config, source: u32, latency: u32, status: DriverStatus, ws: seq<Write>,
                               after: Config)
    requires ValidSwitch(source, latency)
  {
    if Raises(d, latency) then RaisedWrites(d, source, latency, status, ws, after)
    else LoweredWrites(d, source, latency, status, ws, after)
  }

  /** Position of the SW write among the call's writes. */
  function SwIndex(d: Config, latency: nat): nat {
    if Raises(d, latency) then 1 else 0
  }

  /** Position of the ready-flag read among the call's reads. */
  function ReadyIndex(d: Config, latency: nat): nat {
    if Raises(d, latency) then 3 else 1
  }

  /** The ready flag a switch asks for, source by source. */
  predicate SourceReady(source: nat, flags: set<Flag>) {
    if source == 0 then HSIRDY in flags else if source == 1 then HSERDY in flags else PLLRDY in flags
  }

  /** It is the flag of the stage that drives SYSCLK, and for an oscillator all that
      the hardware asks for. */
  lemma ReadyIsPath(d: Config, source: bits2, flags: set<Flag>)
    requires source <= 2
    ensures PathFlags(d, source) <= flags ==> SourceReady(source, flags)
    ensures source < 2 ==> (SourceReady(source, flags) <==> PathFlags(d, source) <= flags)
    ensures source == 2 ==> (PathFlags(d, source) <= flags <==>
              PLLRDY in flags && SourceReady(if d.pllcfgr.src.Hsi? then 0 else 1, flags))
  {
  }

  /** The reads behind the decision to write SW and to call the switch complete. */
  ghost predicate SwitchReads(d: Config, source: u32, latency: u32, status: DriverStatus, ws: seq<Write>,
                              rs: seq<Reading>, poll: seq<Reading>, readsBefore: nat)
    requires ValidSwitch(source, latency)
  {
    var k, c := SwIndex(d, latency), ReadyIndex(d, latency);
    && (status.NotInitialized? ==> |rs| == c + 1 && rs[c].reg == CR && !SourceReady(source, rs[c].s.flags))
    && |rs| <= 5 + WAIT_READS
    && (|ws| <= k ==> |rs| <= c + 1)
    && (status.Timeout? ==> |ws| > k && |rs| == c + 2 + |poll|)
    && (|ws| > k ==>
          && |rs| >= c + 2 + |poll| && rs[c + 2..c + 2 + |poll|] == poll
          && rs[c].reg == CR && SourceReady(source, rs[c].s.flags) && ws[k].readsSoFar == readsBefore + c + 2
          && AllReadOf(poll, CFGR)
          && IsPoll(SwsAnswers(poll, source), 100_000, !status.Timeout?))
  }

  /** A switch touches SW and LATENCY only. */
  lemma SwitchFrame(d: Config, source: u32, latency: u32, status: DriverStatus, ws: seq<Write>, after: Config)
    requires ValidSwitch(source, latency) && SwitchWrites(d, source, latency, status, ws, after)
    ensures after == d.(cfgr := d.cfgr.(sw := after.cfgr.sw), acr := d.acr.(latency := after.acr.latency))
  {
  }

  /** `rs` polled CFGR until SWS reported the source or the budget ran out. */
  ghost predicate PolledSws(rs: seq<Reading>, source: nat, done: bool) {
    AllReadOf(rs, CFGR) && IsPoll(SwsAnswers(rs, source), 100_000, done)
  }

  /** A switch that times out has ended with a poll of SWS, made after the SW write,
      that gave up: the last read showed another source. */
  lemma TimedOutSwitch(d: Config, source: u32, latency: u32, ws: seq<Write>, rs: seq<Reading>, poll: seq<Reading>,
                       n: nat, after: Config)
    requires ValidSwitch(source, latency) && SwitchReads(d, source, latency, Timeout, ws, rs, poll, n)
    requires SwitchWrites(d, source, latency, Timeout, ws, after)
    ensures ws != [] && |rs| > |poll| && rs[|rs| - |poll|..] == poll && PolledSws(poll, source, false)
    ensures ws[|ws| - 1].readsSoFar == n + |rs| - |poll|
    ensures rs[|rs| - 1].reg == CFGR && rs[|rs| - 1].s.sws != source
  {
    assert rs[|rs| - 1] == poll[|poll| - 1];
  }

  /** One that reports NOT_INITIALIZED has just read CR without the ready flag. */
  lemma UnreadySwitch(d: Config, source: u32, latency: u32, ws: seq<Write>, rs: seq<Reading>, poll: seq<Reading>,
                      n: nat)
    requires ValidSwitch(source, latency) && SwitchReads(d, source, latency, NotInitialized, ws, rs, poll, n)
    ensures rs != [] && rs[|rs| - 1].reg == CR && !SourceReady(source, rs[|rs| - 1].s.flags)
  {
  }

  method WaitSws(hw: ClockRegisters, source: bits2) returns (done: bool, ghost poll: seq<Reading>)
    requires hw.Valid()
    modifies hw
    ensures Ran(hw, [], poll) && EnvReach(old(hw.s), hw.s, hw.steady)
    ensures AllReadOf(poll, CFGR) && 2 <= |poll| <= WAIT_READS
    ensures IsPoll(SwsAnswers(poll, source), 100_000, done)
    ensures poll[|poll| - 1].s == hw.s && (done <==> hw.s.sws == source)
  {
    hide Chain, ClockRegisters.Valid, CanRise, PathOn, PathFlags;
    var timeout := CLOCK_READY_TIMEOUT_ITERATIONS;
    var active := ActiveSysclkSource(hw);
    poll := [Reading(CFGR, hw.s)];
    while active != source && timeout > 0
      invariant 1 <= |poll| == CLOCK_READY_TIMEOUT_ITERATIONS - timeout + 1
      invariant hw.loads == old(hw.loads) + poll && hw.stores == old(hw.stores)
      invariant hw.Valid() && EnvReach(old(hw.s), hw.s, hw.steady)
      invariant AllReadOf(poll, CFGR) && poll[|poll| - 1].s == hw.s && active == hw.s.sws
      invariant forall i | 0 <= i < |poll| - 1 :: poll[i].s.sws != source
      decreases timeout
    {
      timeout := timeout - 1;
      active := ActiveSysclkSource(hw);
      poll := poll + [Reading(CFGR, hw.s)];
    }
    active := ActiveSysclkSource(hw);
    poll := poll + [Reading(CFGR, hw.s)];
    done := active == source;
  }

  /** What the middle of the switch does: check the ready flag, request the
      source, wait for CFGR.SWS. */
  ghost predicate Requested(d: Config, source: bits2, status: DriverStatus, ws: seq<Write>, rs: seq<Reading>,
                            poll: seq<Reading>, readsBefore: nat, after: Config) {
    && (status.Ok? || status.NotInitialized? || status.Timeout?)
    && |rs| >= 1 && rs[0].reg == CR
    && (status.NotInitialized? <==> !SourceReady(source, rs[0].s.flags))
    && (status.NotInitialized? ==> ws == [] && |rs| == 1 && after == d)
    && (!status.NotInitialized? ==>
          && |ws| == 1 && ws[0].want == WithSw(d, source) == after && Taken(ws[0])
          && ws[0].before.drv == d && ws[0].readsSoFar == readsBefore + 2
          && |rs| == 2 + |poll| && rs[2..] == poll && AllReadOf(poll, CFGR) && |poll| <= WAIT_READS
          && IsPoll(SwsAnswers(poll, source), 100_000, status.Ok?))
  }

  method RequestSource(hw: ClockRegisters, source: bits2)
    returns (status: DriverStatus, ghost ws: seq<Write>, ghost rs: seq<Reading>, ghost poll: seq<Reading>)
    requires hw.Valid() && source <= SYSCLK_PLL
    modifies hw
    ensures Ran(hw, ws, rs)
    ensures Requested(old(hw.s).drv, source, status, ws, rs, poll, |old(hw.loads)|, hw.s.drv)
    ensures status.Ok? ==> hw.s.sws == source == hw.s.drv.cfgr.sw
    ensures status.NotInitialized? && old(hw.s).drv.cr.pllon && PLLRDY in old(hw.s).flags && source == SYSCLK_PLL
      ==> !hw.steady
  {
    hide Chain, ClockRegisters.Valid, IsPoll, PathOn, PathFlags, SwsAnswers;
    status, ws, poll := Ok, [], [];
    var ready := ReadyFlag(source);
    var cr, rdy := hw.ReadCr();
    rs := [Reading(CR, hw.s)];
    if ready !in rdy {
      status := NotInitialized;
    } else {
      var cfgr, _ := hw.ReadCfgr();
      rs := rs + [Reading(CFGR, hw.s)];
      ghost var w := hw.WriteCfgr(cfgr.(sw := source));
      ws := [w];
      var done;
      done, poll := WaitSws(hw, source);
      assert (rs + poll)[2..] == poll;
      rs := rs + poll;
      if !done {
        status := Timeout;
      }
    }
  }

  lemma RaisedThenRequested(d: Config, source: u32, latency: u32, n: nat, mid: Config, w0: seq<Write>, r0: seq<Reading>,
                            status: DriverStatus, w1: seq<Write>, r1: seq<Reading>, poll: seq<Reading>, after: Config,
                            acr: Reading)
    requires ValidSwitch(source, latency) && Raises(d, latency)
    requires Flash.LatencySet(d, latency, Ok, w0, r0, mid)
    requires Requested(mid, source, status, w1, r1, poll, n + 3, after)
    ensures SwitchWrites(d, source, latency, status, w0 + w1, after)
    ensures SwitchReads(d, source, latency, status, w0 + w1, [acr] + r0 + r1, poll, n)
  {
    hide IsPoll, SwsAnswers;
    assert status.Ok? || status.Timeout? ==> ([acr] + r0 + r1)[5..5 + |poll|] == poll;
  }

  lemma RequestedThenLowered(d: Config, source: u32, latency: u32, n: nat, mid: Clk, w0: seq<Write>,
                             r0: seq<Reading>, poll: seq<Reading>, status: DriverStatus, w1: seq<Write>,
                             r1: seq<Reading>, after: Config, acr: Reading, steady: bool)
    requires ValidSwitch(source, latency) && !Raises(d, latency)
    requires Requested(d, source, Ok, w0, r0, poll, n + 1, mid.drv) && mid.sws == source
    requires Flash.LatencySet(mid.drv, latency, status, w1, r1, after) && EnvReach(mid, w1[0].before, steady)
    ensures SwitchWrites(d, source, latency, status, w0 + w1, after)
    ensures SwitchReads(d, source, latency, status, w0 + w1, [acr] + r0 + r1, poll, n)
  {
    hide IsPoll, SwsAnswers;
    assert ([acr] + r0 + r1)[3..3 + |poll|] == poll;
  }

  lemma RaiseRefused(d: Config, source: u32, latency: u32, n: nat, w0: seq<Write>, r0: seq<Reading>, after: Config,
                     acr: Reading)
    requires ValidSwitch(source, latency) && Raises(d, latency)
    requires Flash.LatencySet(d, latency, HwFault, w0, r0, after)
    ensures SwitchWrites(d, source, latency, HwFault, w0, after)
    ensures SwitchReads(d, source, latency, HwFault, w0, [acr] + r0, [], n)
  {
  }

  lemma RequestStopped(d: Config, source: u32, latency: u32, n: nat, status: DriverStatus, w0: seq<Write>,
                       r0: seq<Reading>, poll: seq<Reading>, after: Config, acr: Reading)
    requires ValidSwitch(source, latency) && !Raises(d, latency) && !status.Ok?
    requires Requested(d, source, status, w0, r0, poll, n + 1, after)
    ensures SwitchWrites(d, source, latency, status, w0, after)
    ensures SwitchReads(d, source, latency, status, w0, [acr] + r0, poll, n)
  {
    hide IsPoll, SwsAnswers;
    assert status.Timeout? ==> ([acr] + r0)[3..3 + |poll|] == poll;
  }

  /** The whole switch. `n` reads were made before it. */
  ghost predicate Switched(source: u32, latency: u32, s: Clk, status: DriverStatus, ws: seq<Write>, rs: seq<Reading>,
                           poll: seq<Reading>, n: nat, t: Clk) {
    && (status.InvalidParam? <==> !ValidSwitch(source, latency))
    && (status.InvalidParam? ==> ws == [] && |rs| == 1 && t.drv == s.drv)
    && (ValidSwitch(source, latency) ==>
          && SwitchWrites(s.drv, source, latency, status, ws, t.drv)
          && SwitchReads(s.drv, source, latency, status, ws, rs, poll, n))
    && (status.Ok? ==> t.sws == source == t.drv.cfgr.sw)
  }

  method SysclkSwitch(hw: ClockRegisters, source: u32, latency: u32)
    returns (status: DriverStatus, ghost ws: seq<Write>, ghost rs: seq<Reading>, ghost poll: seq<Reading>)
    requires hw.Valid()
    modifies hw
    ensures Ran(hw, ws, rs)
    ensures Switched(source, latency, old(hw.s), status, ws, rs, poll, |old(hw.loads)|, hw.s)
    ensures status.NotInitialized? && source == SYSCLK_PLL && old(hw.s).drv.cr.pllon && PLLRDY in old(hw.s).flags
      ==> !hw.steady
  {
    hide Chain, ClockRegisters.Valid, IsPoll, CanRise, PathOn, Accepted, SwsAnswers, SwitchWrites, SwitchReads;
    status, ws, poll := Ok, [], [];
    var acr := hw.ReadAcr();
    EnvKeepsLock(old(hw.s), hw.s, hw.steady);
    rs := [Reading(ACR, hw.s)];
    var current := acr.latency;
    if source != SYSCLK_HSI && source != SYSCLK_HSE && source != SYSCLK_PLL {
      status := InvalidParam;
    }
    ghost var d, n, first := old(hw.s).drv, |old(hw.loads)|, rs[0];
    ghost var w0, r0, w1, r1, w2, r2;
    if status.Ok? && latency > current {
      status, w0, r0 := Flash.SetLatency(hw, latency);
      ws, rs := w0, rs + r0;
      if status.HwFault? {
        RaiseRefused(d, source, latency, n, w0, r0, hw.s.drv, first);
      }
    }
    ghost var ready := hw.s.drv;
    if status.Ok? {
      status, w1, r1, poll := RequestSource(hw, source);
      if latency > current {
        RaisedThenRequested(d, source, latency, n, ready, w0, r0, status, w1, r1, poll, hw.s.drv, first);
      } else if !status.Ok? && latency <= Flash.LATENCY_MAX {
        RequestStopped(d, source, latency, n, status, w1, r1, poll, hw.s.drv, first);
      }
      assert ws == [] ==> ws + w1 == w1;
      ws, rs := ws + w1, rs + r1;
    }
    ghost var switched := hw.s;
    if status.Ok? && latency <= current {
      status, w2, r2 := Flash.SetLatency(hw, latency);
      RequestedThenLowered(d, source, latency, n, switched, w1, r1, poll, status, w2, r2, hw.s.drv, first, hw.steady);
      ws, rs := ws + w2, rs + r2;
    }
  }
}
