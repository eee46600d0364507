/** What any sequence of clock calls keeps, at every write and at every moment in
    between: the running SYSCLK source is never stopped, and flash never has
    fewer wait states than the running or the requested source needs. */
module ClockSafety {
  import opened Status
  import opened ClockState
  import opened ClockHw
  import Flash
  import Rcc

  /** The source in use is switched on: itself, or the PLL and the oscillator
      PLLSRC selects. Only HSI, HSE and the PLL are in play. */
  predicate Running(s: Clk) {
    s.sws <= SYSCLK_PLL && s.drv.cfgr.sw <= SYSCLK_PLL && PathOn(s.drv, s.sws)
  }

  /** LATENCY covers the source in use and the source requested. `need` gives
      the wait states of each source, for any PLL setting it is run with. */
  predicate EnoughWaits(s: Clk, need: bits2 -> nat) {
    s.drv.acr.latency >= need(s.sws) && s.drv.acr.latency >= need(s.drv.cfgr.sw)
  }

  predicate Good(s: Clk, need: bits2 -> nat) {
    Running(s) && EnoughWaits(s, need)
  }

  /** No hardware step can stop the clock or starve flash: a switch that completes
      late, after a timeout or after return, is as safe as a prompt one. */
  lemma EnvKeepsGood(s: Clk, t: Clk, steady: bool, need: bits2 -> nat)
    requires Good(s, need) && EnvReach(s, t, steady)
    ensures Good(t, need)
  {
  }

  /** Every recorded moment of the object's history, reads included, is good. With
      EnvKeepsGood this covers every moment in between as well. */
  ghost predicate GoodHistory(hw: ClockRegisters, need: bits2 -> nat)
    reads hw
  {
    && (forall i | 0 <= i < |hw.stores| :: Good(hw.stores[i].before, need) && Good(hw.stores[i].after, need))
    && (forall k | 0 <= k < |hw.loads| :: Good(hw.loads[k].s, need))
    && Good(hw.s, need)
  }

  /** What keeps a disable call from stopping the clock: callers who check that no
      switch is pending, or a chip that protects a clock in use. */
  predicate Sheltered(s: Clk, careful: bool) {
    careful || s.protects
  }

  /** Each write of a list keeps what holds just before it. */
  ghost predicate KeepGood(ws: seq<Write>, need: bits2 -> nat, careful: bool) {
    forall i | 0 <= i < |ws| && Good(ws[i].before, need) && Sheltered(ws[i].before, careful) ::
      Good(ws[i].after, need) && Sheltered(ws[i].after, careful)
  }

  lemma HistoryIsGood(hw: ClockRegisters, need: bits2 -> nat, careful: bool)
    requires hw.Valid() && Good(hw.origin, need) && Sheltered(hw.origin, careful)
    requires KeepGood(hw.stores, need, careful)
    ensures GoodHistory(hw, need)
  {
    var good := s => Good(s, need) && Sheltered(s, careful);
    forall x, y | good(x) && EnvReach(x, y, hw.steady) ensures good(y) {
      EnvKeepsGood(x, y, hw.steady, need);
    }
    hide Good, History, EnvReach;
    HistoryKeeps(hw.origin, hw.stores, hw.loads, hw.s, hw.steady, good);
    forall i | 0 <= i < |hw.stores| ensures Good(hw.stores[i].before, need) && Good(hw.stores[i].after, need) {
      assert good(hw.stores[i].before) && good(hw.stores[i].after);
    }
    forall k | 0 <= k < |hw.loads| ensures Good(hw.loads[k].s, need) {
      assert good(hw.loads[k].s);
    }
  }

  /* ---- each call's writes, one at a time ---- */

  /** What the caller of a disable function checks first: no switch is pending. */
  predicate Settled(s: Clk) {
    s.drv.cfgr.sw == s.sws
  }

  lemma EnableKeeps(ws: seq<Write>, d: Config, e: Config, need: bits2 -> nat, careful: bool)
    requires Performs(ws, d, [e])
    requires e == Rcc.HsiSet(d, true) || e == Rcc.PllSet(d, true)
    ensures KeepGood(ws, need, careful)
  {
    hide PathFlags, CanRise;
  }

  lemma HseEnableKeeps(ws: seq<Write>, d: Config, bypass: bool, need: bits2 -> nat, careful: bool)
    requires Performs(ws, d, [Rcc.HseBypass(d, bypass), Rcc.HseSet(Rcc.HseBypass(d, bypass), true)])
    ensures KeepGood(ws, need, careful)
  {
    hide PathFlags, CanRise;
  }

  lemma PrescalersKeep(ws: seq<Write>, d: Config, hpre: u32, ppre1: u32, ppre2: u32, need: bits2 -> nat, careful: bool)
    requires Rcc.ValidHpre(hpre) && Rcc.ValidPpre(ppre1) && Rcc.ValidPpre(ppre2)
    requires Performs(ws, d, [Rcc.WithPrescalers(d, hpre, ppre1, ppre2)])
    ensures KeepGood(ws, need, careful)
  {
    hide PathFlags, CanRise;
  }

  /** PLLCFGR is written only with PLLON clear, so a PLL that feeds SYSCLK keeps
      its input. */
  lemma PllConfigKeeps(ws: seq<Write>, d: Config, source: u32, m: u32, n: u32, p: u32, need: bits2 -> nat,
                       careful: bool)
    requires Rcc.ValidPll(source, m, n, p) && !d.cr.pllon
    requires Performs(ws, d, [Rcc.WithPll(d, source, m, n, p)])
    ensures KeepGood(ws, need, careful)
  {
    hide PathFlags, CanRise;
  }

  lemma DisableKeeps(o: Oscillator, s: Clk, steady: bool, status: DriverStatus, ws: seq<Write>, rs: seq<Reading>,
                     t: Clk, need: bits2 -> nat, careful: bool)
    requires Rcc.Disabled(o, s, steady, status, ws, rs, t) && (careful ==> Settled(s))
    ensures KeepGood(ws, need, careful)
  {
    hide PathFlags, CanRise, Rcc.Polled;
  }

  lemma PllDisableKeeps(s: Clk, steady: bool, status: DriverStatus, ws: seq<Write>, rs: seq<Reading>, t: Clk,
                        need: bits2 -> nat, careful: bool)
    requires Rcc.PllDisabled(s, steady, status, ws, rs, t) && (careful ==> Settled(s))
    ensures KeepGood(ws, need, careful)
  {
    hide PathFlags, CanRise, Rcc.Polled;
  }

  lemma SwitchKeeps(d: Config, source: u32, latency: u32, status: DriverStatus, ws: seq<Write>, after: Config,
                    need: bits2 -> nat, careful: bool)
    requires Rcc.ValidSwitch(source, latency) && latency >= need(source)
    requires Rcc.SwitchWrites(d, source, latency, status, ws, after)
    ensures KeepGood(ws, need, careful)
  {
    hide PathFlags, CanRise;
  }

  /* ---- any sequence of calls ---- */

  datatype ClockCall =
    | HsiEnable
    | HsiDisable
    | HseEnable(bypass: u32)
    | HseDisable
    | PllConfig(pllSource: u32, m: u32, n: u32, p: u32)
    | PllEnable
    | PllDisable
    | BusPrescaler(hpre: u32, ppre1: u32, ppre2: u32)
    | SysclkSwitch(source: u32, latency: u32)

  /** The one promise callers make: a switch asks for the wait states its source needs. */
  predicate Covers(c: ClockCall, need: bits2 -> nat) {
    c.SysclkSwitch? && c.source <= SYSCLK_PLL ==> c.latency >= need(c.source)
  }

  /** One call: the state it found after `before` reads, its status, stores and loads,
      the loads of its SWS poll if it is a switch, and the state it left. */
  datatype Record = Record(s: Clk, before: nat, status: DriverStatus, ws: seq<Write>, rs: seq<Reading>,
                           poll: seq<Reading>, t: Clk)

  predicate Disables(c: ClockCall) {
    c.HsiDisable? || c.HseDisable? || c.PllDisable?
  }

  /** What a disable function does from state `s`. */
  ghost predicate DisableMade(c: ClockCall, s: Clk, steady: bool, status: DriverStatus, ws: seq<Write>,
                              rs: seq<Reading>, t: Clk)
    requires Disables(c)
  {
    match c
    case HsiDisable => Rcc.Disabled(Hsi, s, steady, status, ws, rs, t)
    case HseDisable => Rcc.Disabled(Hse, s, steady, status, ws, rs, t)
    case PllDisable => Rcc.PllDisabled(s, steady, status, ws, rs, t)
  }

  /** A careful caller reads CFGR first, and disables only with SW and SWS equal. */
  ghost predicate DisableChecked(c: ClockCall, steady: bool, m: Record)
    requires Disables(c)
  {
    && |m.rs| >= 1 && m.rs[0].reg == CFGR && EnvReach(m.s, m.rs[0].s, steady)
    && if Settled(m.rs[0].s) then DisableMade(c, m.rs[0].s, steady, m.status, m.ws, m.rs[1..], m.t)
       else m.status == Busy && m.ws == [] && |m.rs| == 1 && m.t == m.rs[0].s
  }

  /** The call was made and did what its function does. */
  ghost predicate Made(c: ClockCall, careful: bool, steady: bool, m: Record) {
    match c
    case HsiEnable => Rcc.HsiEnabled(m.s, m.status, m.ws, m.rs, m.t)
    case HseEnable(bypass) => Rcc.HseEnabled(bypass, m.s, m.status, m.ws, m.rs, m.t)
    case PllConfig(source, m', n, p) => Rcc.PllConfigured(source, m', n, p, m.s, m.status, m.ws, m.rs, m.t)
    case PllEnable => Rcc.PllEnabled(m.s, m.status, m.ws, m.rs, m.t)
    case BusPrescaler(hpre, ppre1, ppre2) => Rcc.PrescalersSet(hpre, ppre1, ppre2, m.s, m.status, m.ws, m.rs, m.t)
    case SysclkSwitch(source, latency) =>
      Rcc.Switched(source, latency, m.s, m.status, m.ws, m.rs, m.poll, m.before, m.t)
    case _ =>
      if careful then DisableChecked(c, steady, m) else DisableMade(c, m.s, steady, m.status, m.ws, m.rs, m.t)
  }

  /** Every call, succeeding or failing, keeps safety at each of its writes. */
  lemma MadeKeeps(c: ClockCall, careful: bool, steady: bool, m: Record, need: bits2 -> nat)
    requires Made(c, careful, steady, m) && Covers(c, need)
    ensures KeepGood(m.ws, need, careful)
  {
    hide Good, Performs, Moves, Rcc.Disabled, Rcc.PllDisabled, Rcc.SwitchWrites, Rcc.SwitchReads, Rcc.Polled;
    var d := m.s.drv;
    match c
    case HsiEnable => EnableKeeps(m.ws, d, Rcc.HsiSet(d, true), need, careful);
    case HseEnable(bypass) =>
      if m.ws != [] { HseEnableKeeps(m.ws, d, bypass == Rcc.CR_HSEBYP, need, careful); }
    case PllConfig(source, m', n, p) =>
      if m.status.Ok? { PllConfigKeeps(m.ws, d, source, m', n, p, need, careful); }
    case PllEnable => EnableKeeps(m.ws, d, Rcc.PllSet(d, true), need, careful);
    case BusPrescaler(hpre, ppre1, ppre2) =>
      if m.status.Ok? { PrescalersKeep(m.ws, d, hpre, ppre1, ppre2, need, careful); }
    case SysclkSwitch(source, latency) =>
      if !m.status.InvalidParam? { SwitchKeeps(d, source, latency, m.status, m.ws, m.t.drv, need, careful); }
    case _ =>
      if careful {
        if Settled(m.rs[0].s) {
          DisableMadeKeeps(c, m.rs[0].s, steady, m.status, m.ws, m.rs[1..], m.t, need, careful);
        }
      } else {
        DisableMadeKeeps(c, m.s, steady, m.status, m.ws, m.rs, m.t, need, careful);
      }
  }

  lemma DisableMadeKeeps(c: ClockCall, s: Clk, steady: bool, status: DriverStatus, ws: seq<Write>, rs: seq<Reading>,
                         t: Clk, need: bits2 -> nat, careful: bool)
    requires Disables(c) && DisableMade(c, s, steady, status, ws, rs, t) && (careful ==> Settled(s))
    ensures KeepGood(ws, need, careful)
  {
    hide Rcc.Disabled, Rcc.PllDisabled, KeepGood;
    match c
    case HsiDisable => DisableKeeps(Hsi, s, steady, status, ws, rs, t, need, careful);
    case HseDisable => DisableKeeps(Hse, s, steady, status, ws, rs, t, need, careful);
    case PllDisable => PllDisableKeeps(s, steady, status, ws, rs, t, need, careful);
  }

  /** One call. */
  method MakeCall(hw: ClockRegisters, c: ClockCall, careful: bool) returns (status: DriverStatus, ghost m: Record)
    requires hw.Valid()
    modifies hw
    ensures Ran(hw, m.ws, m.rs) && m.s == old(hw.s) && m.t == hw.s && m.before == |old(hw.loads)|
    ensures m.status == status && Made(c, careful, hw.steady, m)
  {
    hide Chain, ClockRegisters.Valid, EnvReach, Performs, Rcc.Disabled, Rcc.PllDisabled, Rcc.Switched, Rcc.Polled,
         Rcc.HseEnabled, Rcc.HsiEnabled, Rcc.PllEnabled, Rcc.PllConfigured, Rcc.PrescalersSet;
    ghost var ws, rs, poll := [], [], [];
    match c {
      case HsiEnable => status, ws, rs := Rcc.HsiEnable(hw);
      case HseEnable(bypass) => status, ws, rs := Rcc.HseEnable(hw, bypass);
      case PllConfig(source, m', n, p) => status, ws, rs := Rcc.PllConfig(hw, source, m', n, p);
      case PllEnable => status, ws, rs := Rcc.PllEnable(hw);
      case BusPrescaler(hpre, ppre1, ppre2) => status, ws, rs := Rcc.BusPrescalerConfig(hw, hpre, ppre1, ppre2);
      case SysclkSwitch(source, latency) => status, ws, rs, poll := Rcc.SysclkSwitch(hw, source, latency);
      case _ => status, ws, rs := MakeDisable(hw, c, careful);
    }
    m := Record(old(hw.s), |old(hw.loads)|, status, ws, rs, poll, hw.s);
  }

  method Disable(hw: ClockRegisters, c: ClockCall)
    returns (status: DriverStatus, ghost ws: seq<Write>, ghost rs: seq<Reading>)
    requires hw.Valid() && Disables(c)
    modifies hw
    ensures Ran(hw, ws, rs) && DisableMade(c, old(hw.s), hw.steady, status, ws, rs, hw.s)
  {
    hide Chain, ClockRegisters.Valid, Rcc.Disabled, Rcc.PllDisabled;
    match c
    case HsiDisable => status, ws, rs := Rcc.HsiDisable(hw);
    case HseDisable => status, ws, rs := Rcc.HseDisable(hw);
    case PllDisable => status, ws, rs := Rcc.PllDisable(hw);
  }

  method MakeDisable(hw: ClockRegisters, c: ClockCall, careful: bool)
    returns (status: DriverStatus, ghost ws: seq<Write>, ghost rs: seq<Reading>)
    requires hw.Valid() && Disables(c)
    modifies hw
    ensures Ran(hw, ws, rs)
    ensures forall before, poll ::
      Made(c, careful, hw.steady, Record(old(hw.s), before, status, ws, rs, poll, hw.s))
  {
    hide Chain, ClockRegisters.Valid, EnvReach, DisableMade;
    ws := [];
    if careful {
      var cfgr, sws := hw.ReadCfgr();
      rs := [Reading(CFGR, hw.s)];
      if cfgr.sw == sws {
        ghost var r;
        status, ws, r := Disable(hw, c);
        rs := rs + r;
        assert rs[1..] == r;
      } else {
        status := Busy;
      }
    } else {
      status, ws, rs := Disable(hw, c);
    }
  }

  /** The stores and loads of a list of calls. */
  ghost function Writes(ms: seq<Record>): seq<Write> {
    if ms == [] then [] else Writes(ms[..|ms| - 1]) + ms[|ms| - 1].ws
  }

  ghost function Readings(ms: seq<Record>): seq<Reading> {
    if ms == [] then [] else Readings(ms[..|ms| - 1]) + ms[|ms| - 1].rs
  }

  /** Where a list of calls that starts at `s` has got to. */
  ghost function Left(s: Clk, ms: seq<Record>): Clk {
    if ms == [] then s else ms[|ms| - 1].t
  }

  /** The records of a list of calls: each was made, from where the one before left
      the hardware. */
  ghost predicate AllMade(calls: seq<ClockCall>, careful: bool, steady: bool, s: Clk, ms: seq<Record>) {
    && |ms| == |calls|
    && forall i | 0 <= i < |ms| :: Made(calls[i], careful, steady, ms[i]) && ms[i].s == Left(s, ms[..i])
  }

  lemma {:induction false} AllKeep(calls: seq<ClockCall>, careful: bool, steady: bool, s: Clk, ms: seq<Record>,
                                   need: bits2 -> nat)
    requires AllMade(calls, careful, steady, s, ms) && forall c | c in calls :: Covers(c, need)
    ensures KeepGood(Writes(ms), need, careful)
    decreases |ms|
  {
    hide Made, Covers, Good, Sheltered;
    if ms != [] {
      var n := |ms| - 1;
      assert forall i | 0 <= i < n :: ms[..n][..i] == ms[..i];
      AllKeep(calls[..n], careful, steady, s, ms[..n], need);
      MadeKeeps(calls[n], careful, steady, ms[n], need);
    }
  }

  lemma OneMore(calls: seq<ClockCall>, careful: bool, steady: bool, s: Clk, ms: seq<Record>, c: ClockCall, m: Record)
    requires AllMade(calls, careful, steady, s, ms) && Made(c, careful, steady, m) && m.s == Left(s, ms)
    ensures AllMade(calls + [c], careful, steady, s, ms + [m])
    ensures Writes(ms + [m]) == Writes(ms) + m.ws && Readings(ms + [m]) == Readings(ms) + m.rs
    ensures Left(s, ms + [m]) == m.t
  {
    hide Made;
    assert (ms + [m])[..|ms|] == ms;
    assert forall i | 0 <= i < |ms| :: (ms + [m])[..i] == ms[..i];
  }

  /** From a good state, whatever calls are made and whatever the hardware does,
      every moment is good. The records say what each call did. Failed calls, refused
      flash writes and switches that complete during a later call are included. On a
      chip that protects a clock in use this needs nothing of the callers; without
      protection they must be careful. */
  method MakeCalls(hw: ClockRegisters, calls: seq<ClockCall>, careful: bool, ghost need: bits2 -> nat)
    returns (statuses: seq<DriverStatus>, ghost ms: seq<Record>)
    requires hw.Valid() && hw.stores == [] && Good(hw.origin, need) && Sheltered(hw.origin, careful)
    requires forall c | c in calls :: Covers(c, need)
    modifies hw
    ensures hw.Valid() && AllMade(calls, careful, hw.steady, old(hw.s), ms) && hw.s == Left(old(hw.s), ms)
    ensures hw.stores == Writes(ms) && hw.loads == old(hw.loads) + Readings(ms)
    ensures |statuses| == |calls| && forall i | 0 <= i < |calls| :: statuses[i] == ms[i].status
    ensures GoodHistory(hw, need)
  {
    hide Chain, ClockRegisters.Valid, Good, Sheltered, AllMade, Made, Covers, KeepGood;
    statuses, ms := [], [];
    NoneMade(careful, hw.steady, hw.s);
    for i := 0 to |calls|
      invariant hw.Valid() && AllMade(calls[..i], careful, hw.steady, old(hw.s), ms)
      invariant hw.s == Left(old(hw.s), ms) && |ms| == |statuses| == i
      invariant hw.stores == Writes(ms) && hw.loads == old(hw.loads) + Readings(ms)
      invariant forall j | 0 <= j < i :: statuses[j] == ms[j].status
    {
      var status;
      ghost var m;
      status, m := MakeCall(hw, calls[i], careful);
      OneMore(calls[..i], careful, hw.steady, old(hw.s), ms, calls[i], m);
      assert calls[..i] + [calls[i]] == calls[..i + 1];
      statuses, ms := statuses + [status], ms + [m];
    }
    assert calls[..|calls|] == calls;
    AllKeep(calls, careful, hw.steady, old(hw.s), ms, need);
    HistoryIsGood(hw, need, careful);
  }

  lemma NoneMade(careful: bool, steady: bool, s: Clk)
    ensures AllMade([], careful, steady, s, [])
  {
  }
}
