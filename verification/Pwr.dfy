/** drivers/src/pwr.c: regulator voltage scale and over-drive. */
module Pwr {
  import opened Status
  import opened Polling
  import opened ClockState
  import opened ClockHw

  const READY_TIMEOUT_ITERATIONS: nat := 100000

  /** The most reads one wait makes. */
  const WAIT_READS: nat := 100_002

  /** `rs` polled PWR_CSR until the flag was read set or the budget ran out. */
  ghost predicate PolledSet(rs: seq<Reading>, f: Flag, status: DriverStatus) {
    && AllReadOf(rs, PWR_CSR)
    && (status.Ok? || status.Timeout?)
    && IsPoll(FlagAnswers(rs, f, true), 100_000, status.Ok?)
  }

  /** `rs` are reads of CSR, the last one seeing `s`, and none before it matched. */
  ghost predicate Waiting(rs: seq<Reading>, f: Flag, s: Clk) {
    && |rs| >= 1 && AllReadOf(rs, PWR_CSR) && rs[|rs| - 1].s == s
    && forall i | 0 <= i < |rs| - 1 :: f !in rs[i].s.flags
  }

  lemma WaitFirst(f: Flag, s: Clk)
    ensures Waiting([Reading(PWR_CSR, s)], f, s)
  {
  }

  lemma WaitOn(rs: seq<Reading>, f: Flag, s: Clk, t: Clk)
    requires Waiting(rs, f, s) && f !in s.flags
    ensures Waiting(rs + [Reading(PWR_CSR, t)], f, t)
  {
  }

  lemma WaitOver(rs: seq<Reading>, f: Flag, s: Clk, t: Clk)
    requires Waiting(rs, f, s) && |rs| <= READY_TIMEOUT_ITERATIONS + 1
    requires f in s.flags || |rs| == READY_TIMEOUT_ITERATIONS + 1
    ensures PolledSet(rs + [Reading(PWR_CSR, t)], f, if f in t.flags then Ok else Timeout)
  {
  }

  method WaitCsrFlag(hw: ClockRegisters, f: Flag) returns (status: DriverStatus, ghost rs: seq<Reading>)
    requires f in {VOSRDY, ODRDY, ODSWRDY}
    requires hw.Valid()
    modifies hw
    ensures Ran(hw, [], rs) && EnvReach(old(hw.s), hw.s, hw.steady)
    ensures PolledSet(rs, f, status) && 2 <= |rs| <= WAIT_READS && rs[|rs| - 1].s == hw.s
    ensures status.Ok? || status.Timeout?
    ensures status.Ok? ==> ReadSet(hw.loads, |old(hw.loads)|, |hw.loads|, f)
  {
    hide Chain, ClockRegisters.Valid, EnvReach, Waiting, PolledSet;
    status := Ok;
    var timeout := READY_TIMEOUT_ITERATIONS;
    var csr := hw.ReadCsr();
    rs := [Reading(PWR_CSR, hw.s)];
    WaitFirst(f, hw.s);
    while f !in csr && timeout > 0
      invariant 1 <= |rs| == READY_TIMEOUT_ITERATIONS - timeout + 1
      invariant hw.loads == old(hw.loads) + rs && hw.stores == old(hw.stores)
      invariant hw.Valid() && EnvReach(old(hw.s), hw.s, hw.steady)
      invariant Waiting(rs, f, hw.s) && (f in csr <==> f in hw.s.flags)
    {
      timeout := timeout - 1;
      ghost var seen := hw.s;
      csr := hw.ReadCsr();
      ReachTrans(old(hw.s), seen, hw.s, hw.steady);
      WaitOn(rs, f, seen, hw.s);
      rs := rs + [Reading(PWR_CSR, hw.s)];
    }
    ghost var seen := hw.s;
    csr := hw.ReadCsr();
    ReachTrans(old(hw.s), seen, hw.s, hw.steady);
    WaitOver(rs, f, seen, hw.s);
    rs := rs + [Reading(PWR_CSR, hw.s)];
    if f !in csr {
      status := Timeout;
    } else {
      assert Shows(hw.loads[|hw.loads| - 1], f);
    }
  }

  function WithVos(d: Config, vos: bits2): Config {
    d.(pwrcr := d.pwrcr.(vos := vos))
  }

  method SetVoltageScale(hw: ClockRegisters, vos: u32)
    returns (status: DriverStatus, ghost ws: seq<Write>, ghost rs: seq<Reading>)
    requires hw.Valid()
    modifies hw
    ensures Ran(hw, ws, rs)
    ensures status == if 1 <= vos <= 3 then Ok else InvalidParam
    ensures status.InvalidParam? ==> ws == [] && rs == []
    ensures status.Ok? ==>
      var d := old(hw.s).drv;
      && |ws| == 1 && ws[0].want == WithVos(d, vos) && |rs| == 1
      && (d.pwren && !d.cr.pllon ==> Performs(ws, d, [WithVos(d, vos)]))
      && hw.s.drv == (if d.pwren && !d.cr.pllon then WithVos(d, vos) else d)
      && hw.s.drv.pwrcr == if d.pwren && !d.cr.pllon then d.pwrcr.(vos := vos) else d.pwrcr
  {
    hide Chain, ClockRegisters.Valid, CanRise, PathOn, PathFlags;
    status, ws, rs := Ok, [], [];
    if vos != VOS_SCALE1 && vos != VOS_SCALE2 && vos != VOS_SCALE3 {
      status := InvalidParam;
    } else {
      var cr := hw.ReadPwrCr();
      ghost var w := hw.WritePwrCr(cr.(vos := vos));
      ws, rs := [w], hw.loads[|old(hw.loads)|..];
    }
  }

  method WaitVoltageScaleReady(hw: ClockRegisters) returns (status: DriverStatus, ghost rs: seq<Reading>)
    requires hw.Valid()
    modifies hw
    ensures Ran(hw, [], rs) && EnvReach(old(hw.s), hw.s, hw.steady) && hw.s.drv == old(hw.s).drv
    ensures PolledSet(rs, VOSRDY, status) && 2 <= |rs| <= WAIT_READS && (status.Ok? || status.Timeout?)
    ensures status.Ok? ==> ReadSet(hw.loads, |old(hw.loads)|, |hw.loads|, VOSRDY)
  {
    hide Chain, ClockRegisters.Valid, PolledSet;
    status, rs := WaitCsrFlag(hw, VOSRDY);
  }

  function WithOden(d: Config): Config {
    d.(pwrcr := d.pwrcr.(oden := true))
  }

  function WithOdswen(d: Config): Config {
    d.(pwrcr := d.pwrcr.(odswen := true))
  }

  function OverdrivePlan(d: Config): seq<Config> {
    [WithOden(d), WithOdswen(WithOden(d))]
  }

  function OverdriveOn(d: Config, f: Flag): Config {
    if f == ODRDY then WithOden(d) else WithOdswen(d)
  }

  /** One enable bit, then its ready flag. */
  method EnableAndWait(hw: ClockRegisters, f: Flag)
    returns (status: DriverStatus, ghost w: Write, ghost rs: seq<Reading>, ghost polls: seq<Reading>)
    requires hw.Valid() && hw.s.drv.pwren && (f == ODRDY || f == ODSWRDY)
    modifies hw
    ensures Ran(hw, [w], rs) && KeepsLock(old(hw.s), hw.s, hw.steady)
    ensures Moves(w, old(hw.s).drv, OverdriveOn(old(hw.s).drv, f)) && hw.s.drv == OverdriveOn(old(hw.s).drv, f)
    ensures |rs| == 1 + |polls| && rs[1..] == polls && PolledSet(polls, f, status) && 2 <= |polls| <= WAIT_READS
    ensures w.readsSoFar == |old(hw.loads)| + 1
    ensures status.Ok? || status.Timeout?
    ensures status.Ok? ==> ReadSet(hw.loads, w.readsSoFar, |hw.loads|, f)
  {
    hide Chain, ClockRegisters.Valid, PolledSet, ReadSet;
    var cr := hw.ReadPwrCr();
    ghost var r := Reading(PWR_CR, hw.s);
    w := hw.WritePwrCr(if f == ODRDY then cr.(oden := true) else cr.(odswen := true));
    status, polls := WaitCsrFlag(hw, f);
    rs := [r] + polls;
  }

  /** ODEN, then ODSWEN only if ODRDY was read set in between. `od` and `sw` are the
      reads of the two waits. */
  method EnableOverdrive(hw: ClockRegisters)
    returns (status: DriverStatus, ghost ws: seq<Write>, ghost rs: seq<Reading>, ghost od: seq<Reading>,
             ghost sw: seq<Reading>)
    requires hw.Valid() && hw.s.drv.pwren
    modifies hw
    ensures Ran(hw, ws, rs) && KeepsLock(old(hw.s), hw.s, hw.steady)
    ensures |ws| == 1 || |ws| == 2
    ensures Performs(ws, old(hw.s).drv, OverdrivePlan(old(hw.s).drv)[..|ws|])
    ensures |ws| == 1 ==> status.Timeout? && PolledSet(od, ODRDY, Timeout)
    ensures |ws| == 1 ==> |rs| == 1 + |od| && |od| >= 2 && rs[1..] == od
    ensures |ws| == 2 ==> PolledSet(od, ODRDY, Ok) && PolledSet(sw, ODSWRDY, status)
    ensures |ws| == 2 ==> |rs| == 2 + |od| + |sw| && |sw| >= 2 && rs[1..1 + |od|] == od && rs[2 + |od|..] == sw
    ensures |ws| == 2 ==> ReadSet(hw.loads, ws[0].readsSoFar, ws[1].readsSoFar, ODRDY)
    ensures ws[|ws| - 1].readsSoFar == |old(hw.loads)| + if |ws| == 1 then 1 else 2 + |od|
    ensures status.Ok? ==> |ws| == 2 && ReadSet(hw.loads, ws[1].readsSoFar, |hw.loads|, ODSWRDY)
    ensures (status.Ok? || status.Timeout?) && |rs| <= 2 + 2 * WAIT_READS
    ensures hw.s.drv == OverdrivePlan(old(hw.s).drv)[|ws| - 1]
    ensures var p := old(hw.s).drv.pwrcr.(oden := true);
      hw.s.drv == old(hw.s).drv.(pwrcr := if |ws| == 1 then p else p.(odswen := true))
  {
    hide Chain, ClockRegisters.Valid, PolledSet, ReadSet, Moves;
    ghost var w0;
    status, w0, rs, od := EnableAndWait(hw, ODRDY);
    ws, sw := [w0], [];
    if status.Ok? {
      ghost var seen, w1, r1 := hw.loads, w0, rs;
      status, w1, r1, sw := EnableAndWait(hw, ODSWRDY);
      ws, rs := [w0, w1], rs + r1;
      ReadSetStays(seen, w0.readsSoFar, |seen|, ODRDY, hw.loads, w0.readsSoFar, w1.readsSoFar);
    }
  }
}
