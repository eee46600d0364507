/** drivers/src/flash.c: access latency with read-back, and the caches. */
module Flash {
  import opened Status
  import opened ClockState
  import opened ClockHw

  const LATENCY_MAX: nat := 15

  function WithLatency(d: Config, latency: bits4): Config {
    d.(acr := d.acr.(latency := latency))
  }

  /** What setting a latency up to 15 does: it asks for the latency once, and the
      status says whether the register now holds it. A refused write leaves every
      bit as it was. */
  ghost predicate LatencySet(d: Config, latency: bits4, status: DriverStatus, ws: seq<Write>, rs: seq<Reading>,
                             after: Config) {
    && |ws| == 1 && ws[0].want == WithLatency(d, latency) && ws[0].before.drv == d
    && |rs| == 2 && AllReadOf(rs, ACR)
    && (status.Ok? || status.HwFault?)
    && (status.Ok? <==> after.acr.latency == latency)
    && (status.Ok? ==> Taken(ws[0]) && after == WithLatency(d, latency) == d.(acr := d.acr.(latency := latency)))
    && (status.HwFault? ==> Refused(ws[0]) && after == d)
  }

  method SetLatency(hw: ClockRegisters, latency: u32)
    returns (status: DriverStatus, ghost ws: seq<Write>, ghost rs: seq<Reading>)
    requires hw.Valid()
    modifies hw
    ensures Ran(hw, ws, rs) && KeepsLock(old(hw.s), hw.s, hw.steady)
    ensures old(hw.s).sws == old(hw.s).drv.cfgr.sw ==> hw.s.sws == old(hw.s).sws
    ensures status.InvalidParam? <==> latency > 15
    ensures status.InvalidParam? ==> ws == [] && rs == [] && hw.s == old(hw.s)
    ensures latency <= 15 ==>
      && LatencySet(old(hw.s).drv, latency, status, ws, rs, hw.s.drv)
      && EnvReach(old(hw.s), ws[0].before, hw.steady) && ws[0].readsSoFar == |old(hw.loads)| + 1
  {
    hide Chain, ClockRegisters.Valid;
    status, ws, rs := Ok, [], [];
    if latency > LATENCY_MAX {
      status := InvalidParam;
    } else {
      var acr := hw.ReadAcr();
      ghost var w, effective := hw.WriteAcr(acr.(latency := latency));
      var back := hw.ReadAcr();
      if back.latency != latency {
        status := HwFault;
      }
      ws, rs := [w], hw.loads[|old(hw.loads)|..];
    }
  }

  method EnableCaches(hw: ClockRegisters) returns (ghost ws: seq<Write>, ghost rs: seq<Reading>)
    requires hw.Valid()
    modifies hw
    ensures Ran(hw, ws, rs)
    ensures var d := old(hw.s).drv;
      && Performs(ws, d, [CachesOn(d)]) && hw.s.drv == CachesOn(d)
      && hw.s.drv == d.(acr := d.acr.(prften := true, icen := true, dcen := true))
    ensures |rs| == 1
    ensures old(hw.s).sws == old(hw.s).drv.cfgr.sw ==> hw.s.sws == old(hw.s).sws
  {
    hide Chain, ClockRegisters.Valid;
    var acr := hw.ReadAcr();
    ghost var w, effective := hw.WriteAcr(acr.(prften := true, icen := true, dcen := true));
    ws, rs := [w], hw.loads[|old(hw.loads)|..];
  }

  function CachesOn(d: Config): Config {
    d.(acr := d.acr.(prften := true, icen := true, dcen := true))
  }
}
