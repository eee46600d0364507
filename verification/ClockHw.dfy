/** The RCC, PWR and flash-interface register blocks as one object: the three
    are tied together by the hardware, so one environment moves all of them.
    Every access first lets the hardware take any number of steps. */
module ClockHw {
  import opened ClockState

  /** `w` is the one write made between states `a` and `b`; it asked for `want`,
      and `effective` is what the register blocks were given to accept. */
  ghost predicate Wrote(w: Write, a: Clk, want: Config, effective: Config, b: Clk, readsSoFar: nat, steady: bool) {
    && EnvReach(a, w.before, steady)
    && w == Write(w.before, want, b, readsSoFar)
    && b == w.before.(drv := Accepted(w.before, effective))
  }

  class ClockRegisters {
    var s: Clk
    const steady: bool                // ready flags never fall while enabled
    ghost const origin: Clk           // the state this object's history starts from
    ghost var stores: seq<Write>      // every write since then, oldest first
    ghost var loads: seq<Reading>     // every read since then, oldest first

    /** The recorded stores, loads and hardware steps lead from `origin` to the present. */
    ghost predicate Valid()
      reads this
    {
      History(origin, stores, loads, s, steady)
    }

    constructor (start: Clk, steady: bool)
      ensures Valid() && origin == s == start && this.steady == steady && stores == [] && loads == []
    {
      s, origin := start, start;
      this.steady := steady;
      stores, loads := [], [];
      HistoryStarts(start, steady);
    }

    /** Any number of hardware steps, chosen by nobody. */
    method Drift()
      requires Valid()
      modifies this`s
      ensures Valid() && EnvReach(old(s), s, steady)
    {
      var steps: nat := *;
      while steps > 0
        invariant Valid()
        invariant EnvReach(old(s), s, steady)
      {
        var a: EnvAction := *;
        var next := EnvStep(s, a, steady);
        HistoryDrifts(origin, stores, loads, s, next, steady);
        ReachTrans(old(s), s, next, steady);
        s := next;
        steps := steps - 1;
      }
    }

    method ReadCr() returns (cr: Cr, rdy: set<Flag>)
      requires Valid()
      modifies this`s, this`loads
      ensures Valid() && EnvReach(old(s), s, steady)
      ensures loads == old(loads) + [Reading(CR, s)]
      ensures cr == s.drv.cr && rdy == s.flags * {HSIRDY, HSERDY, PLLRDY}
    {
      Drift();
      HistoryReads(origin, stores, loads, s, Reading(CR, s), steady);
      loads := loads + [Reading(CR, s)];
      cr, rdy := s.drv.cr, s.flags * {HSIRDY, HSERDY, PLLRDY};
    }

    method ReadPllcfgr() returns (v: Pllcfgr)
      requires Valid()
      modifies this`s, this`loads
      ensures Valid() && EnvReach(old(s), s, steady)
      ensures loads == old(loads) + [Reading(PLLCFGR, s)]
      ensures v == s.drv.pllcfgr
    {
      Drift();
      HistoryReads(origin, stores, loads, s, Reading(PLLCFGR, s), steady);
      loads := loads + [Reading(PLLCFGR, s)];
      v := s.drv.pllcfgr;
    }

    method ReadCfgr() returns (v: Cfgr, sws: bits2)
      requires Valid()
      modifies this`s, this`loads
      ensures Valid() && EnvReach(old(s), s, steady)
      ensures loads == old(loads) + [Reading(CFGR, s)]
      ensures v == s.drv.cfgr && sws == s.sws
    {
      Drift();
      HistoryReads(origin, stores, loads, s, Reading(CFGR, s), steady);
      loads := loads + [Reading(CFGR, s)];
      v, sws := s.drv.cfgr, s.sws;
    }

    method ReadApb1enr() returns (pwren: bool)
      requires Valid()
      modifies this`s, this`loads
      ensures Valid() && EnvReach(old(s), s, steady)
      ensures loads == old(loads) + [Reading(APB1ENR, s)]
      ensures pwren == s.drv.pwren
    {
      Drift();
      HistoryReads(origin, stores, loads, s, Reading(APB1ENR, s), steady);
      loads := loads + [Reading(APB1ENR, s)];
      pwren := s.drv.pwren;
    }

    method ReadPwrCr() returns (v: PwrCr)
      requires Valid()
      modifies this`s, this`loads
      ensures Valid() && EnvReach(old(s), s, steady)
      ensures loads == old(loads) + [Reading(PWR_CR, s)]
      ensures v == s.drv.pwrcr
    {
      Drift();
      HistoryReads(origin, stores, loads, s, Reading(PWR_CR, s), steady);
      loads := loads + [Reading(PWR_CR, s)];
      v := s.drv.pwrcr;
    }

    method ReadCsr() returns (rdy: set<Flag>)
      requires Valid()
      modifies this`s, this`loads
      ensures Valid() && EnvReach(old(s), s, steady)
      ensures loads == old(loads) + [Reading(PWR_CSR, s)]
      ensures rdy == s.flags * {VOSRDY, ODRDY, ODSWRDY}
    {
      Drift();
      HistoryReads(origin, stores, loads, s, Reading(PWR_CSR, s), steady);
      loads := loads + [Reading(PWR_CSR, s)];
      rdy := s.flags * {VOSRDY, ODRDY, ODSWRDY};
    }

    method ReadAcr() returns (v: Acr)
      requires Valid()
      modifies this`s, this`loads
      ensures Valid() && EnvReach(old(s), s, steady)
      ensures loads == old(loads) + [Reading(ACR, s)]
      ensures v == s.drv.acr
    {
      Drift();
      HistoryReads(origin, stores, loads, s, Reading(ACR, s), steady);
      loads := loads + [Reading(ACR, s)];
      v := s.drv.acr;
    }

    /** One store. `want` differs from the present configuration in one register. */
    method Store(want: Config) returns (ghost w: Write)
      requires Valid() && want.acr.latency == s.drv.acr.latency
      modifies this`s, this`stores
      ensures Valid()
      ensures stores == old(stores) + [w]
      ensures Wrote(w, old(s), want, want, s, |loads|, steady)
    {
      Drift();
      ghost var before := s;
      s := s.(drv := Accepted(s, want));
      w := Write(before, want, s, |loads|);
      HistoryWrites(origin, stores, loads, before, w, steady);
      stores := stores + [w];
    }

    method WriteCr(v: Cr) returns (ghost w: Write)
      requires Valid()
      modifies this`s, this`stores
      ensures Valid()
      ensures stores == old(stores) + [w]
      ensures Wrote(w, old(s), old(s).drv.(cr := v), old(s).drv.(cr := v), s, |loads|, steady)
    {
      w := Store(s.drv.(cr := v));
    }

    method WritePllcfgr(v: Pllcfgr) returns (ghost w: Write)
      requires Valid()
      modifies this`s, this`stores
      ensures Valid()
      ensures stores == old(stores) + [w]
      ensures Wrote(w, old(s), old(s).drv.(pllcfgr := v), old(s).drv.(pllcfgr := v), s, |loads|, steady)
    {
      w := Store(s.drv.(pllcfgr := v));
    }

    method WriteCfgr(v: Cfgr) returns (ghost w: Write)
      requires Valid()
      modifies this`s, this`stores
      ensures Valid()
      ensures stores == old(stores) + [w]
      ensures Wrote(w, old(s), old(s).drv.(cfgr := v), old(s).drv.(cfgr := v), s, |loads|, steady)
    {
      w := Store(s.drv.(cfgr := v));
    }

    method WriteApb1enr(pwren: bool) returns (ghost w: Write)
      requires Valid()
      modifies this`s, this`stores
      ensures Valid()
      ensures stores == old(stores) + [w]
      ensures Wrote(w, old(s), old(s).drv.(pwren := pwren), old(s).drv.(pwren := pwren), s, |loads|, steady)
    {
      w := Store(s.drv.(pwren := pwren));
    }

    method WritePwrCr(v: PwrCr) returns (ghost w: Write)
      requires Valid()
      modifies this`s, this`stores
      ensures Valid()
      ensures stores == old(stores) + [w]
      ensures Wrote(w, old(s), old(s).drv.(pwrcr := v), old(s).drv.(pwrcr := v), s, |loads|, steady)
    {
      w := Store(s.drv.(pwrcr := v));
    }

    /** The flash interface may refuse a new LATENCY. */
    method WriteAcr(v: Acr) returns (ghost w: Write, ghost effective: Config)
      requires Valid()
      modifies this`s, this`stores
      ensures Valid()
      ensures stores == old(stores) + [w]
      ensures effective.acr == v || effective.acr == v.(latency := old(s).drv.acr.latency)
      ensures effective == old(s).drv.(acr := effective.acr)
      ensures Wrote(w, old(s), old(s).drv.(acr := v), effective, s, |loads|, steady)
    {
      Drift();
      ghost var before := s;
      var refused: bool := *;
      var held := s.drv.acr.latency;
      var taken := if refused then v.(latency := held) else v;
      effective := s.drv.(acr := taken);
      s := s.(drv := Accepted(s, s.drv.(acr := taken)));
      w := Write(before, before.drv.(acr := v), s, |loads|);
      HistoryWrites(origin, stores, loads, before, w, steady);
      stores := stores + [w];
    }
  }

  /** Between the two states the object saw exactly these stores and loads. */
  twostate predicate Ran(hw: ClockRegisters, ws: seq<Write>, rs: seq<Reading>)
    reads hw
  {
    && hw.Valid()
    && hw.stores == old(hw.stores) + ws
    && hw.loads == old(hw.loads) + rs
  }

  /** With steady flags, a locked PLL that stays on stays locked. */
  ghost predicate KeepsLock(s: Clk, t: Clk, steady: bool) {
    steady && s.drv.cr.pllon && PLLRDY in s.flags ==> t.drv.cr.pllon && PLLRDY in t.flags
  }

  lemma EnvKeepsLock(s: Clk, t: Clk, steady: bool)
    requires EnvReach(s, t, steady)
    ensures KeepsLock(s, t, steady)
  {
  }
}
