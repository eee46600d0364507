/** drivers/src/wwdg.c and the window watchdog it programs (RM0390 section 21):
    when a refresh survives, when the early wakeup comes, and why the driver's
    order of stores keeps a stale wakeup from resetting the chip. */
module Wwdg {
  import opened Status

  type bits7 = n: nat | n < 128

  const COUNTER_MIN: nat := 0x40
  const COUNTER_MAX: nat := 0x7F
  const WDGTB_DIV8: nat := 3

  /* ---- the peripheral ---- */

  /** CR.WDGA and T, CFR.W, WDGTB and EWI, SR.EWIF; `fired` once the chip is reset. */
  datatype Dog = Dog(active: bool, t: bits7, w: bits7, tb: nat, ewi: bool, ewif: bool, fired: bool)

  /** One count. T runs whether or not the watchdog is active, and EWIF sets on
      every arrival at 0x40; the reset comes when an active counter drops below. */
  function Tick(s: Dog): Dog {
    if s.fired then s
    else
      var t := (s.t + 127) % 128;
      s.(t := t, ewif := s.ewif || t == 0x40, fired := s.active && t < 0x40)
  }

  function Ticks(s: Dog, n: nat): Dog
    decreases n
  {
    if n == 0 then s else Ticks(Tick(s), n - 1)
  }

  /** Storing WDGA | v in CR. While active, a store above the window resets. */
  function CrStored(s: Dog, v: bits7): Dog {
    if s.fired then s
    else s.(active := true, t := v, fired := (s.active && s.t > s.w) || v < 0x40)
  }

  /** EWI can be set but not cleared by a store. */
  function CfrStored(s: Dog, ewi: bool, tb: nat, w: bits7): Dog {
    if s.fired then s else s.(w := w, tb := tb, ewi := s.ewi || ewi)
  }

  /** EWIF clears on a written 0. */
  function SrStored(s: Dog): Dog {
    if s.fired then s else s.(ewif := false)
  }

  /** The register block. `gap(i)` counts pass before access number `i`. */
  class WwdgRegisters {
    var s: Dog
    var k: nat
    const gap: nat -> nat

    constructor (start: Dog, gap: nat -> nat)
      ensures s == start && k == 0 && this.gap == gap
    {
      s, k := start, 0;
      this.gap := gap;
    }

    method Elapse()
      modifies this
      ensures s == Ticks(old(s), gap(old(k))) && k == old(k) + 1
    {
      var left := gap(k);
      while left > 0
        invariant 0 <= left && k == old(k)
        invariant Ticks(s, left) == Ticks(old(s), gap(k))
      {
        s := Tick(s);
        left := left - 1;
      }
      k := k + 1;
    }

    /** One count between two accesses. */
    method Count()
      modifies this`s
      ensures s == Tick(old(s))
    {
      s := Tick(s);
    }

    method ReadCfr() returns (ewi: bool, tb: nat, w: bits7)
      modifies this
      ensures s == Ticks(old(s), gap(old(k))) && k == old(k) + 1
      ensures ewi == s.ewi && tb == s.tb && w == s.w
    {
      Elapse();
      ewi, tb, w := s.ewi, s.tb, s.w;
    }

    method WriteCfr(ewi: bool, tb: nat, w: bits7)
      modifies this
      ensures s == CfrStored(Ticks(old(s), gap(old(k))), ewi, tb, w) && k == old(k) + 1
    {
      Elapse();
      s := CfrStored(s, ewi, tb, w);
    }

    method WriteCr(v: bits7)
      modifies this
      ensures s == CrStored(Ticks(old(s), gap(old(k))), v) && k == old(k) + 1
    {
      Elapse();
      s := CrStored(s, v);
    }

    method WriteSr()
      modifies this
      ensures s == SrStored(Ticks(old(s), gap(old(k)))) && k == old(k) + 1
    {
      Elapse();
      s := SrStored(s);
    }
  }

  /* ---- the driver ---- */

  predicate ValidCount(v: u32) {
    0x40 <= v <= 0x7F
  }

  function ValidateCount(v: u32): (status: DriverStatus)
    ensures status == if ValidCount(v) then Ok else InvalidParam
  {
    if v < COUNTER_MIN || v > COUNTER_MAX then InvalidParam else Ok
  }

  /** The state an accepted start leaves, for the counts between its four accesses. */
  function Started(s: Dog, tb: nat, w: bits7, c: bits7, g0: nat, g1: nat, g2: nat, g3: nat): Dog {
    var read := Ticks(s, g0);
    var framed := CfrStored(Ticks(read, g1), read.ewi, tb, w);
    SrStored(Ticks(CrStored(Ticks(framed, g2), c), g3))
  }

  method Start(hw: WwdgRegisters, prescaler: u32, window: u32, counter: u32) returns (status: DriverStatus)
    modifies hw
    ensures status == if ValidCount(window) && ValidCount(counter) && prescaler <= 3 then Ok else InvalidParam
    ensures status.InvalidParam? ==> hw.s == old(hw.s) && hw.k == old(hw.k)
    ensures status.Ok? ==>
      && hw.k == old(hw.k) + 4
      && hw.s == Started(old(hw.s), prescaler, window, counter,
                         hw.gap(old(hw.k)), hw.gap(old(hw.k) + 1), hw.gap(old(hw.k) + 2), hw.gap(old(hw.k) + 3))
  {
    hide Ticks, CfrStored, CrStored, SrStored;
    status := ValidateCount(window);
    if status.Ok? {
      status := ValidateCount(counter);
    }
    if status.Ok? && prescaler > WDGTB_DIV8 {
      status := InvalidParam;
    }
    if status.Ok? {
      var ewi, _, _ := hw.ReadCfr();
      hw.WriteCfr(ewi, prescaler, window);
      hw.WriteCr(counter);
      hw.WriteSr();
    }
  }

  method Refresh(hw: WwdgRegisters, counter: u32) returns (status: DriverStatus)
    modifies hw
    ensures status == if ValidCount(counter) then Ok else InvalidParam
    ensures status.InvalidParam? ==> hw.s == old(hw.s) && hw.k == old(hw.k)
    ensures status.Ok? ==> hw.s == CrStored(Ticks(old(hw.s), hw.gap(old(hw.k))), counter) && hw.k == old(hw.k) + 1
  {
    status := ValidateCount(counter);
    if status.Ok? {
      hw.WriteCr(counter);
    }
  }

  method EnableEarlyWakeup(hw: WwdgRegisters)
    modifies hw
    ensures hw.k == old(hw.k) + 2
    ensures var s := Ticks(Ticks(old(hw.s), hw.gap(old(hw.k))), hw.gap(old(hw.k) + 1));
      hw.s == if s.fired then s else s.(ewi := true)
  {
    var ewi, tb, w := hw.ReadCfr();
    ghost var read := hw.s;
    hw.WriteCfr(true, tb, w);
    TicksFrame(read, hw.gap(old(hw.k) + 1));
  }

  method ClearEarlyWakeup(hw: WwdgRegisters)
    modifies hw
    ensures hw.s == SrStored(Ticks(old(hw.s), hw.gap(old(hw.k)))) && hw.k == old(hw.k) + 1
  {
    hw.WriteSr();
  }

  /** The documented WWDG_IRQHandler: clear the flag, then refresh. */
  method Handler(hw: WwdgRegisters, counter: u32) returns (status: DriverStatus)
    requires ValidCount(counter) && hw.gap(hw.k) == hw.gap(hw.k + 1) == 0
    modifies hw
    ensures status.Ok? && hw.s == Handled(old(hw.s), counter) && hw.k == old(hw.k) + 2
  {
    ClearEarlyWakeup(hw);
    status := Refresh(hw, counter);
  }

  function Handled(s: Dog, c: bits7): Dog {
    CrStored(SrStored(s), c)
  }

  /* ---- counting ---- */

  lemma {:induction false} TicksFrame(s: Dog, n: nat)
    ensures var u := Ticks(s, n); u == s.(t := u.t, ewif := u.ewif, fired := u.fired)
    ensures s.fired ==> Ticks(s, n) == s
    ensures !s.active ==> Ticks(s, n).fired == s.fired
    decreases n
  {
    if n > 0 {
      TicksFrame(Tick(s), n - 1);
    }
  }

  /** An active counter in range counts down to 0x40, sets EWIF there, and the next
      count is the reset. */
  lemma {:induction false} CountsDown(s: Dog, n: nat)
    requires s.active && !s.fired && 0x40 <= s.t
    ensures Ticks(s, n).fired <==> n >= s.t - 0x3F
    ensures n <= s.t - 0x40 ==>
      Ticks(s, n) == s.(t := s.t - n, ewif := s.ewif || (n > 0 && n == s.t - 0x40))
    decreases n
  {
    if n > 0 {
      if s.t == 0x40 {
        TicksFrame(Tick(s), n - 1);
      } else {
        CountsDown(Tick(s), n - 1);
      }
    }
  }

  lemma {:induction false} TicksAppend(s: Dog, m: nat, n: nat)
    ensures Ticks(Ticks(s, m), n) == Ticks(s, m + n)
    decreases m
  {
    if m > 0 {
      TicksAppend(Tick(s), m - 1, n);
    }
  }

  /** Exact detection. `n` counts after a start or a legal refresh left the counter
      at s.t, a refresh survives iff it is neither above the window nor too late,
      and without one the reset falls on count s.t - 0x3F. */
  lemma RefreshSurvivesIff(s: Dog, n: nat, c: u32)
    requires s.active && !s.fired && 0x40 <= s.t && 0x40 <= s.w && ValidCount(c)
    ensures !CrStored(Ticks(s, n), c).fired <==> s.t - s.w <= n <= s.t - 0x40
    ensures Ticks(s, n).fired <==> n >= s.t - 0x3F
    ensures s.t - s.w <= n <= s.t - 0x40 ==>
      var u := CrStored(Ticks(s, n), c); u.active && u.t == c && u.w == s.w
  {
    CountsDown(s, n);
    TicksFrame(s, n);
  }

  /** The counter is at the requested value, active, when the CR store is done,
      whatever it and EWIF were before. */
  lemma StartLoads(s: Dog, tb: nat, w: bits7, c: bits7, g0: nat, g1: nat, g2: nat, g3: nat) returns (loaded: Dog)
    requires !s.active && !s.fired && 0x40 <= c
    ensures loaded.active && !loaded.fired && loaded.t == c && loaded.w == w && loaded.ewi == s.ewi && loaded.tb == tb
    ensures Started(s, tb, w, c, g0, g1, g2, g3) == SrStored(Ticks(loaded, g3))
  {
    var read := Ticks(s, g0);
    TicksFrame(s, g0);
    TicksFrame(read, g1);
    var framed := CfrStored(Ticks(read, g1), read.ewi, tb, w);
    TicksFrame(framed, g2);
    loaded := CrStored(Ticks(framed, g2), c);
  }

  /** The same exactness from the CR store of a start: clearing EWIF afterwards
      neither delays nor hides anything. */
  lemma StartIsExact(s: Dog, tb: nat, w: bits7, c: bits7, g0: nat, g1: nat, g2: nat, g3: nat, m: nat, next: u32)
    requires !s.active && !s.fired && 0x40 <= c && 0x40 <= w && ValidCount(next)
    ensures var u := Ticks(Started(s, tb, w, c, g0, g1, g2, g3), m);
      && (u.fired <==> g3 + m >= c - 0x3F)
      && (!CrStored(u, next).fired <==> c - w <= g3 + m <= c - 0x40)
  {
    var loaded := StartLoads(s, tb, w, c, g0, g1, g2, g3);
    hide Started;
    ClearThenTicks(Ticks(loaded, g3), m);
    TicksAppend(loaded, g3, m);
    RefreshSurvivesIff(loaded, g3 + m, next);
  }

  /** EWIF never influences the counter. */
  lemma {:induction false} ClearThenTicks(s: Dog, m: nat)
    ensures var u, v := Ticks(s, m), Ticks(SrStored(s), m); v == u.(ewif := v.ewif)
    decreases m
  {
    if m > 0 {
      EwifAside(s, SrStored(s), m);
    }
  }

  lemma {:induction false} EwifAside(s: Dog, r: Dog, m: nat)
    requires r == s.(ewif := r.ewif)
    ensures var u, v := Ticks(s, m), Ticks(r, m); v == u.(ewif := v.ewif)
    decreases m
  {
    if m > 0 {
      EwifAside(Tick(s), Tick(r), m - 1);
    }
  }

  /** When the first early wakeup can come at all: at least one count of the period
      must be left after the SR store. Start values 0x42 and above allow the one
      count the documented bound on the stores leaves; 0x41 allows none; 0x40,
      which is accepted, never wakes. */
  lemma WakeupComesIff(s: Dog, tb: nat, w: bits7, c: bits7, g0: nat, g1: nat, g2: nat, g3: nat)
    requires !s.active && !s.fired && 0x40 <= c
    ensures var u := Started(s, tb, w, c, g0, g1, g2, g3);
      (exists m :: Ticks(u, m).ewif && !Ticks(u, m).fired) <==> g3 <= c - 0x41
  {
    var u := Started(s, tb, w, c, g0, g1, g2, g3);
    var loaded := StartLoads(s, tb, w, c, g0, g1, g2, g3);
    hide Started;
    CountsDown(loaded, g3);
    TicksFrame(loaded, g3);
    if g3 <= c - 0x41 {
      var m := c - 0x40 - g3;
      CountsDown(u, m);
      assert Ticks(u, m).ewif && !Ticks(u, m).fired;
    } else if g3 == c - 0x40 {
      forall m ensures !(Ticks(u, m).ewif && !Ticks(u, m).fired) {
        CountsDown(u, m);
      }
    } else {
      forall m ensures Ticks(u, m).fired {
        TicksFrame(u, m);
      }
    }
  }

  /* ---- the documented pattern ---- */

  /** Between two wakeups: EWIF clear, and the counter above the wakeup point. */
  predicate Armed(s: Dog) {
    s.active && !s.fired && s.ewi && !s.ewif && 0x41 <= s.t && 0x40 <= s.w
  }

  predicate Wakes(s: Dog) {
    s.ewif && s.ewi
  }

  /** One count, then the handler if the wakeup is pending. */
  function PatternTick(s: Dog, c: bits7): Dog {
    var u := Tick(s);
    if Wakes(u) then Handled(u, c) else u
  }

  function Pattern(s: Dog, cs: seq<bits7>): Dog {
    if cs == [] then s else PatternTick(Pattern(s, cs[..|cs| - 1]), cs[|cs| - 1])
  }

  /** One step: a wakeup comes exactly when the counter arrives at 0x40, inside the
      window, and leaves the pattern armed. */
  lemma PatternTickKeepsArmed(s: Dog, c: bits7)
    requires Armed(s) && 0x41 <= c
    ensures Armed(PatternTick(s, c))
    ensures Wakes(Tick(s)) <==> s.t == 0x41
    ensures Wakes(Tick(s)) ==> Tick(s).t == 0x40 <= s.w && !Tick(s).fired && PatternTick(s, c).t == c
  {
  }

  /** Unboundedly many counts, any refresh values from 0x41 up: never a reset, and
      every wakeup at 0x40 inside the window. */
  lemma {:induction false} PatternNeverResets(s: Dog, cs: seq<bits7>)
    requires Armed(s) && forall i | 0 <= i < |cs| :: 0x41 <= cs[i]
    ensures Armed(Pattern(s, cs))
    ensures forall i | 0 <= i < |cs| ::
      var u := Tick(Pattern(s, cs[..i]));
      !u.fired && !Pattern(s, cs[..i]).fired && (Wakes(u) ==> u.t == 0x40 <= u.w)
    decreases |cs|
  {
    if cs != [] {
      var before := cs[..|cs| - 1];
      PatternNeverResets(s, before);
      PatternTickKeepsArmed(Pattern(s, before), cs[|cs| - 1]);
      forall i | 0 <= i < |cs|
        ensures var u := Tick(Pattern(s, cs[..i]));
          !u.fired && !Pattern(s, cs[..i]).fired && (Wakes(u) ==> u.t == 0x40 <= u.w)
      {
        assert cs[..i] == if i < |before| then before[..i] else before;
      }
    }
  }

  /** The wakeups come at a fixed distance: the refresh value less 0x40. */
  lemma {:induction false} NextWake(s: Dog, cs: seq<bits7>)
    requires Armed(s) && |cs| < s.t - 0x40
    ensures Pattern(s, cs) == s.(t := s.t - |cs|)
    ensures Wakes(Tick(Pattern(s, cs))) <==> |cs| == s.t - 0x41
    decreases |cs|
  {
    if cs != [] {
      NextWake(s, cs[..|cs| - 1]);
    }
  }

  /** From an inactive block with EWI clear, whatever T and EWIF were, the documented
      start enters the pattern: with at most one count between the CR and SR stores,
      a start value from 0x42, and the wakeup enabled before the period is over
      (`d` counts later). A flag left from the free-running counter is gone. */
  lemma StartEntersPattern(s: Dog, tb: nat, w: bits7, c: bits7, g0: nat, g1: nat, g2: nat, g3: nat, d: nat, next: bits7)
    requires !s.active && !s.fired && !s.ewi && 0x40 <= w && 0x42 <= c && g3 <= 1 && 0x41 <= next
    requires g3 + d <= c - 0x40
    ensures var u := Ticks(Started(s, tb, w, c, g0, g1, g2, g3), d);
      && !u.fired
      && var e := u.(ewi := true);
      && (Wakes(e) <==> g3 + d == c - 0x40)
      && (Wakes(e) ==> e.t == 0x40 <= e.w)
      && Armed(if Wakes(e) then Handled(e, next) else e)
  {
    var loaded := StartLoads(s, tb, w, c, g0, g1, g2, g3);
    CountsDown(loaded, g3);
    CountsDown(Started(s, tb, w, c, g0, g1, g2, g3), d);
  }

  /** The whole pattern on the registers: start, enable the wakeup, then serve one
      handler call per wakeup, before the next count, for as long as it runs. */
  method DocumentedPattern(hw: WwdgRegisters, prescaler: u32, window: u32, counter: u32, first: u32, refresh: seq<u32>)
    requires prescaler <= 3 && ValidCount(window) && 0x42 <= counter <= 0x7F
    requires 0x41 <= first <= 0x7F && forall i | 0 <= i < |refresh| :: 0x41 <= refresh[i] <= 0x7F
    requires !hw.s.active && !hw.s.fired && !hw.s.ewi
    requires hw.gap(hw.k + 3) <= 1
    requires hw.gap(hw.k + 3) + hw.gap(hw.k + 4) + hw.gap(hw.k + 5) <= counter - 0x40
    requires forall i | hw.k + 6 <= i :: hw.gap(i) == 0
    modifies hw
    ensures Armed(hw.s) && !hw.s.fired
  {
    ghost var s, g0, g1, g2, g3 := hw.s, hw.gap(hw.k), hw.gap(hw.k + 1), hw.gap(hw.k + 2), hw.gap(hw.k + 3);
    ghost var d0, d1 := hw.gap(hw.k + 4), hw.gap(hw.k + 5);
    var status := Start(hw, prescaler, window, counter);
    ghost var u := hw.s;
    hide Started;
    EnableEarlyWakeup(hw);
    TicksAppend(u, d0, d1);
    StartEntersPattern(s, prescaler, window, counter, g0, g1, g2, g3, d0 + d1, first);
    if Wakes(hw.s) {
      status := Handler(hw, first);
    }
    for i := 0 to |refresh|
      invariant Armed(hw.s) && old(hw.k) + 6 <= hw.k
    {
      PatternTickKeepsArmed(hw.s, refresh[i]);
      hw.Count();
      if Wakes(hw.s) {
        status := Handler(hw, refresh[i]);
      }
    }
  }

  /** The last store is what makes this work. Without it, or with it before the CR
      store, a stale flag can wake the handler above the window, and its refresh
      resets the chip. */
  lemma StaleFlagWouldReset(s: Dog, tb: nat, w: bits7, c: bits7, next: bits7)
    requires !s.active && !s.fired && 0x40 <= w < c
    ensures s.ewif ==> Handled(CrStored(CfrStored(s, false, tb, w), c).(ewi := true), next).fired
    ensures s.t == 0x41 ==>
      Wakes(CrStored(Tick(SrStored(CfrStored(s, false, tb, w))), c).(ewi := true))
  {
  }

  /* ---- the words ---- */

  const CFR_EWI: bv32 := 0x0200

  function CfrWord(cfr: bv32, window: bv32, prescaler: bv32): bv32 {
    (cfr & CFR_EWI) | (window << 0) | (prescaler << 7)
  }

  /** wwdgStart()'s CFR store keeps EWI, bit 9, and sets W, bits 6:0, and WDGTB, bits
      8:7. */
  lemma CfrWordFields(cfr: bv32, window: bv32, prescaler: bv32)
    requires window < 128 && prescaler < 4
    ensures var x := CfrWord(cfr, window, prescaler);
      (x >> 0) & 0x7F == window && (x >> 7) & 3 == prescaler && (x >> 9) & 1 == (cfr >> 9) & 1 && x >> 10 == 0
  {
  }

  /** A CR store with WDGA set carries its counter value, and always WDGA. */
  lemma CrWordFields(counter: bv32)
    requires counter < 128
    ensures var x := 0x80 | (counter << 0); x & 0x7F == counter && x & 0x80 != 0
  {
  }
}
