/** drivers/src/systick.c and the 24-bit down-counter it programs (PM0214, SysTick
    chapter): which requests are accepted, and when every tick comes. */
module SysTick {
  import opened Status

  type bits24 = n: nat | n < 0x100_0000

  const LOAD_MAX: nat := 0xFF_FFFF

  /* ---- the timer ---- */

  type phase8 = n: nat | n < 8

  // CTRL bits.
  const ENABLE: bv32 := 1
  const TICKINT: bv32 := 2
  const CLKSOURCE: bv32 := 4

  /** `processor` is CTRL.CLKSOURCE: the timer counts processor clocks, otherwise every
      eighth of them, `phase` clocks from now. `ticks` counts the exceptions pended so
      far. */
  datatype Timer = Timer(enable: bool, tickint: bool, processor: bool, phase: phase8,
                         load: bits24, val: bits24, ticks: nat)

  /** Reload at zero, otherwise count down; arriving at zero pends the exception if
      that is enabled. */
  function Counted(s: Timer): Timer {
    if s.val == 0 then s.(val := s.load)
    else s.(val := s.val - 1, ticks := s.ticks + if s.val == 1 && s.tickint then 1 else 0)
  }

  /** One processor clock. */
  function Clock(s: Timer): Timer {
    if !s.enable then s
    else if s.processor then Counted(s)
    else if s.phase > 0 then s.(phase := s.phase - 1)
    else Counted(s.(phase := 7))
  }

  /** Counting processor clocks, with the exception enabled. */
  predicate Running(s: Timer) {
    s.enable && s.tickint && s.processor
  }

  function Clocks(s: Timer, n: nat): Timer
    decreases n
  {
    if n == 0 then s else Clocks(Clock(s), n - 1)
  }

  datatype Store = Ctrl(word: bv32) | Load(value: bits24) | Val

  /** CTRL: ENABLE bit 0, TICKINT 1, CLKSOURCE 2. Any store to VAL clears it. */
  function Stored(s: Timer, a: Store): Timer {
    match a
    case Ctrl(w) =>
      s.(enable := (w >> 0) & 1 == 1, tickint := (w >> 1) & 1 == 1, processor := (w >> 2) & 1 == 1)
    case Load(v) => s.(load := v)
    case Val => s.(val := 0)
  }

  /** The register block. `gap(i)` clocks pass before access number `i`. */
  class SysTickRegisters {
    var s: Timer
    var k: nat
    const gap: nat -> nat

    constructor (start: Timer, gap: nat -> nat)
      ensures s == start && k == 0 && this.gap == gap
    {
      s, k := start, 0;
      this.gap := gap;
    }

    method Access(a: Store)
      modifies this
      ensures s == Stored(Clocks(old(s), gap(old(k))), a) && k == old(k) + 1
    {
      var left := gap(k);
      while left > 0
        invariant 0 <= left && k == old(k)
        invariant Clocks(s, left) == Clocks(old(s), gap(k))
      {
        s := Clock(s);
        left := left - 1;
      }
      s := Stored(s, a);
      k := k + 1;
    }
  }

  lemma {:induction false} StoppedStays(s: Timer, n: nat)
    requires !s.enable
    ensures Clocks(s, n) == s
    decreases n
  {
    if n > 0 {
      StoppedStays(s, n - 1);
    }
  }

  /* ---- the driver ---- */

  /** The accepted requests: a period of 2 to 2^24 clocks. */
  predicate Accepted(core: u32, tick: u32) {
    tick > 0 && 2 * tick <= core < 0x100_0001 * tick
  }

  lemma AcceptedIff(core: u32, tick: u32)
    requires tick > 0
    ensures Accepted(core, tick) <==> 2 <= core / tick <= 0x100_0000
  {
    var p := core / tick;
    assert p * tick <= core < p * tick + tick;
    if p < 2 { Scale(p + 1, 2, tick); } else { Scale(2, p, tick); }
    if p > 0x100_0000 { Scale(0x100_0001, p, tick); } else { Scale(p + 1, 0x100_0001, tick); }
  }

  lemma Scale(a: nat, c: nat, t: nat)
    requires a <= c
    ensures a * t <= c * t
  {
  }

  /** From whatever the timer was doing, and with any clocks between the stores, an
      accepted call leaves it just enabled, at zero, with the period in LOAD. */
  method Init(hw: SysTickRegisters, core: u32, tick: u32) returns (status: DriverStatus)
    modifies hw
    ensures status == if Accepted(core, tick) then Ok else InvalidParam
    ensures status.InvalidParam? ==> hw.s == old(hw.s) && hw.k == old(hw.k)
    ensures status.Ok? ==> tick > 0 && Running(hw.s) && hw.s.val == 0 && hw.s.load + 1 == core / tick
    ensures status.Ok? ==> hw.s.ticks == Clocks(old(hw.s), hw.gap(old(hw.k))).ticks
  {
    status := Ok;
    var reload := 0;
    if core == 0 || tick == 0 {
      status := InvalidParam;
    } else {
      AcceptedIff(core, tick);
      var period := core / tick;
      if period < 2 {
        status := InvalidParam;
      } else {
        reload := period - 1;
      }
    }
    if status.Ok? && reload > LOAD_MAX {
      status := InvalidParam;
    }
    if status.Ok? {
      StoresInOrder(hw.s, reload, hw.gap(hw.k), hw.gap(hw.k + 1), hw.gap(hw.k + 2), hw.gap(hw.k + 3));
      hw.Access(Ctrl(0));
      hw.Access(Load(reload));
      hw.Access(Val);
      hw.Access(Ctrl(CLKSOURCE | TICKINT | ENABLE));
    }
  }

  lemma StoresInOrder(s: Timer, reload: bits24, g0: nat, g1: nat, g2: nat, g3: nat)
    ensures var off := Stored(Clocks(s, g0), Ctrl(0));
      var loaded := Stored(Clocks(off, g1), Load(reload));
      var cleared := Stored(Clocks(loaded, g2), Val);
      Stored(Clocks(cleared, g3), Ctrl(CLKSOURCE | TICKINT | ENABLE))
      == Timer(true, true, true, Clocks(s, g0).phase, reload, 0, Clocks(s, g0).ticks)
  {
    var off := Stored(Clocks(s, g0), Ctrl(0));
    StoppedStays(off, g1);
    var loaded := Stored(off, Load(reload));
    StoppedStays(loaded, g2);
    StoppedStays(Stored(loaded, Val), g3);
  }

  /** Everything back to zero; pended exceptions are not taken back. */
  method Deinit(hw: SysTickRegisters)
    modifies hw
    ensures var s := Clocks(old(hw.s), hw.gap(old(hw.k)));
      hw.s == Timer(false, false, false, s.phase, 0, 0, s.ticks)
  {
    ghost var off := Stored(Clocks(hw.s, hw.gap(hw.k)), Ctrl(0));
    StoppedStays(off, hw.gap(hw.k + 1));
    StoppedStays(off.(load := 0), hw.gap(hw.k + 2));
    hw.Access(Ctrl(0));
    hw.Access(Load(0));
    hw.Access(Val);
  }

  /* ---- when the ticks come ---- */

  lemma {:induction false} ClocksAppend(s: Timer, m: nat, n: nat)
    ensures Clocks(Clocks(s, m), n) == Clocks(s, m + n)
    decreases m
  {
    if m > 0 {
      ClocksAppend(Clock(s), m - 1, n);
    }
  }

  /** Counting down from `val`: no tick before zero, one on arrival. */
  lemma {:induction false} Down(s: Timer, n: nat)
    requires Running(s) && n <= s.val
    ensures Clocks(s, n) == s.(val := s.val - n, ticks := s.ticks + if n > 0 && n == s.val then 1 else 0)
    decreases n
  {
    if n > 0 {
      Down(Clock(s), n - 1);
    }
  }

  /** One period from zero. */
  lemma Period(s: Timer, r: nat)
    requires Running(s) && s.val == 0 && s.load > 0 && 0 < r <= s.load + 1
    ensures Clocks(s, r) == s.(val := s.load + 1 - r, ticks := s.ticks + if r == s.load + 1 then 1 else 0)
  {
    Down(Clock(s), r - 1);
  }

  lemma {:induction false} Periods(s: Timer, k: nat)
    requires Running(s) && s.val == 0 && s.load > 0
    ensures Clocks(s, k * (s.load + 1)) == s.(ticks := s.ticks + k)
    decreases k
  {
    if k > 0 {
      var p := s.load + 1;
      Period(s, p);
      Periods(Clocks(s, p), k - 1);
      ClocksAppend(s, p, (k - 1) * p);
      assert p + (k - 1) * p == k * p;
    }
  }

  /** Over unboundedly many clocks: by clock `k * (LOAD + 1) + r` of a period exactly
      `k` ticks have been pended. So the k-th comes at clock k * (LOAD + 1). */
  lemma TicksByClock(s: Timer, k: nat, r: nat)
    requires Running(s) && s.val == 0 && s.load > 0 && r <= s.load
    ensures Clocks(s, k * (s.load + 1) + r).ticks == s.ticks + k
  {
    var at := k * (s.load + 1);
    Periods(s, k);
    ClocksAppend(s, at, r);
    if r > 0 {
      Period(s.(ticks := s.ticks + k), r);
    }
  }

  /** Tick k, against the exact time k / tick_hz: never late, and less than k clocks
      early. */
  lemma TickIsOnTime(s: Timer, core: u32, tick: u32, k: nat)
    requires Accepted(core, tick) && Running(s) && s.val == 0 && s.load + 1 == core / tick && k > 0
    ensures var at := k * (s.load + 1);
      && at > 0
      && Clocks(s, at).ticks == s.ticks + k && Clocks(s, at - 1).ticks == s.ticks + k - 1
      && at * tick <= k * core < (at + k) * tick
  {
    AcceptedIff(core, tick);
    var p := core / tick;
    var at := k * p;
    TicksByClock(s, k, 0);
    assert (k - 1) * p + (p - 1) == at - 1;
    TicksByClock(s, k - 1, p - 1);
    Bounds(core, tick, p, k);
  }

  lemma Bounds(core: nat, tick: nat, p: nat, k: nat)
    requires tick > 0 && p == core / tick && k > 0
    ensures k * p * tick <= k * core < (k * p + k) * tick
  {
    var low := p * tick;
    assert low <= core < low + tick;
    Distribute(k, p, tick);
    Scale(low, core, k);
    Less(core, low + tick, k);
  }

  lemma Distribute(k: nat, p: nat, t: nat)
    ensures k * p * t == (p * t) * k && (k * p + k) * t == (p * t + t) * k
  {
  }

  lemma Less(a: nat, c: nat, t: nat)
    requires a < c && t > 0
    ensures a * t < c * t
  {
  }

  /** The ticks are exactly on time iff the rate divides the clock. */
  lemma ExactIff(core: u32, tick: u32, k: nat)
    requires Accepted(core, tick) && k > 0
    ensures k * (core / tick) * tick == k * core <==> core % tick == 0
  {
    var p := core / tick;
    var low := p * tick;
    assert core == low + core % tick;
    Distribute(k, p, tick);
    if low < core {
      Less(low, core, k);
    }
  }
}
