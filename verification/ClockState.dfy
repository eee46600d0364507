/** The clock tree seen from software: the RCC, PWR and flash-interface bits the
    drivers own, the bits the hardware owns, and what the hardware may do to
    its own bits between two register accesses (RM0390 sections 3.4.1, 5.1.3,
    5.4 and 6.3). */
module ClockState {
  type bits2 = n: nat | n < 4
  type bits3 = n: nat | n < 8
  type bits4 = n: nat | n < 16
  type bits6 = n: nat | n < 64
  type bits9 = n: nat | n < 512

  /** CFGR.SW and CFGR.SWS values; 3 (PLLR) exists but no driver writes it. */
  const SYSCLK_HSI: bits2 := 0
  const SYSCLK_HSE: bits2 := 1
  const SYSCLK_PLL: bits2 := 2

  const VOS_SCALE3: bits2 := 1
  const VOS_SCALE2: bits2 := 2
  const VOS_SCALE1: bits2 := 3

  datatype Oscillator = Hsi | Hse

  // The writable bits, register by register.
  datatype Cr = Cr(hsion: bool, hseon: bool, hsebyp: bool, pllon: bool)
  datatype Pllcfgr = Pllcfgr(src: Oscillator, m: bits6, n: bits9, p: bits2)
  datatype Cfgr = Cfgr(sw: bits2, hpre: bits4, ppre1: bits3, ppre2: bits3)
  datatype PwrCr = PwrCr(vos: bits2, oden: bool, odswen: bool)
  datatype Acr = Acr(latency: bits4, prften: bool, icen: bool, dcen: bool)

  /** Everything a driver can write. `pwren` is APB1ENR.PWREN. */
  datatype Config = Config(cr: Cr, pllcfgr: Pllcfgr, cfgr: Cfgr, pwren: bool, pwrcr: PwrCr, acr: Acr)

  /** The read-only ready bits of RCC_CR and PWR_CSR. */
  datatype Flag = HSIRDY | HSERDY | PLLRDY | VOSRDY | ODRDY | ODSWRDY

  /** The whole clock tree: driver-owned bits, hardware-owned flags and CFGR.SWS.
      `protects` never changes: whether the hardware ignores clearing the enable bit
      of a clock in use, as RM0390 section 6.3 says. What does not need the rule is
      proved with and without it. */
  datatype Clk = Clk(drv: Config, flags: set<Flag>, sws: bits2, protects: bool)

  /* ---- what the hardware may do on its own ---- */

  /** The flags that can rise: each needs its enable bit. */
  function CanRise(d: Config): set<Flag> {
    (if d.cr.hsion then {HSIRDY} else {})
    + (if d.cr.hseon then {HSERDY} else {})
    + (if d.cr.pllon then {PLLRDY, VOSRDY} else {})
    + (if d.pwrcr.oden then {ODRDY} else {})
    + (if d.pwrcr.odswen then {ODSWRDY} else {})
  }

  function OscillatorFlag(o: Oscillator): Flag {
    if o.Hsi? then HSIRDY else HSERDY
  }

  /** The ready flags of everything a SYSCLK source is built from. */
  function PathFlags(d: Config, source: bits2): set<Flag> {
    if source == SYSCLK_HSI then {HSIRDY}
    else if source == SYSCLK_HSE then {HSERDY}
    else {PLLRDY, OscillatorFlag(d.pllcfgr.src)}
  }

  /** Every stage of the source is switched on. */
  predicate PathOn(d: Config, source: bits2): (on: bool)
    ensures on <==>
      if source == SYSCLK_HSI then d.cr.hsion
      else if source == SYSCLK_HSE then d.cr.hseon
      else d.cr.pllon && (if d.pllcfgr.src.Hsi? then d.cr.hsion else d.cr.hseon)
  {
    var path, able := PathFlags(d, source), CanRise(d);
    assert source > 1 ==> PLLRDY in path && OscillatorFlag(d.pllcfgr.src) in path;
    assert source == SYSCLK_HSI ==> HSIRDY in path;
    assert source == SYSCLK_HSE ==> HSERDY in path;
    path <= able
  }

  datatype EnvAction = Raise(f: Flag) | Drop(f: Flag) | CompleteSwitch

  /** One hardware step. A flag rises only if enabled; SWS moves only to the
      requested source, and only while that source is on and ready. In a
      `steady` environment an enabled flag never falls. A step that is not
      possible leaves the state alone. */
  function EnvStep(s: Clk, a: EnvAction, steady: bool): (t: Clk)
    ensures EnvReach(s, t, steady)
  {
    match a
    case Raise(f) => if f in CanRise(s.drv) then s.(flags := s.flags + {f}) else s
    case Drop(f) => if steady && f in CanRise(s.drv) then s else s.(flags := s.flags - {f})
    case CompleteSwitch =>
      if PathOn(s.drv, s.drv.cfgr.sw) && PathFlags(s.drv, s.drv.cfgr.sw) <= s.flags
      then s.(sws := s.drv.cfgr.sw) else s
  }

  function EnvRun(s: Clk, acts: seq<EnvAction>, steady: bool): (t: Clk)
    decreases |acts|
  {
    if acts == [] then s else EnvRun(EnvStep(s, acts[0], steady), acts[1..], steady)
  }

  /** The effect of any number of hardware steps, in closed form. */
  ghost predicate EnvReach(s: Clk, t: Clk, steady: bool) {
    && t.drv == s.drv && t.protects == s.protects
    && t.flags - s.flags <= CanRise(s.drv)
    && (steady ==> s.flags * CanRise(s.drv) <= t.flags)
    && (t.sws == s.sws || (t.sws == s.drv.cfgr.sw && PathOn(s.drv, s.drv.cfgr.sw)))
  }

  lemma ReachTrans(s: Clk, t: Clk, u: Clk, steady: bool)
    requires EnvReach(s, t, steady) && EnvReach(t, u, steady)
    ensures EnvReach(s, u, steady)
  {
    hide CanRise, PathFlags;
  }

  lemma {:induction false} RunIsReach(s: Clk, acts: seq<EnvAction>, steady: bool)
    ensures EnvReach(s, EnvRun(s, acts, steady), steady)
    decreases |acts|
  {
    if acts != [] {
      RunIsReach(EnvStep(s, acts[0], steady), acts[1..], steady);
    }
  }

  lemma {:induction false} RunAppend(s: Clk, a: seq<EnvAction>, b: seq<EnvAction>, steady: bool)
    ensures EnvRun(s, a + b, steady) == EnvRun(EnvRun(s, a, steady), b, steady)
    decreases |a|
  {
    if a == [] {
      assert a + b == b;
    } else {
      assert (a + b)[1..] == a[1..] + b;
      RunAppend(EnvStep(s, a[0], steady), a[1..], b, steady);
    }
  }

  lemma {:induction false} RaiseAll(s: Clk, up: set<Flag>) returns (acts: seq<EnvAction>)
    requires up <= CanRise(s.drv)
    ensures EnvRun(s, acts, false) == s.(flags := s.flags + up)
    decreases |up|
  {
    hide CanRise;
    if up == {} {
      acts := [];
      assert s.flags + up == s.flags;
    } else {
      var f :| f in up;
      var rest := RaiseAll(EnvStep(s, Raise(f), false), up - {f});
      acts := [Raise(f)] + rest;
      assert s.flags + {f} + (up - {f}) == s.flags + up;
    }
  }

  lemma {:induction false} DropAll(s: Clk, down: set<Flag>) returns (acts: seq<EnvAction>)
    ensures EnvRun(s, acts, false) == s.(flags := s.flags - down)
    decreases |down|
  {
    hide CanRise;
    if down == {} {
      acts := [];
      assert s.flags - down == s.flags;
    } else {
      var f :| f in down;
      var rest := DropAll(EnvStep(s, Drop(f), false), down - {f});
      acts := [Drop(f)] + rest;
      assert s.flags - {f} - (down - {f}) == s.flags - down;
    }
  }

  /** A schedule that turns one set of flags into another. */
  lemma FlagSchedule(s: Clk, goal: set<Flag>) returns (acts: seq<EnvAction>)
    requires goal - s.flags <= CanRise(s.drv)
    ensures EnvRun(s, acts, false) == s.(flags := goal)
  {
    hide CanRise;
    var up := RaiseAll(s, goal - s.flags);
    var down := DropAll(s.(flags := s.flags + (goal - s.flags)), s.flags - goal);
    acts := up + down;
    RunAppend(s, up, down, false);
    assert s.flags + (goal - s.flags) - (s.flags - goal) == goal;
  }

  /** The closed form is exact: whatever it allows, some schedule does. */
  lemma ReachIsRun(s: Clk, t: Clk) returns (acts: seq<EnvAction>)
    requires EnvReach(s, t, false)
    ensures EnvRun(s, acts, false) == t
  {
    if t.sws == s.sws {
      acts := FlagSchedule(s, t.flags);
    } else {
      var path := PathFlags(s.drv, s.drv.cfgr.sw);
      var up := FlagSchedule(s, s.flags + path);
      var ready := s.(flags := s.flags + path);
      var moved := EnvStep(ready, CompleteSwitch, false);
      var settle := FlagSchedule(moved, t.flags);
      RunAppend(s, up, [CompleteSwitch] + settle, false);
      assert EnvRun(ready, [CompleteSwitch] + settle, false) == t;
      acts := up + ([CompleteSwitch] + settle);
    }
  }

  /* ---- what a write does ---- */

  /** The oscillator drives the source in use, directly or through the PLL. */
  predicate InUse(s: Clk, o: Oscillator) {
    || s.sws == (if o.Hsi? then SYSCLK_HSI else SYSCLK_HSE)
    || (s.sws > SYSCLK_HSE && s.drv.pllcfgr.src == o)
  }

  predicate PllInUse(s: Clk) {
    s.sws > SYSCLK_HSE
  }

  /** The enable bits a CR write leaves: with protection, a clock in use stays on. */
  function KeptOn(s: Clk, want: Cr): Cr {
    if !s.protects then want
    else
      want.(hsion := want.hsion || (s.drv.cr.hsion && InUse(s, Hsi)),
            hseon := want.hseon || (s.drv.cr.hseon && InUse(s, Hse)),
            pllon := want.pllon || (s.drv.cr.pllon && PllInUse(s)))
  }

  /** The hardware's write protection: PLLCFGR and CR.VOS take a new value only
      with the PLL off, HSEBYP only with HSE off, PWR only when clocked, and the
      enable bits as KeptOn says. */
  function Accepted(s: Clk, want: Config): Config {
    var now := s.drv;
    var kept := KeptOn(s, want.cr);
    var cr := if now.cr.hseon then kept.(hsebyp := now.cr.hsebyp) else kept;
    var pll := if now.cr.pllon then now.pllcfgr else want.pllcfgr;
    var vos := if now.cr.pllon then now.pwrcr.vos else want.pwrcr.vos;
    var pwr := if now.pwren then want.pwrcr.(vos := vos) else now.pwrcr;
    want.(cr := cr, pllcfgr := pll, pwrcr := pwr)
  }

  /** A driver write: the state it hit, what it asked for, what it left, and how
      many register reads the driver had made by then. */
  datatype Write = Write(before: Clk, want: Config, after: Clk, readsSoFar: nat)

  /** The register now holds what was asked; nothing else moved. */
  ghost predicate Taken(w: Write) {
    w.after == w.before.(drv := w.want)
  }

  /** The flash interface refused a new LATENCY. */
  ghost predicate Refused(w: Write) {
    var kept := w.before.drv.acr.latency;
    && w.want.acr.latency != kept
    && w.after == w.before.(drv := Accepted(w.before, w.want.(acr := w.want.acr.(latency := kept))))
  }

  /** What the hardware makes of any write. */
  ghost predicate Performed(w: Write) {
    w.after == w.before.(drv := Accepted(w.before, w.want)) || Refused(w)
  }

  /** A run from `s` to `t`: between two writes, and before the first and after
      the last, only the hardware moves. */
  ghost predicate Chain(s: Clk, ws: seq<Write>, t: Clk, steady: bool)
    decreases |ws|
  {
    if ws == [] then EnvReach(s, t, steady)
    else
      var last := ws[|ws| - 1];
      && Chain(s, ws[..|ws| - 1], last.before, steady)
      && Performed(last)
      && EnvReach(last.after, t, steady)
  }

  /** A property that survives hardware steps and every write of a run holds
      before and after every write, and at the end. */
  lemma {:induction false} ChainKeeps(s: Clk, ws: seq<Write>, t: Clk, steady: bool, good: Clk -> bool)
    requires Chain(s, ws, t, steady) && good(s)
    requires forall x, y | good(x) && EnvReach(x, y, steady) :: good(y)
    requires forall i | 0 <= i < |ws| && good(ws[i].before) :: good(ws[i].after)
    ensures forall i | 0 <= i < |ws| :: good(ws[i].before) && good(ws[i].after)
    ensures good(t)
    decreases |ws|
  {
    if ws != [] {
      var rest := ws[..|ws| - 1];
      forall i | 0 <= i < |rest| && good(rest[i].before) ensures good(rest[i].after) {
        assert rest[i] == ws[i];
      }
      ChainKeeps(s, rest, ws[|ws| - 1].before, steady, good);
      forall i | 0 <= i < |ws| ensures good(ws[i].before) && good(ws[i].after) {
        if i < |rest| {
          assert rest[i] == ws[i];
        }
      }
    }
  }

  /** The configuration step `i` of a plan starts from. */
  function Prior(d: Config, plan: seq<Config>, i: nat): Config
    requires i <= |plan|
  {
    if i == 0 then d else plan[i - 1]
  }

  /** The write takes the hardware from one configuration to the next. */
  ghost predicate Moves(w: Write, from: Config, to: Config) {
    w.before.drv == from && w.want == to && Taken(w)
  }

  /** Starting from configuration `d`, the writes ask for exactly the planned
      configurations, in order, and the hardware takes every one. */
  ghost predicate Performs(ws: seq<Write>, d: Config, plan: seq<Config>) {
    && |ws| == |plan|
    && forall i | 0 <= i < |ws| ::
         Moves(ws[i], Prior(d, plan, i), plan[i])
  }

  lemma PriorAppend(d: Config, p: seq<Config>, q: seq<Config>, i: nat)
    requires i <= |p + q|
    ensures Prior(d, p + q, i) == if i < |p| then Prior(d, p, i) else Prior(Prior(d, p, |p|), q, i - |p|)
  {
  }

  lemma PerformsAppend(a: seq<Write>, d: Config, p: seq<Config>, b: seq<Write>, q: seq<Config>)
    requires Performs(a, d, p) && Performs(b, Prior(d, p, |p|), q)
    ensures Performs(a + b, d, p + q)
  {
    hide Moves, Prior;
    forall i | 0 <= i < |a + b| ensures Moves((a + b)[i], Prior(d, p + q, i), (p + q)[i]) {
      PriorAppend(d, p, q, i);
      if i < |a| {
        assert Moves(a[i], Prior(d, p, i), p[i]);
      } else {
        assert Moves(b[i - |a|], Prior(Prior(d, p, |p|), q, i - |a|), q[i - |a|]);
      }
    }
  }

  /* ---- register reads ---- */

  datatype Register = CR | PLLCFGR | CFGR | APB1ENR | PWR_CR | PWR_CSR | ACR

  /** One register read and the state it saw. */
  datatype Reading = Reading(reg: Register, s: Clk)

  function RegisterOf(f: Flag): Register {
    if f in {HSIRDY, HSERDY, PLLRDY} then CR else PWR_CSR
  }

  /** The read returned the flag set. */
  predicate Shows(r: Reading, f: Flag) {
    r.reg == RegisterOf(f) && f in r.s.flags
  }

  /** The flag was read set by one of the reads from number `from` up to `n`. */
  ghost predicate ReadSet(rs: seq<Reading>, from: nat, n: nat, f: Flag) {
    exists k :: from <= k < n && k < |rs| && Shows(rs[k], f)
  }

  lemma ReadSetStays(rs: seq<Reading>, from: nat, n: nat, f: Flag, later: seq<Reading>, since: nat, m: nat)
    requires ReadSet(rs, from, n, f) && rs <= later && since <= from && n <= m
    ensures ReadSet(later, since, m, f)
  {
    var k :| from <= k < n && k < |rs| && Shows(rs[k], f);
    assert later[k] == rs[k];
  }

  /** The poll-loop answers of reads that wait for a flag to become `set`. */
  ghost function FlagAnswers(rs: seq<Reading>, f: Flag, want: bool): (a: seq<bool>)
    ensures |a| == |rs|
    ensures forall i | 0 <= i < |rs| :: a[i] == ((f in rs[i].s.flags) == want)
  {
    seq(|rs|, i requires 0 <= i < |rs| => (f in rs[i].s.flags) == want)
  }

  /** The same for a wait on CFGR.SWS. */
  ghost function SwsAnswers(rs: seq<Reading>, source: nat): (a: seq<bool>)
    ensures |a| == |rs|
    ensures forall i | 0 <= i < |rs| :: a[i] == (rs[i].s.sws == source)
  {
    seq(|rs|, i requires 0 <= i < |rs| => rs[i].s.sws == source)
  }

  ghost predicate AllReadOf(rs: seq<Reading>, reg: Register) {
    forall i | 0 <= i < |rs| :: rs[i].reg == reg
  }

  /* ---- histories: writes and reads in one order ---- */

  /** Where the hardware starts from after the first `i` writes of a run. */
  function From(origin: Clk, ws: seq<Write>, i: nat): Clk
    requires i <= |ws|
  {
    if i == 0 then origin else ws[i - 1].after
  }

  /** ... and where it has got to when the next write, or the present, comes. */
  function Until(ws: seq<Write>, now: Clk, i: nat): Clk
    requires i <= |ws|
  {
    if i == |ws| then now else ws[i].before
  }

  /** Read number `k` was made after the first `i` writes and before the next. */
  predicate MadeAfter(ws: seq<Write>, i: nat, k: nat)
    requires i <= |ws|
  {
    (i == 0 || ws[i - 1].readsSoFar <= k) && (i == |ws| || k < ws[i].readsSoFar)
  }

  predicate Ordered(ws: seq<Write>, n: nat) {
    && (forall i | 0 <= i < |ws| :: ws[i].readsSoFar <= n)
    && (forall i, j | 0 <= i <= j < |ws| :: ws[i].readsSoFar <= ws[j].readsSoFar)
  }

  /** Every read saw a state the hardware passed through between the two writes it
      was made between. */
  ghost predicate Placed(origin: Clk, ws: seq<Write>, rs: seq<Reading>, now: Clk, steady: bool) {
    forall i: nat, k: nat | i <= |ws| && k < |rs| && MadeAfter(ws, i, k) ::
      EnvReach(From(origin, ws, i), rs[k].s, steady) && EnvReach(rs[k].s, Until(ws, now, i), steady)
  }

  /** Of two reads made between the same writes, the later saw a state that the
      hardware reached from what the earlier saw. */
  ghost predicate InOrder(ws: seq<Write>, rs: seq<Reading>, steady: bool) {
    forall i: nat, k: nat, l: nat | i <= |ws| && k <= l < |rs| && MadeAfter(ws, i, k) && MadeAfter(ws, i, l) ::
      EnvReach(rs[k].s, rs[l].s, steady)
  }

  ghost predicate History(origin: Clk, ws: seq<Write>, rs: seq<Reading>, now: Clk, steady: bool) {
    && Chain(origin, ws, now, steady) && Ordered(ws, |rs|)
    && Placed(origin, ws, rs, now, steady) && InOrder(ws, rs, steady)
  }

  lemma HistoryStarts(s: Clk, steady: bool)
    ensures History(s, [], [], s, steady)
  {
  }

  lemma ChainReaches(origin: Clk, ws: seq<Write>, now: Clk, steady: bool)
    requires Chain(origin, ws, now, steady)
    ensures EnvReach(From(origin, ws, |ws|), now, steady)
  {
  }

  lemma ChainDrifts(origin: Clk, ws: seq<Write>, now: Clk, next: Clk, steady: bool)
    requires Chain(origin, ws, now, steady) && EnvReach(now, next, steady)
    ensures Chain(origin, ws, next, steady)
  {
    ReachTrans(From(origin, ws, |ws|), now, next, steady);
  }

  /** Hardware steps extend a history. */
  lemma HistoryDrifts(origin: Clk, ws: seq<Write>, rs: seq<Reading>, now: Clk, next: Clk, steady: bool)
    requires History(origin, ws, rs, now, steady) && EnvReach(now, next, steady)
    ensures History(origin, ws, rs, next, steady)
  {
    ChainDrifts(origin, ws, now, next, steady);
    hide Chain, EnvReach;
    forall i: nat, k: nat | i <= |ws| && k < |rs| && MadeAfter(ws, i, k)
      ensures EnvReach(From(origin, ws, i), rs[k].s, steady) && EnvReach(rs[k].s, Until(ws, next, i), steady)
    {
      assert EnvReach(rs[k].s, Until(ws, now, i), steady);
      if i == |ws| {
        ReachTrans(rs[k].s, now, next, steady);
      }
    }
  }

  lemma ReachRefl(s: Clk, steady: bool)
    ensures EnvReach(s, s, steady)
  {
  }

  /** A read of the present state extends it. */
  lemma HistoryReads(origin: Clk, ws: seq<Write>, rs: seq<Reading>, now: Clk, r: Reading, steady: bool)
    requires History(origin, ws, rs, now, steady) && r.s == now
    ensures History(origin, ws, rs + [r], now, steady)
  {
    ChainReaches(origin, ws, now, steady);
    ReachRefl(now, steady);
    hide Chain, EnvReach;
    assert Placed(origin, ws, rs + [r], now, steady);
    forall i: nat, k: nat, l: nat
      | i <= |ws| && k <= l < |rs + [r]| && MadeAfter(ws, i, k) && MadeAfter(ws, i, l)
      ensures EnvReach((rs + [r])[k].s, (rs + [r])[l].s, steady)
    {
      if l < |rs| {
        assert EnvReach(rs[k].s, rs[l].s, steady);
      } else {
        assert i == |ws| && (rs + [r])[l].s == Until(ws, now, i);
      }
    }
  }

  /** A read made before the write `w` was made in the same place without it. */
  lemma MadeBefore(ws: seq<Write>, w: Write, i: nat, k: nat)
    requires i <= |ws + [w]| && k < w.readsSoFar && MadeAfter(ws + [w], i, k)
    ensures i <= |ws| && MadeAfter(ws, i, k)
  {
    if i <= |ws| && i > 0 {
      assert (ws + [w])[i - 1] == ws[i - 1];
    }
  }

  lemma PlacedWrites(origin: Clk, ws: seq<Write>, rs: seq<Reading>, w: Write, steady: bool)
    requires Placed(origin, ws, rs, w.before, steady) && w.readsSoFar == |rs|
    ensures Placed(origin, ws + [w], rs, w.after, steady)
  {
    hide EnvReach, MadeAfter;
    forall i: nat, k: nat | i <= |ws + [w]| && k < |rs| && MadeAfter(ws + [w], i, k)
      ensures EnvReach(From(origin, ws + [w], i), rs[k].s, steady)
           && EnvReach(rs[k].s, Until(ws + [w], w.after, i), steady)
    {
      MadeBefore(ws, w, i, k);
    }
  }

  lemma InOrderWrites(ws: seq<Write>, rs: seq<Reading>, w: Write, steady: bool)
    requires InOrder(ws, rs, steady) && w.readsSoFar == |rs|
    ensures InOrder(ws + [w], rs, steady)
  {
    hide EnvReach, MadeAfter;
    forall i: nat, k: nat, l: nat
      | i <= |ws + [w]| && k <= l < |rs| && MadeAfter(ws + [w], i, k) && MadeAfter(ws + [w], i, l)
      ensures EnvReach(rs[k].s, rs[l].s, steady)
    {
      MadeBefore(ws, w, i, k);
      MadeBefore(ws, w, i, l);
    }
  }

  /** A write to the present state extends it. */
  lemma HistoryWrites(origin: Clk, ws: seq<Write>, rs: seq<Reading>, now: Clk, w: Write, steady: bool)
    requires History(origin, ws, rs, now, steady) && Performed(w) && w.before == now && w.readsSoFar == |rs|
    ensures History(origin, ws + [w], rs, w.after, steady)
  {
    ReachRefl(w.after, steady);
    assert (ws + [w])[..|ws|] == ws;
    assert Chain(origin, ws + [w], w.after, steady);
    hide Chain, EnvReach, Performed, Placed, InOrder;
    PlacedWrites(origin, ws, rs, w, steady);
    InOrderWrites(ws, rs, w, steady);
  }

  /** Every read has its place. */
  lemma {:induction false} PlaceOf(ws: seq<Write>, n: nat, k: nat) returns (i: nat)
    requires Ordered(ws, n) && k < n
    ensures i <= |ws| && MadeAfter(ws, i, k)
    decreases |ws|
  {
    if ws == [] || ws[|ws| - 1].readsSoFar <= k {
      i := |ws|;
    } else {
      i := PlaceOf(ws[..|ws| - 1], n, k);
    }
  }

  /** What hardware steps and every write of a history keep holds at every read too. */
  lemma HistoryKeeps(s: Clk, ws: seq<Write>, rs: seq<Reading>, t: Clk, steady: bool, good: Clk -> bool)
    requires History(s, ws, rs, t, steady) && good(s)
    requires forall x, y | good(x) && EnvReach(x, y, steady) :: good(y)
    requires forall i | 0 <= i < |ws| && good(ws[i].before) :: good(ws[i].after)
    ensures forall i | 0 <= i < |ws| :: good(ws[i].before) && good(ws[i].after)
    ensures forall k | 0 <= k < |rs| :: good(rs[k].s)
    ensures good(t)
  {
    ChainKeeps(s, ws, t, steady, good);
    hide Chain, EnvReach;
    forall k | 0 <= k < |rs| ensures good(rs[k].s) {
      var i := PlaceOf(ws, |rs|, k);
      assert good(From(s, ws, i)) && EnvReach(From(s, ws, i), rs[k].s, steady);
    }
  }

  /** What steady hardware does, hardware that need not be steady may do. */
  lemma {:induction false} ChainWeakens(s: Clk, ws: seq<Write>, t: Clk)
    requires Chain(s, ws, t, true)
    ensures Chain(s, ws, t, false)
    decreases |ws|
  {
    hide CanRise, PathOn, Performed;
    if ws != [] {
      ChainWeakens(s, ws[..|ws| - 1], ws[|ws| - 1].before);
    }
  }

  lemma HistoryWeakens(s: Clk, ws: seq<Write>, rs: seq<Reading>, t: Clk)
    requires History(s, ws, rs, t, true)
    ensures History(s, ws, rs, t, false)
  {
    ChainWeakens(s, ws, t);
    hide Chain, CanRise, PathOn, MadeAfter, Ordered, From, Until;
    assert Placed(s, ws, rs, t, false);
    assert InOrder(ws, rs, false);
  }
}
