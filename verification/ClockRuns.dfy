/** Runs of the clock drivers built access by access: what the hardware can do to a
    call, shown rather than allowed. */
module ClockRuns {
  import opened Status
  import opened Polling
  import opened ClockState
  import Rcc

  /** The writes and reads made so far, and the state they have led to. */
  datatype Run = Run(ws: seq<Write>, rs: seq<Reading>, now: Clk)

  function Started(s: Clk): Run {
    Run([], [], s)
  }

  function Read(r: Run, reg: Register): Run {
    r.(rs := r.rs + [Reading(reg, r.now)])
  }

  function Stored(r: Run, want: Config): Run {
    var after := r.now.(drv := Accepted(r.now, want));
    Run(r.ws + [Write(r.now, want, after, |r.rs|)], r.rs, after)
  }

  /** The hardware moves on. */
  function Moved(r: Run, next: Clk): Run {
    r.(now := next)
  }

  function ReadTimes(r: Run, reg: Register, n: nat): Run
    decreases n
  {
    if n == 0 then r else Read(ReadTimes(r, reg, n - 1), reg)
  }

  /** The hardware can be driven this way, no ready flag falling. */
  ghost predicate Possible(s: Clk, r: Run) {
    History(s, r.ws, r.rs, r.now, true)
  }

  lemma StartIsPossible(s: Clk)
    ensures Possible(s, Started(s))
  {
    HistoryStarts(s, true);
  }

  lemma ReadIsPossible(s: Clk, r: Run, reg: Register)
    requires Possible(s, r)
    ensures Possible(s, Read(r, reg))
  {
    HistoryReads(s, r.ws, r.rs, r.now, Reading(reg, r.now), true);
  }

  lemma StoreIsPossible(s: Clk, r: Run, want: Config)
    requires Possible(s, r)
    ensures Possible(s, Stored(r, want))
  {
    var after := r.now.(drv := Accepted(r.now, want));
    HistoryWrites(s, r.ws, r.rs, r.now, Write(r.now, want, after, |r.rs|), true);
  }

  lemma MoveIsPossible(s: Clk, r: Run, next: Clk)
    requires Possible(s, r) && EnvReach(r.now, next, true)
    ensures Possible(s, Moved(r, next))
  {
    HistoryDrifts(s, r.ws, r.rs, r.now, next, true);
  }

  lemma {:induction false} ReadTimesIsPossible(s: Clk, r: Run, reg: Register, n: nat)
    requires Possible(s, r)
    ensures Possible(s, ReadTimes(r, reg, n))
    ensures var t := ReadTimes(r, reg, n); t == r.(rs := r.rs + seq(n, _ => Reading(reg, r.now)))
    decreases n
  {
    hide Possible;
    if n > 0 {
      ReadTimesIsPossible(s, r, reg, n - 1);
      ReadIsPossible(s, ReadTimes(r, reg, n - 1), reg);
    }
  }

  /* ---- the clear that is not taken ---- */

  /** Protection alone keeps the running clock: from any running state and on every
      schedule, no disable call's write stops it, guarded or not. */
  lemma ProtectionSparesTheClock(s: Clk, acts: seq<EnvAction>, want: Config)
    requires s.protects && s.sws <= SYSCLK_PLL && PathOn(s.drv, s.sws)
    requires s.drv.cfgr.sw <= SYSCLK_PLL
    requires exists o :: want == Rcc.OscillatorOff(s.drv, o) || want == Rcc.PllSet(s.drv, false)
    ensures var u := EnvRun(s, acts, false); PathOn(Accepted(u, want), u.sws)
  {
    RunIsReach(s, acts, false);
    hide CanRise, PathFlags;
  }

  /** A switch that can still move SYSCLK onto the oscillator, which does not feed it
      yet. CFGR.SW, CFGR.SWS, PLLCFGR and CR show it. */
  predicate PendingOnto(s: Clk, o: Oscillator) {
    && !Rcc.Feeds(o, s.drv.pllcfgr, s.sws)
    && Rcc.Feeds(o, s.drv.pllcfgr, s.drv.cfgr.sw) && PathOn(s.drv, s.drv.cfgr.sw)
  }

  predicate PendingOntoPll(s: Clk) {
    s.sws != SYSCLK_PLL && s.drv.cfgr.sw == SYSCLK_PLL && PathOn(s.drv, SYSCLK_PLL)
  }

  /** Once the guard has passed at `s`, the clear is taken on every schedule iff no
      such switch is pending. */
  lemma ClearIsTakenIff(o: Oscillator, s: Clk)
    requires s.protects && s.sws <= SYSCLK_PLL && s.drv.cfgr.sw <= SYSCLK_PLL
    requires !Rcc.Feeds(o, s.drv.pllcfgr, s.sws)
    ensures (forall acts :: !Rcc.OscillatorOn(Accepted(EnvRun(s, acts, false), Rcc.OscillatorOff(s.drv, o)), o))
            <==> !PendingOnto(s, o)
  {
    if PendingOnto(s, o) {
      var acts := ReachIsRun(s, s.(sws := s.drv.cfgr.sw));
      assert Rcc.OscillatorOn(Accepted(EnvRun(s, acts, false), Rcc.OscillatorOff(s.drv, o)), o);
    } else {
      forall acts ensures !Rcc.OscillatorOn(Accepted(EnvRun(s, acts, false), Rcc.OscillatorOff(s.drv, o)), o) {
        RunIsReach(s, acts, false);
      }
    }
  }

  lemma PllClearIsTakenIff(s: Clk)
    requires s.protects && s.sws < SYSCLK_PLL && s.drv.cfgr.sw <= SYSCLK_PLL
    ensures (forall acts :: !Accepted(EnvRun(s, acts, false), Rcc.PllSet(s.drv, false)).cr.pllon)
              <==> !PendingOntoPll(s)
  {
    if PendingOntoPll(s) {
      var acts := ReachIsRun(s, s.(sws := SYSCLK_PLL));
      assert Accepted(EnvRun(s, acts, false), Rcc.PllSet(s.drv, false)).cr.pllon;
    } else {
      forall acts ensures !Accepted(EnvRun(s, acts, false), Rcc.PllSet(s.drv, false)).cr.pllon {
        RunIsReach(s, acts, false);
      }
    }
  }

  /** A disable call that starts at `s`: a history of the hardware in which the
      driver makes its accesses. */
  ghost predicate DisableCall(o: Oscillator, s: Clk, status: DriverStatus, ws: seq<Write>, rs: seq<Reading>, t: Clk) {
    History(s, ws, rs, t, false) && Rcc.Disabled(o, s, false, status, ws, rs, t)
  }

  ghost predicate PllDisableCall(s: Clk, status: DriverStatus, ws: seq<Write>, rs: seq<Reading>, t: Clk) {
    History(s, ws, rs, t, false) && Rcc.PllDisabled(s, false, status, ws, rs, t)
  }

  /** A call that times out with its clock still on: the pending switch completes
      after the guard. */
  lemma StuckCall(o: Oscillator, s: Clk) returns (r: Run)
    requires s.protects && PendingOnto(s, o)
    ensures DisableCall(o, s, Timeout, r.ws, r.rs, r.now) && Rcc.OscillatorOn(r.now.drv, o)
  {
    var late := s.(sws := s.drv.cfgr.sw, flags := s.flags + {OscillatorFlag(o)});
    var off := Rcc.OscillatorOff(s.drv, o);
    var guarded := Read(Read(Read(Started(s), CFGR), PLLCFGR), CR);
    var written := Stored(Moved(guarded, late), off);
    LateStaysOn(o, s, late);
    hide Possible, EnvReach, Accepted;
    StartIsPossible(s);
    ReadIsPossible(s, Started(s), CFGR);
    ReadIsPossible(s, Read(Started(s), CFGR), PLLCFGR);
    ReadIsPossible(s, Read(Read(Started(s), CFGR), PLLCFGR), CR);
    MoveIsPossible(s, guarded, late);
    StoreIsPossible(s, Moved(guarded, late), off);
    ReadTimesIsPossible(s, written, CR, Rcc.WAIT_READS);
    r := ReadTimes(written, CR, Rcc.WAIT_READS);
    HistoryWeakens(s, r.ws, r.rs, r.now);
    ReachRefl(s, false);
    ReachRefl(r.now, false);
    NeverClears(o, r.rs[3..], late);
  }

  lemma LateStaysOn(o: Oscillator, s: Clk, late: Clk)
    requires s.protects && PendingOnto(s, o) && late == s.(sws := s.drv.cfgr.sw, flags := s.flags + {OscillatorFlag(o)})
    ensures EnvReach(s, late, true) && EnvReach(s, late, false) && Accepted(late, Rcc.OscillatorOff(s.drv, o)) == s.drv
            && Rcc.OscillatorOn(s.drv, o)
  {
  }

  lemma NeverClears(o: Oscillator, rs: seq<Reading>, s: Clk)
    requires rs == seq(Rcc.WAIT_READS, _ => Reading(CR, s)) && OscillatorFlag(o) in s.flags
    ensures Rcc.Polled(rs, OscillatorFlag(o), false, Timeout)
  {
  }

  /** "TIMEOUT: HSION (or HSEON) is cleared" holds of every call from `s` exactly when
      no pending switch can bring the clock into use after the guard, or the chip
      does not protect it. */
  lemma TimeoutMeansClearedIff(o: Oscillator, s: Clk)
    requires s.sws <= SYSCLK_PLL && s.drv.cfgr.sw <= SYSCLK_PLL
    ensures (forall ws, rs, t | DisableCall(o, s, Timeout, ws, rs, t) :: !Rcc.OscillatorOn(t.drv, o))
            <==> !(s.protects && PendingOnto(s, o))
  {
    if s.protects && PendingOnto(s, o) {
      var r := StuckCall(o, s);
      assert DisableCall(o, s, Timeout, r.ws, r.rs, r.now);
    } else {
      forall ws, rs, t | DisableCall(o, s, Timeout, ws, rs, t) ensures !Rcc.OscillatorOn(t.drv, o) {
        hide Rcc.Polled, History, PathFlags, CanRise;
      }
    }
  }

  lemma StuckPllCall(s: Clk) returns (r: Run)
    requires s.protects && PendingOntoPll(s)
    ensures PllDisableCall(s, Timeout, r.ws, r.rs, r.now) && r.now.drv.cr.pllon
  {
    var late := s.(sws := SYSCLK_PLL, flags := s.flags + {PLLRDY});
    var off := Rcc.PllSet(s.drv, false);
    var guarded := Read(Read(Started(s), CFGR), CR);
    var written := Stored(Moved(guarded, late), off);
    LatePllStaysOn(s, late);
    hide Possible, EnvReach, Accepted;
    StartIsPossible(s);
    ReadIsPossible(s, Started(s), CFGR);
    ReadIsPossible(s, Read(Started(s), CFGR), CR);
    MoveIsPossible(s, guarded, late);
    StoreIsPossible(s, Moved(guarded, late), off);
    ReadTimesIsPossible(s, written, CR, Rcc.WAIT_READS);
    r := ReadTimes(written, CR, Rcc.WAIT_READS);
    HistoryWeakens(s, r.ws, r.rs, r.now);
    ReachRefl(s, false);
    ReachRefl(r.now, false);
    NeverUnlocks(r.rs[2..], late);
  }

  lemma LatePllStaysOn(s: Clk, late: Clk)
    requires s.protects && PendingOntoPll(s) && late == s.(sws := SYSCLK_PLL, flags := s.flags + {PLLRDY})
    ensures EnvReach(s, late, true) && EnvReach(s, late, false)
    ensures Accepted(late, Rcc.PllSet(s.drv, false)) == s.drv && s.drv.cr.pllon
  {
  }

  lemma NeverUnlocks(rs: seq<Reading>, s: Clk)
    requires rs == seq(Rcc.WAIT_READS, _ => Reading(CR, s)) && PLLRDY in s.flags
    ensures Rcc.Polled(rs, PLLRDY, false, Timeout)
  {
  }

  /** The same for "TIMEOUT: PLLON is cleared". */
  lemma PllTimeoutMeansClearedIff(s: Clk)
    requires s.sws <= SYSCLK_PLL && s.drv.cfgr.sw <= SYSCLK_PLL
    ensures (forall ws, rs, t | PllDisableCall(s, Timeout, ws, rs, t) :: !t.drv.cr.pllon)
            <==> !(s.protects && PendingOntoPll(s))
  {
    if s.protects && PendingOntoPll(s) {
      var r := StuckPllCall(s);
      assert PllDisableCall(s, Timeout, r.ws, r.rs, r.now);
    } else {
      forall ws, rs, t | PllDisableCall(s, Timeout, ws, rs, t) ensures !t.drv.cr.pllon {
        hide Rcc.Polled, History, PathFlags, CanRise;
      }
    }
  }
}
