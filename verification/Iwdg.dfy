/** drivers/src/iwdg.c and the independent watchdog it programs: a key-locked
    register pair whose values cross into the LSI clock domain some time after
    they are written (RM0390 section 20.4). */
module Iwdg {
  import opened Status
  import opened Polling

  type bits3 = n: nat | n < 8
  type bits12 = n: nat | n < 0x1000

  const KEY_RELOAD: u32 := 0xAAAA
  const KEY_ENABLE_ACCESS: u32 := 0x5555
  const KEY_START: u32 := 0xCCCC

  const PR_DIV256: nat := 6
  const RELOAD_MAX: nat := 0xFFF

  const UPDATE_TIMEOUT_ITERATIONS: nat := 100000

  /* ---- the peripheral ---- */

  /** `pr` and `rlr` are what was last written; `prEff` and `rlrEff` what the
      counter uses. PVU and RVU are set from the write until the two agree. */
  datatype Dog = Dog(running: bool, unlocked: bool, pr: bits3, rlr: bits12, pvu: bool, rvu: bool,
                     prEff: bits3, rlrEff: bits12, counter: bits12)

  /** With no update in progress the counter's domain has the written values. */
  predicate Consistent(s: Dog) {
    (!s.pvu ==> s.prEff == s.pr) && (!s.rvu ==> s.rlrEff == s.rlr)
  }

  datatype Step = EndPr | EndRlr | Count

  /** Updates end and the counter moves only while the LSI runs. */
  function EnvStep(s: Dog, a: Step): Dog {
    if !s.running then s
    else
      match a
      case EndPr => if s.pvu then s.(prEff := s.pr, pvu := false) else s
      case EndRlr => if s.rvu then s.(rlrEff := s.rlr, rvu := false) else s
      case Count => if s.counter > 0 then s.(counter := s.counter - 1) else s
  }

  /** What any number of those steps can do. */
  predicate EnvReach(s: Dog, t: Dog) {
    && (s.running || t == s)
    && t.counter <= s.counter
    && (t.pvu ==> s.pvu) && (t.rvu ==> s.rvu)
    && t == s.(pvu := t.pvu, prEff := if s.pvu && !t.pvu then s.pr else s.prEff,
               rvu := t.rvu, rlrEff := if s.rvu && !t.rvu then s.rlr else s.rlrEff,
               counter := t.counter)
  }

  /** KR: 0xCCCC starts the watchdog, 0x5555 unlocks PR and RLR, 0xAAAA reloads; every
      key but 0x5555 locks. */
  function KrStored(s: Dog, key: u32): Dog {
    s.(running := s.running || key == 0xCCCC,
       unlocked := key == 0x5555,
       counter := if key == 0xAAAA then s.rlrEff else s.counter)
  }

  /** PR and RLR drop a write while locked, or while their last update runs. */
  predicate TakesPr(s: Dog) {
    s.unlocked && !s.pvu
  }

  predicate TakesRlr(s: Dog) {
    s.unlocked && !s.rvu
  }

  function PrStored(s: Dog, v: bits3): Dog {
    if TakesPr(s) then s.(pr := v, pvu := true) else s
  }

  function RlrStored(s: Dog, v: bits12): Dog {
    if TakesRlr(s) then s.(rlr := v, rvu := true) else s
  }

  class IwdgRegisters {
    var s: Dog
    ghost var dropped: nat            // PR and RLR writes that had no effect
    ghost var loads: seq<bool>        // SR reads: was no update in progress?

    predicate Valid()
      reads this
    {
      Consistent(s)
    }

    constructor (start: Dog)
      requires Consistent(start)
      ensures Valid() && s == start && dropped == 0 && loads == []
    {
      s, dropped, loads := start, 0, [];
    }

    method Drift()
      requires Valid()
      modifies this`s
      ensures Valid() && EnvReach(old(s), s)
    {
      var steps: nat := *;
      while steps > 0
        invariant Valid() && EnvReach(old(s), s)
      {
        var a: Step := *;
        s := EnvStep(s, a);
        steps := steps - 1;
      }
    }

    /** The store itself is the last thing that happened. */
    method WriteKr(key: u32)
      requires Valid()
      modifies this`s
      ensures Valid() && exists hit :: EnvReach(old(s), hit) && s == KrStored(hit, key)
    {
      Drift();
      s := KrStored(s, key);
    }

    method WritePr(v: bits3)
      requires Valid()
      modifies this`s, this`dropped
      ensures Valid() && exists hit ::
        (EnvReach(old(s), hit) && s == PrStored(hit, v) && dropped == old(dropped) + if TakesPr(hit) then 0 else 1)
    {
      Drift();
      dropped := dropped + if TakesPr(s) then 0 else 1;
      s := PrStored(s, v);
    }

    method WriteRlr(v: bits12)
      requires Valid()
      modifies this`s, this`dropped
      ensures Valid() && exists hit ::
        (EnvReach(old(s), hit) && s == RlrStored(hit, v) && dropped == old(dropped) + if TakesRlr(hit) then 0 else 1)
    {
      Drift();
      dropped := dropped + if TakesRlr(s) then 0 else 1;
      s := RlrStored(s, v);
    }

    method ReadSr() returns (pvu: bool, rvu: bool)
      requires Valid()
      modifies this`s, this`loads
      ensures Valid() && EnvReach(old(s), s) && pvu == s.pvu && rvu == s.rvu
      ensures loads == old(loads) + [!pvu && !rvu]
    {
      Drift();
      pvu, rvu := s.pvu, s.rvu;
      loads := loads + [!pvu && !rvu];
    }
  }

  /* ---- the driver ---- */

  method WaitUpdates(hw: IwdgRegisters) returns (status: DriverStatus, ghost polls: seq<bool>)
    requires hw.Valid()
    modifies hw`s, hw`loads
    ensures hw.Valid() && EnvReach(old(hw.s), hw.s) && hw.loads == old(hw.loads) + polls
    ensures IsPoll(polls, 100_000, status.Ok?) && |polls| <= 100_002
    ensures status == if hw.s.pvu || hw.s.rvu then Timeout else Ok
  {
    status := Ok;
    var timeout := UPDATE_TIMEOUT_ITERATIONS;
    var pvu, rvu := hw.ReadSr();
    polls := [!pvu && !rvu];
    while (pvu || rvu) && timeout > 0
      invariant hw.Valid() && EnvReach(old(hw.s), hw.s) && hw.loads == old(hw.loads) + polls
      invariant 1 <= |polls| == UPDATE_TIMEOUT_ITERATIONS - timeout + 1
      invariant polls[|polls| - 1] == (!pvu && !rvu)
      invariant forall i | 0 <= i < |polls| - 1 :: !polls[i]
    {
      timeout := timeout - 1;
      pvu, rvu := hw.ReadSr();
      polls := polls + [!pvu && !rvu];
    }
    pvu, rvu := hw.ReadSr();
    polls := polls + [!pvu && !rvu];
    if pvu || rvu {
      status := Timeout;
    }
  }

  method Refresh(hw: IwdgRegisters)
    requires hw.Valid()
    modifies hw`s
    ensures hw.Valid() && exists hit :: EnvReach(old(hw.s), hit) && hw.s == KrStored(hit, KEY_RELOAD)
  {
    hw.WriteKr(KEY_RELOAD);
  }

  /** The watchdog runs with exactly these values, in the registers and in the
      counter's own domain, locked, and freshly reloaded. */
  predicate RunsWith(s: Dog, prescaler: nat, reload: nat) {
    && s.running && !s.unlocked && !s.pvu && !s.rvu
    && s.pr == s.prEff == prescaler && s.rlr == s.rlrEff == s.counter == reload
  }

  /** From any lock, running and update state, on any schedule of update ends: OK
      means the requested values are what counts now; no write is ever dropped; a
      timeout in the first wait leaves PR and RLR alone, one in the second has them
      written but not yet in force; and the watchdog runs in every case but a
      rejected parameter. */
  method Start(hw: IwdgRegisters, prescaler: u32, reload: u32)
    returns (status: DriverStatus, ghost first: seq<bool>, ghost second: seq<bool>)
    requires hw.Valid()
    modifies hw
    ensures hw.Valid() && hw.loads == old(hw.loads) + first + second
    ensures status.InvalidParam? <==> prescaler > 6 || reload > 0xFFF
    ensures status.InvalidParam? ==> hw.s == old(hw.s) && first == second == []
    ensures hw.dropped == old(hw.dropped)
    ensures !status.InvalidParam? ==>
              hw.s.running && IsPoll(first, 100_000, second != [] || status.Ok?)
    ensures second != [] ==> IsPoll(second, 100_000, status.Ok?)
    ensures status.Ok? ==> second != [] && RunsWith(hw.s, prescaler, reload)
    ensures status.Timeout? && second == [] ==>
              hw.s.pr == old(hw.s).pr && hw.s.rlr == old(hw.s).rlr && (hw.s.pvu || hw.s.rvu)
    ensures status.Timeout? && second != [] ==> hw.s.pr == prescaler && hw.s.rlr == reload && (hw.s.pvu || hw.s.rvu)
    ensures status.Timeout? ==> hw.s.counter <= old(hw.s).counter
    ensures status.Ok? || status.InvalidParam? || status.Timeout?
    ensures |first| <= 100_002 && |second| <= 100_002
  {
    hide IsPoll;
    status, first, second := Ok, [], [];
    if prescaler > PR_DIV256 || reload > RELOAD_MAX {
      status := InvalidParam;
    }
    if status.Ok? {
      hw.WriteKr(KEY_START);
      hw.WriteKr(KEY_ENABLE_ACCESS);
      status, first := WaitUpdates(hw);
    }
    if status.Ok? {
      hw.WritePr(prescaler);
      hw.WriteRlr(reload);
      status, second := WaitUpdates(hw);
      PollIsNotEmpty(second, status.Ok?);
    }
    if status.Ok? {
      Refresh(hw);
    }
  }

  lemma PollIsNotEmpty(polls: seq<bool>, ok: bool)
    requires IsPoll(polls, 100_000, ok)
    ensures polls != []
  {
  }

  /** Both waits are needed. A write made during an update is lost, and a refresh
      made before RLR has crossed loads the old value. */
  lemma WaitsAreNeeded(s: Dog, prescaler: bits3, reload: bits12)
    requires s.unlocked && Consistent(s)
    ensures s.pvu && prescaler != s.pr ==> PrStored(s, prescaler).pr != prescaler
    ensures s.rvu && reload != s.rlr ==> RlrStored(s, reload).rlr != reload
    ensures !s.rvu && reload != s.rlr ==> KrStored(RlrStored(s, reload), KEY_RELOAD).counter != reload
  {
  }

  /** Why iwdgStart() is for one context only: a refresh that gets between the unlock
      and the writes relocks PR and RLR, and both writes are lost. */
  lemma RefreshInBetweenLosesBoth(s: Dog, prescaler: bits3, reload: bits12)
    ensures var t := KrStored(KrStored(s, KEY_ENABLE_ACCESS), KEY_RELOAD);
      !TakesPr(t) && !TakesRlr(t) && PrStored(RlrStored(t, reload), prescaler) == t
  {
  }

  /* ---- any sequence of calls ---- */

  datatype IwdgCall = StartWith(prescaler: u32, reload: u32) | Reload

  /** The values of the last accepted start, if there was one. */
  function InForce(calls: seq<IwdgCall>, statuses: seq<DriverStatus>, pr: nat, rlr: nat): (nat, nat)
    requires |calls| == |statuses|
  {
    if calls == [] then (pr, rlr)
    else
      var last := |calls| - 1;
      if calls[last].StartWith? && statuses[last].Ok? then (calls[last].prescaler, calls[last].reload)
      else InForce(calls[..last], statuses[..last], pr, rlr)
  }

  predicate NoTimeout(statuses: seq<DriverStatus>) {
    statuses == [] || (!statuses[|statuses| - 1].Timeout? && NoTimeout(statuses[..|statuses| - 1]))
  }

  lemma InForceNone(pr: nat, rlr: nat)
    ensures InForce([], [], pr, rlr) == (pr, rlr) && NoTimeout([])
  {
  }

  lemma InForceNext(calls: seq<IwdgCall>, i: nat, before: seq<DriverStatus>, status: DriverStatus, pr: nat, rlr: nat)
    requires i < |calls| && |before| == i
    ensures InForce(calls[..i + 1], before + [status], pr, rlr)
      == if calls[i].StartWith? && status.Ok? then (calls[i].prescaler, calls[i].reload)
         else InForce(calls[..i], before, pr, rlr)
    ensures NoTimeout(before + [status]) <==> NoTimeout(before) && !status.Timeout?
  {
    assert calls[..i + 1][..i] == calls[..i] && (before + [status])[..i] == before;
  }

  /** Any sequence of starts and refreshes, interleaved with any updates: nothing
      written is ever dropped, a running watchdog stays running, and as long as no
      start has timed out the registers hold the last accepted request. */
  method MakeCalls(hw: IwdgRegisters, calls: seq<IwdgCall>) returns (statuses: seq<DriverStatus>)
    requires hw.Valid()
    modifies hw
    ensures hw.Valid() && |statuses| == |calls| && hw.dropped == old(hw.dropped)
    ensures old(hw.s).running ==> hw.s.running
    ensures NoTimeout(statuses) ==>
      (hw.s.pr, hw.s.rlr) == InForce(calls, statuses, old(hw.s).pr, old(hw.s).rlr)
    ensures NoTimeout(statuses) && !old(hw.s).pvu && !old(hw.s).rvu ==> hw.s.prEff == hw.s.pr && hw.s.rlrEff == hw.s.rlr
    ensures calls != [] && calls[|calls| - 1].Reload? ==> hw.s.counter == hw.s.rlrEff
  {
    hide InForce, NoTimeout;
    statuses := [];
    InForceNone(old(hw.s).pr, old(hw.s).rlr);
    for i := 0 to |calls|
      invariant hw.Valid() && |statuses| == i && hw.dropped == old(hw.dropped)
      invariant old(hw.s).running ==> hw.s.running
      invariant NoTimeout(statuses) ==>
        (hw.s.pr, hw.s.rlr) == InForce(calls[..i], statuses, old(hw.s).pr, old(hw.s).rlr)
      invariant NoTimeout(statuses) && !old(hw.s).pvu && !old(hw.s).rvu ==> !hw.s.pvu && !hw.s.rvu
      invariant i > 0 && calls[i - 1].Reload? ==> hw.s.counter == hw.s.rlrEff
    {
      var status := Ok;
      match calls[i] {
        case StartWith(prescaler, reload) =>
          ghost var first, second;
          status, first, second := Start(hw, prescaler, reload);
        case Reload =>
          Refresh(hw);
      }
      InForceNext(calls, i, statuses, status, old(hw.s).pr, old(hw.s).rlr);
      statuses := statuses + [status];
    }
    assert calls[..|calls|] == calls;
  }
}
