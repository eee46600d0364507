/** drivers/src/nvic.c: interrupt enables and pending states as sets, priorities as
    maps, under write-1-to-act registers (PM0214, NVIC and SCB chapters). */
module Nvic {
  import opened Status
  import opened Bits

  /** IRQn_e as the 32-bit word it is: system exceptions are negative. */
  type Irq = bv32

  const FMPI2C1_ERROR: Irq := 96
  const PRIORITY_MAX: bv32 := 15
  const PRIO_POS: bv32 := 4

  /* ---- numbering ---- */

  /** `irqn >> 5`, one of the eight words of a bank. */
  function WordOf(q: Irq): (i: nat)
    requires q < 256
    ensures i < 8
  {
    (q >> 5) as int
  }

  function BitOf(q: Irq): (k: bv32)
    ensures k < 32
  {
    q & 0x1F
  }

  lemma WordDecides(p: Irq, q: Irq)
    requires p < 256 && q < 256 && WordOf(p) == WordOf(q)
    ensures p >> 5 == q >> 5
  {
    assert WordOf(p) as bv32 == p >> 5;
    assert WordOf(q) as bv32 == q >> 5;
  }

  lemma ShiftDecides(p: Irq, q: Irq)
    requires p >> 5 == q >> 5 && BitOf(p) == BitOf(q)
    ensures p == q
  {
  }

  /** Word and bit together identify a position. */
  lemma PlaceIsUnique(p: Irq, q: Irq)
    requires p < 256 && q < 256 && WordOf(p) == WordOf(q) && BitOf(p) == BitOf(q)
    ensures p == q
  {
    hide BitOf;
    WordDecides(p, q);
    ShiftDecides(p, q);
  }

  /** nvicValidateIrq()'s reserved_mask. */
  function ReservedMask(word: nat): bv32
    requires word < 4
  {
    if word == 1 then 0x6000_0000 else if word == 2 then 0x076D_8000 else 0
  }

  /** The documented reserved positions. */
  predicate Reserved(q: Irq) {
    q == 61 || q == 62 || q == 79 || q == 80 || q == 82 || q == 83 || q == 85 || q == 86
    || q == 88 || q == 89 || q == 90
  }

  predicate Valid(q: Irq) {
    q <= 96 && !Reserved(q)
  }

  predicate Negative(q: Irq) {
    q & 0x8000_0000 != 0
  }

  function ValidateIrq(q: Irq): DriverStatus {
    if Negative(q) || q > FMPI2C1_ERROR then InvalidParam
    else if On(ReservedMask(WordOf(q)), BitOf(q)) then InvalidParam
    else Ok
  }

  lemma MaskIsReserved(q: Irq)
    requires q <= FMPI2C1_ERROR
    ensures WordOf(q) < 4 && (On(ReservedMask(WordOf(q)), BitOf(q)) <==> Reserved(q))
  {
  }

  lemma NegativeIsLarge(q: Irq)
    ensures Negative(q) ==> q > FMPI2C1_ERROR
  {
  }

  /** The mask accepts exactly the interrupts the header lists, over all 2^32 values. */
  lemma ValidatedIff(q: Irq)
    ensures ValidateIrq(q) == if Valid(q) then Ok else InvalidParam
  {
    NegativeIsLarge(q);
    if q <= FMPI2C1_ERROR {
      MaskIsReserved(q);
    }
    hide On, BitOf, Reserved, Negative;
  }

  /* ---- sets in register words ---- */

  predicate Has(words: seq<bv32>, q: Irq)
    requires |words| == 8 && q < 256
  {
    On(words[WordOf(q)], BitOf(q))
  }

  /** Position `q` of a bank: bit `q % 32` of word `q / 32`. */
  lemma HasIsBit(words: seq<bv32>, q: Irq)
    requires |words| == 8 && q < 256
    ensures (q / 32) as int < 8 && (Has(words, q) <==> (words[(q / 32) as int] >> (q % 32)) & 1 == 1)
  {
    assert q >> 5 == q / 32 && BitOf(q) == q % 32;
    hide On, BitOf;
    OnIsBit(words[WordOf(q)], BitOf(q));
  }

  ghost function SetOf(words: seq<bv32>): iset<Irq>
    requires |words| == 8
  {
    iset q: Irq | q < 256 && Has(words, q)
  }

  /** A store to ISER or ISPR: ones set, zeros do nothing. */
  function Ored(words: seq<bv32>, i: nat, v: bv32): (r: seq<bv32>)
    requires |words| == 8 && i < 8
    ensures |r| == 8
  {
    words[i := Or(words[i], v)]
  }

  /** A store to ICER or ICPR: ones clear, zeros do nothing. */
  function Masked(words: seq<bv32>, i: nat, v: bv32): (r: seq<bv32>)
    requires |words| == 8 && i < 8
    ensures |r| == 8
  {
    words[i := AndNot(words[i], v)]
  }

  lemma OredInserts(words: seq<bv32>, irqn: Irq)
    requires |words| == 8 && irqn < 256
    ensures SetOf(Ored(words, WordOf(irqn), OneBit(BitOf(irqn)))) == SetOf(words) + iset{irqn}
  {
    var x := Ored(words, WordOf(irqn), OneBit(BitOf(irqn)));
    forall q: Irq | q < 256 ensures Has(x, q) <==> q == irqn || Has(words, q) {
      OredAt(words, irqn, q);
    }
  }

  lemma OredAt(words: seq<bv32>, irqn: Irq, q: Irq)
    requires |words| == 8 && irqn < 256 && q < 256
    ensures Has(Ored(words, WordOf(irqn), OneBit(BitOf(irqn))), q) <==> q == irqn || Has(words, q)
  {
    hide On, BitOf, Or, OneBit;
    OrAdds(words[WordOf(irqn)], BitOf(irqn), BitOf(q));
    if WordOf(q) == WordOf(irqn) && BitOf(q) == BitOf(irqn) {
      PlaceIsUnique(q, irqn);
    }
  }

  lemma MaskedRemoves(words: seq<bv32>, irqn: Irq)
    requires |words| == 8 && irqn < 256
    ensures SetOf(Masked(words, WordOf(irqn), OneBit(BitOf(irqn)))) == SetOf(words) - iset{irqn}
  {
    var x := Masked(words, WordOf(irqn), OneBit(BitOf(irqn)));
    forall q: Irq | q < 256 ensures Has(x, q) <==> q != irqn && Has(words, q) {
      MaskedAt(words, irqn, q);
    }
  }

  lemma MaskedAt(words: seq<bv32>, irqn: Irq, q: Irq)
    requires |words| == 8 && irqn < 256 && q < 256
    ensures Has(Masked(words, WordOf(irqn), OneBit(BitOf(irqn))), q) <==> q != irqn && Has(words, q)
  {
    hide On, BitOf, AndNot, OneBit;
    AndNotRemoves(words[WordOf(irqn)], BitOf(irqn), BitOf(q));
    if WordOf(q) == WordOf(irqn) && BitOf(q) == BitOf(irqn) {
      PlaceIsUnique(q, irqn);
    }
  }

  /* ---- calls and hardware events ---- */

  datatype NvicCall =
    | Enable(irqn: Irq)
    | Disable(irqn: Irq)
    | Pend(irqn: Irq)
    | Unpend(irqn: Irq)
    | Prioritise(irqn: Irq, priority: bv32)

  /** A device raises an interrupt, the core takes one, or the driver is called. */
  datatype Event = Raised(irqn: Irq) | TakenByCore(irqn: Irq) | Called(c: NvicCall)

  /** The pending set after one event. */
  ghost function PendingNext(s: iset<Irq>, e: Event): iset<Irq> {
    match e
    case Raised(q) => s + iset{q}
    case TakenByCore(q) => s - iset{q}
    case Called(c) =>
      if !Valid(c.irqn) then s
      else if c.Pend? then s + iset{c.irqn}
      else if c.Unpend? then s - iset{c.irqn}
      else s
  }

  ghost function PendingAfter(s: iset<Irq>, log: seq<Event>): iset<Irq> {
    if log == [] then s else PendingNext(PendingAfter(s, log[..|log| - 1]), log[|log| - 1])
  }

  /** Devices exist for valid interrupts only. */
  ghost predicate Genuine(log: seq<Event>) {
    forall i | 0 <= i < |log| && !log[i].Called? :: Valid(log[i].irqn)
  }

  /** The driver calls of a log, in order. */
  function CallsOf(log: seq<Event>): seq<NvicCall> {
    if log == [] then []
    else CallsOf(log[..|log| - 1]) + if log[|log| - 1].Called? then [log[|log| - 1].c] else []
  }

  lemma LogSnoc(s: iset<Irq>, log: seq<Event>, e: Event)
    ensures PendingAfter(s, log + [e]) == PendingNext(PendingAfter(s, log), e)
    ensures CallsOf(log + [e]) == CallsOf(log) + if e.Called? then [e.c] else []
  {
    assert (log + [e])[..|log|] == log;
  }

  /* ---- the register block ---- */

  class NvicRegisters {
    var enabled: seq<bv32>            // what ISER and ICER read back
    var pending: seq<bv32>            // what ISPR and ICPR read back
    var ip: seq<bv8>                  // one priority byte per interrupt

    predicate Sized()
      reads this
    {
      |enabled| == 8 && |pending| == 8 && |ip| == 240
    }

    constructor (enabled: seq<bv32>, pending: seq<bv32>, ip: seq<bv8>)
      requires |enabled| == 8 && |pending| == 8 && |ip| == 240
      ensures Sized() && this.enabled == enabled && this.pending == pending && this.ip == ip
    {
      this.enabled, this.pending, this.ip := enabled, pending, ip;
    }

    method StoreIser(i: nat, v: bv32)
      requires Sized() && i < 8
      modifies this`enabled
      ensures Sized() && enabled == Ored(old(enabled), i, v)
    {
      enabled := Ored(enabled, i, v);
    }

    method StoreIcer(i: nat, v: bv32)
      requires Sized() && i < 8
      modifies this`enabled
      ensures Sized() && enabled == Masked(old(enabled), i, v)
    {
      enabled := Masked(enabled, i, v);
    }

    method StoreIspr(i: nat, v: bv32)
      requires Sized() && i < 8
      modifies this`pending
      ensures Sized() && pending == Ored(old(pending), i, v)
    {
      pending := Ored(pending, i, v);
    }

    method StoreIcpr(i: nat, v: bv32)
      requires Sized() && i < 8
      modifies this`pending
      ensures Sized() && pending == Masked(old(pending), i, v)
    {
      pending := Masked(pending, i, v);
    }

    /** Only the four implemented priority bits stick. */
    method StoreIp(i: nat, v: bv8)
      requires Sized() && i < 240
      modifies this`ip
      ensures Sized() && ip == old(ip)[i := Implemented(v)]
    {
      ip := ip[i := Implemented(v)];
    }

    /** Devices raise interrupts and the core takes them, any number of times. */
    method Hardware(ghost start: iset<Irq>, ghost log: seq<Event>) returns (ghost longer: seq<Event>)
      requires Sized() && SetOf(pending) == PendingAfter(start, log) && Genuine(log)
      modifies this`pending
      ensures Sized() && SetOf(pending) == PendingAfter(start, longer) && Genuine(longer)
      ensures CallsOf(longer) == CallsOf(log) && log <= longer
    {
      hide SetOf, Reserved, PendingAfter, CallsOf, Ored, Masked, OneBit, BitOf;
      longer := log;
      var steps: nat := *;
      while steps > 0
        invariant Sized() && SetOf(pending) == PendingAfter(start, longer) && Genuine(longer)
        invariant CallsOf(longer) == CallsOf(log) && log <= longer
      {
        var q: Irq, arrives: bool := *, *;
        if Valid(q) {
          ghost var e := if arrives then Raised(q) else TakenByCore(q);
          LogSnoc(start, longer, e);
          if arrives {
            OredInserts(pending, q);
            pending := Ored(pending, WordOf(q), OneBit(BitOf(q)));
          } else {
            MaskedRemoves(pending, q);
            pending := Masked(pending, WordOf(q), OneBit(BitOf(q)));
          }
          longer := longer + [e];
        }
        steps := steps - 1;
      }
    }
  }

  /** `(uint8_t)(priority << NVIC_PRIO_Pos)`. */
  function PriorityByte(p: bv32): bv8
    requires p <= PRIORITY_MAX
  {
    (p << PRIO_POS) as bv8
  }

  function Implemented(v: bv8): bv8 {
    v & 0xF0
  }

  function ByteLevel(v: bv8): bv32 {
    (v as bv32) >> PRIO_POS
  }

  /** A priority as nvicGetPriority() reads it. */
  function Priority(ip: seq<bv8>, q: Irq): bv32
    requires |ip| == 240 && q < 240
  {
    ByteLevel(ip[Index(q)])
  }

  /** The byte's place in IP[]. */
  function Index(q: Irq): (i: nat)
    requires q < 240
    ensures i < 240
  {
    q as int
  }

  lemma IndexIsNumber(q: Irq)
    requires q < 240
    ensures Index(q) == q as int
  {
  }

  lemma IndexIsUnique(p: Irq, q: Irq)
    requires p < 240 && q < 240 && Index(p) == Index(q)
    ensures p == q
  {
    assert Index(p) as bv32 == p;
  }

  /** IP[irqn] alone changes, and holds the priority in bits 7:4. */
  predicate ByteStored(before: seq<bv8>, after: seq<bv8>, irqn: Irq, priority: bv32)
    requires |before| == 240 && irqn < 240 && priority < 16
  {
    after == before[irqn as int := (priority << 4) as bv8]
  }

  /** One priority changes, if the call is accepted, and reads back as set. */
  ghost predicate Reprioritised(before: seq<bv8>, after: seq<bv8>, ok: bool, irqn: Irq, priority: bv32) {
    && |before| == |after| == 240
    && forall q: bv32 | q < 240 :: Priority(after, q) == if ok && q == irqn then priority else Priority(before, q)
  }

  lemma PriorityIsHighHalf(p: bv32)
    requires p < 16
    ensures Implemented(PriorityByte(p)) == (p << 4) as bv8
  {
  }

  lemma PriorityReadsBack(p: bv32)
    requires p <= PRIORITY_MAX
    ensures ByteLevel(Implemented(PriorityByte(p))) == p
  {
  }

  /* ---- the driver ---- */

  method EnableIrq(hw: NvicRegisters, irqn: Irq) returns (status: DriverStatus)
    requires hw.Sized()
    modifies hw`enabled
    ensures hw.Sized() && status == if Valid(irqn) then Ok else InvalidParam
    ensures SetOf(hw.enabled) == if status.Ok? then SetOf(old(hw.enabled)) + iset{irqn} else SetOf(old(hw.enabled))
  {
    hide SetOf, Ored, OneBit, BitOf, ValidateIrq, Reserved;
    status := ValidateIrq(irqn);
    ValidatedIff(irqn);
    if status.Ok? {
      OredInserts(hw.enabled, irqn);
      hw.StoreIser(WordOf(irqn), OneBit(BitOf(irqn)));
    }
  }

  method DisableIrq(hw: NvicRegisters, irqn: Irq) returns (status: DriverStatus)
    requires hw.Sized()
    modifies hw`enabled
    ensures hw.Sized() && status == if Valid(irqn) then Ok else InvalidParam
    ensures SetOf(hw.enabled) == if status.Ok? then SetOf(old(hw.enabled)) - iset{irqn} else SetOf(old(hw.enabled))
  {
    hide SetOf, Masked, OneBit, BitOf, ValidateIrq, Reserved;
    status := ValidateIrq(irqn);
    ValidatedIff(irqn);
    if status.Ok? {
      MaskedRemoves(hw.enabled, irqn);
      hw.StoreIcer(WordOf(irqn), OneBit(BitOf(irqn)));
    }
  }

  method SetPending(hw: NvicRegisters, irqn: Irq) returns (status: DriverStatus)
    requires hw.Sized()
    modifies hw`pending
    ensures hw.Sized() && status == if Valid(irqn) then Ok else InvalidParam
    ensures SetOf(hw.pending) == if status.Ok? then SetOf(old(hw.pending)) + iset{irqn} else SetOf(old(hw.pending))
  {
    hide SetOf, Ored, OneBit, BitOf, ValidateIrq, Reserved;
    status := ValidateIrq(irqn);
    ValidatedIff(irqn);
    if status.Ok? {
      OredInserts(hw.pending, irqn);
      hw.StoreIspr(WordOf(irqn), OneBit(BitOf(irqn)));
    }
  }

  method ClearPending(hw: NvicRegisters, irqn: Irq) returns (status: DriverStatus)
    requires hw.Sized()
    modifies hw`pending
    ensures hw.Sized() && status == if Valid(irqn) then Ok else InvalidParam
    ensures SetOf(hw.pending) == if status.Ok? then SetOf(old(hw.pending)) - iset{irqn} else SetOf(old(hw.pending))
  {
    hide SetOf, Masked, OneBit, BitOf, ValidateIrq, Reserved;
    status := ValidateIrq(irqn);
    ValidatedIff(irqn);
    if status.Ok? {
      MaskedRemoves(hw.pending, irqn);
      hw.StoreIcpr(WordOf(irqn), OneBit(BitOf(irqn)));
    }
  }

  /** One byte changes, and it reads back as the priority that was set. */
  method SetPriority(hw: NvicRegisters, irqn: Irq, priority: bv32) returns (status: DriverStatus)
    requires hw.Sized()
    modifies hw`ip
    ensures hw.Sized() && status == if Valid(irqn) && priority <= 15 then Ok else InvalidParam
    ensures if status.Ok? then ByteStored(old(hw.ip), hw.ip, irqn, priority) else hw.ip == old(hw.ip)
    ensures Reprioritised(old(hw.ip), hw.ip, status.Ok?, irqn, priority)
  {
    hide ValidateIrq, Reserved, ByteLevel, Implemented, PriorityByte, Index;
    status := ValidateIrq(irqn);
    ValidatedIff(irqn);
    if status.Ok? && priority > PRIORITY_MAX {
      status := InvalidParam;
    }
    if status.Ok? {
      PriorityReadsBack(priority);
      PriorityIsHighHalf(priority);
      IndexIsNumber(irqn);
      ghost var before := hw.ip;
      hw.StoreIp(Index(irqn), PriorityByte(priority));
      forall q: bv32 | q < 240 ensures Priority(hw.ip, q) == if q == irqn then priority else Priority(before, q) {
        if Index(q) == Index(irqn) {
          IndexIsUnique(q, irqn);
        }
      }
    }
  }

  /** `out` says whether the result pointer is not null. */
  method GetPriority(hw: NvicRegisters, irqn: Irq, out: bool) returns (status: DriverStatus, priority: bv32)
    requires hw.Sized()
    ensures status == if Valid(irqn) && out then Ok else InvalidParam
    ensures status.Ok? ==> priority == Priority(hw.ip, irqn) == (hw.ip[irqn as int] as bv32) >> 4
  {
    hide ValidateIrq, Reserved;
    status, priority := ValidateIrq(irqn), 0;
    ValidatedIff(irqn);
    if status.Ok? && !out {
      status := InvalidParam;
    }
    if status.Ok? {
      priority := ByteLevel(hw.ip[Index(irqn)]);
    }
  }

  /* ---- any sequence of calls ---- */

  /** The enabled set after a sequence of calls. */
  ghost function EnabledAfter(s: iset<Irq>, cs: seq<NvicCall>): iset<Irq> {
    if cs == [] then s
    else
      var before, c := EnabledAfter(s, cs[..|cs| - 1]), cs[|cs| - 1];
      if !Valid(c.irqn) then before
      else if c.Enable? then before + iset{c.irqn}
      else if c.Disable? then before - iset{c.irqn}
      else before
  }

  /** An accepted call that sets the priority of the interrupt. */
  predicate Sets(c: NvicCall, q: Irq) {
    c.Prioritise? && c.irqn == q && Valid(q) && c.priority <= 15
  }

  /** The priority of one interrupt after a sequence of calls. */
  function PriorityAfter(p: bv32, q: Irq, cs: seq<NvicCall>): bv32 {
    if cs == [] then p
    else
      var c := cs[|cs| - 1];
      if Sets(c, q) then c.priority
      else PriorityAfter(p, q, cs[..|cs| - 1])
  }

  lemma EnabledOne(s: iset<Irq>, c: NvicCall)
    ensures EnabledAfter(s, [c]) ==
      if Valid(c.irqn) && c.Enable? then s + iset{c.irqn}
      else if Valid(c.irqn) && c.Disable? then s - iset{c.irqn}
      else s
  {
    hide Reserved;
    assert [c][..0] == [];
  }

  lemma PendingOne(s: iset<Irq>, c: NvicCall)
    ensures PendingNext(s, Called(c)) ==
      if Valid(c.irqn) && c.Pend? then s + iset{c.irqn}
      else if Valid(c.irqn) && c.Unpend? then s - iset{c.irqn}
      else s
  {
    hide Reserved;
  }

  lemma PriorityOne(p: bv32, q: Irq, c: NvicCall)
    ensures PriorityAfter(p, q, [c]) ==
      if c.Prioritise? && c.irqn == q && Valid(q) && c.priority <= 15 then c.priority else p
  {
    hide Reserved;
    assert [c][..0] == [];
  }

  /** One call, with the pending set it leaves from the one it found. */
  method MakeCall(hw: NvicRegisters, c: NvicCall) returns (status: DriverStatus)
    requires hw.Sized()
    modifies hw
    ensures hw.Sized()
    ensures status == if Valid(c.irqn) && (c.Prioritise? ==> c.priority <= 15) then Ok else InvalidParam
    ensures SetOf(hw.enabled) == EnabledAfter(SetOf(old(hw.enabled)), [c])
    ensures SetOf(hw.pending) == PendingNext(SetOf(old(hw.pending)), Called(c))
    ensures Prioritised(old(hw.ip), hw.ip, [c])
  {
    hide SetOf, Valid, EnabledAfter, PendingNext, ByteStored, Reprioritised, Prioritised;
    EnabledOne(SetOf(hw.enabled), c);
    PendingOne(SetOf(hw.pending), c);
    if !c.Prioritise? { NotPrioritised(hw.ip, c); }
    match c
    case Enable(irqn) => status := EnableIrq(hw, irqn);
    case Disable(irqn) => status := DisableIrq(hw, irqn);
    case Pend(irqn) => status := SetPending(hw, irqn);
    case Unpend(irqn) => status := ClearPending(hw, irqn);
    case Prioritise(irqn, priority) =>
      status := SetPriority(hw, irqn, priority);
      PrioritisedOnce(old(hw.ip), hw.ip, c);
  }

  lemma NotPrioritised(ip: seq<bv8>, c: NvicCall)
    requires |ip| == 240 && !c.Prioritise?
    ensures Prioritised(ip, ip, [c])
  {
    hide Priority, PriorityAfter;
    forall q: Irq | q < 240 {
      PriorityOne(Priority(ip, q), q, c);
    }
  }

  lemma PrioritisedOnce(before: seq<bv8>, after: seq<bv8>, c: NvicCall)
    requires c.Prioritise? && Reprioritised(before, after, Valid(c.irqn) && c.priority <= 15, c.irqn, c.priority)
    ensures Prioritised(before, after, [c])
  {
    hide Priority, PriorityAfter, Valid;
    forall q: Irq | q < 240 {
      PriorityOne(Priority(before, q), q, c);
    }
  }

  /** Hardware events, then one call, both added to the log. */
  method MakeLogged(hw: NvicRegisters, c: NvicCall, ghost start: iset<Irq>, ghost log: seq<Event>)
    returns (ghost longer: seq<Event>)
    requires hw.Sized() && SetOf(hw.pending) == PendingAfter(start, log) && Genuine(log)
    modifies hw
    ensures hw.Sized() && SetOf(hw.pending) == PendingAfter(start, longer) && Genuine(longer)
    ensures CallsOf(longer) == CallsOf(log) + [c] && log <= longer
    ensures SetOf(hw.enabled) == EnabledAfter(SetOf(old(hw.enabled)), [c]) && Prioritised(old(hw.ip), hw.ip, [c])
  {
    hide SetOf, Valid, Prioritised, EnabledAfter, PendingNext, PendingAfter, CallsOf;
    longer := hw.Hardware(start, log);
    var status := MakeCall(hw, c);
    LogSnoc(start, longer, Called(c));
    longer := longer + [Called(c)];
  }

  lemma EnabledSnoc(s: iset<Irq>, cs: seq<NvicCall>, i: nat)
    requires i < |cs|
    ensures EnabledAfter(s, cs[..i + 1]) == EnabledAfter(EnabledAfter(s, cs[..i]), [cs[i]])
  {
    assert cs[..i + 1][..i] == cs[..i] && [cs[i]][..0] == [];
  }

  lemma PrioritySnoc(p: bv32, q: Irq, cs: seq<NvicCall>, i: nat)
    requires i < |cs|
    ensures PriorityAfter(p, q, cs[..i + 1]) == PriorityAfter(PriorityAfter(p, q, cs[..i]), q, [cs[i]])
  {
    assert cs[..i + 1][..i] == cs[..i] && [cs[i]][..0] == [];
  }

  /** Every priority is what the calls made it. */
  ghost predicate Prioritised(before: seq<bv8>, now: seq<bv8>, cs: seq<NvicCall>) {
    && |before| == |now| == 240
    && forall q: Irq | q < 240 :: Priority(now, q) == PriorityAfter(Priority(before, q), q, cs)
  }

  lemma PrioritisedSnoc(before: seq<bv8>, mid: seq<bv8>, now: seq<bv8>, cs: seq<NvicCall>, i: nat)
    requires i < |cs| && Prioritised(before, mid, cs[..i]) && Prioritised(mid, now, [cs[i]])
    ensures Prioritised(before, now, cs[..i + 1])
  {
    hide Priority, PriorityAfter;
    forall q: Irq | q < 240 {
      PrioritySnoc(Priority(before, q), q, cs, i);
    }
  }

  /** Any 32-bit interrupt numbers and priorities, with any number of interrupts
      raised and taken around every call: the enabled set, the pending set and the
      priorities are what the accepted calls and the logged events say. */
  method MakeCalls(hw: NvicRegisters, cs: seq<NvicCall>) returns (ghost log: seq<Event>)
    requires hw.Sized()
    modifies hw
    ensures hw.Sized() && Genuine(log) && CallsOf(log) == cs
    ensures SetOf(hw.enabled) == EnabledAfter(SetOf(old(hw.enabled)), cs)
    ensures SetOf(hw.pending) == PendingAfter(SetOf(old(hw.pending)), log)
    ensures Prioritised(old(hw.ip), hw.ip, cs)
  {
    log := [];
    Unchanged(hw.enabled, hw.ip);
    assert SetOf(hw.pending) == PendingAfter(SetOf(hw.pending), log) && CallsOf(log) == cs[..0] == [];
    hide SetOf, Genuine, Prioritised, EnabledAfter, PendingAfter, CallsOf;
    for i := 0 to |cs|
      invariant hw.Sized() && Genuine(log) && CallsOf(log) == cs[..i]
      invariant SetOf(hw.enabled) == EnabledAfter(SetOf(old(hw.enabled)), cs[..i])
      invariant SetOf(hw.pending) == PendingAfter(SetOf(old(hw.pending)), log)
      invariant Prioritised(old(hw.ip), hw.ip, cs[..i])
    {
      ghost var ip := hw.ip;
      log := MakeLogged(hw, cs[i], SetOf(old(hw.pending)), log);
      EnabledSnoc(SetOf(old(hw.enabled)), cs, i);
      PrioritisedSnoc(old(hw.ip), ip, hw.ip, cs, i);
      assert cs[..i] + [cs[i]] == cs[..i + 1];
    }
    log := hw.Hardware(SetOf(old(hw.pending)), log);
    assert cs[..|cs|] == cs;
  }

  lemma Unchanged(enabled: seq<bv32>, ip: seq<bv8>)
    requires |enabled| == 8 && |ip| == 240
    ensures SetOf(enabled) == EnabledAfter(SetOf(enabled), [])
    ensures Prioritised(ip, ip, [])
  {
  }

  /** Positions without a vector never enter the enabled set. */
  lemma {:induction false} ReservedStayDisabled(s: iset<Irq>, cs: seq<NvicCall>, q: Irq)
    requires !Valid(q)
    ensures q in EnabledAfter(s, cs) <==> q in s
    decreases |cs|
  {
    hide Reserved;
    if cs != [] {
      ReservedStayDisabled(s, cs[..|cs| - 1], q);
    }
  }

  /** ... nor the pending set. */
  lemma {:induction false} ReservedStayUnpended(s: iset<Irq>, log: seq<Event>, q: Irq)
    requires !Valid(q) && Genuine(log)
    ensures q in PendingAfter(s, log) <==> q in s
    decreases |log|
  {
    hide Valid;
    if log != [] {
      ReservedStayUnpended(s, log[..|log| - 1], q);
    }
  }

  /** A pending interrupt stays pending unless it is taken or Unpend is called on it,
      whatever else happens in between. */
  lemma {:induction false} PendingIsNotLost(s: iset<Irq>, log: seq<Event>, q: Irq, from: nat)
    requires from <= |log| && q in PendingAfter(s, log[..from])
    requires forall i | from <= i < |log| :: log[i] != TakenByCore(q) && log[i] != Called(Unpend(q))
    ensures q in PendingAfter(s, log)
    decreases |log|
  {
    hide Valid;
    if from == |log| {
      assert log[..from] == log;
    } else {
      var before := log[..|log| - 1];
      assert before[..from] == log[..from];
      PendingIsNotLost(s, before, q, from);
    }
  }

  /** ... and a raised or pended one is pending at once. */
  lemma PendingIsGained(s: iset<Irq>, log: seq<Event>, e: Event)
    requires Genuine(log + [e]) && (e.Raised? || (e.Called? && e.c.Pend? && Valid(e.c.irqn)))
    ensures (if e.Raised? then e.irqn else e.c.irqn) in PendingAfter(s, log + [e])
  {
    LogSnoc(s, log, e);
    hide PendingAfter;
  }

  /** The calls on one interrupt, in order. */
  function Own(cs: seq<NvicCall>, q: Irq): seq<NvicCall> {
    if cs == [] then []
    else Own(cs[..|cs| - 1], q) + if cs[|cs| - 1].irqn == q then [cs[|cs| - 1]] else []
  }

  lemma {:induction false} OwnDecides(s: iset<Irq>, cs: seq<NvicCall>, q: Irq)
    ensures q in EnabledAfter(s, cs) <==> q in EnabledAfter(s, Own(cs, q))
    decreases |cs|
  {
    hide Reserved;
    if cs != [] {
      var before, c := cs[..|cs| - 1], cs[|cs| - 1];
      OwnDecides(s, before, q);
      if c.irqn == q {
        var own := Own(cs, q);
        assert own[..|own| - 1] == Own(before, q) && own[|own| - 1] == c;
      } else {
        assert Own(cs, q) == Own(before, q);
      }
    }
  }

  lemma {:induction false} OwnPriorityDecides(p: bv32, cs: seq<NvicCall>, q: Irq)
    ensures PriorityAfter(p, q, cs) == PriorityAfter(p, q, Own(cs, q))
    decreases |cs|
  {
    if cs != [] {
      var before, c := cs[..|cs| - 1], cs[|cs| - 1];
      assert Sets(c, q) ==> c.irqn == q;
      hide Sets;
      OwnPriorityDecides(p, before, q);
      if c.irqn == q {
        var own := Own(cs, q);
        assert own[..|own| - 1] == Own(before, q) && own[|own| - 1] == c;
      } else {
        assert Own(cs, q) == Own(before, q);
      }
    }
  }

  /** Each call is one store, so contexts that interleave in any way end with the
      same enabled set and the same priorities, as long as each interrupt sees its own
      calls in order. */
  lemma InterleavingsAgree(s: iset<Irq>, cs: seq<NvicCall>, ds: seq<NvicCall>)
    requires forall q: Irq :: Own(cs, q) == Own(ds, q)
    ensures EnabledAfter(s, cs) == EnabledAfter(s, ds)
    ensures forall p: bv32, q: Irq :: PriorityAfter(p, q, cs) == PriorityAfter(p, q, ds)
  {
    hide Own, EnabledAfter, PriorityAfter;
    forall q: Irq ensures q in EnabledAfter(s, cs) <==> q in EnabledAfter(s, ds) {
      OwnDecides(s, cs, q);
      OwnDecides(s, ds, q);
      assert Own(cs, q) == Own(ds, q);
    }
    forall p: bv32, q: Irq ensures PriorityAfter(p, q, cs) == PriorityAfter(p, q, ds) {
      OwnPriorityDecides(p, cs, q);
      OwnPriorityDecides(p, ds, q);
      assert Own(cs, q) == Own(ds, q);
    }
  }

  /** The interrupt a call or a hardware event is about. */
  function About(e: Event): Irq {
    if e.Called? then e.c.irqn else e.irqn
  }

  /** The events of one interrupt, in order. */
  function OwnEvents(log: seq<Event>, q: Irq): seq<Event> {
    if log == [] then []
    else OwnEvents(log[..|log| - 1], q) + if About(log[|log| - 1]) == q then [log[|log| - 1]] else []
  }

  lemma SameEvent(s: iset<Irq>, t: iset<Irq>, e: Event, q: Irq)
    requires q in s <==> q in t
    ensures q in PendingNext(s, e) <==> q in PendingNext(t, e)
  {
    hide Valid;
  }

  lemma OtherEvent(s: iset<Irq>, e: Event, q: Irq)
    requires About(e) != q
    ensures q in PendingNext(s, e) <==> q in s
  {
    hide Valid;
  }

  lemma {:induction false} OwnEventsDecide(s: iset<Irq>, log: seq<Event>, q: Irq)
    ensures q in PendingAfter(s, log) <==> q in PendingAfter(s, OwnEvents(log, q))
    decreases |log|
  {
    hide PendingNext, About;
    if log != [] {
      var before, e := log[..|log| - 1], log[|log| - 1];
      OwnEventsDecide(s, before, q);
      if About(e) == q {
        var own := OwnEvents(log, q);
        assert own[..|own| - 1] == OwnEvents(before, q) && own[|own| - 1] == e;
        SameEvent(PendingAfter(s, before), PendingAfter(s, OwnEvents(before, q)), e, q);
      } else {
        OtherEvent(PendingAfter(s, before), e, q);
        assert OwnEvents(log, q) == OwnEvents(before, q);
      }
    }
  }

  /** The same for the pending set, hardware events included: it does not matter how
      the calls and events of different interrupts interleave. */
  lemma PendingInterleavingsAgree(s: iset<Irq>, log: seq<Event>, other: seq<Event>)
    requires forall q: Irq :: OwnEvents(log, q) == OwnEvents(other, q)
    ensures PendingAfter(s, log) == PendingAfter(s, other)
  {
    hide OwnEvents, PendingAfter;
    forall q: Irq ensures q in PendingAfter(s, log) <==> q in PendingAfter(s, other) {
      OwnEventsDecide(s, log, q);
      OwnEventsDecide(s, other, q);
      assert OwnEvents(log, q) == OwnEvents(other, q);
    }
  }

  /* ---- system handlers ---- */

  const MEMORY_MANAGEMENT: Irq := 0xFFFF_FFF4    // -12
  const BUS_FAULT: Irq := 0xFFFF_FFF5            // -11
  const USAGE_FAULT: Irq := 0xFFFF_FFF6          // -10
  const SVCALL: Irq := 0xFFFF_FFFB               // -5
  const PENDSV: Irq := 0xFFFF_FFFE               // -2
  const SYSTICK: Irq := 0xFFFF_FFFF              // -1

  /** SHPR1, SHPR2 or SHPR3, and the byte in it. */
  datatype Place = NoPlace | Place(shpr: nat, byte: bv32)

  function PlaceOf(irqn: Irq): (p: Place)
    ensures p.Place? ==> p.shpr < 3 && p.byte < 4
  {
    if irqn == MEMORY_MANAGEMENT then Place(0, 0)
    else if irqn == BUS_FAULT then Place(0, 1)
    else if irqn == USAGE_FAULT then Place(0, 2)
    else if irqn == SVCALL then Place(1, 3)
    else if irqn == PENDSV then Place(2, 2)
    else if irqn == SYSTICK then Place(2, 3)
    else NoPlace
  }

  /** The exception number, 16 above the interrupt number. */
  function Exception(irqn: Irq): bv32 {
    irqn + 16
  }

  /** The names picked are the architecture's addresses: the handlers of exceptions 4,
      5, 6, 11, 14 and 15, each in the byte its number less four counts off. */
  lemma PlaceIsArchitectural(irqn: Irq)
    ensures PlaceOf(irqn).Place? <==> Exception(irqn) in [4, 5, 6, 11, 14, 15]
    ensures var p := PlaceOf(irqn);
      p.Place? ==> 4 * p.shpr + p.byte as int == Exception(irqn) as int - 4
  {
  }

  lemma PlacesAreDistinct(p: Irq, q: Irq)
    requires PlaceOf(p).Place? && PlaceOf(p) == PlaceOf(q)
    ensures p == q
  {
  }

  class ScbRegisters {
    var shpr: array<bv32>    // SHPR1 to SHPR3

    constructor (shpr: array<bv32>)
      requires shpr.Length == 3
      ensures this.shpr == shpr
    {
      this.shpr := shpr;
    }
  }

  /** Every byte of the three words changes only if it is the addressed handler's,
      and then holds the priority in its implemented upper half. */
  method SetSystemHandlerPriority(scb: ScbRegisters, irqn: Irq, priority: bv32) returns (status: DriverStatus)
    requires scb.shpr.Length == 3
    modifies scb.shpr
    ensures status == if PlaceOf(irqn).Place? && priority <= 15 then Ok else InvalidParam
    ensures forall i, k: bv32 | 0 <= i < 3 && k < 4 ::
      Byte(scb.shpr[i], k)
      == if status.Ok? && PlaceOf(irqn) == Place(i, k) then priority << 4 else Byte(old(scb.shpr[i]), k)
  {
    hide Byte, PutHigh;
    var place := PlaceOf(irqn);
    status := if place.Place? then Ok else InvalidParam;
    if status.Ok? && priority > PRIORITY_MAX {
      status := InvalidParam;
    }
    if status.Ok? {
      ghost var w := scb.shpr[place.shpr];
      scb.shpr[place.shpr] := PutHigh(scb.shpr[place.shpr], place.byte, priority);
      PutHighSets(w, place.byte, priority);
      forall k: bv32 | k < 4 && k != place.byte ensures Byte(PutHigh(w, place.byte, priority), k) == Byte(w, k) {
        PutHighKeeps(w, place.byte, priority, k);
      }
    }
  }

  /** The six handlers do not disturb each other, whatever order they are set in. */
  method SetTwoHandlers(scb: ScbRegisters, p: Irq, a: bv32, q: Irq, b: bv32)
    requires scb.shpr.Length == 3 && p != q && a <= 15 && b <= 15
    requires PlaceOf(p).Place? && PlaceOf(q).Place?
    modifies scb.shpr
    ensures Byte(scb.shpr[PlaceOf(p).shpr], PlaceOf(p).byte) == a << 4
    ensures Byte(scb.shpr[PlaceOf(q).shpr], PlaceOf(q).byte) == b << 4
  {
    hide Byte;
    if PlaceOf(p) == PlaceOf(q) {
      PlacesAreDistinct(p, q);
    }
    hide PlaceOf;
    var first := SetSystemHandlerPriority(scb, p, a);
    var second := SetSystemHandlerPriority(scb, q, b);
  }
}
