/** drivers/src/uart.c: configuration and blocking transfers. */
module Uart {
  import opened Status
  import opened Polling
  import opened Baud
  import opened UartLine

  /* ---- configuration ---- */

  const RE: bv32 := 0x0004
  const TE: bv32 := 0x0008
  const PS: bv32 := 0x0200
  const PCE: bv32 := 0x0400
  const M: bv32 := 0x1000
  const UE: bv32 := 0x2000
  const OVER8: bv32 := 0x8000
  const STOP: bv32 := 0x3000
  const STOP_1: bv32 := 0
  const STOP_2: bv32 := 2

  /** The parameters uartInit() accepts, as CR1 and CR2 field values: stop bits 0 (one)
      or 2 (two), PCE, PS, and TE and RE in any combination. */
  predicate ValidFormat(stop: bv32, parityEnable: bv32, paritySelect: bv32, direction: bv32) {
    && (stop == 0 || stop == 2)
    && (parityEnable == 0 || parityEnable == 0x400)
    && (paritySelect == 0 || paritySelect == 0x200)
    && OnlyTeRe(direction)
  }

  /** No bit set but 3 and 2. */
  predicate OnlyTeRe(direction: bv32) {
    direction & !0xC == 0
  }

  /** uartInit()'s own test. */
  predicate DirectionFits(direction: bv32) {
    direction & !(TE | RE) == 0
  }

  lemma DirectionFitsIff(direction: bv32)
    ensures DirectionFits(direction) <==> OnlyTeRe(direction)
  {
    assert direction & !(TE | RE) == direction & !0xC;
  }

  /** The frame CR1 asks for: 16x oversampling, eight data bits whatever the parity. */
  predicate Frames(cr1: bv32, parityEnable: bv32, paritySelect: bv32, direction: bv32) {
    FrameOf(cr1) == Format(8, 16, parityEnable != 0, paritySelect != 0, direction & 0x8 != 0, direction & 0x4 != 0)
  }

  /** UE, bit 13. */
  predicate Enabled(cr1: bv32) {
    Bit(cr1, 13)
  }

  /** Every bit but UE, OVER8, M, PCE, PS, TE and RE is the caller's. */
  predicate OthersKept(cr1: bv32, before: bv32) {
    cr1 & !0xB60C == before & !0xB60C
  }

  predicate StopIs(cr2: bv32, stop: bv32, before: bv32) {
    StopBits(cr2) == (if stop == 2 then 2.0 else 1.0) && cr2 & !0x3000 == before & !0x3000
  }

  // The values uartInit() stores, in order.
  function Disable(cr1: bv32): bv32 { cr1 & !UE }
  function Enable(cr1: bv32): bv32 { cr1 | UE }
  function StopCr2(cr2: bv32, stop: bv32): bv32 { (cr2 & !STOP) | (stop << 12) }

  function FrameBits(parityEnable: bv32, paritySelect: bv32, direction: bv32): bv32 {
    (if parityEnable != 0 then M else 0) | parityEnable | paritySelect | direction
  }

  function FrameCr1(cr1: bv32, parityEnable: bv32, paritySelect: bv32, direction: bv32): bv32 {
    (cr1 & !(M | OVER8 | PCE | PS | TE | RE)) | FrameBits(parityEnable, paritySelect, direction)
  }

  lemma OneStop(cr2: bv32)
    ensures StopIs(StopCr2(cr2, 0), 0, cr2)
  {
  }

  lemma TwoStops(cr2: bv32)
    ensures StopIs(StopCr2(cr2, 2), 2, cr2)
  {
  }

  lemma StopCr2Field(cr2: bv32, stop: bv32)
    requires stop == 0 || stop == 2
    ensures StopIs(StopCr2(cr2, stop), stop, cr2)
  {
    hide StopIs, StopCr2;
    OneStop(cr2);
    TwoStops(cr2);
  }

  lemma InitFrames(cr1: bv32, stop: bv32, parityEnable: bv32, paritySelect: bv32, direction: bv32)
    requires ValidFormat(stop, parityEnable, paritySelect, direction)
    ensures Frames(Enable(FrameCr1(Disable(cr1), parityEnable, paritySelect, direction)),
                   parityEnable, paritySelect, direction)
  {
  }

  lemma InitKeeps(cr1: bv32, stop: bv32, parityEnable: bv32, paritySelect: bv32, direction: bv32)
    requires ValidFormat(stop, parityEnable, paritySelect, direction)
    ensures OthersKept(Enable(FrameCr1(Disable(cr1), parityEnable, paritySelect, direction)), cr1)
  {
    FrameBitsInside(stop, parityEnable, paritySelect, direction);
    hide FrameBits, ValidFormat;
    OthersAside(cr1, FrameBits(parityEnable, paritySelect, direction));
  }

  lemma FrameBitsInside(stop: bv32, parityEnable: bv32, paritySelect: bv32, direction: bv32)
    requires ValidFormat(stop, parityEnable, paritySelect, direction)
    ensures FrameBits(parityEnable, paritySelect, direction) & !0x960C == 0
  {
  }

  lemma OthersAside(cr1: bv32, bits: bv32)
    requires bits & !0x960C == 0
    ensures OthersKept(Enable((Disable(cr1) & !(M | OVER8 | PCE | PS | TE | RE)) | bits), cr1)
  {
  }

  lemma InitEnables(cr1: bv32, stop: bv32, parityEnable: bv32, paritySelect: bv32, direction: bv32)
    requires ValidFormat(stop, parityEnable, paritySelect, direction)
    ensures var framed := FrameCr1(Disable(cr1), parityEnable, paritySelect, direction);
      !Enabled(Disable(cr1)) && !Enabled(framed) && Enabled(Enable(framed))
  {
  }

  /** The order RM0390 asks for: UE is clear while BRR and every format bit change,
      and is set by the last store. */
  ghost predicate ConfiguredDisabled(ws: seq<ConfigStore>) {
    && |ws| == 5 && ws[0].reg == CR1 && ws[4].reg == CR1
    && (forall i | 1 <= i < 5 :: !Enabled(ws[i].cr1))
    && Enabled(ws[4].value)
  }

  /** The stores of an accepted uartInit(). */
  ghost predicate Configured(hw: UartRegisters, ws: seq<ConfigStore>, brr: bv32, stop: bv32, parityEnable: bv32,
                             paritySelect: bv32, direction: bv32, cr1: bv32, cr2: bv32)
    reads hw
  {
    && ConfiguredDisabled(ws)
    && hw.brr == brr
    && StopIs(hw.cr2, stop, cr2)
    && Frames(hw.cr1, parityEnable, paritySelect, direction) && Enabled(hw.cr1) && OthersKept(hw.cr1, cr1)
  }

  method Configure(hw: UartRegisters, brr: bv32, stop: bv32, parityEnable: bv32, paritySelect: bv32, direction: bv32)
    returns (ghost ws: seq<ConfigStore>)
    requires ValidFormat(stop, parityEnable, paritySelect, direction)
    modifies hw`cr1, hw`cr2, hw`cr3, hw`brr, hw`gtpr, hw`stores
    ensures hw.stores == old(hw.stores) + ws && hw.cr3 == old(hw.cr3) && hw.gtpr == old(hw.gtpr)
    ensures Configured(hw, ws, brr, stop, parityEnable, paritySelect, direction, old(hw.cr1), old(hw.cr2))
  {
    hide Frames, FrameCr1, StopCr2, StopIs, Enable, Disable, Enabled, OthersKept;
    StopCr2Field(hw.cr2, stop);
    hide ValidFormat;
    InitFrames(hw.cr1, stop, parityEnable, paritySelect, direction);
    InitKeeps(hw.cr1, stop, parityEnable, paritySelect, direction);
    InitEnables(hw.cr1, stop, parityEnable, paritySelect, direction);
    hw.Store(CR1, Disable(hw.cr1));
    hw.Store(BRR, brr);
    hw.Store(CR2, StopCr2(hw.cr2, stop));
    hw.Store(CR1, FrameCr1(hw.cr1, parityEnable, paritySelect, direction));
    hw.Store(CR1, Enable(hw.cr1));
    ws := hw.stores[|old(hw.stores)|..];
  }

  /** All or nothing: a rejected call stores nothing, an accepted one leaves exactly
      the requested frame and divisor, everything else in CR1 and CR2 as it was. */
  method Init(hw: UartRegisters, pclk: u32, baud: u32, stop: bv32, parityEnable: bv32, paritySelect: bv32,
              direction: bv32)
    returns (status: DriverStatus, ghost ws: seq<ConfigStore>)
    modifies hw`cr1, hw`cr2, hw`cr3, hw`brr, hw`gtpr, hw`stores
    ensures hw.stores == old(hw.stores) + ws && hw.cr3 == old(hw.cr3) && hw.gtpr == old(hw.gtpr)
    ensures status == if ComputeBrr(pclk, baud).Divisor? && ValidFormat(stop, parityEnable, paritySelect, direction)
                      then Ok else InvalidParam
    ensures status.InvalidParam? ==> ws == [] && hw.cr1 == old(hw.cr1) && hw.cr2 == old(hw.cr2) && hw.brr == old(hw.brr)
    ensures status.Ok? ==>
      Configured(hw, ws, ComputeBrr(pclk, baud).brr as bv32, stop, parityEnable, paritySelect, direction,
                 old(hw.cr1), old(hw.cr2))
  {
    DirectionFitsIff(direction);
    hide Configured, OnlyTeRe, DirectionFits;
    ws := [];
    var divisor := ComputeBrr(pclk, baud);
    status := if divisor.Divisor? then Ok else InvalidParam;
    if status.Ok? {
      if stop != STOP_1 && stop != STOP_2 {
        status := InvalidParam;
      }
    }
    if status.Ok? {
      if parityEnable != 0 && parityEnable != PCE {
        status := InvalidParam;
      }
    }
    if status.Ok? {
      if paritySelect != 0 && paritySelect != PS {
        status := InvalidParam;
      }
    }
    if status.Ok? {
      if !DirectionFits(direction) {
        status := InvalidParam;
      }
    }
    if status.Ok? {
      ws := Configure(hw, divisor.brr as bv32, stop, parityEnable, paritySelect, direction);
    }
  }

  /** Everything back to its reset value; no enabled bit survives. */
  method Deinit(hw: UartRegisters)
    modifies hw`cr1, hw`cr2, hw`cr3, hw`brr, hw`gtpr, hw`stores
    ensures hw.cr1 == hw.cr2 == hw.cr3 == hw.brr == hw.gtpr == 0
    ensures |hw.stores| == |old(hw.stores)| + 5 && hw.stores[|old(hw.stores)|].reg == CR1
  {
    hw.Store(CR1, 0);
    hw.Store(CR2, 0);
    hw.Store(CR3, 0);
    hw.Store(BRR, 0);
    hw.Store(GTPR, 0);
  }

  /* ---- waits ---- */

  datatype SrFlag = TXE | TC | RXNE

  predicate Set(sr: Sr, f: SrFlag) {
    match f
    case TXE => sr.txe
    case TC => sr.tc
    case RXNE => sr.rxne
  }

  ghost function Answers(polls: seq<Sr>, f: SrFlag): (a: seq<bool>)
    ensures |a| == |polls|
    ensures forall i | 0 <= i < |polls| :: a[i] == Set(polls[i], f)
  {
    seq(|polls|, i requires 0 <= i < |polls| => Set(polls[i], f))
  }

  /** What the flag says about the line, at the moment of the read. */
  predicate Holds(tx: Tx, rx: Rx, f: SrFlag) {
    match f
    case TXE => tx.dr.None?
    case TC => tx.tc
    case RXNE => rx.rxne
  }

  /** `polls` is what one wait read from SR. */
  ghost predicate Waited(polls: seq<Sr>, f: SrFlag, timeout: nat, status: DriverStatus) {
    && (status.Ok? || status.Timeout?)
    && IsPoll(Answers(polls, f), timeout, status.Ok?)
  }

  method WaitSrFlag(hw: UartRegisters, f: SrFlag, timeout: u32) returns (status: DriverStatus, ghost polls: seq<Sr>)
    requires hw.Valid()
    modifies hw`tx, hw`rx, hw`srLoads
    ensures hw.Valid() && hw.srLoads == old(hw.srLoads) + polls && Waited(polls, f, timeout, status)
    ensures TxReach(old(hw.tx).(srRead := true), hw.tx) && RxOnly(old(hw.rx), hw.rx)
    ensures status.Ok? <==> Holds(hw.tx, hw.rx, f)
  {
    hide RxOnly, RxOk, UartRegisters.Valid, TxReach;
    status := Ok;
    var remaining := timeout;
    var sr := hw.ReadSr();
    polls := [sr];
    while !Set(sr, f) && remaining > 0
      invariant hw.Valid() && 1 <= |polls| == timeout - remaining + 1
      invariant hw.srLoads == old(hw.srLoads) + polls && polls[|polls| - 1] == sr
      invariant forall i | 0 <= i < |polls| - 1 :: !Set(polls[i], f)
      invariant TxReach(old(hw.tx).(srRead := true), hw.tx) && RxOnly(old(hw.rx), hw.rx)
    {
      remaining := remaining - 1;
      ghost var tx0, rx0 := hw.tx, hw.rx;
      sr := hw.ReadSr();
      TxReadsTrans(old(hw.tx), tx0, hw.tx);
      RxOnlyTrans(old(hw.rx), rx0, hw.rx);
      polls := polls + [sr];
    }
    ghost var tx0, rx0 := hw.tx, hw.rx;
    sr := hw.ReadSr();
    TxReadsTrans(old(hw.tx), tx0, hw.tx);
    RxOnlyTrans(old(hw.rx), rx0, hw.rx);
    polls := polls + [sr];
    if !Set(sr, f) {
      status := Timeout;
    }
  }

  method Flush(hw: UartRegisters, timeout: u32) returns (status: DriverStatus, ghost polls: seq<Sr>)
    requires hw.Valid()
    modifies hw`tx, hw`rx, hw`srLoads
    ensures hw.Valid() && hw.srLoads == old(hw.srLoads) + polls && Waited(polls, TC, timeout, status)
    ensures TxReach(old(hw.tx).(srRead := true), hw.tx) && RxOnly(old(hw.rx), hw.rx)
    ensures status.Ok? <==> hw.tx.tc
    ensures status.Ok? && !old(hw.tx).tc ==> Idle(hw.tx) && hw.tx.wire == Stream(old(hw.tx))
  {
    hide RxOnly, RxOk, UartRegisters.Valid, IsPoll;
    status, polls := WaitSrFlag(hw, TC, timeout);
  }

  /* ---- transmission ---- */

  /** The byte joins the stream behind everything already there, and TC no longer
      speaks for it; on a timeout nothing is written. */
  method TransmitByte(hw: UartRegisters, b: byte, timeout: u32) returns (status: DriverStatus, ghost polls: seq<Sr>)
    requires hw.Valid()
    modifies hw`tx, hw`rx, hw`srLoads
    ensures hw.Valid() && hw.srLoads == old(hw.srLoads) + polls && Waited(polls, TXE, timeout, status)
    ensures RxOnly(old(hw.rx), hw.rx)
    ensures status.Ok? ==> Stream(hw.tx) == Stream(old(hw.tx)) + [b] && !hw.tx.tc
    ensures status.Timeout? ==> TxReach(old(hw.tx).(srRead := true), hw.tx) && hw.tx.dr.Some?
    ensures old(hw.tx).wire <= hw.tx.wire
  {
    hide RxOnly, RxOk, UartRegisters.Valid, IsPoll;
    status, polls := WaitSrFlag(hw, TXE, timeout);
    if status.Ok? {
      ghost var seen := hw.rx;
      ghost var hit := hw.WriteDr(b);
      RxOnlyFrame(seen, hw.rx);
      RxOnlyTrans(old(hw.rx), seen, hw.rx);
    }
  }

  lemma RxOnlyFrame(s: Rx, t: Rx)
    requires RxReach(s, t)
    ensures RxOnly(s, t)
  {
  }

  /** Exact delivery. `sent` bytes of the buffer, and only those, follow everything
      that was on its way before, in order and with none overwritten. OK means all
      of them, and for a non-empty buffer that every byte has left and both
      registers are empty: no TC left over from earlier is believed. */
  method Transmit(hw: UartRegisters, data: array?<byte>, length: nat, timeout: u32)
    returns (status: DriverStatus, ghost sent: nat)
    requires hw.Valid() && (data != null ==> length <= data.Length)
    modifies hw`tx, hw`rx, hw`srLoads
    ensures hw.Valid() && RxOnly(old(hw.rx), hw.rx)
    ensures status.InvalidParam? <==> data == null && length > 0
    ensures status.InvalidParam? ==> sent == 0 && hw.tx == old(hw.tx) && hw.rx == old(hw.rx)
    ensures sent <= length && (data != null ==> Stream(hw.tx) == Stream(old(hw.tx)) + data[..sent])
    ensures old(hw.tx).wire <= hw.tx.wire
    ensures status.Ok? ==> sent == length
    ensures status.Ok? && length > 0 ==> Idle(hw.tx) && hw.tx.wire == Stream(old(hw.tx)) + data[..length]
    ensures data == null || length == 0 ==> hw.tx == old(hw.tx)
    ensures status.Timeout? ==>
              (if sent < length then hw.tx.dr.Some? else !hw.tx.tc) && |hw.srLoads| > |old(hw.srLoads)|
    ensures status.Ok? || status.InvalidParam? || status.Timeout?
  {
    hide RxOnly, RxOk, UartRegisters.Valid, IsPoll, TxReach;
    status, sent := Ok, 0;
    RxOnlyRefl(hw.rx);
    if data == null && length > 0 {
      status := InvalidParam;
    }
    ghost var polls;
    var i := 0;
    while i < length && status.Ok?
      invariant hw.Valid() && RxOnly(old(hw.rx), hw.rx)
      invariant 0 <= sent <= i <= length && (status.Ok? ==> sent == i) && (status.Timeout? ==> i == sent + 1)
      invariant status.Ok? || status.Timeout? || (status.InvalidParam? && data == null && length > 0)
      invariant status.InvalidParam? ==> sent == 0 && hw.tx == old(hw.tx) && hw.rx == old(hw.rx)
      invariant status.Ok? && length > 0 ==> data != null
      invariant status.Timeout? ==> data != null && hw.tx.dr.Some? && |hw.srLoads| > |old(hw.srLoads)|
      invariant data != null ==> Stream(hw.tx) == Stream(old(hw.tx)) + data[..sent]
      invariant old(hw.tx).wire <= hw.tx.wire
      invariant status.Ok? && i > 0 ==> !hw.tx.tc
      invariant i == 0 ==> hw.tx == old(hw.tx)
      invariant |old(hw.srLoads)| <= |hw.srLoads|
    {
      ghost var tx0, rx0 := hw.tx, hw.rx;
      status, polls := TransmitByte(hw, data[i], timeout);
      RxOnlyTrans(old(hw.rx), rx0, hw.rx);
      if status.Ok? {
        sent := sent + 1;
        assert data[..sent] == data[..i] + [data[i]];
      } else {
        TxReachStream(tx0.(srRead := true), hw.tx);
        PollReads(polls, TXE, timeout, status);
      }
      i := i + 1;
    }
    if status.Ok? && length > 0 {
      ghost var tx0, rx0 := hw.tx, hw.rx;
      status, polls := Flush(hw, timeout);
      RxOnlyTrans(old(hw.rx), rx0, hw.rx);
      TxReachStream(tx0.(srRead := true), hw.tx);
      PollReads(polls, TC, timeout, status);
    }
  }

  lemma RxOnlyRefl(r: Rx)
    ensures RxOnly(r, r)
  {
  }

  lemma TxReachStream(s: Tx, t: Tx)
    requires TxReach(s, t)
    ensures Stream(t) == Stream(s) && s.wire <= t.wire
  {
  }

  lemma PollReads(polls: seq<Sr>, f: SrFlag, timeout: nat, status: DriverStatus)
    requires Waited(polls, f, timeout, status)
    ensures 2 <= |polls| <= timeout + 2
  {
  }

  /* ---- reception ---- */

  /** A frame that arrived, delivered into the buffer without its ninth bit. */
  predicate Delivered(b: byte, r: Rx, i: int) {
    0 <= i < |r.arrived| && b == r.arrived[i].word % 256
  }

  /** Nothing lost or bad before frame `i` is read, as far as software could know. */
  predicate Clean(r: Rx, i: int) {
    0 <= i < |r.arrived| && !r.arrived[i].bad
  }

  /** What a call from `s` has to report about frame `frame`, with `seen` frames
      arrived when SR was read: a loss or an error flagged before, a loss since, or
      an error of the frame itself. */
  predicate Faulty(s: Rx, t: Rx, frame: int, seen: nat) {
    s.ore || s.bad || seen > frame + 1 || !Clean(t, frame)
  }

  /** The receiver after SR and DR were read, `seen` frames having arrived when SR was:
      nothing waits in DR and the error flags are clear, except that ORE may speak
      for frames lost between the two reads. */
  predicate Recovered(t: Rx, seen: nat) {
    !t.rxne && !t.bad && seen <= |t.arrived| && (t.ore ==> seen < |t.arrived|)
  }

  /** One byte. OK and HW_FAULT both deliver the next unread frame and clear the
      flags; it is HW_FAULT exactly if there is something to report. After OK a loss
      since SR was read is still flagged, for the next call. TIMEOUT leaves DR empty. */
  ghost predicate Received(s: Rx, t: Rx, status: DriverStatus, b: byte, seen: nat) {
    && s.arrived <= t.arrived && (status.Ok? || status.HwFault? || status.Timeout?)
    && (!status.Timeout? ==>
          && Delivered(b, t, Unread(s)) && Unread(s) < seen && Recovered(t, seen)
          && (status.HwFault? <==> Faulty(s, t, Unread(s), seen))
          && (status.Ok? && seen < |t.arrived| ==> t.ore))
    && (status.Timeout? ==> RxOnly(s, t) && !t.rxne)
  }

  /** What an SR read that shows RXNE says about the frames since `s`: the next unread
      one is in DR, and the flags are exactly what there is to report. */
  lemma SrSees(s: Rx, u: Rx)
    requires RxOk(s) && RxOnly(s, u) && u.rxne
    ensures s.arrived <= u.arrived && RxOk(u) && u.at - 1 == Unread(s)
    ensures u.ore <==> s.ore || |u.arrived| > Unread(s) + 1
    ensures u.bad <==> s.bad || u.arrived[u.at - 1].bad
  {
  }

  lemma StaysFull(t: Rx, u: Rx)
    requires RxOnly(t, u) && t.rxne
    ensures u.rxne
  {
  }

  /** Between the SR read and the DR read frames can only be lost, not replace the
      one that was seen, and a loss is on record when the call returns. */
  lemma DrReads(u: Rx, hit: Rx)
    requires u.rxne && RxOk(u) && RxReach(u, hit)
    ensures u.arrived <= hit.arrived && hit.word == u.word && hit.at == u.at
    ensures |hit.arrived| > |u.arrived| ==> hit.ore
    ensures |hit.arrived| == |u.arrived| ==> hit.ore == u.ore
    ensures hit.bad == u.bad && hit.sawOre == u.sawOre && hit.sawBad == u.sawBad
  {
  }

  lemma ReceivedOne(s: Rx, u: Rx, hit: Rx, status: DriverStatus)
    requires RxOk(s) && RxOnly(s, u) && u.rxne && u.sawOre == u.ore && u.sawBad == u.bad
    requires RxReach(u, hit) && status == if u.ore || u.bad then HwFault else Ok
    ensures Received(s, RxRead(hit), status, hit.word % 256, |u.arrived|)
  {
    SrSees(s, u);
    DrReads(u, hit);
    hide RxOnly, RxReach;
  }

  /** `*byte` is `buf[i]`; a null buffer is a null pointer. `seen` counts the frames
      that had arrived at the last SR read. */
  method ReceiveByte(hw: UartRegisters, buf: array?<byte>, i: nat, timeout: u32)
    returns (status: DriverStatus, ghost polls: seq<Sr>, ghost seen: nat)
    requires hw.Valid() && (buf != null ==> i < buf.Length)
    modifies hw`tx, hw`rx, hw`srLoads, buf
    ensures hw.Valid() && |hw.srLoads| >= |old(hw.srLoads)|
    ensures buf != null ==> |hw.srLoads| > |old(hw.srLoads)|
    ensures status.InvalidParam? <==> buf == null
    ensures status.InvalidParam? ==> hw.tx == old(hw.tx) && hw.rx == old(hw.rx)
    ensures buf != null ==> TxReach(old(hw.tx).(srRead := true), hw.tx)
    ensures buf != null ==> Received(old(hw.rx), hw.rx, status, buf[i], seen)
    ensures buf != null ==> forall j | 0 <= j < buf.Length && j != i :: buf[j] == old(buf[j])
    ensures status.Timeout? ==> buf[i] == old(buf[i])
    ensures buf != null ==> Waited(polls, RXNE, timeout, if status.HwFault? then Ok else status)
    ensures status.Ok? || status.InvalidParam? || status.Timeout? || status.HwFault?
  {
    hide RxOnly, RxReach, RxOk, IsPoll, TxReach, Received;
    status, polls, seen := Ok, [], 0;
    ghost var tx0 := hw.tx;
    if buf == null {
      status := InvalidParam;
    } else {
      status, polls := WaitSrFlag(hw, RXNE, timeout);
      PollReads(polls, RXNE, timeout, status);
    }
    ghost var t, tx1 := hw.rx, hw.tx;
    if status.Ok? {
      var sr := hw.ReadSr();
      ghost var u, tx2 := hw.rx, hw.tx;
      seen := |u.arrived|;
      var word, hit := hw.ReadDr();
      TxReadsTrans(tx0, tx1, tx2);
      TxReachTrans(tx0.(srRead := true), tx2, hw.tx);
      buf[i] := word % 256;
      if sr.ore || sr.bad {
        status := HwFault;
      }
      RxOnlyTrans(old(hw.rx), t, u);
      StaysFull(t, u);
      ReceivedOne(old(hw.rx), u, hit, status);
    } else if status.Timeout? {
      ReceivedNone(old(hw.rx), t, buf[i]);
    }
  }

  lemma ReceivedNone(s: Rx, t: Rx, b: byte)
    requires RxOnly(s, t) && !t.rxne
    ensures Received(s, t, Timeout, b, 0)
  {
  }

  /** The first `n` buffer entries are consecutive frames from `first` on, all
      clean. */
  ghost predicate Consecutive(buf: seq<byte>, n: nat, r: Rx, first: int) {
    && n <= |buf|
    && forall k | 0 <= k < n :: Delivered(buf[k], r, first + k) && Clean(r, first + k)
  }

  /** Frames already delivered do not change when more arrive or are read. */
  lemma ConsecutiveStays(a: seq<byte>, n: nat, r: Rx, first: int, b: seq<byte>, t: Rx)
    requires Consecutive(a, n, r, first) && |b| == |a| && r.arrived <= t.arrived
    requires forall k | 0 <= k < n :: b[k] == a[k]
    ensures Consecutive(b, n, t, first)
  {
    forall k | 0 <= k < n ensures Delivered(b[k], t, first + k) && Clean(t, first + k) {
      assert Delivered(a[k], r, first + k) && Clean(r, first + k);
      assert t.arrived[first + k] == r.arrived[first + k];
    }
  }

  /** Between two bytes of a reception that has gone well so far: DR is empty, and
      either the next frame to come is number `next` or ORE says that it is lost. */
  predicate Between(r: Rx, next: int) {
    !r.rxne && !r.bad && |r.arrived| >= next && (r.ore <==> |r.arrived| > next)
  }

  /** One more byte extends the run only if nothing was lost in between. */
  lemma ReceivedNext(a: seq<byte>, n: nat, s: Rx, first: int, b: seq<byte>, t: Rx, seen: nat)
    requires Consecutive(a, n, s, first) && |b| == |a| && n < |a|
    requires forall k | 0 <= k < |a| && k != n :: b[k] == a[k]
    requires s.ore || Unread(s) == first + n
    requires Received(s, t, Ok, b[n], seen)
    ensures Consecutive(b, n + 1, t, first) && Between(t, first + n + 1)
  {
    ConsecutiveStays(a, n, s, first, b, t);
    forall k | 0 <= k < n + 1 ensures Delivered(b[k], t, first + k) && Clean(t, first + k) {
      if k == n {
        assert Unread(s) == first + k;
      }
    }
  }

  /** Byte number `n` of a reception from `s` was delivered, and reported as faulty
      for a reason: frames before it were lost since byte `n - 1`, or lost or flagged
      before the call, or since, or it is bad itself. The flags are clear again. */
  predicate FaultAt(b: byte, s: Rx, n: nat, t: Rx, frame: int, seen: nat) {
    && Delivered(b, t, frame) && Unread(s) + n <= frame < seen && Recovered(t, seen)
    && (frame > Unread(s) + n || (n == 0 && (s.ore || s.bad)) || seen > frame + 1 || !Clean(t, frame))
  }

  lemma FaultAfter(start: Rx, n: nat, s: Rx, t: Rx, b: byte, seen: nat)
    requires Received(s, t, HwFault, b, seen)
    requires n == 0 ==> s == start
    requires n > 0 ==> Between(s, Unread(start) + n)
    ensures FaultAt(b, start, n, t, Unread(s), seen)
  {
  }

  /** No loss is hidden. OK means the buffer holds consecutive frames without an
      error, starting with the first one unread, and that whatever was lost since
      is still flagged. On HW_FAULT at `got` the entries before it are such frames,
      the entry itself is a frame with a fault to report, and those after it are
      untouched; on TIMEOUT the line is silent and those from `got` on are untouched. */
  method Receive(hw: UartRegisters, data: array?<byte>, length: nat, timeout: u32)
    returns (status: DriverStatus, ghost got: nat)
    requires hw.Valid() && (data != null ==> length <= data.Length)
    modifies hw`tx, hw`rx, hw`srLoads, data
    ensures hw.Valid()
    ensures status.InvalidParam? <==> data == null && length > 0
    ensures status.InvalidParam? || length == 0 ==> hw.tx == old(hw.tx) && hw.rx == old(hw.rx) && got == 0
    ensures hw.tx == old(hw.tx) || TxReach(old(hw.tx).(srRead := true), hw.tx)
    ensures got <= length && (data != null ==> Consecutive(data[..], got, hw.rx, Unread(old(hw.rx))))
    ensures status.Ok? ==> got == length && (length > 0 ==> Between(hw.rx, Unread(old(hw.rx)) + length))
    ensures old(hw.rx).arrived <= hw.rx.arrived && (status.Ok? && length > 0 ==> !old(hw.rx).ore)
    ensures status.HwFault? || status.Timeout? ==> got < length && |hw.srLoads| > |old(hw.srLoads)|
    ensures status.Timeout? ==> !hw.rx.rxne
    ensures status.HwFault? ==> exists frame, seen :: FaultAt(data[got], old(hw.rx), got, hw.rx, frame, seen)
    ensures data != null ==>
      forall j | got + (if status.HwFault? then 1 else 0) <= j < data.Length :: data[j] == old(data[j])
    ensures status.Ok? || status.InvalidParam? || status.Timeout? || status.HwFault?
  {
    hide RxOnly, RxReach, RxOk, IsPoll, TxReach, Consecutive, Received, FaultAt;
    status, got := Ok, 0;
    ghost var first := Unread(hw.rx);
    if data == null && length > 0 {
      status := InvalidParam;
    }
    if data != null { NoneYet(data[..], hw.rx, first); }
    ghost var polls;
    var i := 0;
    while i < length && status.Ok?
      invariant hw.Valid() && 0 <= got <= i <= length && (status.Ok? ==> got == i)
      invariant status.InvalidParam? <==> data == null && length > 0
      invariant status.InvalidParam? || i == 0 ==> hw.tx == old(hw.tx) && hw.rx == old(hw.rx) && got == 0
      invariant hw.tx == old(hw.tx) || TxReach(old(hw.tx).(srRead := true), hw.tx)
      invariant data != null ==> Consecutive(data[..], got, hw.rx, first)
      invariant status.Ok? && i > 0 ==> Between(hw.rx, first + i)
      invariant old(hw.rx).arrived <= hw.rx.arrived && (status.Ok? && i > 0 ==> !old(hw.rx).ore)
      invariant |hw.srLoads| >= |old(hw.srLoads)|
      invariant status.HwFault? || status.Timeout? ==> got < length && |hw.srLoads| > |old(hw.srLoads)|
      invariant status.Timeout? ==> !hw.rx.rxne
      invariant status.HwFault? ==> exists frame, seen :: FaultAt(data[got], old(hw.rx), got, hw.rx, frame, seen)
      invariant data != null ==>
        forall j | got + (if status.HwFault? then 1 else 0) <= j < data.Length :: data[j] == old(data[j])
      invariant status.Ok? || status.InvalidParam? || status.Timeout? || status.HwFault?
    {
      ghost var a, s, tx0 := data[..], hw.rx, hw.tx;
      ghost var seen;
      status, polls, seen := ReceiveByte(hw, data, i, timeout);
      if tx0 != old(hw.tx) { TxReadsTrans(old(hw.tx), tx0, hw.tx); }
      ReceivedKeeps(s, hw.rx, status, data[i], seen);
      if status.Ok? {
        ReceivedNext(a, i, s, first, data[..], hw.rx, seen);
        got := got + 1;
      } else {
        ConsecutiveStays(a, i, s, first, data[..], hw.rx);
        if status.HwFault? { FaultAfter(old(hw.rx), i, s, hw.rx, data[i], seen); }
      }
      i := i + 1;
    }
  }

  lemma NoneYet(buf: seq<byte>, r: Rx, first: int)
    ensures Consecutive(buf, 0, r, first)
  {
  }

  lemma ReceivedKeeps(s: Rx, t: Rx, status: DriverStatus, b: byte, seen: nat)
    requires Received(s, t, status, b, seen)
    ensures s.arrived <= t.arrived && (status.Ok? ==> !s.ore && !t.rxne && !t.bad)
    ensures status.Timeout? ==> !t.rxne
  {
  }

  /* ---- several calls ---- */

  /** Two transmissions in a row, whatever becomes of the first: what each of them
      sent follows everything before it. */
  method TransmitTwice(hw: UartRegisters, a: array<byte>, b: array<byte>, timeout: u32)
    returns (first: DriverStatus, second: DriverStatus, ghost sentA: nat, ghost sentB: nat)
    requires hw.Valid()
    modifies hw`tx, hw`rx, hw`srLoads
    ensures hw.Valid() && sentA <= a.Length && sentB <= b.Length
    ensures Stream(hw.tx) == Stream(old(hw.tx)) + a[..sentA] + b[..sentB]
    ensures first.Ok? ==> sentA == a.Length
    ensures second.Ok? && b.Length > 0 ==> Idle(hw.tx) && hw.tx.wire == Stream(old(hw.tx)) + a[..sentA] + b[..]
  {
    hide RxOnly, UartRegisters.Valid;
    first, sentA := Transmit(hw, a, a.Length, timeout);
    second, sentB := Transmit(hw, b, b.Length, timeout);
    assert b[..b.Length] == b[..];
  }

  /** Two receptions that both report OK are one: the second buffer continues where
      the first stopped, with no frame lost in between. */
  method ReceiveTwice(hw: UartRegisters, a: array<byte>, b: array<byte>, timeout: u32)
    returns (first: DriverStatus, second: DriverStatus)
    requires hw.Valid() && a != b && b.Length > 0
    modifies hw`tx, hw`rx, hw`srLoads, a, b
    ensures hw.Valid()
    ensures first.Ok? && second.Ok? ==>
      Consecutive(a[..] + b[..], a.Length + b.Length, hw.rx, Unread(old(hw.rx)))
  {
    ghost var start, got := Unread(hw.rx), 0;
    first, got := Receive(hw, a, a.Length, timeout);
    ghost var mid := hw.rx;
    second, got := Receive(hw, b, b.Length, timeout);
    if first.Ok? && second.Ok? {
      Joined(a[..], mid, start, b[..], hw.rx);
    }
  }

  lemma Joined(a: seq<byte>, s: Rx, start: int, b: seq<byte>, t: Rx)
    requires b != [] && Consecutive(a, |a|, s, start) && Consecutive(b, |b|, t, Unread(s))
    requires s.arrived <= t.arrived && (a == [] ==> Unread(s) == start) && (a != [] ==> Unread(s) == start + |a|)
    ensures Consecutive(a + b, |a| + |b|, t, start)
  {
    ConsecutiveStays(a, |a|, s, start, a, t);
    forall k | 0 <= k < |a| + |b| ensures Delivered((a + b)[k], t, start + k) && Clean(t, start + k) {
      if k < |a| {
        assert Delivered(a[k], t, start + k);
      } else {
        assert Delivered(b[k - |a|], t, Unread(s) + (k - |a|)) && Clean(t, Unread(s) + (k - |a|));
      }
    }
  }

  /** Any of the transfer calls; the arrays may be null. */
  datatype UartCall =
    | SendByte(b: byte)
    | Send(data: array?<byte>, length: nat)
    | Drain
    | Take(buf: array?<byte>, length: nat)

  predicate Fits(c: UartCall) {
    && (c.Send? && c.data != null ==> c.length <= c.data.Length)
    && (c.Take? && c.buf != null ==> c.length <= c.buf.Length)
  }

  /** The array a call may write to. */
  ghost function Target(c: UartCall): set<object> {
    if c.Take? && c.buf != null then {c.buf} else {}
  }

  ghost function Targets(cs: seq<UartCall>): set<object> {
    if cs == [] then {} else Targets(cs[..|cs| - 1]) + Target(cs[|cs| - 1])
  }

  lemma {:induction false} TargetsAll(cs: seq<UartCall>, i: nat)
    requires i < |cs|
    ensures Target(cs[i]) <= Targets(cs)
    decreases |cs|
  {
    if i < |cs| - 1 {
      TargetsAll(cs[..|cs| - 1], i);
    }
  }

  /** The array a call reads from. */
  ghost function Origin(c: UartCall): set<object> {
    if c.Send? && c.data != null then {c.data} else {}
  }

  /** The bytes a call is given to send. */
  function Payload(c: UartCall): seq<byte>
    requires Fits(c)
    reads Origin(c)
  {
    match c
    case SendByte(b) => [b]
    case Send(data, length) => if data == null then [] else data[..length]
    case _ => []
  }

  /** `sent` is what a call with this payload and status puts behind the stream. */
  predicate Contributes(c: UartCall, payload: seq<byte>, status: DriverStatus, sent: seq<byte>) {
    && sent <= payload
    && (status.Ok? ==> sent == payload)
    && (c.SendByte? && !status.Ok? ==> sent == [])
  }

  /** What a call received is in its buffer. */
  ghost predicate InBuffer(c: UartCall, got: seq<byte>)
    requires Fits(c)
    reads Target(c)
  {
    c.Take? && c.buf != null ==> |got| <= c.length && got == c.buf[..|got|]
  }

  /** What a receive call from `s` to `t` received, and why it stopped: `got` are
      consecutive clean frames, all it was asked for if it returned OK; at a TIMEOUT
      nothing waits in DR, and at HW_FAULT the next byte had a fault to report. Any
      other call leaves the receiver to the line. */
  ghost predicate Took(c: UartCall, s: Rx, t: Rx, status: DriverStatus, got: seq<byte>) {
    && s.arrived <= t.arrived
    && (!c.Take? ==> got == [] && RxOnly(s, t))
    && (c.Take? ==>
          && (status.Ok? || status.InvalidParam? || status.Timeout? || status.HwFault?)
          && (status.InvalidParam? ==> c.buf == null && c.length > 0 && t == s)
          && |got| <= c.length && Consecutive(got, |got|, t, Unread(s))
          && (status.Ok? ==> |got| == c.length)
          && (status.Ok? ==> if got == [] then t == s else !s.ore && Between(t, Unread(s) + |got|))
          && (status.Timeout? ==> |got| < c.length && !t.rxne)
          && (status.HwFault? ==> |got| < c.length && exists b, frame, seen :: FaultAt(b, s, |got|, t, frame, seen)))
  }

  method MakeCall(hw: UartRegisters, c: UartCall, timeout: u32)
    returns (status: DriverStatus, ghost sent: seq<byte>, ghost received: seq<byte>)
    requires hw.Valid() && Fits(c)
    modifies hw`tx, hw`rx, hw`srLoads, Target(c)
    ensures hw.Valid() && Stream(hw.tx) == Stream(old(hw.tx)) + sent && Contributes(c, old(Payload(c)), status, sent)
    ensures Took(c, old(hw.rx), hw.rx, status, received) && InBuffer(c, received)
  {
    hide RxOnly, TxReach, Consecutive, RxOk, UartRegisters.Valid, FaultAt;
    ghost var polls, n, tx0, rx0 := [], 0, hw.tx, hw.rx;
    sent, received := [], [];
    assert Stream(tx0) + [] == Stream(tx0);
    match c {
      case SendByte(b) =>
        status, polls := TransmitByte(hw, b, timeout);
        if status.Ok? { sent := [b]; } else { TxReachStream(tx0.(srRead := true), hw.tx); }
      case Send(data, length) =>
        status, n := Transmit(hw, data, length, timeout);
        if data != null { sent := data[..n]; }
      case Drain =>
        status, polls := Flush(hw, timeout);
        TxReachStream(tx0.(srRead := true), hw.tx);
      case Take(buf, length) =>
        status, n := Receive(hw, buf, length, timeout);
        if hw.tx != tx0 { TxReachStream(tx0.(srRead := true), hw.tx); }
        NoneYet([], hw.rx, Unread(rx0));
        if buf != null {
          received := buf[..n];
          Shortened(buf[..], n, hw.rx, Unread(rx0));
        }
    }
    if !c.Take? { RxOnlyExtends(rx0, hw.rx); }
  }

  lemma Shortened(buf: seq<byte>, n: nat, r: Rx, first: int)
    requires Consecutive(buf, n, r, first)
    ensures Consecutive(buf[..n], n, r, first)
  {
    forall k | 0 <= k < n ensures Delivered(buf[..n][k], r, first + k) && Clean(r, first + k) {
      assert buf[..n][k] == buf[k];
    }
  }

  lemma RxOnlyExtends(s: Rx, t: Rx)
    requires RxOnly(s, t)
    ensures s.arrived <= t.arrived && Unread(t) == Unread(s) && (s.ore ==> t.ore)
  {
  }

  function Flat(parts: seq<seq<byte>>): seq<byte> {
    if parts == [] then [] else Flat(parts[..|parts| - 1]) + parts[|parts| - 1]
  }

  lemma FlatNone()
    ensures Flat([]) == []
  {
  }

  lemma FlatSnoc(parts: seq<seq<byte>>, p: seq<byte>)
    ensures Flat(parts + [p]) == Flat(parts) + p
  {
    assert (parts + [p])[..|parts|] == parts;
  }

  /** One call further: what was received stays a run of consecutive frames, and goes
      on if the call received. */
  lemma ReceivedSoFar(all: seq<byte>, s: Rx, first: int, c: UartCall, status: DriverStatus, more: seq<byte>, t: Rx)
    requires Consecutive(all, |all|, s, first) && (s.ore || Unread(s) == first + |all|)
    requires Took(c, s, t, status, more) && (c.Take? ==> status.Ok?)
    ensures Consecutive(all + more, |all + more|, t, first) && (t.ore || Unread(t) == first + |all + more|)
  {
    hide FaultAt;
    if more == [] {
      assert all + more == all;
      ConsecutiveStays(all, |all|, s, first, all, t);
      if !c.Take? { RxOnlyExtends(s, t); }
    } else {
      hide Consecutive;
      Joined(all, s, first, more, t);
    }
  }

  /** No call between number `i` and `n` is given the buffer of call `i` again. */
  ghost predicate Untouched(cs: seq<UartCall>, i: nat, n: nat)
    requires i < |cs| && n <= |cs|
  {
    forall j | i < j < n :: Target(cs[i]) !! Target(cs[j])
  }

  lemma StillUntouched(cs: seq<UartCall>, i: nat, n: nat)
    requires i < n < |cs| && Untouched(cs, i, n + 1)
    ensures Untouched(cs, i, n) && Target(cs[i]) !! Target(cs[n])
  {
  }

  /** Any mixed list of transfer calls, whatever each of them reports. What they sent
      follows everything that was on its way, in call order: each part is a prefix of
      its call's data, the whole of it if that call returned OK, and receiving in
      between neither adds nor loses a byte. Each receive call, OK or not, received
      consecutive clean frames and stopped for a reason; `marks` are the receiver's
      states between the calls. If every receive call returned OK, what they received
      is one run of such frames, sending in between notwithstanding, and what has been
      lost since is still flagged. What a call received is in its buffer unless a
      later call was given that buffer too. */
  method MakeCalls(hw: UartRegisters, cs: seq<UartCall>, timeout: u32)
    returns (statuses: seq<DriverStatus>, ghost parts: seq<seq<byte>>, ghost got: seq<seq<byte>>,
             ghost marks: seq<Rx>)
    requires hw.Valid() && forall i | 0 <= i < |cs| :: Fits(cs[i])
    requires forall i | 0 <= i < |cs| && cs[i].Send? && cs[i].data != null :: cs[i].data !in Targets(cs)
    modifies hw`tx, hw`rx, hw`srLoads, Targets(cs)
    ensures hw.Valid() && |statuses| == |parts| == |got| == |cs|
    ensures Stream(hw.tx) == Stream(old(hw.tx)) + Flat(parts)
    ensures forall i | 0 <= i < |cs| :: Contributes(cs[i], old(Payload(cs[i])), statuses[i], parts[i])
    ensures |marks| == |cs| + 1 && marks[0] == old(hw.rx) && marks[|cs|] == hw.rx
    ensures forall i | 0 <= i < |cs| :: Took(cs[i], marks[i], marks[i + 1], statuses[i], got[i])
    ensures (forall i | 0 <= i < |cs| && cs[i].Take? :: statuses[i].Ok?) ==>
      && Consecutive(Flat(got), |Flat(got)|, hw.rx, Unread(old(hw.rx)))
      && (hw.rx.ore || Unread(hw.rx) == Unread(old(hw.rx)) + |Flat(got)|)
    ensures forall i | 0 <= i < |cs| && Untouched(cs, i, |cs|) :: InBuffer(cs[i], got[i])
  {
    hide RxOnly, TxReach, Consecutive, UartRegisters.Valid, Targets, Stream, Contributes, Fits, InBuffer, Untouched,
         Flat, Took;
    ghost var first := Unread(hw.rx);
    statuses, parts, got, marks := [], [], [], [hw.rx];
    var clean := true;
    NoneYet([], hw.rx, first);
    FlatNone();
    for n := 0 to |cs|
      invariant hw.Valid() && |statuses| == |parts| == |got| == n
      invariant Stream(hw.tx) == Stream(old(hw.tx)) + Flat(parts)
      invariant forall i | 0 <= i < |cs| :: Payload(cs[i]) == old(Payload(cs[i]))
      invariant forall i | 0 <= i < n :: Contributes(cs[i], old(Payload(cs[i])), statuses[i], parts[i])
      invariant |marks| == n + 1 && marks[0] == old(hw.rx) && marks[n] == hw.rx
      invariant forall i | 0 <= i < n :: Took(cs[i], marks[i], marks[i + 1], statuses[i], got[i])
      invariant clean <==> forall i | 0 <= i < n && cs[i].Take? :: statuses[i].Ok?
      invariant clean ==>
        Consecutive(Flat(got), |Flat(got)|, hw.rx, first) && (hw.rx.ore || Unread(hw.rx) == first + |Flat(got)|)
      invariant forall i | 0 <= i < n && Untouched(cs, i, n) :: InBuffer(cs[i], got[i])
    {
      ghost var rx0, all, sent, more := hw.rx, Flat(got), [], [];
      TargetsAll(cs, n);
      var status;
      status, sent, more := MakeCall(hw, cs[n], timeout);
      FlatSnoc(parts, sent);
      FlatSnoc(got, more);
      forall i | 0 <= i < n && Untouched(cs, i, n + 1) ensures InBuffer(cs[i], got[i]) {
        StillUntouched(cs, i, n);
      }
      if clean && (cs[n].Take? ==> status.Ok?) {
        ReceivedSoFar(all, rx0, first, cs[n], status, more, hw.rx);
      } else {
        clean := false;
      }
      statuses, parts, got, marks := statuses + [status], parts + [sent], got + [more], marks + [hw.rx];
    }
  }

  /** A line without noise: each byte of the wire arrives as one good frame. */
  function Carried(wire: seq<byte>): (fs: seq<Frame>)
    ensures |fs| == |wire| && forall i | 0 <= i < |wire| :: fs[i] == Frame(wire[i], false)
  {
    seq(|wire|, i requires 0 <= i < |wire| => Frame(wire[i], false))
  }

  /** Round trip. What Transmit put on the wire behind `before`, an OK Receive that
      starts at the first frame after `before` delivers, byte for byte. */
  lemma RoundTrip(t: Tx, before: seq<byte>, data: seq<byte>, r: Rx, buf: seq<byte>)
    requires t.wire == before + data && r.arrived <= Carried(t.wire)
    requires Consecutive(buf, |buf|, r, |before|)
    ensures |buf| <= |data| && buf == data[..|buf|]
  {
    if buf != [] {
      assert Delivered(buf[|buf| - 1], r, |before| + (|buf| - 1));
    }
    forall k | 0 <= k < |buf| ensures buf[k] == data[k] {
      assert Delivered(buf[k], r, |before| + k);
    }
  }
}
