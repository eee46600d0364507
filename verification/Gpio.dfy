/** drivers/src/gpio.c: port configuration as sixteen independent pin records. */
module Gpio {
  import opened Status
  import opened Bits

  const MODE_ANALOG: bv32 := 3
  const OTYPE_OD: bv32 := 1
  const OSPEED_HIGH: bv32 := 3
  const PUPD_DOWN: bv32 := 2
  const AF_MAX: bv32 := 15

  /** The configuration registers of one port. */
  datatype Words = Words(moder: bv32, otyper: bv32, ospeedr: bv32, pupdr: bv32, afrl: bv32, afrh: bv32)

  /** What those six words say about one pin. */
  datatype Pin = Pin(mode: bv32, otype: bv32, ospeed: bv32, pupd: bv32, af: bv32)

  function Af(w: Words, pin: bv32): bv32
    requires pin < 16
  {
    if pin < 8 then Lane4(w.afrl, pin) else Lane4(w.afrh, pin - 8)
  }

  function PinOf(w: Words, pin: bv32): Pin
    requires pin < 16
  {
    Pin(Lane2(w.moder, pin), Lane1(w.otyper, pin), Lane2(w.ospeedr, pin), Lane2(w.pupdr, pin), Af(w, pin))
  }

  /** The reset words gpioDeinitToReset() takes. */
  datatype ResetValues = ResetValues(moder: bv32, ospeedr: bv32, pupdr: bv32)

  datatype Port = GPIOA | GPIOB | GPIOC | GPIOD | GPIOE | GPIOF | GPIOG | GPIOH

  function PortResetValues(port: Port): ResetValues {
    match port
    case GPIOA => ResetValues(0xA800_0000, 0, 0x6400_0000)
    case GPIOB => ResetValues(0x0000_0280, 0x0000_00C0, 0x0000_0100)
    case _ => ResetValues(0, 0, 0)
  }

  datatype Register = MODER | OTYPER | OSPEEDR | PUPDR | AFRL | AFRH

  function Stored(w: Words, r: Register, v: bv32): Words {
    match r
    case MODER => w.(moder := v)
    case OTYPER => w.(otyper := v)
    case OSPEEDR => w.(ospeedr := v)
    case PUPDR => w.(pupdr := v)
    case AFRL => w.(afrl := v)
    case AFRH => w.(afrh := v)
  }

  class GpioRegisters {
    var w: Words
    ghost var stores: seq<Register>    // every register stored to, oldest first

    constructor (w: Words)
      ensures this.w == w && stores == []
    {
      this.w, stores := w, [];
    }

    method Store(r: Register, v: bv32)
      modifies this
      ensures w == Stored(old(w), r, v) && stores == old(stores) + [r]
    {
      w := Stored(w, r, v);
      stores := stores + [r];
    }
  }

  /* ---- what each call does to each pin ---- */

  datatype GpioCall =
    | Init(pin: bv32, mode: bv32, otype: bv32, ospeed: bv32, pupd: bv32)
    | SetAlternateFunction(pin: bv32, af: bv32)
    | DeinitToReset(pin: bv32, reset: ResetValues)

  /** The parameters the driver accepts. For DeinitToReset, which reports no status,
      the documented precondition. */
  predicate Accepts(c: GpioCall) {
    && c.pin < 16
    && (c.Init? ==> c.mode <= 3 && c.otype <= 1 && c.ospeed <= 3 && c.pupd <= 2)
    && (c.SetAlternateFunction? ==> c.af <= 15)
  }

  function ResetPin(reset: ResetValues, pin: bv32): Pin
    requires pin < 16
  {
    Pin(Lane2(reset.moder, pin), 0, Lane2(reset.ospeedr, pin), Lane2(reset.pupdr, pin), 0)
  }

  /** One pin record after one call: changed only by an accepted call on that pin. */
  function Updated(p: Pin, q: bv32, c: GpioCall): Pin
    requires q < 16
  {
    if !Accepts(c) || c.pin != q then p
    else
      match c
      case Init(_, mode, otype, ospeed, pupd) => p.(mode := mode, otype := otype, ospeed := ospeed, pupd := pupd)
      case SetAlternateFunction(_, af) => p.(af := af)
      case DeinitToReset(_, reset) => ResetPin(reset, q)
  }

  /* ---- the driver ---- */

  function ValidatePin(pin: bv32): (status: DriverStatus)
    ensures status == if pin < 16 then Ok else InvalidParam
  {
    if pin > 15 then InvalidParam else Ok
  }

  /** The words after a call, register by register as the driver stores them. */
  function InitWords(w: Words, pin: bv32, mode: bv32, otype: bv32, ospeed: bv32, pupd: bv32): Words
    requires pin < 16
  {
    w.(otyper := Put1(w.otyper, pin, otype), ospeedr := Put2(w.ospeedr, pin, ospeed),
       pupdr := Put2(w.pupdr, pin, pupd), moder := Put2(w.moder, pin, mode))
  }

  function AfWords(w: Words, pin: bv32, af: bv32): Words
    requires pin < 16
  {
    if pin < 8 then w.(afrl := Put4(w.afrl, pin, af)) else w.(afrh := Put4(w.afrh, pin - 8, af))
  }

  function DeinitWords(w: Words, pin: bv32, reset: ResetValues): Words
    requires pin < 16
  {
    AfWords(InitWords(w, pin, Lane2(reset.moder, pin), 0, Lane2(reset.ospeedr, pin), Lane2(reset.pupdr, pin)), pin, 0)
  }

  /** MODER is stored last: the pin takes on its mode with everything else in place. */
  method InitPin(port: GpioRegisters, pin: bv32, mode: bv32, otype: bv32, ospeed: bv32, pupd: bv32)
    returns (status: DriverStatus)
    modifies port
    ensures status == if Accepts(Init(pin, mode, otype, ospeed, pupd)) then Ok else InvalidParam
    ensures port.w == if status.Ok? then InitWords(old(port.w), pin, mode, otype, ospeed, pupd) else old(port.w)
    ensures port.stores == old(port.stores) + if status.Ok? then [OTYPER, OSPEEDR, PUPDR, MODER] else []
  {
    hide Put1, Put2;
    status := ValidatePin(pin);
    if status.Ok? {
      if mode > MODE_ANALOG || otype > OTYPE_OD || ospeed > OSPEED_HIGH || pupd > PUPD_DOWN {
        status := InvalidParam;
      }
    }
    if status.Ok? {
      port.Store(OTYPER, Put1(port.w.otyper, pin, otype));
      port.Store(OSPEEDR, Put2(port.w.ospeedr, pin, ospeed));
      port.Store(PUPDR, Put2(port.w.pupdr, pin, pupd));
      port.Store(MODER, Put2(port.w.moder, pin, mode));
    }
  }

  method SetPinAlternateFunction(port: GpioRegisters, pin: bv32, af: bv32) returns (status: DriverStatus)
    modifies port
    ensures status == if Accepts(SetAlternateFunction(pin, af)) then Ok else InvalidParam
    ensures port.w == if status.Ok? then AfWords(old(port.w), pin, af) else old(port.w)
    ensures port.stores == old(port.stores) + if status.Ok? then [if pin < 8 then AFRL else AFRH] else []
  {
    hide Put4, AfrLane;
    status := ValidatePin(pin);
    if status.Ok? {
      if af > AF_MAX {
        status := InvalidParam;
      }
    }
    if status.Ok? {
      AfShift(pin);
      if pin < 8 {
        port.Store(AFRL, Put4(port.w.afrl, AfrLane(pin), af));
      } else {
        port.Store(AFRH, Put4(port.w.afrh, AfrLane(pin), af));
      }
    }
  }

  /** The lane of a pin in its AFR word. */
  function AfrLane(pin: bv32): bv32 {
    pin & 0x7
  }

  lemma AfShift(pin: bv32)
    requires pin < 16
    ensures AfrLane(pin) == if pin < 8 then pin else pin - 8
  {
  }

  /** `(reg & ~field) | (reset & field)`, the restore the driver writes. */
  function Restored(w: bv32, reset: bv32, pin: bv32): bv32
    requires pin < 16
  {
    Merge(w, Shl(3, 2 * pin), Within(reset, Shl(3, 2 * pin)))
  }

  function Within(w: bv32, mask: bv32): bv32 {
    w & mask
  }

  lemma LaneInPlace(reset: bv32, pin: bv32)
    requires pin < 16
    ensures Within(reset, Shl(3, 2 * pin)) == Shl(Lane2(reset, pin), 2 * pin)
  {
  }

  lemma RestoredIsPut(w: bv32, reset: bv32, pin: bv32)
    requires pin < 16
    ensures Restored(w, reset, pin) == Put2(w, pin, Lane2(reset, pin))
  {
    hide Lane2, Merge, Shl, Within;
    LaneInPlace(reset, pin);
  }

  /** `reg &= ~(1 << pin)` and `reg &= ~(0xF << 4 * lane)`. */
  function Cleared1(w: bv32, k: bv32): bv32
    requires k < 32
  {
    AndNot(w, Shl(1, k))
  }

  function Cleared4(w: bv32, k: bv32): bv32
    requires k < 8
  {
    AndNot(w, Shl(0xF, 4 * k))
  }

  lemma ClearIsPut1(w: bv32, k: bv32)
    requires k < 32
    ensures Cleared1(w, k) == Put1(w, k, 0)
  {
    hide AndNot, Merge, Shl;
    ShlZero(k);
    MergeNothing(w, Shl(1, k));
  }

  lemma ClearIsPut4(w: bv32, k: bv32)
    requires k < 8
    ensures Cleared4(w, k) == Put4(w, k, 0)
  {
    hide AndNot, Merge, Shl;
    ShlZero(4 * k);
    MergeNothing(w, Shl(0xF, 4 * k));
  }

  /** The mode, type, speed and pull of a pin restored, MODER first. */
  method RestoreSettings(port: GpioRegisters, pin: bv32, reset: ResetValues)
    requires pin < 16
    modifies port
    ensures port.w == InitWords(old(port.w), pin, Lane2(reset.moder, pin), 0,
                                Lane2(reset.ospeedr, pin), Lane2(reset.pupdr, pin))
    ensures port.stores == old(port.stores) + [MODER, OTYPER, OSPEEDR, PUPDR]
  {
    hide Put1, Put2, Lane2, Restored, Cleared1;
    ghost var w := port.w;
    RestoredIsPut(w.moder, reset.moder, pin);
    RestoredIsPut(w.ospeedr, reset.ospeedr, pin);
    RestoredIsPut(w.pupdr, reset.pupdr, pin);
    ClearIsPut1(w.otyper, pin);
    port.Store(MODER, Restored(port.w.moder, reset.moder, pin));
    port.Store(OTYPER, Cleared1(port.w.otyper, pin));
    port.Store(OSPEEDR, Restored(port.w.ospeedr, reset.ospeedr, pin));
    port.Store(PUPDR, Restored(port.w.pupdr, reset.pupdr, pin));
  }

  method DeinitPinToReset(port: GpioRegisters, pin: bv32, reset: ResetValues)
    requires pin < 16
    modifies port
    ensures port.w == DeinitWords(old(port.w), pin, reset)
    ensures port.stores == old(port.stores) + [MODER, OTYPER, OSPEEDR, PUPDR, if pin < 8 then AFRL else AFRH]
  {
    hide Put4, Lane2, Cleared4, AfrLane, InitWords;
    RestoreSettings(port, pin, reset);
    AfShift(pin);
    ClearIsPut4(port.w.afrl, AfrLane(pin));
    ClearIsPut4(port.w.afrh, AfrLane(pin));
    if pin < 8 {
      port.Store(AFRL, Cleared4(port.w.afrl, AfrLane(pin)));
    } else {
      port.Store(AFRH, Cleared4(port.w.afrh, AfrLane(pin)));
    }
  }

  /* ---- refinement ---- */

  function After(w: Words, c: GpioCall): Words {
    if !Accepts(c) then w
    else
      match c
      case Init(pin, mode, otype, ospeed, pupd) => InitWords(w, pin, mode, otype, ospeed, pupd)
      case SetAlternateFunction(pin, af) => AfWords(w, pin, af)
      case DeinitToReset(pin, reset) => DeinitWords(w, pin, reset)
  }

  lemma InitRefines(w: Words, pin: bv32, mode: bv32, otype: bv32, ospeed: bv32, pupd: bv32, q: bv32)
    requires pin < 16 && q < 16 && mode < 4 && otype < 2 && ospeed < 4 && pupd < 4
    ensures PinOf(InitWords(w, pin, mode, otype, ospeed, pupd), q)
      == if q == pin then PinOf(w, q).(mode := mode, otype := otype, ospeed := ospeed, pupd := pupd) else PinOf(w, q)
  {
    hide Put1, Put2, Lane1, Lane2, Lane4;
    if q == pin {
      Put2Sets(w.moder, pin, mode);
      Put1Sets(w.otyper, pin, otype);
      Put2Sets(w.ospeedr, pin, ospeed);
      Put2Sets(w.pupdr, pin, pupd);
    } else {
      Put2Keeps(w.moder, pin, mode, q);
      Put1Keeps(w.otyper, pin, otype, q);
      Put2Keeps(w.ospeedr, pin, ospeed, q);
      Put2Keeps(w.pupdr, pin, pupd, q);
    }
  }

  lemma AfRefines(w: Words, pin: bv32, af: bv32, q: bv32)
    requires pin < 16 && q < 16 && af < 16
    ensures PinOf(AfWords(w, pin, af), q) == if q == pin then PinOf(w, q).(af := af) else PinOf(w, q)
  {
    hide Put4, Lane1, Lane2, Lane4;
    var k, word := if pin < 8 then pin else pin - 8, if pin < 8 then w.afrl else w.afrh;
    var j := if q < 8 then q else q - 8;
    if j == k {
      Put4Sets(word, k, af);
    } else {
      Put4Keeps(word, k, af, j);
    }
  }

  /** Each call, accepted or not, does to all sixteen pin records exactly what it
      says: the addressed one is updated and the others are untouched. */
  lemma CallRefines(w: Words, c: GpioCall, q: bv32)
    requires q < 16
    ensures PinOf(After(w, c), q) == Updated(PinOf(w, q), q, c)
  {
    if Accepts(c) {
      match c
      case Init(pin, mode, otype, ospeed, pupd) => InitRefines(w, pin, mode, otype, ospeed, pupd, q);
      case SetAlternateFunction(pin, af) => AfRefines(w, pin, af, q);
      case DeinitToReset(pin, r) =>
        Lane2Fits(r.moder, pin);
        Lane2Fits(r.ospeedr, pin);
        Lane2Fits(r.pupdr, pin);
        hide Lane1, Lane2, Lane4, Put1, Put2, Put4, InitWords, AfWords, PinOf;
        var mid := InitWords(w, pin, Lane2(r.moder, pin), 0, Lane2(r.ospeedr, pin), Lane2(r.pupdr, pin));
        InitRefines(w, pin, Lane2(r.moder, pin), 0, Lane2(r.ospeedr, pin), Lane2(r.pupdr, pin), q);
        AfRefines(mid, pin, 0, q);
    }
  }

  /** One pin record after a sequence of calls. */
  function History(p: Pin, q: bv32, cs: seq<GpioCall>): Pin
    requires q < 16
  {
    if cs == [] then p else Updated(History(p, q, cs[..|cs| - 1]), q, cs[|cs| - 1])
  }

  method MakeCall(port: GpioRegisters, c: GpioCall) returns (status: DriverStatus)
    requires c.DeinitToReset? ==> c.pin < 16
    modifies port
    ensures status == if Accepts(c) then Ok else InvalidParam
    ensures port.w == After(old(port.w), c)
  {
    hide InitWords, AfWords, DeinitWords;
    match c
    case Init(pin, mode, otype, ospeed, pupd) => status := InitPin(port, pin, mode, otype, ospeed, pupd);
    case SetAlternateFunction(pin, af) => status := SetPinAlternateFunction(port, pin, af);
    case DeinitToReset(pin, reset) =>
      DeinitPinToReset(port, pin, reset);
      status := Ok;
  }

  /** Any sequence of calls, in any order and with any parameters: each pin holds
      what the accepted calls on it left, independently of the other fifteen. */
  method MakeCalls(port: GpioRegisters, cs: seq<GpioCall>) returns (statuses: seq<DriverStatus>)
    requires forall i | 0 <= i < |cs| :: cs[i].DeinitToReset? ==> cs[i].pin < 16
    modifies port
    ensures |statuses| == |cs| && forall i | 0 <= i < |cs| :: statuses[i] == if Accepts(cs[i]) then Ok else InvalidParam
    ensures forall q: bv32 | q < 16 :: PinOf(port.w, q) == History(PinOf(old(port.w), q), q, cs)
  {
    hide PinOf, After, Updated, Accepts;
    statuses := [];
    for i := 0 to |cs|
      invariant |statuses| == i && forall j | 0 <= j < i :: statuses[j] == if Accepts(cs[j]) then Ok else InvalidParam
      invariant forall q: bv32 | q < 16 :: PinOf(port.w, q) == History(PinOf(old(port.w), q), q, cs[..i])
    {
      ghost var w := port.w;
      var status := MakeCall(port, cs[i]);
      statuses := statuses + [status];
      forall q: bv32 | q < 16 ensures PinOf(port.w, q) == History(PinOf(old(port.w), q), q, cs[..i + 1]) {
        CallRefines(w, cs[i], q);
        assert cs[..i + 1][..i] == cs[..i];
      }
    }
    assert cs[..|cs|] == cs;
  }

  /** The last accepted call on a pin that sets a field decides it. */
  lemma {:induction false} LastSettingWins(p: Pin, q: bv32, cs: seq<GpioCall>, last: nat)
    requires q < 16 && last < |cs| && Accepts(cs[last]) && cs[last].pin == q
    requires forall i | last < i < |cs| :: Accepts(cs[i]) && cs[i].pin == q ==> cs[i].SetAlternateFunction?
    ensures cs[last].Init? ==>
      var h := History(p, q, cs);
      h.mode == cs[last].mode && h.otype == cs[last].otype && h.ospeed == cs[last].ospeed && h.pupd == cs[last].pupd
    ensures cs[last].DeinitToReset? ==>
      var h := History(p, q, cs); h.(af := 0) == ResetPin(cs[last].reset, q)
    decreases |cs|
  {
    hide ResetPin, Accepts;
    if last < |cs| - 1 {
      LastSettingWins(p, q, cs[..|cs| - 1], last);
    }
    AfOfResetPin(cs[last], q);
  }

  lemma AfOfResetPin(c: GpioCall, q: bv32)
    requires q < 16
    ensures c.DeinitToReset? ==> ResetPin(c.reset, q).af == 0
  {
  }

  lemma {:induction false} LastAfWins(p: Pin, q: bv32, cs: seq<GpioCall>, last: nat)
    requires q < 16 && last < |cs| && Accepts(cs[last]) && cs[last].pin == q && !cs[last].Init?
    requires forall i | last < i < |cs| :: Accepts(cs[i]) && cs[i].pin == q ==> cs[i].Init?
    ensures History(p, q, cs).af == if cs[last].DeinitToReset? then 0 else cs[last].af
    decreases |cs|
  {
    hide ResetPin, Accepts;
    if last < |cs| - 1 {
      LastAfWins(p, q, cs[..|cs| - 1], last);
    }
    AfOfResetPin(cs[last], q);
  }

  /* ---- a whole port back to reset ---- */

  ghost predicate OnlyDeinits(cs: seq<GpioCall>, r: ResetValues) {
    forall i | 0 <= i < |cs| :: cs[i].DeinitToReset? && cs[i].reset == r && cs[i].pin < 16
  }

  ghost predicate Addresses(cs: seq<GpioCall>, q: bv32) {
    exists i :: 0 <= i < |cs| && cs[i].pin == q
  }

  lemma {:induction false} DeinitHistory(p: Pin, q: bv32, cs: seq<GpioCall>, r: ResetValues)
    requires q < 16 && OnlyDeinits(cs, r) && Addresses(cs, q)
    ensures History(p, q, cs) == ResetPin(r, q)
    decreases |cs|
  {
    hide ResetPin;
    var i :| 0 <= i < |cs| && cs[i].pin == q;
    var before := cs[..|cs| - 1];
    if cs[|cs| - 1].pin != q {
      assert before[i].pin == q;
      DeinitHistory(p, q, before, r);
    }
  }

  /** Deinitialising all sixteen pins, in any order and from any state, leaves the
      reset words. */
  lemma DeinitAllIsReset(w: Words, x: Words, cs: seq<GpioCall>, r: ResetValues)
    requires OnlyDeinits(cs, r)
    requires forall q: bv32 | q < 16 :: Addresses(cs, q)
    requires forall q: bv32 | q < 16 :: PinOf(x, q) == History(PinOf(w, q), q, cs)
    ensures x.moder == r.moder && x.ospeedr == r.ospeedr && x.pupdr == r.pupdr
    ensures x.afrl == x.afrh == 0 && x.otyper & 0xFFFF == 0
  {
    forall q: bv32 | q < 16 ensures PinOf(x, q) == ResetPin(r, q) {
      assert PinOf(x, q) == History(PinOf(w, q), q, cs);
      DeinitHistory(PinOf(w, q), q, cs, r);
    }
    PinsDecide(x, r);
  }

  lemma PinsDecide(x: Words, r: ResetValues)
    requires forall q: bv32 | q < 16 :: PinOf(x, q) == ResetPin(r, q)
    ensures x.moder == r.moder && x.ospeedr == r.ospeedr && x.pupdr == r.pupdr
    ensures x.afrl == x.afrh == 0 && x.otyper & 0xFFFF == 0
  {
    hide Lane1, Lane2, Lane4;
    forall q: bv32 | q < 16 ensures Lane2(x.moder, q) == Lane2(r.moder, q) && Lane2(x.ospeedr, q) == Lane2(r.ospeedr, q)
                                 && Lane2(x.pupdr, q) == Lane2(r.pupdr, q) && Lane1(x.otyper, q) == 0 && Af(x, q) == 0 {
      assert PinOf(x, q) == ResetPin(r, q);
    }
    Lanes2Decide(x.moder, r.moder);
    Lanes2Decide(x.ospeedr, r.ospeedr);
    Lanes2Decide(x.pupdr, r.pupdr);
    forall k: bv32 | k < 8 ensures Lane4(x.afrl, k) == 0 && Lane4(x.afrh, k) == 0 {
      assert Af(x, k) == 0;
      HighAf(x, k);
    }
    ZeroLanes4(x.afrl);
    ZeroLanes4(x.afrh);
    ZeroLowBits(x.otyper);
  }

  lemma HighAf(x: Words, k: bv32)
    requires k < 8 && forall q: bv32 | q < 16 :: Af(x, q) == 0
    ensures Lane4(x.afrh, k) == 0
  {
    hide Lane4;
    assert 8 <= k + 8 < 16 && k + 8 - 8 == k;
    assert Af(x, k + 8) == 0;
  }

  /** What the ports' reset words mean, pin by pin: the debug pins in alternate
      function with their pulls, everything else a floating slow input. */
  lemma ResetWordsDecode(port: Port, q: bv32)
    requires q < 16
    ensures var p := ResetPin(PortResetValues(port), q);
      && p.mode == (if (port.GPIOA? && q >= 13) || (port.GPIOB? && (q == 3 || q == 4)) then 2 else 0)
      && p.ospeed == (if port.GPIOB? && q == 3 then 3 else 0)
      && p.pupd == (if (port.GPIOA? && (q == 13 || q == 15)) || (port.GPIOB? && q == 4) then 1
                    else if port.GPIOA? && q == 14 then 2 else 0)
      && p.otype == 0 && p.af == 0
  {
  }

  /** gpioDeinit(): the reset values of the port itself. */
  method Deinit(port: GpioRegisters, identity: Port, pin: bv32)
    requires pin < 16
    modifies port
    ensures port.w == DeinitWords(old(port.w), pin, PortResetValues(identity))
  {
    hide DeinitWords;
    DeinitPinToReset(port, pin, PortResetValues(identity));
  }
}
