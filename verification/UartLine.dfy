/** A USART as software sees it: the data and shift registers on each side, the
    status flags with their read-sequence side effects, and the frames that come
    and go between two accesses (RM0390 section 25.6). */
module UartLine {
  type byte = n: nat | n < 256
  type bits9 = n: nat | n < 512

  datatype Option<T> = None | Some(value: T)

  /* ---- transmitter ---- */

  /** `wire` is every byte that has left the shift register. TXE is `dr.None?`.
      `srRead` records an SR read since the last DR write. */
  datatype Tx = Tx(dr: Option<byte>, shift: Option<byte>, wire: seq<byte>, tc: bool, srRead: bool)

  function Held(r: Option<byte>): seq<byte> {
    if r.None? then [] else [r.value]
  }

  /** Everything sent and everything still on its way, in order. */
  function Stream(t: Tx): seq<byte> {
    t.wire + Held(t.shift) + Held(t.dr)
  }

  predicate Idle(t: Tx) {
    t.dr.None? && t.shift.None?
  }

  datatype TxStep = Load | ShiftOut

  /** A byte moves from DR to the shift register, or leaves it; TC sets when the
      last one leaves with DR empty. */
  function TxEnv(t: Tx, a: TxStep): Tx {
    match a
    case Load =>
      if t.dr.Some? && t.shift.None? then t.(shift := t.dr, dr := None) else t
    case ShiftOut =>
      if t.shift.None? then t
      else t.(wire := t.wire + [t.shift.value], shift := None, tc := t.tc || t.dr.None?)
  }

  /** What any number of those steps can do. */
  ghost predicate TxReach(s: Tx, t: Tx) {
    && Stream(t) == Stream(s) && s.wire <= t.wire
    && t.srRead == s.srRead
    && (t.dr == s.dr || t.dr.None?)
    && (s.tc ==> t.tc)
    && (t.tc && !s.tc ==> Idle(t))
  }

  lemma TxStepReaches(s: Tx, t: Tx, a: TxStep)
    requires TxReach(s, t)
    ensures TxReach(s, TxEnv(t, a))
  {
    assert Stream(TxEnv(t, a)) == Stream(t);
  }

  /** SR reads in between change nothing but the record of them. */
  lemma TxReadsTrans(s: Tx, t: Tx, u: Tx)
    requires TxReach(s.(srRead := true), t) && TxReach(t.(srRead := true), u)
    ensures TxReach(s.(srRead := true), u)
  {
  }

  lemma TxReachTrans(s: Tx, t: Tx, u: Tx)
    requires TxReach(s, t) && TxReach(t, u)
    ensures TxReach(s, u)
  {
  }

  /** A DR write replaces whatever DR holds, and clears TC only after an SR read. */
  function TxWrite(t: Tx, b: byte): Tx {
    t.(dr := Some(b), tc := t.tc && !t.srRead, srRead := false)
  }

  /* ---- receiver ---- */

  /** A frame on the line; `bad` if it carries noise, framing or parity errors. */
  datatype Frame = Frame(word: bits9, bad: bool)

  /** `arrived` is every frame so far and `at` counts them up to the one last moved
      into DR. `sawOre` and `sawBad` record what the last SR read showed. */
  datatype Rx = Rx(word: bits9, rxne: bool, ore: bool, bad: bool, sawOre: bool, sawBad: bool,
                   arrived: seq<Frame>, at: nat)

  /** One frame arrives: into DR if that is free, otherwise it is lost and ORE sets. */
  function Arrive(r: Rx, f: Frame): Rx {
    if r.rxne then r.(ore := true, arrived := r.arrived + [f])
    else r.(word := f.word, rxne := true, bad := r.bad || f.bad, arrived := r.arrived + [f], at := |r.arrived| + 1)
  }

  function Arrivals(r: Rx, fs: seq<Frame>): Rx
    decreases |fs|
  {
    if fs == [] then r else Arrivals(Arrive(r, fs[0]), fs[1..])
  }

  /** The same in closed form: only the first of several frames can be kept. */
  function After(r: Rx, fs: seq<Frame>): Rx {
    if fs == [] then r
    else if r.rxne then r.(ore := true, arrived := r.arrived + fs)
    else r.(word := fs[0].word, rxne := true, bad := r.bad || fs[0].bad, ore := r.ore || |fs| > 1,
            arrived := r.arrived + fs, at := |r.arrived| + 1)
  }

  lemma {:induction false} ArrivalsIsAfter(r: Rx, fs: seq<Frame>)
    ensures Arrivals(r, fs) == After(r, fs)
    decreases |fs|
  {
    if fs != [] {
      ArrivalsIsAfter(Arrive(r, fs[0]), fs[1..]);
      assert r.arrived + [fs[0]] + fs[1..] == r.arrived + fs;
    }
  }

  ghost predicate RxReach(s: Rx, t: Rx) {
    s.arrived <= t.arrived && t == After(s, t.arrived[|s.arrived|..])
  }

  lemma AfterTwice(r: Rx, a: seq<Frame>, b: seq<Frame>)
    ensures After(After(r, a), b) == After(r, a + b)
  {
    assert r.arrived + (a + b) == r.arrived + a + b;
    if a == [] {
      assert a + b == b;
    } else if b == [] {
      assert a + b == a;
    }
  }

  lemma RxReachTrans(s: Rx, t: Rx, u: Rx)
    requires RxReach(s, t) && RxReach(t, u)
    ensures RxReach(s, u)
  {
    var a, b := t.arrived[|s.arrived|..], u.arrived[|t.arrived|..];
    AfterTwice(s, a, b);
    hide After;
    assert u.arrived[|s.arrived|..] == a + b;
  }

  /** Only the line and SR reads have touched the receiver. */
  ghost predicate RxOnly(s: Rx, t: Rx) {
    RxReach(s.(sawOre := t.sawOre, sawBad := t.sawBad), t)
  }

  lemma RxOnlyTrans(s: Rx, t: Rx, u: Rx)
    requires RxOnly(s, t) && RxOnly(t, u)
    ensures RxOnly(s, u)
  {
    var s', t' := s.(sawOre := u.sawOre, sawBad := u.sawBad), t.(sawOre := u.sawOre, sawBad := u.sawBad);
    assert RxReach(s', t');
    RxReachTrans(s', t', u);
  }

  /** DR holds a frame that arrived, its errors are flagged, and while ORE is clear
      it is the latest. */
  ghost predicate RxOk(r: Rx) {
    r.rxne ==>
      && 0 < r.at <= |r.arrived|
      && r.word == r.arrived[r.at - 1].word
      && (r.arrived[r.at - 1].bad ==> r.bad)
      && (!r.ore ==> r.at == |r.arrived|)
  }

  lemma RxReachKeepsOk(s: Rx, t: Rx)
    requires RxOk(s) && RxReach(s, t)
    ensures RxOk(t)
  {
  }

  lemma ArriveIsReach(t: Rx, f: Frame)
    ensures RxReach(t, Arrive(t, f))
  {
    assert Arrive(t, f).arrived[|t.arrived|..] == [f];
  }

  lemma ArriveReaches(s: Rx, t: Rx, f: Frame)
    requires RxReach(s, t) && RxOk(t)
    ensures RxReach(s, Arrive(t, f)) && RxOk(Arrive(t, f))
  {
    ArriveIsReach(t, f);
    RxReachKeepsOk(t, Arrive(t, f));
    hide RxReach, Arrive, RxOk;
    RxReachTrans(s, t, Arrive(t, f));
  }

  lemma DriftStarts(t: Tx, r: Rx)
    ensures TxReach(t, t) && RxReach(r, r)
  {
  }

  /** A DR read empties DR, and clears the flags the last SR read showed. */
  function RxRead(r: Rx): Rx {
    r.(rxne := false, ore := r.ore && !r.sawOre, bad := r.bad && !r.sawBad, sawOre := false, sawBad := false)
  }

  /** The frame the next DR read delivers, if none is lost. */
  function Unread(r: Rx): int {
    if r.rxne then r.at - 1 else |r.arrived|
  }

  function SrShown(r: Rx): Rx {
    r.(sawOre := r.ore, sawBad := r.bad)
  }

  lemma ShownIsOnlyLine(tx0: Tx, rx0: Rx, tx: Tx, rx: Rx)
    requires TxReach(tx0, tx) && RxReach(rx0, rx) && RxOk(rx)
    ensures TxReach(tx0.(srRead := true), tx.(srRead := true)) && RxOnly(rx0, SrShown(rx)) && RxOk(SrShown(rx))
  {
  }

  /* ---- the register block ---- */

  datatype Sr = Sr(txe: bool, tc: bool, rxne: bool, ore: bool, bad: bool)

  /** Bit `n` of a word. */
  predicate Bit(w: bv32, n: bv5) {
    (w >> n) & 1 == 1
  }

  /** The frames a CR1 value makes the USART send and expect: how many of the frame's
      bits are data, the oversampling, parity and its sense, and which way it works. */
  datatype Format = Format(dataBits: nat, oversampling: nat, parity: bool, odd: bool, sends: bool, receives: bool)

  /** CR1: RE bit 2, TE 3, PS 9, PCE 10, M 12, OVER8 15. With M the word has nine bits
      instead of eight, one of which parity takes. */
  function FrameOf(cr1: bv32): Format {
    Format((if Bit(cr1, 12) then 9 else 8) - (if Bit(cr1, 10) then 1 else 0),
           if Bit(cr1, 15) then 8 else 16, Bit(cr1, 10), Bit(cr1, 9), Bit(cr1, 3), Bit(cr1, 2))
  }

  /** CR2.STOP, bits 13:12: 0 is one stop bit, 2 is two; 1 and 3 are halves. */
  function StopBits(cr2: bv32): real {
    var stop := (cr2 >> 12) & 3;
    if stop == 0 then 1.0 else if stop == 1 then 0.5 else if stop == 2 then 2.0 else 1.5
  }

  datatype ConfigRegister = CR1 | CR2 | CR3 | BRR | GTPR

  /** A store to a configuration register, and the CR1 in force when it was made. */
  datatype ConfigStore = ConfigStore(reg: ConfigRegister, value: bv32, cr1: bv32)

  class UartRegisters {
    var tx: Tx
    var rx: Rx
    var cr1: bv32
    var cr2: bv32
    var cr3: bv32
    var brr: bv32
    var gtpr: bv32
    ghost var srLoads: seq<Sr>             // what each SR read returned
    ghost var stores: seq<ConfigStore>     // every configuration store

    ghost predicate Valid()
      reads this
    {
      RxOk(rx)
    }

    constructor (tx: Tx, rx: Rx, cr1: bv32, cr2: bv32, cr3: bv32, brr: bv32, gtpr: bv32)
      requires RxOk(rx)
      ensures Valid() && this.tx == tx && this.rx == rx && srLoads == [] && stores == []
      ensures this.cr1 == cr1 && this.cr2 == cr2 && this.cr3 == cr3 && this.brr == brr && this.gtpr == gtpr
    {
      this.tx, this.rx, this.cr1, this.cr2, this.cr3, this.brr, this.gtpr := tx, rx, cr1, cr2, cr3, brr, gtpr;
      srLoads, stores := [], [];
    }

    /** Bytes leave and frames arrive, any number of them. */
    method Drift()
      requires Valid()
      modifies this`tx, this`rx
      ensures Valid() && TxReach(old(tx), tx) && RxReach(old(rx), rx)
    {
      DriftStarts(tx, rx);
      hide TxReach, RxReach, RxOk, TxEnv, Arrive;
      var steps: nat := *;
      while steps > 0
        invariant Valid() && TxReach(old(tx), tx) && RxReach(old(rx), rx)
      {
        var a: TxStep, receives: bool, f: Frame := *, *, *;
        TxStepReaches(old(tx), tx, a);
        tx := TxEnv(tx, a);
        if receives {
          ArriveReaches(old(rx), rx, f);
          rx := Arrive(rx, f);
        }
        steps := steps - 1;
      }
    }

    method ReadSr() returns (sr: Sr)
      requires Valid()
      modifies this`tx, this`rx, this`srLoads
      ensures Valid() && TxReach(old(tx).(srRead := true), tx)
      ensures rx.sawOre == rx.ore && rx.sawBad == rx.bad && RxOnly(old(rx), rx)
      ensures sr == Sr(tx.dr.None?, tx.tc, rx.rxne, rx.ore, rx.bad) && srLoads == old(srLoads) + [sr]
    {
      Drift();
      ShownIsOnlyLine(old(tx), old(rx), tx, rx);
      hide RxReach, RxOnly, TxReach;
      tx, rx := tx.(srRead := true), SrShown(rx);
      sr := Sr(tx.dr.None?, tx.tc, rx.rxne, rx.ore, rx.bad);
      srLoads := srLoads + [sr];
    }

    method WriteDr(b: byte) returns (ghost hit: Tx)
      requires Valid()
      modifies this`tx, this`rx
      ensures Valid() && TxReach(old(tx), hit) && tx == TxWrite(hit, b) && RxReach(old(rx), rx)
    {
      Drift();
      hit := tx;
      tx := TxWrite(tx, b);
    }

    method ReadDr() returns (word: bits9, ghost hit: Rx)
      requires Valid()
      modifies this`tx, this`rx
      ensures Valid() && TxReach(old(tx), tx)
      ensures RxReach(old(rx), hit) && RxOk(hit) && word == hit.word && rx == RxRead(hit)
    {
      Drift();
      word, hit := rx.word, rx;
      rx := RxRead(rx);
    }

    method Store(reg: ConfigRegister, value: bv32)
      modifies this`cr1, this`cr2, this`cr3, this`brr, this`gtpr, this`stores
      ensures stores == old(stores) + [ConfigStore(reg, value, old(cr1))]
      ensures cr1 == if reg.CR1? then value else old(cr1)
      ensures cr2 == if reg.CR2? then value else old(cr2)
      ensures cr3 == if reg.CR3? then value else old(cr3)
      ensures brr == if reg.BRR? then value else old(brr)
      ensures gtpr == if reg.GTPR? then value else old(gtpr)
    {
      stores := stores + [ConfigStore(reg, value, cr1)];
      match reg
      case CR1 => cr1 := value;
      case CR2 => cr2 := value;
      case CR3 => cr3 := value;
      case BRR => brr := value;
      case GTPR => gtpr := value;
    }
  }
}
