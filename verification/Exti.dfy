/** drivers/src/exti.c: external interrupt lines as independent records, against
    edges that arrive at any time (RM0390 sections 8.2 and 10.3). */
module Exti {
  import opened Status
  import opened Bits

  const LINE_MAX: bv32 := 22
  const LINE_UNUSED: bv32 := 19
  const GPIO_LINE_MAX: bv32 := 15

  const EDGE_RISING: nat := 1
  const EDGE_FALLING: nat := 2
  const EDGE_BOTH: nat := 3

  /* ---- the peripheral ---- */

  datatype Words = Words(imr: bv32, rtsr: bv32, ftsr: bv32, swier: bv32, pr: bv32)

  datatype Register = IMR | RTSR | FTSR | SWIER | PR

  function Value(w: Words, r: Register): bv32 {
    match r
    case IMR => w.imr
    case RTSR => w.rtsr
    case FTSR => w.ftsr
    case SWIER => w.swier
    case PR => w.pr
  }

  /** A store. SWIER pends what goes from 0 to 1 while unmasked; PR clears what is
      written 1, in SWIER as well. */
  function Stored(w: Words, r: Register, v: bv32): Words {
    match r
    case IMR => w.(imr := v)
    case RTSR => w.(rtsr := v)
    case FTSR => w.(ftsr := v)
    case SWIER => w.(swier := Or(w.swier, v), pr := Pended(w.pr, w.swier, w.imr, v))
    case PR => w.(pr := AndNot(w.pr, v), swier := AndNot(w.swier, v))
  }

  function Pended(pr: bv32, swier: bv32, imr: bv32, v: bv32): bv32 {
    pr | (v & !swier & imr)
  }

  /** An edge pends its line if it is selected, masked or not. */
  function Edge(w: Words, line: bv32, rising: bool): Words
    requires line < 32
  {
    if On(if rising then w.rtsr else w.ftsr, line) then w.(pr := With(w.pr, line)) else w
  }

  /** What any number of edges can do. */
  ghost predicate EdgesReach(w: Words, x: Words) {
    && x == w.(pr := x.pr)
    && forall q: bv32 | q < 32 ::
         && (On(w.pr, q) ==> On(x.pr, q))
         && (On(x.pr, q) ==> On(w.pr, q) || On(w.rtsr, q) || On(w.ftsr, q))
  }

  lemma EdgeReaches(w: Words, x: Words, line: bv32, rising: bool)
    requires line < 32 && EdgesReach(w, x)
    ensures EdgesReach(w, Edge(x, line, rising))
  {
    hide On, With;
    forall q: bv32 | q < 32 {
      WithAdds(x.pr, line, q);
    }
  }

  class ExtiRegisters {
    var w: Words

    constructor (w: Words)
      ensures this.w == w
    {
      this.w := w;
    }

    method Drift()
      modifies this
      ensures EdgesReach(old(w), w)
    {
      hide On, With;
      var steps: nat := *;
      while steps > 0
        invariant EdgesReach(old(w), w)
      {
        var line: bv32, rising: bool := *, *;
        if line < 32 {
          EdgeReaches(old(w), w, line, rising);
          w := Edge(w, line, rising);
        }
        steps := steps - 1;
      }
    }

    method Load(r: Register) returns (v: bv32)
      modifies this
      ensures EdgesReach(old(w), w) && v == Value(w, r)
    {
      Drift();
      v := Value(w, r);
    }

    method Store(r: Register, v: bv32) returns (ghost hit: Words)
      modifies this
      ensures EdgesReach(old(w), hit) && w == Stored(hit, r, v)
    {
      Drift();
      hit := w;
      w := Stored(w, r, v);
    }
  }

  /* ---- one line ---- */

  datatype Line = Line(unmasked: bool, rising: bool, falling: bool, software: bool, pending: bool)

  function LineOf(w: Words, q: bv32): Line
    requires q < 32
  {
    Line(On(w.imr, q), On(w.rtsr, q), On(w.ftsr, q), On(w.swier, q), On(w.pr, q))
  }

  /** Line `q` is bit `q` of every register. */
  lemma LineIsBits(w: Words, q: bv32)
    requires q < 32
    ensures LineOf(w, q) ==
      Line(BitAt(w.imr, q), BitAt(w.rtsr, q), BitAt(w.ftsr, q), BitAt(w.swier, q), BitAt(w.pr, q))
  {
    hide On, BitAt;
    OnIsBit(w.imr, q);
    OnIsBit(w.rtsr, q);
    OnIsBit(w.ftsr, q);
    OnIsBit(w.swier, q);
    OnIsBit(w.pr, q);
  }

  /** `edge` is 1 for rising, 2 for falling, 3 for both. */
  datatype ExtiCall =
    | Configure(line: bv32, edge: nat)
    | EnableInterrupt(line: bv32)
    | DisableInterrupt(line: bv32)
    | TriggerSoftware(line: bv32)
    | ClearPending(line: bv32)

  predicate ValidLine(line: bv32) {
    line <= 22 && line != 19
  }

  predicate Accepts(c: ExtiCall) {
    ValidLine(c.line) && (c.Configure? ==> 1 <= c.edge <= 3)
  }

  predicate Mine(c: ExtiCall, q: bv32) {
    Accepts(c) && c.line == q
  }

  /** What an accepted software trigger needs in order to pend. */
  predicate Fires(l: Line, q: bv32, c: ExtiCall) {
    Mine(c, q) && c.TriggerSoftware? && l.unmasked && !l.software
  }

  /** One line across one call and the edges around it. Settings change only by a
      call on that line; pending is lost only to ClearPending, and gained only by
      a trigger that fires or by a selected edge. */
  predicate LineStep(l: Line, m: Line, q: bv32, c: ExtiCall) {
    && m.unmasked == (if Mine(c, q) && c.EnableInterrupt? then true
                      else if Mine(c, q) && c.DisableInterrupt? then false else l.unmasked)
    && m.rising == (if Mine(c, q) && c.Configure? then c.edge in {1, 3} else l.rising)
    && m.falling == (if Mine(c, q) && c.Configure? then c.edge in {2, 3} else l.falling)
    && m.software == (if Mine(c, q) && c.TriggerSoftware? then true
                      else if Mine(c, q) && c.ClearPending? then false else l.software)
    && (Mine(c, q) && c.ClearPending? ==> !m.pending)
    && (l.pending && !(Mine(c, q) && c.ClearPending?) ==> m.pending)
    && (Fires(l, q, c) ==> m.pending)
    && (m.pending && !l.pending ==> Fires(l, q, c) || l.rising || l.falling || m.rising || m.falling)
  }

  /** The same for all lines, reserved bits included. */
  ghost predicate Refines(w: Words, x: Words, c: ExtiCall) {
    forall q: bv32 | q < 32 :: LineStep(LineOf(w, q), LineOf(x, q), q, c)
  }

  /* ---- what each store does to each line ---- */

  lemma MaskStore(w: Words, k: bv32, on: bool, q: bv32)
    requires k < 32 && q < 32
    ensures LineOf(Stored(w, IMR, if on then With(w.imr, k) else Without(w.imr, k)), q)
      == if q == k then LineOf(w, q).(unmasked := on) else LineOf(w, q)
  {
    hide On, With, Without;
    WithAdds(w.imr, k, q);
    WithoutRemoves(w.imr, k, q);
  }

  lemma RisingStore(w: Words, k: bv32, on: bool, q: bv32)
    requires k < 32 && q < 32
    ensures LineOf(Stored(w, RTSR, if on then With(w.rtsr, k) else Without(w.rtsr, k)), q)
      == if q == k then LineOf(w, q).(rising := on) else LineOf(w, q)
  {
    hide On, With, Without;
    WithAdds(w.rtsr, k, q);
    WithoutRemoves(w.rtsr, k, q);
  }

  lemma FallingStore(w: Words, k: bv32, on: bool, q: bv32)
    requires k < 32 && q < 32
    ensures LineOf(Stored(w, FTSR, if on then With(w.ftsr, k) else Without(w.ftsr, k)), q)
      == if q == k then LineOf(w, q).(falling := on) else LineOf(w, q)
  {
    hide On, With, Without;
    WithAdds(w.ftsr, k, q);
    WithoutRemoves(w.ftsr, k, q);
  }

  function Both(x: bv32, y: bv32): bv32 {
    x & y
  }

  function Inverse(x: bv32): bv32 {
    !x
  }

  lemma BothOn(x: bv32, y: bv32, q: bv32)
    requires q < 32
    ensures On(Both(x, y), q) <==> On(x, q) && On(y, q)
  {
    AndOn(x, y, q);
    hide On;
  }

  lemma AndOn(x: bv32, y: bv32, q: bv32)
    requires q < 32
    ensures On(x & y, q) <==> On(x, q) && On(y, q)
  {
  }

  lemma InverseOn(x: bv32, q: bv32)
    requires q < 32
    ensures On(Inverse(x), q) <==> !On(x, q)
  {
    NotOn(x, q);
    hide On;
  }

  lemma NotOn(x: bv32, q: bv32)
    requires q < 32
    ensures On(!x, q) <==> !On(x, q)
  {
  }

  lemma PendedIs(pr: bv32, swier: bv32, imr: bv32, v: bv32)
    ensures Pended(pr, swier, imr, v) == Inverse(Both(Inverse(pr), Inverse(Both(Both(v, Inverse(swier)), imr))))
  {
  }

  /** What a SWIER store pends, line by line. */
  lemma PendedOn(pr: bv32, swier: bv32, imr: bv32, v: bv32, q: bv32)
    requires q < 32
    ensures On(Pended(pr, swier, imr, v), q) <==> On(pr, q) || (On(v, q) && !On(swier, q) && On(imr, q))
  {
    hide On, Pended, Both, Inverse;
    PendedIs(pr, swier, imr, v);
    var risen := Both(v, Inverse(swier));
    var pends := Both(risen, imr);
    InverseOn(swier, q);
    BothOn(v, Inverse(swier), q);
    BothOn(risen, imr, q);
    InverseOn(pends, q);
    InverseOn(pr, q);
    BothOn(Inverse(pr), Inverse(pends), q);
    InverseOn(Both(Inverse(pr), Inverse(pends)), q);
  }

  lemma TriggerPends(pr: bv32, swier: bv32, imr: bv32, k: bv32, q: bv32)
    requires k < 32 && q < 32
    ensures On(Pended(pr, swier, imr, With(swier, k)), q) <==> On(pr, q) || (q == k && !On(swier, q) && On(imr, q))
  {
    hide On, Pended, With;
    PendedOn(pr, swier, imr, With(swier, k), q);
    WithAdds(swier, k, q);
  }

  lemma JoinOther(swier: bv32, k: bv32, q: bv32)
    requires k < 32 && q < 32 && q != k
    ensures Or(swier, With(swier, k)) & OneBit(q) == swier & OneBit(q)
  {
  }

  lemma JoinSelf(swier: bv32, k: bv32)
    requires k < 32
    ensures On(Or(swier, With(swier, k)), k)
  {
  }

  lemma TriggerSets(swier: bv32, k: bv32, q: bv32)
    requires k < 32 && q < 32
    ensures On(Or(swier, With(swier, k)), q) <==> q == k || On(swier, q)
  {
    hide Or, With, OneBit;
    if q == k {
      JoinSelf(swier, k);
    } else {
      JoinOther(swier, k, q);
    }
  }

  /** Writing SWIER back with one bit added disturbs no other line, even those
      whose bit is still set. */
  lemma TriggerStore(w: Words, k: bv32, q: bv32)
    requires k < 32 && q < 32
    ensures var l := LineOf(w, q);
      LineOf(Stored(w, SWIER, With(w.swier, k)), q)
        == if q == k then l.(software := true, pending := l.pending || (l.unmasked && !l.software)) else l
  {
    hide On, With, Or, Pended;
    TriggerPends(w.pr, w.swier, w.imr, k, q);
    TriggerSets(w.swier, k, q);
  }

  /** The store of one bit clears that line alone. */
  lemma ClearStore(w: Words, k: bv32, q: bv32)
    requires k < 32 && q < 32
    ensures LineOf(Stored(w, PR, OneBit(k)), q)
      == if q == k then LineOf(w, q).(software := false, pending := false) else LineOf(w, q)
  {
    hide On, OneBit, AndNot;
    AndNotRemoves(w.pr, k, q);
    AndNotRemoves(w.swier, k, q);
  }

  /** A SWIER store whose value was loaded before. */
  lemma StaleStorePends(w: Words, loaded: bv32, k: bv32, q: bv32)
    requires k < 32 && q < 32 && q != k
    ensures LineOf(Stored(w, SWIER, With(loaded, k)), q).pending
      <==> LineOf(w, q).pending || (On(loaded, q) && !On(w.swier, q) && On(w.imr, q))
  {
    hide On, With, Pended, Or;
    PendedOn(w.pr, w.swier, w.imr, With(loaded, k), q);
    WithAdds(loaded, k, q);
  }

  /** extiClearPending() between the load and the store of another context's
      extiTriggerSoftware(), on another line: from `w`, where SWIER is loaded, over `m`,
      where PR is stored, to `y`, where SWIER is stored, with edges in between. The
      cleared line is pending again exactly if a new edge came or it was unmasked with
      its SWIER bit set: the stale bit goes from 0 to 1. */
  lemma ClearIsUndoneIff(w: Words, m: Words, y: Words, k: bv32, q: bv32)
    requires ValidLine(k) && ValidLine(q) && k != q
    requires EdgesReach(w, m) && EdgesReach(Stored(m, PR, OneBit(q)), y)
    ensures LineOf(Stored(y, SWIER, With(w.swier, k)), q).pending
      <==> LineOf(y, q).pending || (LineOf(w, q).software && LineOf(w, q).unmasked)
  {
    ClearStore(m, q, q);
    hide EdgesReach, On, OneBit, With, Pended, AndNot;
    var x := Stored(m, PR, OneBit(q));
    KeepSettings(w, m);
    KeepSettings(x, y);
    StaleStorePends(y, w.swier, k, q);
  }

  lemma KeepSettings(w: Words, x: Words)
    requires EdgesReach(w, x)
    ensures x == w.(pr := x.pr)
  {
  }

  /** One after the other, in either order, the trigger leaves a cleared line alone. */
  lemma ClearStaysInSequence(w: Words, k: bv32, q: bv32)
    requires ValidLine(k) && ValidLine(q) && k != q
    ensures var cleared := Stored(w, PR, OneBit(q));
      !LineOf(Stored(cleared, SWIER, With(cleared.swier, k)), q).pending
    ensures !LineOf(Stored(Stored(w, SWIER, With(w.swier, k)), PR, OneBit(q)), q).pending
  {
    hide Stored, LineOf, OneBit, With;
    var cleared := Stored(w, PR, OneBit(q));
    ClearStore(w, q, q);
    TriggerStore(cleared, k, q);
    ClearStore(Stored(w, SWIER, With(w.swier, k)), q, q);
  }

  /** Edges, seen from one line. */
  predicate EdgeLine(l: Line, m: Line) {
    && m == l.(pending := m.pending)
    && (l.pending ==> m.pending)
    && (m.pending && !l.pending ==> l.rising || l.falling)
  }

  lemma EdgesOnLine(w: Words, x: Words, q: bv32)
    requires EdgesReach(w, x) && q < 32
    ensures EdgeLine(LineOf(w, q), LineOf(x, q))
  {
  }

  lemma EdgesTrans(w: Words, x: Words, y: Words)
    requires EdgesReach(w, x) && EdgesReach(x, y)
    ensures EdgesReach(w, y)
  {
    hide On;
  }

  /* ---- the driver ---- */

  function ValidateLine(line: bv32): (status: DriverStatus)
    ensures status == if ValidLine(line) then Ok else InvalidParam
  {
    if line > LINE_MAX || line == LINE_UNUSED then InvalidParam else Ok
  }

  method EnableInterruptLine(hw: ExtiRegisters, line: bv32) returns (status: DriverStatus)
    modifies hw
    ensures status == if Accepts(EnableInterrupt(line)) then Ok else InvalidParam
    ensures Refines(old(hw.w), hw.w, EnableInterrupt(line))
  {
    hide On, With, Stored, EdgesReach;
    status := ValidateLine(line);
    EdgesRefl(hw.w);
    ghost var hit := hw.w;
    if status.Ok? {
      var imr := hw.Load(IMR);
      ghost var mid := hw.w;
      hit := hw.Store(IMR, With(imr, line));
      EdgesTrans(old(hw.w), mid, hit);
      SettingsStay(mid, hit);
    }
    forall q: bv32 | q < 32 ensures LineStep(LineOf(old(hw.w), q), LineOf(hw.w, q), q, EnableInterrupt(line)) {
      EdgesOnLine(old(hw.w), hit, q);
      if status.Ok? { MaskStore(hit, line, true, q); }
    }
  }

  method DisableInterruptLine(hw: ExtiRegisters, line: bv32) returns (status: DriverStatus)
    modifies hw
    ensures status == if Accepts(DisableInterrupt(line)) then Ok else InvalidParam
    ensures Refines(old(hw.w), hw.w, DisableInterrupt(line))
  {
    hide On, Without, Stored, EdgesReach;
    status := ValidateLine(line);
    EdgesRefl(hw.w);
    ghost var hit := hw.w;
    if status.Ok? {
      var imr := hw.Load(IMR);
      ghost var mid := hw.w;
      hit := hw.Store(IMR, Without(imr, line));
      EdgesTrans(old(hw.w), mid, hit);
      SettingsStay(mid, hit);
    }
    forall q: bv32 | q < 32 ensures LineStep(LineOf(old(hw.w), q), LineOf(hw.w, q), q, DisableInterrupt(line)) {
      EdgesOnLine(old(hw.w), hit, q);
      if status.Ok? { MaskStore(hit, line, false, q); }
    }
  }

  method TriggerSoftwareLine(hw: ExtiRegisters, line: bv32) returns (status: DriverStatus)
    modifies hw
    ensures status == if Accepts(TriggerSoftware(line)) then Ok else InvalidParam
    ensures Refines(old(hw.w), hw.w, TriggerSoftware(line))
  {
    hide On, With, Stored, EdgesReach;
    status := ValidateLine(line);
    EdgesRefl(hw.w);
    ghost var hit := hw.w;
    if status.Ok? {
      var swier := hw.Load(SWIER);
      ghost var mid := hw.w;
      hit := hw.Store(SWIER, With(swier, line));
      EdgesTrans(old(hw.w), mid, hit);
      SettingsStay(mid, hit);
    }
    forall q: bv32 | q < 32 ensures LineStep(LineOf(old(hw.w), q), LineOf(hw.w, q), q, TriggerSoftware(line)) {
      EdgesOnLine(old(hw.w), hit, q);
      if status.Ok? { TriggerStore(hit, line, q); }
    }
  }

  method ClearPendingLine(hw: ExtiRegisters, line: bv32) returns (status: DriverStatus)
    modifies hw
    ensures status == if Accepts(ClearPending(line)) then Ok else InvalidParam
    ensures Refines(old(hw.w), hw.w, ClearPending(line))
  {
    hide On, OneBit, Stored, EdgesReach;
    status := ValidateLine(line);
    EdgesRefl(hw.w);
    ghost var hit := hw.w;
    if status.Ok? {
      hit := hw.Store(PR, OneBit(line));
    }
    forall q: bv32 | q < 32 ensures LineStep(LineOf(old(hw.w), q), LineOf(hw.w, q), q, ClearPending(line)) {
      EdgesOnLine(old(hw.w), hit, q);
      if status.Ok? { ClearStore(hit, line, q); }
    }
  }

  lemma EdgesRefl(w: Words)
    ensures EdgesReach(w, w)
  {
  }

  lemma SettingsStay(w: Words, x: Words)
    requires EdgesReach(w, x)
    ensures x.imr == w.imr && x.rtsr == w.rtsr && x.ftsr == w.ftsr && x.swier == w.swier
  {
  }

  /** `reg |= bit` or `reg &= ~bit` on RTSR or FTSR. */
  method SelectEdge(hw: ExtiRegisters, r: Register, line: bv32, on: bool) returns (ghost hit: Words)
    requires line < 32 && (r.RTSR? || r.FTSR?)
    modifies hw
    ensures EdgesReach(old(hw.w), hit)
    ensures hw.w == Stored(hit, r, if on then With(Value(hit, r), line) else Without(Value(hit, r), line))
  {
    hide On, With, Without, Stored, EdgesReach;
    var v := hw.Load(r);
    ghost var mid := hw.w;
    if on {
      hit := hw.Store(r, With(v, line));
    } else {
      hit := hw.Store(r, Without(v, line));
    }
    EdgesTrans(old(hw.w), mid, hit);
    SettingsStay(mid, hit);
  }

  /** The same on one line: edges, one selection, edges, the other selection. */
  lemma ConfiguredLine(l: Line, l1: Line, l2: Line, l3: Line, m: Line, q: bv32, c: ExtiCall)
    requires c.Configure? && Accepts(c)
    requires EdgeLine(l, l1) && l2 == (if q == c.line then l1.(rising := c.edge != EDGE_FALLING) else l1)
    requires EdgeLine(l2, l3) && m == (if q == c.line then l3.(falling := c.edge != EDGE_RISING) else l3)
    ensures LineStep(l, m, q, c)
  {
  }

  lemma Configured(w: Words, hit: Words, half: Words, hit2: Words, x: Words, line: bv32, edge: nat, q: bv32)
    requires q < 32 && Accepts(Configure(line, edge))
    requires EdgesReach(w, hit) && EdgesReach(half, hit2)
    requires half == Stored(hit, RTSR, if edge != EDGE_FALLING then With(hit.rtsr, line) else Without(hit.rtsr, line))
    requires x == Stored(hit2, FTSR, if edge != EDGE_RISING then With(hit2.ftsr, line) else Without(hit2.ftsr, line))
    ensures LineStep(LineOf(w, q), LineOf(x, q), q, Configure(line, edge))
  {
    hide On, With, Without, Stored, EdgesReach, LineOf, LineStep, EdgeLine;
    EdgesOnLine(w, hit, q);
    RisingStore(hit, line, edge != EDGE_FALLING, q);
    EdgesOnLine(half, hit2, q);
    FallingStore(hit2, line, edge != EDGE_RISING, q);
    ConfiguredLine(LineOf(w, q), LineOf(hit, q), LineOf(half, q), LineOf(hit2, q), LineOf(x, q), q,
                   Configure(line, edge));
  }

  /** RTSR first, then FTSR; edges may come between the two stores. */
  method ConfigureLine(hw: ExtiRegisters, line: bv32, edge: nat) returns (status: DriverStatus)
    modifies hw
    ensures status == if Accepts(Configure(line, edge)) then Ok else InvalidParam
    ensures Refines(old(hw.w), hw.w, Configure(line, edge))
  {
    hide On, With, Without, Stored, EdgesReach, LineStep;
    status := ValidateLine(line);
    if status.Ok? && edge != EDGE_RISING && edge != EDGE_FALLING && edge != EDGE_BOTH {
      status := InvalidParam;
    }
    if status.Ok? {
      ghost var hit := SelectEdge(hw, RTSR, line, edge != EDGE_FALLING);
      ghost var half := hw.w;
      ghost var hit2 := SelectEdge(hw, FTSR, line, edge != EDGE_RISING);
      forall q: bv32 | q < 32 ensures LineStep(LineOf(old(hw.w), q), LineOf(hw.w, q), q, Configure(line, edge)) {
        Configured(old(hw.w), hit, half, hit2, hw.w, line, edge, q);
      }
    } else {
      Rejected(hw.w, Configure(line, edge));
    }
  }

  lemma Rejected(w: Words, c: ExtiCall)
    requires !Accepts(c)
    ensures Refines(w, w, c)
  {
    hide On;
  }

  /* ---- runs ---- */

  method MakeCall(hw: ExtiRegisters, c: ExtiCall) returns (status: DriverStatus)
    modifies hw
    ensures status == if Accepts(c) then Ok else InvalidParam
    ensures Refines(old(hw.w), hw.w, c)
  {
    hide Refines;
    match c
    case Configure(line, edge) => status := ConfigureLine(hw, line, edge);
    case EnableInterrupt(line) => status := EnableInterruptLine(hw, line);
    case DisableInterrupt(line) => status := DisableInterruptLine(hw, line);
    case TriggerSoftware(line) => status := TriggerSoftwareLine(hw, line);
    case ClearPending(line) => status := ClearPendingLine(hw, line);
  }

  /** `trace[i]` is the register file before call `i`. */
  ghost predicate IsRun(trace: seq<Words>, cs: seq<ExtiCall>) {
    |trace| == |cs| + 1 && forall i | 0 <= i < |cs| :: Refines(trace[i], trace[i + 1], cs[i])
  }

  method MakeCalls(hw: ExtiRegisters, cs: seq<ExtiCall>) returns (ghost trace: seq<Words>)
    modifies hw
    ensures IsRun(trace, cs) && trace[0] == old(hw.w) && trace[|cs|] == hw.w
  {
    hide Refines;
    trace := [hw.w];
    for i := 0 to |cs|
      invariant |trace| == i + 1 && trace[0] == old(hw.w) && trace[i] == hw.w
      invariant forall j | 0 <= j < i :: Refines(trace[j], trace[j + 1], cs[j])
    {
      var status := MakeCall(hw, cs[i]);
      trace := trace + [hw.w];
    }
  }

  /** A pending interrupt survives any calls and edges except ClearPending on its
      own line. */
  lemma {:induction false} PendingIsNotLost(trace: seq<Words>, cs: seq<ExtiCall>, q: bv32, i: nat, j: nat)
    requires IsRun(trace, cs) && q < 32 && i <= j < |trace|
    requires LineOf(trace[i], q).pending
    requires forall k | i <= k < j :: !(Mine(cs[k], q) && cs[k].ClearPending?)
    ensures LineOf(trace[j], q).pending
    decreases j - i
  {
    hide On;
    if i < j {
      assert Refines(trace[i], trace[i + 1], cs[i]);
      PendingIsNotLost(trace, cs, q, i + 1, j);
    }
  }

  /** A line nobody addresses keeps its settings and, with no edge selected, never
      becomes pending. */
  lemma {:induction false} OthersAreUntouched(trace: seq<Words>, cs: seq<ExtiCall>, q: bv32, n: nat)
    requires IsRun(trace, cs) && q < 32 && n <= |cs|
    requires forall k | 0 <= k < n :: !Mine(cs[k], q)
    ensures var l, m := LineOf(trace[0], q), LineOf(trace[n], q);
      m == l.(pending := m.pending) && (!l.rising && !l.falling ==> m == l)
    decreases n
  {
    hide On;
    if n > 0 {
      assert Refines(trace[n - 1], trace[n], cs[n - 1]);
      OthersAreUntouched(trace, cs, q, n - 1);
    }
  }

  /** When a software trigger pends: exactly if the line is unmasked and its SWIER
      bit clear. */
  lemma TriggerPendsIff(w: Words, x: Words, line: bv32)
    requires ValidLine(line) && Refines(w, x, TriggerSoftware(line))
    requires var l := LineOf(w, line); !l.pending && !l.rising && !l.falling
    ensures LineOf(x, line).pending <==> LineOf(w, line).unmasked && !LineOf(w, line).software
  {
    hide On;
    assert LineStep(LineOf(w, line), LineOf(x, line), line, TriggerSoftware(line));
  }

  /** No edge of the line is selected and it is not pending. */
  predicate Quiet(l: Line) {
    !l.pending && !l.rising && !l.falling
  }

  /** Nothing between calls `i` and `j` clears the line or selects edges for it. */
  predicate LeftAlone(cs: seq<ExtiCall>, q: bv32, i: nat, j: nat)
    requires j <= |cs|
  {
    forall k | i <= k < j :: !(Mine(cs[k], q) && (cs[k].ClearPending? || cs[k].Configure?))
  }

  /** Once SWIER is set on a quiet line, whatever is called stays without effect: it
      never pends, and SWIER stays set, until the pending bit is cleared although it
      was never set, or an edge is selected. */
  lemma {:induction false} SetTriggerBlocks(trace: seq<Words>, cs: seq<ExtiCall>, q: bv32, i: nat, j: nat)
    requires IsRun(trace, cs) && q < 32 && i <= j <= |cs| && LeftAlone(cs, q, i, j)
    requires Quiet(LineOf(trace[i], q)) && LineOf(trace[i], q).software
    ensures Quiet(LineOf(trace[j], q)) && LineOf(trace[j], q).software
    decreases j - i
  {
    hide On, Accepts;
    if i < j {
      assert Refines(trace[i], trace[i + 1], cs[i]);
      assert LineStep(LineOf(trace[i], q), LineOf(trace[i + 1], q), q, cs[i]);
      SetTriggerBlocks(trace, cs, q, i + 1, j);
    }
  }

  /** So a trigger made while the line is masked blocks every later one. */
  lemma MaskedTriggerBlocksLaterOnes(trace: seq<Words>, cs: seq<ExtiCall>, q: bv32, i: nat, j: nat)
    requires IsRun(trace, cs) && q < 32 && i < j <= |cs| && LeftAlone(cs, q, i + 1, j)
    requires Mine(cs[i], q) && cs[i].TriggerSoftware? && Quiet(LineOf(trace[i], q)) && !LineOf(trace[i], q).unmasked
    ensures Quiet(LineOf(trace[j], q)) && LineOf(trace[j], q).software
  {
    hide On, Accepts;
    assert Refines(trace[i], trace[i + 1], cs[i]);
    assert LineStep(LineOf(trace[i], q), LineOf(trace[i + 1], q), q, cs[i]);
    SetTriggerBlocks(trace, cs, q, i + 1, j);
  }

  predicate Triggers(c: ExtiCall, q: bv32) {
    Mine(c, q) && c.TriggerSoftware?
  }

  /** Call `k` is the first software trigger of the line. */
  predicate FirstTrigger(cs: seq<ExtiCall>, q: bv32, k: nat)
    requires k < |cs|
  {
    Triggers(cs[k], q) && forall i | 0 <= i < k :: !Triggers(cs[i], q)
  }

  /** Which runs of calls pend a quiet line by software: exactly those whose first
      trigger finds it unmasked, with SWIER clear at the start. Later triggers never
      matter. */
  lemma {:induction false} FirstTriggerDecides(trace: seq<Words>, cs: seq<ExtiCall>, q: bv32, n: nat)
    requires IsRun(trace, cs) && q < 32 && n <= |cs| && LeftAlone(cs, q, 0, n) && Quiet(LineOf(trace[0], q))
    ensures var l, m := LineOf(trace[0], q), LineOf(trace[n], q);
      && (m.software <==> l.software || exists k :: 0 <= k < n && Triggers(cs[k], q))
      && (m.pending <==>
          !l.software && exists k :: 0 <= k < n && FirstTrigger(cs, q, k) && LineOf(trace[k], q).unmasked)
      && !m.rising && !m.falling
    decreases n
  {
    hide On, Accepts;
    if n > 0 {
      FirstTriggerDecides(trace, cs, q, n - 1);
      assert Refines(trace[n - 1], trace[n], cs[n - 1]);
      assert LineStep(LineOf(trace[n - 1], q), LineOf(trace[n], q), q, cs[n - 1]);
      TriggeredBy(cs, q, n);
    }
  }

  lemma TriggeredBy(cs: seq<ExtiCall>, q: bv32, n: nat)
    requires 0 < n <= |cs|
    ensures (exists k :: 0 <= k < n && Triggers(cs[k], q))
      <==> Triggers(cs[n - 1], q) || exists k :: 0 <= k < n - 1 && Triggers(cs[k], q)
    ensures FirstTrigger(cs, q, n - 1)
      <==> Triggers(cs[n - 1], q) && !exists k :: 0 <= k < n - 1 && Triggers(cs[k], q)
  {
    hide Mine;
  }
}
