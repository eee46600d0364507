/** Two contexts drive disjoint pins of one port: every interleaving of their
    register accesses ends in the same output word as running them one after the
    other. The accesses are those of gpioWritePin() and gpioTogglePin(). */
module Interleaving {
  import opened PinDriving

  datatype PinOp = Write(pin: bv32, high: bool) | Toggle(pin: bv32)

  /** One register access. A toggle is two: it reads ODR and then stores BSRR with
      the inverse of what it saw. */
  datatype Access = Store(pin: bv32, high: bool) | Sample(pin: bv32) | StoreInverse(pin: bv32)

  /** A context: the accesses left to make, and the level its last ODR read saw. */
  datatype Context = Context(todo: seq<Access>, seen: bool)

  function Accesses(op: PinOp): seq<Access> {
    match op
    case Write(pin, high) => [Store(pin, high)]
    case Toggle(pin) => [Sample(pin), StoreInverse(pin)]
  }

  function Program(ops: seq<PinOp>): seq<Access> {
    if ops == [] then [] else Accesses(ops[0]) + Program(ops[1..])
  }

  predicate InRange(todo: seq<Access>) {
    forall i | 0 <= i < |todo| :: todo[i].pin < 16
  }

  /** ODR after the context's next access. */
  function NextOdr(odr: bv32, c: Context): bv32
    requires c.todo != [] && c.todo[0].pin < 16
  {
    match c.todo[0]
    case Store(pin, high) => BsrrStored(odr, LevelWord(pin, high))
    case Sample(_) => odr
    case StoreInverse(pin) => BsrrStored(odr, LevelWord(pin, !c.seen))
  }

  function NextContext(odr: bv32, c: Context): Context
    requires c.todo != [] && c.todo[0].pin < 16
  {
    Context(c.todo[1..], if c.todo[0].Sample? then IsHigh(odr, c.todo[0].pin) else c.seen)
  }

  /** The context runs to its end with nobody else about. */
  function Alone(odr: bv32, c: Context): bv32
    requires InRange(c.todo)
    decreases |c.todo|
  {
    if c.todo == [] then odr else Alone(NextOdr(odr, c), NextContext(odr, c))
  }

  /** A schedule says, access by access, which context goes next. */
  function Scheduled(odr: bv32, a: Context, b: Context, sched: seq<bool>): (bv32, Context, Context)
    requires InRange(a.todo) && InRange(b.todo)
    decreases |sched|
  {
    if sched == [] then (odr, a, b)
    else if sched[0] && a.todo != [] then Scheduled(NextOdr(odr, a), NextContext(odr, a), b, sched[1..])
    else if !sched[0] && b.todo != [] then Scheduled(NextOdr(odr, b), a, NextContext(odr, b), sched[1..])
    else Scheduled(odr, a, b, sched[1..])
  }

  /** What the calls mean, one by one. */
  function Meaning(odr: bv32, ops: seq<PinOp>): bv32
    requires forall i | 0 <= i < |ops| :: ops[i].pin < 16
    decreases |ops|
  {
    if ops == [] then odr
    else
      Meaning(match ops[0]
              case Write(pin, high) => Driven(odr, pin, high)
              case Toggle(pin) => Inverted(odr, pin),
              ops[1..])
  }

  ghost predicate OwnsAll(own: bv32, todo: seq<Access>) {
    forall i | 0 <= i < |todo| :: todo[i].pin < 16 && Owns(own, todo[i].pin)
  }

  /* ---- one access ---- */

  /** An access leaves the pins of others alone. */
  lemma NextKeepsOthers(odr: bv32, c: Context, own: bv32, other: bv32)
    requires c.todo != [] && OwnsAll(own, c.todo) && own & other == 0
    ensures Agree(NextOdr(odr, c), odr, other)
  {
    var pin := c.todo[0].pin;
    var high := if c.todo[0].Store? then c.todo[0].high else !c.seen;
    StoreDrives(odr, pin, high);
    DrivenStaysInside(odr, pin, high, own, other);
    hide Agree, BsrrStored, LevelWord, Driven, Owns, Bit, IsHigh;
    AgreeRefl(odr, other);
  }

  /** ... and depends on the context's own pins only. */
  lemma NextDependsOnOwn(x: bv32, y: bv32, c: Context, own: bv32)
    requires c.todo != [] && OwnsAll(own, c.todo) && Agree(x, y, own)
    ensures Agree(NextOdr(x, c), NextOdr(y, c), own) && NextContext(x, c) == NextContext(y, c)
  {
    hide Agree, BsrrStored, LevelWord, Driven, Owns, Bit, IsHigh;
    var pin := c.todo[0].pin;
    var high := if c.todo[0].Store? then c.todo[0].high else !c.seen;
    assert Owns(own, pin);
    StoreDrives(x, pin, high);
    StoreDrives(y, pin, high);
    DrivenAgrees(x, y, pin, high, own);
    SampleAgrees(x, y, pin, own);
  }

  lemma AgreeRefl(x: bv32, mask: bv32)
    ensures Agree(x, x, mask)
  {
  }

  /* ---- one context ---- */

  lemma {:induction false} AloneKeepsOthers(odr: bv32, c: Context, own: bv32, other: bv32)
    requires InRange(c.todo) && OwnsAll(own, c.todo) && own & other == 0
    ensures Agree(Alone(odr, c), odr, other)
    decreases |c.todo|
  {
    hide Agree, NextOdr, NextContext, Owns;
    if c.todo == [] {
      AgreeRefl(odr, other);
    } else {
      NextIsRest(odr, c);
      NextKeepsOthers(odr, c, own, other);
      AloneKeepsOthers(NextOdr(odr, c), NextContext(odr, c), own, other);
      AgreeTrans(Alone(odr, c), NextOdr(odr, c), odr, other);
    }
  }

  lemma NextIsRest(odr: bv32, c: Context)
    requires c.todo != [] && c.todo[0].pin < 16
    ensures NextContext(odr, c).todo == c.todo[1..]
  {
  }

  lemma {:induction false} AloneDependsOnOwn(x: bv32, y: bv32, c: Context, own: bv32)
    requires InRange(c.todo) && OwnsAll(own, c.todo) && Agree(x, y, own)
    ensures Agree(Alone(x, c), Alone(y, c), own)
    decreases |c.todo|
  {
    hide Agree, NextOdr, NextContext, Owns;
    if c.todo != [] {
      NextIsRest(x, c);
      NextIsRest(y, c);
      NextDependsOnOwn(x, y, c, own);
      AloneDependsOnOwn(NextOdr(x, c), NextOdr(y, c), NextContext(x, c), own);
    }
  }

  /** Alone, the accesses of a list of calls do what the calls mean: a toggle
      inverts its pin and nothing else. */
  lemma {:induction false} AloneIsMeaning(odr: bv32, ops: seq<PinOp>, seen: bool)
    requires forall i | 0 <= i < |ops| :: ops[i].pin < 16
    requires InRange(Program(ops))
    ensures Alone(odr, Context(Program(ops), seen)) == Meaning(odr, ops)
    decreases |ops|
  {
    hide BsrrStored, LevelWord, Driven, Bit, IsHigh, Inverted;
    if ops != [] {
      var rest, c, pin := Program(ops[1..]), Context(Program(ops), seen), ops[0].pin;
      ProgramTail(ops);
      match ops[0]
      case Write(_, high) =>
        StoreDrives(odr, pin, high);
        assert c.todo[1..] == rest;
        AloneIsMeaning(Driven(odr, pin, high), ops[1..], seen);
      case Toggle(_) =>
        var saw := IsHigh(odr, pin);
        var mid := Context([StoreInverse(pin)] + rest, saw);
        assert c.todo[1..] == mid.todo && mid.todo[1..] == rest;
        assert NextContext(odr, c) == mid && NextOdr(odr, c) == odr;
        assert Alone(odr, c) == Alone(odr, mid);
        StoreDrives(odr, pin, !saw);
        InverseInverts(odr, pin);
        AloneIsMeaning(Inverted(odr, pin), ops[1..], saw);
    }
  }

  lemma ProgramTail(ops: seq<PinOp>)
    requires ops != [] && InRange(Program(ops))
    ensures InRange(Program(ops[1..]))
  {
    var k := |Accesses(ops[0])|;
    forall i | 0 <= i < |Program(ops[1..])| ensures Program(ops[1..])[i].pin < 16 {
      assert Program(ops)[k + i] == Program(ops[1..])[i];
    }
  }

  /* ---- two contexts ---- */

  /** Wherever a schedule stops, each context's pins will end as if it had run
      alone from the start, and the rest of the port is untouched. */
  lemma {:induction false} ScheduleIsNoninterfering(odr: bv32, a: Context, b: Context, sched: seq<bool>, pa: bv32,
                                                    pb: bv32)
    requires InRange(a.todo) && InRange(b.todo) && OwnsAll(pa, a.todo) && OwnsAll(pb, b.todo) && pa & pb == 0
    ensures var (x, c, d) := Scheduled(odr, a, b, sched);
      && InRange(c.todo) && InRange(d.todo)
      && Agree(Alone(x, c), Alone(odr, a), pa)
      && Agree(Alone(x, d), Alone(odr, b), pb)
      && Agree(x, odr, !(pa | pb))
    decreases |sched|
  {
    hide Agree, NextOdr, NextContext, Alone, Owns;
    if sched == [] {
      AgreeRefl(Alone(odr, a), pa);
      AgreeRefl(Alone(odr, b), pb);
      AgreeRefl(odr, !(pa | pb));
    } else if sched[0] && a.todo != [] {
      var odr', a' := NextOdr(odr, a), NextContext(odr, a);
      OneStep(odr, a, b, pa, pb);
      ScheduleIsNoninterfering(odr', a', b, sched[1..], pa, pb);
      var (x, c, d) := Scheduled(odr, a, b, sched);
      AgreeTrans(Alone(x, d), Alone(odr', b), Alone(odr, b), pb);
      AgreeTrans(x, odr', odr, !(pa | pb));
    } else if !sched[0] && b.todo != [] {
      var odr', b' := NextOdr(odr, b), NextContext(odr, b);
      MasksSwap(pa, pb);
      OneStep(odr, b, a, pb, pa);
      ScheduleIsNoninterfering(odr', a, b', sched[1..], pa, pb);
      var (x, c, d) := Scheduled(odr, a, b, sched);
      AgreeTrans(Alone(x, c), Alone(odr', a), Alone(odr, a), pa);
      AgreeTrans(x, odr', odr, !(pa | pb));
    } else {
      ScheduleIsNoninterfering(odr, a, b, sched[1..], pa, pb);
    }
  }

  lemma MasksSwap(pa: bv32, pb: bv32)
    requires pa & pb == 0
    ensures pb & pa == 0 && pa | pb == pb | pa
  {
  }

  /** One access of `a`, as each context sees it. */
  lemma OneStep(odr: bv32, a: Context, b: Context, pa: bv32, pb: bv32)
    requires a.todo != [] && InRange(a.todo) && InRange(b.todo) && OwnsAll(pa, a.todo) && OwnsAll(pb, b.todo)
             && pa & pb == 0
    ensures var odr', a' := NextOdr(odr, a), NextContext(odr, a);
      && InRange(a'.todo) && OwnsAll(pa, a'.todo)
      && Alone(odr', a') == Alone(odr, a)
      && Agree(Alone(odr', b), Alone(odr, b), pb)
      && Agree(odr', odr, !(pa | pb))
  {
    hide Agree, NextOdr, NextContext, Owns;
    NextIsRest(odr, a);
    NextKeepsOthers(odr, a, pa, pb);
    RestIsOther(pa, pb);
    NextKeepsOthers(odr, a, pa, !(pa | pb));
    AloneDependsOnOwn(NextOdr(odr, a), odr, b, pb);
  }

  lemma RestIsOther(pa: bv32, pb: bv32)
    ensures pa & !(pa | pb) == 0
  {
  }

  /** Every complete interleaving equals running one context after the other, which
      is what the two lists of calls mean in turn. */
  lemma InterleavingIsSequential(odr: bv32, opsA: seq<PinOp>, opsB: seq<PinOp>, sched: seq<bool>, pa: bv32, pb: bv32)
    requires (forall i | 0 <= i < |opsA| :: opsA[i].pin < 16) && (forall i | 0 <= i < |opsB| :: opsB[i].pin < 16)
    requires OwnsAll(pa, Program(opsA)) && OwnsAll(pb, Program(opsB)) && pa & pb == 0
    requires var (x, c, d) := Scheduled(odr, Context(Program(opsA), false), Context(Program(opsB), false), sched);
             c.todo == d.todo == []
    ensures Scheduled(odr, Context(Program(opsA), false), Context(Program(opsB), false), sched).0
            == Meaning(Meaning(odr, opsA), opsB)
  {
    hide Agree, NextOdr, NextContext, Owns, Meaning, Program;
    var a, b := Context(Program(opsA), false), Context(Program(opsB), false);
    var (x, c, d) := Scheduled(odr, a, b, sched);
    ScheduleIsNoninterfering(odr, a, b, sched, pa, pb);
    var first := Alone(odr, a);
    var y := Alone(first, b);
    MasksSwap(pa, pb);
    RestIsOther(pa, pb);
    RestIsOther(pb, pa);
    AloneKeepsOthers(odr, a, pa, pb);
    AloneKeepsOthers(odr, a, pa, !(pa | pb));
    AloneKeepsOthers(first, b, pb, pa);
    AloneKeepsOthers(first, b, pb, !(pa | pb));
    AloneDependsOnOwn(first, odr, b, pb);
    Combine(odr, x, first, Alone(odr, b), y, pa, pb);
    AloneIsMeaning(odr, opsA, false);
    AloneIsMeaning(first, opsB, false);
  }

  lemma Combine(odr: bv32, x: bv32, first: bv32, other: bv32, y: bv32, pa: bv32, pb: bv32)
    requires Agree(x, first, pa) && Agree(x, other, pb) && Agree(x, odr, !(pa | pb))
    requires Agree(y, first, pa) && Agree(y, other, pb) && Agree(y, first, !(pa | pb)) && Agree(first, odr, !(pa | pb))
    ensures x == y
  {
    assert Agree(x, y, pa) && Agree(x, y, pb) && Agree(x, y, !(pa | pb));
    hide Agree;
    MasksDecide(x, y, pa, pb);
  }

  /* ---- the driver's calls are these accesses ---- */

  /** gpioWritePin() is the context's next access. */
  method WriteStep(port: OutputPort, ghost c: Context, pin: bv32, high: bool, own: bv32) returns (ghost hit: bv32)
    requires pin < 16 && Owns(own, pin) && c.todo != [] && c.todo[0] == Store(pin, high)
    modifies port
    ensures Agree(hit, old(port.odr), own) && port.odr == NextOdr(hit, c)
  {
    hide Agree, BsrrStored, LevelWord, Driven, Owns, Bit;
    hit := WritePin(port, pin, high, own);
    StoreDrives(hit, pin, high);
  }

  /** gpioTogglePin() is its next two, with others in between. */
  method ToggleSteps(port: OutputPort, ghost c: Context, pin: bv32, own: bv32)
    returns (ghost sampled: bv32, ghost hit: bv32)
    requires pin < 16 && Owns(own, pin) && |c.todo| >= 2 && c.todo[0] == Sample(pin) && c.todo[1] == StoreInverse(pin)
    modifies port
    ensures Agree(sampled, old(port.odr), own) && NextOdr(sampled, c) == sampled
    ensures Agree(hit, sampled, own) && port.odr == NextOdr(hit, NextContext(sampled, c))
  {
    hide Agree, BsrrStored, LevelWord, Driven, Owns, Bit, IsHigh, Inverted;
    sampled, hit := TogglePin(port, pin, own);
    StoreDrives(hit, pin, !IsHigh(sampled, pin));
  }

  /** A whole list of calls on a port that others drive too: the context's own pins
      end as the calls mean. */
  method DriveAll(port: OutputPort, ops: seq<PinOp>, own: bv32)
    requires forall i | 0 <= i < |ops| :: ops[i].pin < 16 && Owns(own, ops[i].pin)
    modifies port
    ensures Agree(port.odr, Meaning(old(port.odr), ops), own)
  {
    hide Agree, Driven, Inverted, Owns, Bit;
    AgreeRefl(port.odr, own);
    ghost var meant := port.odr;
    for i := 0 to |ops|
      invariant Meaning(meant, ops[i..]) == Meaning(old(port.odr), ops)
      invariant Agree(port.odr, meant, own)
    {
      ghost var odr, pin := port.odr, ops[i].pin;
      assert ops[i..][1..] == ops[i + 1..];
      match ops[i] {
        case Write(_, high) =>
          ghost var hit := WritePin(port, ops[i].pin, high, own);
          DrivenAgrees(odr, meant, pin, high, own);
          AgreeTrans(port.odr, Driven(odr, pin, high), Driven(meant, pin, high), own);
          meant := Driven(meant, pin, high);
        case Toggle(_) =>
          ghost var sampled, hit := TogglePin(port, ops[i].pin, own);
          InvertedAgrees(odr, meant, pin, own);
          AgreeTrans(port.odr, Inverted(odr, pin), Inverted(meant, pin), own);
          meant := Inverted(meant, pin);
      }
    }
  }

  lemma InvertedAgrees(x: bv32, y: bv32, pin: bv32, own: bv32)
    requires Owns(own, pin) && Agree(x, y, own)
    ensures Agree(Inverted(x, pin), Inverted(y, pin), own)
  {
    InverseInverts(x, pin);
    InverseInverts(y, pin);
    SampleAgrees(x, y, pin, own);
    hide Agree, Driven, Inverted, IsHigh, Bit;
    DrivenAgrees(x, y, pin, !IsHigh(x, pin), own);
  }
}
