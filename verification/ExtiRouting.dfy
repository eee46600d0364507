/** drivers/src/exti.c, extiSelectPort(): the four SYSCFG_EXTICR words as a map
    from line to port (RM0390 section 8.2). */
module ExtiRouting {
  import opened Status
  import opened Bits
  import opened Exti

  /** A port pointer, compared by address; anything else is Unknown. */
  datatype Port = GPIOA | GPIOB | GPIOC | GPIOD | GPIOE | GPIOF | GPIOG | GPIOH | Unknown

  const SELECT_PH: bv32 := 7

  /** The base addresses of the ports, 0x400 apart (RM0390 section 2.2.2). */
  function Base(port: Port): bv32
    requires !port.Unknown?
  {
    match port
    case GPIOA => 0x4002_0000
    case GPIOB => 0x4002_0400
    case GPIOC => 0x4002_0800
    case GPIOD => 0x4002_0C00
    case GPIOE => 0x4002_1000
    case GPIOF => 0x4002_1400
    case GPIOG => 0x4002_1800
    case GPIOH => 0x4002_1C00
  }

  datatype Selector = NoSelector | Selector(value: bv32)

  function PortSelector(port: Port): (s: Selector)
    ensures s.NoSelector? <==> port.Unknown?
    ensures s.Selector? ==> s.value <= SELECT_PH && (s.value == SELECT_PH <==> port.GPIOH?)
  {
    match port
    case GPIOA => Selector(0)
    case GPIOB => Selector(1)
    case GPIOC => Selector(2)
    case GPIOD => Selector(3)
    case GPIOE => Selector(4)
    case GPIOF => Selector(5)
    case GPIOG => Selector(6)
    case GPIOH => Selector(7)
    case Unknown => NoSelector
  }

  /** The selector counts the ports in the order of their addresses. */
  lemma SelectorIsAddress(port: Port)
    requires !port.Unknown?
    ensures 0x4002_0000 + 0x400 * PortSelector(port).value == Base(port)
  {
  }

  /** No two ports share a selector. */
  lemma SelectorsAreDistinct(p: Port, q: Port)
    requires !p.Unknown? && PortSelector(p) == PortSelector(q)
    ensures p == q
  {
  }

  /** `line / 4`, the index of the line's EXTICR word. */
  function WordOf(line: bv32): (i: nat)
    requires line < 16
    ensures i < 4
  {
    (line / 4) as int
  }

  /** `line % 4`, the line's lane in that word. */
  function LaneOf(line: bv32): (k: bv32)
    ensures k < 4
  {
    line % 4
  }

  lemma WordDecides(p: bv32, q: bv32)
    requires p < 16 && q < 16 && WordOf(p) == WordOf(q)
    ensures p / 4 == q / 4
  {
    assert WordOf(p) as bv32 == p / 4;
    assert WordOf(q) as bv32 == q / 4;
  }

  lemma QuotientDecides(p: bv32, q: bv32)
    requires p / 4 == q / 4 && LaneOf(p) == LaneOf(q)
    ensures p == q
  {
  }

  /** Word and lane together identify a line. */
  lemma PlaceIsUnique(p: bv32, q: bv32)
    requires p < 16 && q < 16 && WordOf(p) == WordOf(q) && LaneOf(p) == LaneOf(q)
    ensures p == q
  {
    hide LaneOf;
    WordDecides(p, q);
    QuotientDecides(p, q);
  }

  /** Bits 31 to 16 of an EXTICR word, which belong to no line. */
  function Unrouted(w: bv32): bv32 {
    w & 0xFFFF_0000
  }

  lemma PutKeepsUnrouted(w: bv32, k: bv32, v: bv32)
    requires k < 4 && v < 16
    ensures Unrouted(Put4(w, k, v)) == Unrouted(w)
  {
  }

  function Route(words: seq<bv32>, line: bv32): bv32
    requires |words| == 4 && line < 16
  {
    Lane4(words[WordOf(line)], LaneOf(line))
  }

  /** The field of a line: four bits from bit `4 * (line % 4)` of word `line / 4`. */
  lemma RouteIsField(words: seq<bv32>, line: bv32)
    requires |words| == 4 && line < 16
    ensures Route(words, line) == (words[(line / 4) as int] >> (4 * (line % 4))) & 0xF
  {
  }

  /** The field of the line gives the port's address. */
  predicate RoutedTo(words: seq<bv32>, line: bv32, port: Port)
    requires |words| == 4 && line < 16 && !port.Unknown?
  {
    0x4002_0000 + 0x400 * ((words[(line / 4) as int] >> (4 * (line % 4))) & 0xF) == Base(port)
  }

  lemma RoutedToIs(words: seq<bv32>, line: bv32, port: Port)
    requires |words| == 4 && line < 16 && !port.Unknown? && Route(words, line) == PortSelector(port).value
    ensures RoutedTo(words, line, port)
  {
    RouteIsField(words, line);
    SelectorIsAddress(port);
    hide Route, PortSelector, Base;
  }

  predicate Accepted(line: bv32, port: Port) {
    line <= 15 && !port.Unknown? && (port.GPIOH? ==> line <= 1)
  }

  /** Only the addressed line is re-routed, and only by an accepted call; the bits of
      no line are kept. */
  method SelectPort(exticr: array<bv32>, line: bv32, port: Port) returns (status: DriverStatus)
    requires exticr.Length == 4
    modifies exticr
    ensures status == if Accepted(line, port) then Ok else InvalidParam
    ensures !status.Ok? ==> exticr[..] == old(exticr[..])
    ensures forall q: bv32 | q < 16 ::
      Route(exticr[..], q) == if status.Ok? && q == line then PortSelector(port).value else Route(old(exticr[..]), q)
    ensures status.Ok? ==> RoutedTo(exticr[..], line, port)
    ensures forall i | 0 <= i < 4 :: Unrouted(exticr[i]) == Unrouted(old(exticr[i]))
  {
    hide Lane4, Put4, LaneOf, Unrouted, RoutedTo, Base;
    var selector := NoSelector;
    status := Ok;
    if line > GPIO_LINE_MAX {
      status := InvalidParam;
    } else {
      selector := PortSelector(port);
      if selector.NoSelector? {
        status := InvalidParam;
      }
    }
    if status.Ok? && selector.value == SELECT_PH && line > 1 {
      status := InvalidParam;
    }
    if status.Ok? {
      var index, k := WordOf(line), LaneOf(line);
      ghost var before := exticr[..];
      PutKeepsUnrouted(exticr[index], k, selector.value);
      exticr[index] := Put4(exticr[index], k, selector.value);
      ghost var after := exticr[..];
      forall q: bv32 | q < 16 ensures Route(after, q) == if q == line then selector.value else Route(before, q) {
        Rerouted(before, line, selector.value, q);
      }
      RoutedToIs(after, line, port);
    }
  }

  lemma Rerouted(before: seq<bv32>, line: bv32, v: bv32, q: bv32)
    requires |before| == 4 && line < 16 && q < 16 && v < 16
    ensures Route(before[WordOf(line) := Put4(before[WordOf(line)], LaneOf(line), v)], q)
            == if q == line then v else Route(before, q)
  {
    hide Lane4, Put4, LaneOf, WordOf;
    if q == line {
      Put4Sets(before[WordOf(line)], LaneOf(line), v);
    } else if WordOf(q) == WordOf(line) {
      if LaneOf(q) == LaneOf(line) { PlaceIsUnique(q, line); }
      Put4Keeps(before[WordOf(line)], LaneOf(line), v, LaneOf(q));
    }
  }

  datatype Selection = Selection(line: bv32, port: Port)

  /** The port of a line after a sequence of calls: the last accepted one. */
  function LastPort(first: bv32, line: bv32, cs: seq<Selection>): bv32 {
    if cs == [] then first
    else
      var c := cs[|cs| - 1];
      if c.line == line && Accepted(c.line, c.port) then PortSelector(c.port).value
      else LastPort(first, line, cs[..|cs| - 1])
  }

  /** Any sequence of selections: every line decodes to its last accepted port, and
      GPIOH never reaches a line above 1 unless it was there already. */
  method SelectPorts(exticr: array<bv32>, cs: seq<Selection>)
    requires exticr.Length == 4
    modifies exticr
    ensures forall q: bv32 | q < 16 :: Route(exticr[..], q) == LastPort(Route(old(exticr[..]), q), q, cs)
    ensures forall q: bv32 | 2 <= q < 16 :: Route(exticr[..], q) == SELECT_PH ==> Route(old(exticr[..]), q) == SELECT_PH
    ensures forall i | 0 <= i < 4 :: Unrouted(exticr[i]) == Unrouted(old(exticr[i]))
  {
    hide Route, Accepted, Unrouted;
    for i := 0 to |cs|
      invariant forall q: bv32 | q < 16 :: Route(exticr[..], q) == LastPort(Route(old(exticr[..]), q), q, cs[..i])
      invariant forall q: bv32 | 2 <= q < 16 ::
          Route(exticr[..], q) == SELECT_PH ==> Route(old(exticr[..]), q) == SELECT_PH
      invariant forall k | 0 <= k < 4 :: Unrouted(exticr[k]) == Unrouted(old(exticr[k]))
    {
      if Accepted(cs[i].line, cs[i].port) { PhIsLow(cs[i].line, cs[i].port); }
      var status := SelectPort(exticr, cs[i].line, cs[i].port);
      assert cs[..i + 1][..i] == cs[..i];
    }
    assert cs[..|cs|] == cs;
  }

  lemma PhIsLow(line: bv32, port: Port)
    requires Accepted(line, port)
    ensures line < 16 && PortSelector(port).Selector? && (PortSelector(port).value == SELECT_PH ==> line <= 1)
  {
  }
}
