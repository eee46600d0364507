/** drivers/src/gpio.c, pin levels: BSRR stores, and why two contexts that own
    disjoint pins of one port may interleave them freely (RM0390 section 7.4). */
module PinDriving {

  /** A BSRR store: bits 15:0 set, bits 31:16 reset, set winning. One access. */
  function BsrrStored(odr: bv32, word: bv32): bv32 {
    (odr & !(word >> 16)) | (word & 0xFFFF)
  }

  function Bit(pin: bv32): bv32
    requires pin < 16
  {
    1 << pin
  }

  /** The word gpioWritePin() stores for a level. */
  function LevelWord(pin: bv32, high: bool): bv32
    requires pin < 16
  {
    if high then 1 << pin else 1 << (pin + 16)
  }

  function Driven(odr: bv32, pin: bv32, high: bool): bv32
    requires pin < 16
  {
    if high then odr | Bit(pin) else odr & !Bit(pin)
  }

  lemma StoreDrives(odr: bv32, pin: bv32, high: bool)
    requires pin < 16
    ensures BsrrStored(odr, LevelWord(pin, high)) == Driven(odr, pin, high)
  {
  }

  /** Bit `n` of a word. */
  function BitAt(w: bv32, n: bv32): bv32
    requires n < 32
  {
    (w >> n) & 1
  }

  lemma SetThere(odr: bv32, pin: bv32)
    requires pin < 16
    ensures BitAt(Driven(odr, pin, true), pin) == 1
  {
  }

  lemma SetElsewhere(odr: bv32, pin: bv32, q: bv32)
    requires pin < 16 && q < 32 && q != pin
    ensures BitAt(Driven(odr, pin, true), q) == BitAt(odr, q)
  {
  }

  lemma ClearedThere(odr: bv32, pin: bv32)
    requires pin < 16
    ensures BitAt(Driven(odr, pin, false), pin) == 0
  {
  }

  lemma ClearedElsewhere(odr: bv32, pin: bv32, q: bv32)
    requires pin < 16 && q < 32 && q != pin
    ensures BitAt(Driven(odr, pin, false), q) == BitAt(odr, q)
  {
  }

  /** Pin `pin` is bit `pin`: it takes the level, and every other bit stays. */
  lemma DrivenByBit(odr: bv32, pin: bv32, high: bool, q: bv32)
    requires pin < 16 && q < 32
    ensures BitAt(Driven(odr, pin, high), q) == if q == pin then (if high then 1 else 0) else BitAt(odr, q)
  {
    hide BitAt, Driven;
    if q == pin {
      SetThere(odr, pin);
      ClearedThere(odr, pin);
    } else {
      SetElsewhere(odr, pin, q);
      ClearedElsewhere(odr, pin, q);
    }
  }

  lemma HighIsBit(odr: bv32, pin: bv32)
    requires pin < 16
    ensures IsHigh(odr, pin) <==> BitAt(odr, pin) == 1
  {
  }

  predicate IsHigh(odr: bv32, pin: bv32)
    requires pin < 16
  {
    odr & Bit(pin) != 0
  }

  function Inverted(odr: bv32, pin: bv32): bv32
    requires pin < 16
  {
    odr ^ Bit(pin)
  }

  lemma HighInverts(odr: bv32, pin: bv32)
    requires pin < 16 && IsHigh(odr, pin)
    ensures Driven(odr, pin, false) == Inverted(odr, pin)
  {
  }

  lemma LowInverts(odr: bv32, pin: bv32)
    requires pin < 16 && !IsHigh(odr, pin)
    ensures Driven(odr, pin, true) == Inverted(odr, pin)
  {
  }

  lemma InverseInverts(odr: bv32, pin: bv32)
    requires pin < 16
    ensures Driven(odr, pin, !IsHigh(odr, pin)) == Inverted(odr, pin)
  {
    hide Driven, IsHigh, Inverted;
    if IsHigh(odr, pin) {
      HighInverts(odr, pin);
    } else {
      LowInverts(odr, pin);
    }
  }

  /** The pins one context owns. */
  predicate Owns(own: bv32, pin: bv32) {
    pin < 16 && Bit(pin) & !own == 0
  }

  /** Two output words agree on the pins of a mask. */
  predicate Agree(x: bv32, y: bv32, mask: bv32) {
    x & mask == y & mask
  }

  lemma DrivenStaysInside(odr: bv32, pin: bv32, high: bool, own: bv32, other: bv32)
    requires Owns(own, pin) && own & other == 0
    ensures Agree(Driven(odr, pin, high), odr, other)
  {
  }

  lemma DrivenAgrees(x: bv32, y: bv32, pin: bv32, high: bool, own: bv32)
    requires Owns(own, pin) && Agree(x, y, own)
    ensures Agree(Driven(x, pin, high), Driven(y, pin, high), own)
  {
  }

  lemma SampleAgrees(x: bv32, y: bv32, pin: bv32, own: bv32)
    requires Owns(own, pin) && Agree(x, y, own)
    ensures IsHigh(x, pin) == IsHigh(y, pin)
  {
  }

  lemma MasksDecide(x: bv32, y: bv32, a: bv32, b: bv32)
    requires Agree(x, y, a) && Agree(x, y, b) && Agree(x, y, !(a | b))
    ensures x == y
  {
  }

  /* ---- one call against a port that others drive too ---- */

  class OutputPort {
    var odr: bv32

    constructor (odr: bv32)
      ensures this.odr == odr
    {
      this.odr := odr;
    }

    /** Other contexts drive any pins outside `own`, as often as they like. */
    method Others(own: bv32)
      modifies this
      ensures Agree(odr, old(odr), own)
    {
      var next: bv32 := *;
      odr := (next & !own) | (odr & own);
    }

    method StoreBsrr(word: bv32, own: bv32) returns (ghost hit: bv32)
      modifies this
      ensures Agree(hit, old(odr), own) && odr == BsrrStored(hit, word)
    {
      Others(own);
      hit := odr;
      odr := BsrrStored(odr, word);
    }

    method LoadOdr(own: bv32) returns (value: bv32)
      modifies this
      ensures Agree(odr, old(odr), own) && value == odr
    {
      Others(own);
      value := odr;
    }
  }

  /** One store drives the pin in whatever ODR it hits, and nothing else; other
      contexts can have changed only pins outside `own` before it. */
  method WritePin(port: OutputPort, pin: bv32, high: bool, own: bv32) returns (ghost hit: bv32)
    requires pin < 16 && Owns(own, pin)
    modifies port
    ensures Agree(hit, old(port.odr), own) && port.odr == Driven(hit, pin, high)
    ensures Agree(port.odr, Driven(old(port.odr), pin, high), own) && Agree(port.odr, hit, !Bit(pin))
  {
    hide Agree, BsrrStored, LevelWord, Driven, Owns, Bit;
    hit := port.StoreBsrr(LevelWord(pin, high), own);
    StoreDrives(hit, pin, high);
    DrivenAgrees(hit, old(port.odr), pin, high, own);
    DrivenIsAlone(hit, pin, high);
  }

  /** A read of ODR, then one store that drives the pin to the inverse of what was
      read, and nothing else. For the owner of the pin that inverts it, though others
      may store between the read and the store. */
  method TogglePin(port: OutputPort, pin: bv32, own: bv32) returns (ghost sampled: bv32, ghost hit: bv32)
    requires pin < 16 && Owns(own, pin)
    modifies port
    ensures Agree(sampled, old(port.odr), own) && Agree(hit, sampled, own)
    ensures port.odr == Driven(hit, pin, !IsHigh(sampled, pin)) && port.odr == Inverted(hit, pin)
    ensures Agree(port.odr, Inverted(old(port.odr), pin), own) && Agree(port.odr, hit, !Bit(pin))
  {
    hide Agree, BsrrStored, LevelWord, Driven, Owns, Bit, IsHigh, Inverted;
    var odr := port.LoadOdr(own);
    sampled := odr;
    SampleAgrees(odr, old(port.odr), pin, own);
    if IsHigh(odr, pin) {
      hit := port.StoreBsrr(LevelWord(pin, false), own);
    } else {
      hit := port.StoreBsrr(LevelWord(pin, true), own);
    }
    StoreDrives(hit, pin, !IsHigh(odr, pin));
    SampleAgrees(hit, odr, pin, own);
    AgreeTrans(hit, odr, old(port.odr), own);
    DrivenAgrees(hit, old(port.odr), pin, !IsHigh(odr, pin), own);
    InverseInverts(old(port.odr), pin);
    InverseInverts(hit, pin);
    DrivenIsAlone(hit, pin, !IsHigh(odr, pin));
  }

  lemma DrivenIsAlone(odr: bv32, pin: bv32, high: bool)
    requires pin < 16
    ensures Agree(Driven(odr, pin, high), odr, !Bit(pin))
  {
  }

  lemma AgreeTrans(x: bv32, y: bv32, z: bv32, mask: bv32)
    requires Agree(x, y, mask) && Agree(y, z, mask)
    ensures Agree(x, z, mask)
  {
  }
}
