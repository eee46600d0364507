/** drivers/src/uart.c, the baud-rate divisor. */
module Baud {
  import opened Status

  type u64 = n: nat | n < 0x1_0000_0000_0000_0000

  /** BRR for 16x oversampling counts sixteenths of a bit: DIV_Mantissa and
      DIV_Fraction together are pclk / baud. */
  const BRR_MIN: nat := 16
  const BRR_MAX: nat := 0xFFFF

  datatype Divisor = Rejected | Divisor(brr: u32)

  function ComputeBrr(pclk: u32, baud: u32): Divisor {
    if pclk == 0 || baud == 0 then Rejected
    else
      var sum: u64 := pclk + baud / 2;
      var rounded: u64 := sum / baud;
      if rounded < BRR_MIN then Rejected
      else if rounded > BRR_MAX then Rejected
      else Divisor(rounded)
  }

  /** Twice the distance of a multiple of the baud rate from the bus clock. */
  function Miss(pclk: int, multiple: int): int {
    if multiple >= pclk then 2 * (multiple - pclk) else 2 * (pclk - multiple)
  }

  /** `brr` baud intervals miss the bus clock by at most half a baud, ties up. */
  predicate Nearest(p: nat, b: nat, r: nat) {
    2 * (r * b) - 2 * p <= b && 2 * p - 2 * (r * b) < b
  }

  lemma RoundsToNearest(p: nat, b: nat, r: nat)
    requires b > 0 && r == (p + b / 2) / b
    ensures Nearest(p, b, r)
  {
    assert r * b <= p + b / 2 < r * b + b;
  }

  lemma Scale(a: int, c: int, k: nat)
    requires a <= c
    ensures a * k <= c * k
  {
    assert (c - a) * k >= 0;
  }

  lemma RangeOfNearest(p: nat, b: nat, r: nat)
    requires b > 0 && Nearest(p, b, r)
    ensures BRR_MIN <= r <= BRR_MAX <==> 31 * b <= 2 * p < 131071 * b
  {
    if r < 16 { Scale(r, 15, b); } else { Scale(16, r, b); }
    if r > 65535 { Scale(65536, r, b); } else { Scale(r, 65535, b); }
  }

  /** Exactly which requests are accepted, over all 32-bit inputs. The first bound
      is what rounding leaves of baud <= pclk / 16. */
  lemma AcceptedIff(pclk: u32, baud: u32)
    ensures ComputeBrr(pclk, baud).Divisor? <==> 0 < baud && 31 * baud <= 2 * pclk < 131071 * baud
  {
    if pclk != 0 && baud != 0 {
      var r := (pclk + baud / 2) / baud;
      RoundsToNearest(pclk, baud, r);
      RangeOfNearest(pclk, baud, r);
      hide Nearest;
    }
  }

  /** The documented limit is baud <= pclk / 16. Exactly these requests beyond it are
      accepted all the same; they get divisor 16, so the line then runs slower than
      asked. */
  lemma AboveLimitIff(pclk: u32, baud: u32)
    ensures ComputeBrr(pclk, baud).Divisor? && 16 * baud > pclk <==> 0 < baud && 31 * baud <= 2 * pclk < 32 * baud
    ensures ComputeBrr(pclk, baud).Divisor? && 16 * baud > pclk ==> ComputeBrr(pclk, baud).brr == 16
  {
    AcceptedIff(pclk, baud);
    if ComputeBrr(pclk, baud).Divisor? {
      var r := ComputeBrr(pclk, baud).brr;
      RoundsToNearest(pclk, baud, r);
      if r > 16 { Scale(17, r, baud); }
    }
    hide ComputeBrr;
  }

  /** Such as 2.9 Mbaud from the 45 MHz of APB1, of which a sixteenth is 2.8125 MHz. */
  lemma AboveLimitIsAccepted()
    ensures 16 * 2_900_000 > 45_000_000 && ComputeBrr(45_000_000, 2_900_000) == Divisor(16)
  {
  }

  lemma StepsApart(r: int, other: int, b: nat)
    ensures other == r || other * b >= r * b + b || other * b <= r * b - b
  {
    if other > r {
      Scale(r + 1, other, b);
    } else if other < r {
      Scale(other, r - 1, b);
    }
  }

  /** No other divisor comes closer. */
  lemma DivisorIsNearest(pclk: u32, baud: u32, brr: u32, other: int)
    requires ComputeBrr(pclk, baud) == Divisor(brr)
    ensures BRR_MIN <= brr <= BRR_MAX
    ensures Miss(pclk, brr * baud) <= baud && Miss(pclk, brr * baud) <= Miss(pclk, other * baud)
  {
    RoundsToNearest(pclk, baud, brr);
    StepsApart(brr, other, baud);
  }

  /** A product kept as one term, so that no step below multiplies out another's. */
  function Product(a: real, c: real): real {
    a * c
  }

  lemma Distribute(a: real, x: real, y: real)
    ensures Product(a, x - y) == Product(a, x) - Product(a, y)
  {
  }

  lemma Widen(a: real, gap: real)
    requires a >= 16.0
    ensures if gap >= 0.0 then Product(a, gap) >= 16.0 * gap else Product(a, gap) <= 16.0 * gap
  {
    if gap >= 0.0 {
      assert (a - 16.0) * gap >= 0.0;
    } else {
      assert (a - 16.0) * (-gap) >= 0.0;
    }
  }

  lemma RealProduct(r: nat, b: nat)
    ensures (r * b) as real == Product(r as real, b as real)
  {
  }

  lemma Quotient(line: real, p: real, r: real)
    requires r > 0.0 && line == p / r
    ensures Product(r, line) == p
  {
  }

  lemma ErrorOfNearest(p: nat, b: nat, r: nat, rb: nat, line: real)
    requires 2 * rb - 2 * p <= b && 2 * p - 2 * rb < b && r >= 16
    requires rb as real == Product(r as real, b as real) && Product(r as real, line) == p as real
    ensures -(b as real) <= 2.0 * Product(r as real, line - b as real) <= b as real
    ensures -(b as real) <= 32.0 * (line - b as real) <= b as real
  {
    Distribute(r as real, line, b as real);
    Widen(r as real, line - b as real);
    hide Product;
    assert (2 * rb - 2 * p) as real <= b as real && (2 * p - 2 * rb) as real <= b as real;
  }

  /** The line runs at pclk / brr. Its relative error is at most 1 / (2 brr), so
      never above 1/32. */
  lemma BaudErrorIsBounded(pclk: u32, baud: u32, brr: u32, line: real)
    requires ComputeBrr(pclk, baud) == Divisor(brr) && line == pclk as real / brr as real
    ensures var error := line - baud as real;
      -(baud as real) <= 2.0 * (brr as real * error) <= baud as real && -(baud as real) <= 32.0 * error <= baud as real
  {
    assert brr >= 16;
    RoundsToNearest(pclk, baud, brr);
    Quotient(line, pclk as real, brr as real);
    RealProduct(brr, baud);
    ErrorOfNearest(pclk, baud, brr, brr * baud, line);
  }
}
