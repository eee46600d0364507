/** The words behind the clock model: what each read-modify-write of rcc.c, pwr.c
    and flash.c does to its 32-bit register is the field update the model makes,
    and every other bit of the word, reserved ones included, is kept. The masks are
    the drivers'; the decoding goes by the bit numbers of RM0390 alone. */
module ClockWords {
  import opened ClockState

  const HSION: bv32 := 0x0000_0001
  const HSEON: bv32 := 0x0001_0000
  const HSEBYP: bv32 := 0x0004_0000
  const PLLON: bv32 := 0x0100_0000

  const PLLM: bv32 := 0x0000_003F
  const PLLN: bv32 := 0x0000_7FC0
  const PLLP: bv32 := 0x0003_0000
  const PLLSRC: bv32 := 0x0040_0000

  const SW: bv32 := 0x0000_0003
  const HPRE: bv32 := 0x0000_00F0
  const PPRE1: bv32 := 0x0000_1C00
  const PPRE2: bv32 := 0x0000_E000

  const VOS: bv32 := 0x0000_C000
  const ODEN: bv32 := 0x0001_0000
  const ODSWEN: bv32 := 0x0002_0000

  const LATENCY: bv32 := 0x0000_000F
  const PRFTEN: bv32 := 0x0000_0100
  const ICEN: bv32 := 0x0000_0200
  const DCEN: bv32 := 0x0000_0400

  /** `(reg & ~mask) | value`, the drivers' read-modify-write. */
  function Merged(reg: bv32, mask: bv32, value: bv32): bv32 {
    (reg & !mask) | value
  }

  /** `reg |= bit` and `reg &= ~bit`. */
  function Turned(reg: bv32, bit: bv32, on: bool): bv32 {
    if on then reg | bit else reg & !bit
  }

  /** Two words differ at most in the masked bits. */
  predicate SameOutside(x: bv32, w: bv32, mask: bv32) {
    x & !mask == w & !mask
  }

  /** Nothing outside the mask moves, whatever the register held. */
  lemma MergedKeepsTheRest(reg: bv32, mask: bv32, value: bv32)
    requires value & !mask == 0
    ensures SameOutside(Merged(reg, mask, value), reg, mask)
  {
  }

  lemma TurnedKeepsTheRest(reg: bv32, bit: bv32, on: bool)
    ensures SameOutside(Turned(reg, bit, on), reg, bit)
  {
    if on {
      OrKeepsTheRest(reg, bit);
    }
  }

  lemma OrKeepsTheRest(reg: bv32, bit: bv32)
    ensures (reg | bit) & !bit == reg & !bit
  {
  }

  /** Bit `n` of a word. */
  predicate Bit(w: bv32, n: bv5) {
    (w >> n) & 1 == 1
  }

  /** RCC_CR: HSION bit 0, HSEON 16, HSEBYP 18, PLLON 24. */
  function DecodeCr(w: bv32): Cr {
    Cr(Bit(w, 0), Bit(w, 16), Bit(w, 18), Bit(w, 24))
  }

  lemma CrHsion(w: bv32, on: bool)
    ensures DecodeCr(Turned(w, HSION, on)) == DecodeCr(w).(hsion := on)
    ensures SameOutside(Turned(w, HSION, on), w, 0x0000_0001)
  {
    CrHsionField(w, on);
    hide DecodeCr;
    TurnedKeepsTheRest(w, HSION, on);
  }

  lemma CrHsionField(w: bv32, on: bool)
    ensures DecodeCr(Turned(w, HSION, on)) == DecodeCr(w).(hsion := on)
  {
  }

  lemma CrHseon(w: bv32, on: bool)
    ensures DecodeCr(Turned(w, HSEON, on)) == DecodeCr(w).(hseon := on)
    ensures SameOutside(Turned(w, HSEON, on), w, 0x0001_0000)
  {
    CrHseonField(w, on);
    hide DecodeCr;
    TurnedKeepsTheRest(w, HSEON, on);
  }

  lemma CrHseonField(w: bv32, on: bool)
    ensures DecodeCr(Turned(w, HSEON, on)) == DecodeCr(w).(hseon := on)
  {
  }

  lemma CrPllon(w: bv32, on: bool)
    ensures DecodeCr(Turned(w, PLLON, on)) == DecodeCr(w).(pllon := on)
    ensures SameOutside(Turned(w, PLLON, on), w, 0x0100_0000)
  {
    CrPllonField(w, on);
    hide DecodeCr;
    TurnedKeepsTheRest(w, PLLON, on);
  }

  lemma CrPllonField(w: bv32, on: bool)
    ensures DecodeCr(Turned(w, PLLON, on)) == DecodeCr(w).(pllon := on)
  {
  }

  lemma CrHsebyp(w: bv32, bypass: bv32)
    requires bypass == 0 || bypass == 0x0004_0000
    ensures DecodeCr(Merged(w, HSEBYP, bypass)) == DecodeCr(w).(hsebyp := bypass != 0)
    ensures SameOutside(Merged(w, HSEBYP, bypass), w, 0x0004_0000)
  {
    CrHsebypField(w, bypass);
    hide DecodeCr;
    MergedKeepsTheRest(w, HSEBYP, bypass);
  }

  lemma CrHsebypField(w: bv32, bypass: bv32)
    requires bypass == 0 || bypass == 0x0004_0000
    ensures DecodeCr(Merged(w, HSEBYP, bypass)) == DecodeCr(w).(hsebyp := bypass != 0)
  {
  }

  /* ---- multi-bit fields ---- */

  // RCC_PLLCFGR: PLLM bits 5:0, PLLN 14:6, PLLP 17:16, PLLSRC 22.
  function M(w: bv32): bv6 { ((w >> 0) & 0x3F) as bv6 }
  function N(w: bv32): bv9 { ((w >> 6) & 0x1FF) as bv9 }
  function P(w: bv32): bv2 { ((w >> 16) & 0x3) as bv2 }

  function DecodePllcfgr(w: bv32): Pllcfgr {
    Pllcfgr(if Bit(w, 22) then Hse else Hsi, M(w) as int, N(w) as int, P(w) as int)
  }

  /** rccPllConfig(): one store for four fields. */
  function PllWord(w: bv32, source: bv32, m: bv32, n: bv32, p: bv32): bv32 {
    Merged(w, PLLM | PLLN | PLLP | PLLSRC, (m << 0) | (n << 6) | (p << 16) | source)
  }

  lemma PllFields(w: bv32, source: bv32, m: bv32, n: bv32, p: bv32)
    requires m < 64 && n < 512 && p < 4 && (source == 0 || source == 0x0040_0000)
    ensures var x := PllWord(w, source, m, n, p);
      M(x) == m as bv6 && N(x) == n as bv9 && P(x) == p as bv2 && (Bit(x, 22) <==> source != 0)
  {
  }

  lemma PllKeepsTheRest(w: bv32, source: bv32, m: bv32, n: bv32, p: bv32)
    requires m < 64 && n < 512 && p < 4 && (source == 0 || source == 0x0040_0000)
    ensures SameOutside(PllWord(w, source, m, n, p), w, 0x0043_7FFF)
  {
  }

  lemma PllcfgrWrite(w: bv32, source: bv32, m: bv32, n: bv32, p: bv32)
    requires m < 64 && n < 512 && p < 4 && (source == 0 || source == 0x0040_0000)
    ensures DecodePllcfgr(PllWord(w, source, m, n, p))
         == Pllcfgr(if source == 0 then Hsi else Hse, (m as bv6) as int, (n as bv9) as int, (p as bv2) as int)
    ensures SameOutside(PllWord(w, source, m, n, p), w, 0x0043_7FFF)
  {
    PllKeepsTheRest(w, source, m, n, p);
    PllFields(w, source, m, n, p);
    hide PllWord, M, N, P, SameOutside, Bit;
  }

  // RCC_CFGR: SW bits 1:0, SWS 3:2, HPRE 7:4, PPRE1 12:10, PPRE2 15:13.
  function Sw(w: bv32): bv2 { ((w >> 0) & 0x3) as bv2 }
  function Sws(w: bv32): bv2 { ((w >> 2) & 0x3) as bv2 }
  function Hpre(w: bv32): bv4 { ((w >> 4) & 0xF) as bv4 }
  function Ppre1(w: bv32): bv3 { ((w >> 10) & 0x7) as bv3 }
  function Ppre2(w: bv32): bv3 { ((w >> 13) & 0x7) as bv3 }

  function DecodeCfgr(w: bv32): Cfgr {
    Cfgr(Sw(w) as int, Hpre(w) as int, Ppre1(w) as int, Ppre2(w) as int)
  }

  function PrescalerWord(w: bv32, hpre: bv32, ppre1: bv32, ppre2: bv32): bv32 {
    Merged(w, HPRE | PPRE1 | PPRE2, (hpre << 4) | (ppre1 << 10) | (ppre2 << 13))
  }

  lemma PrescalerFields(w: bv32, hpre: bv32, ppre1: bv32, ppre2: bv32)
    requires hpre < 16 && ppre1 < 8 && ppre2 < 8
    ensures var x := PrescalerWord(w, hpre, ppre1, ppre2);
      && Hpre(x) == hpre as bv4 && Ppre1(x) == ppre1 as bv3 && Ppre2(x) == ppre2 as bv3
      && Sw(x) == Sw(w) && Sws(x) == Sws(w)
  {
  }

  /** rccBusPrescalerConfig(): the request and the status of the switch stay. */
  lemma PrescalersKeepTheRest(w: bv32, hpre: bv32, ppre1: bv32, ppre2: bv32)
    requires hpre < 16 && ppre1 < 8 && ppre2 < 8
    ensures SameOutside(PrescalerWord(w, hpre, ppre1, ppre2), w, 0x0000_FCF0)
  {
  }

  lemma PrescalerWrite(w: bv32, hpre: bv32, ppre1: bv32, ppre2: bv32)
    requires hpre < 16 && ppre1 < 8 && ppre2 < 8
    ensures var x := PrescalerWord(w, hpre, ppre1, ppre2);
      && Sws(x) == Sws(w)
      && DecodeCfgr(x)
        == DecodeCfgr(w).(hpre := (hpre as bv4) as int, ppre1 := (ppre1 as bv3) as int, ppre2 := (ppre2 as bv3) as int)
    ensures SameOutside(PrescalerWord(w, hpre, ppre1, ppre2), w, 0x0000_FCF0)
  {
    PrescalersKeepTheRest(w, hpre, ppre1, ppre2);
    PrescalerFields(w, hpre, ppre1, ppre2);
    hide PrescalerWord, Sw, Sws, Hpre, Ppre1, Ppre2, SameOutside;
  }

  lemma SwFields(w: bv32, source: bv32)
    requires source < 4
    ensures var x := Merged(w, SW, source << 0);
      Sw(x) == source as bv2 && Sws(x) == Sws(w) && Hpre(x) == Hpre(w) && Ppre1(x) == Ppre1(w) && Ppre2(x) == Ppre2(w)
  {
  }

  /** rccSysclkSwitch(): only the request moves. */
  lemma SwKeepsTheRest(w: bv32, source: bv32)
    requires source < 4
    ensures SameOutside(Merged(w, SW, source << 0), w, 0x0000_0003)
  {
  }

  lemma SwWrite(w: bv32, source: bv32)
    requires source < 4
    ensures var x := Merged(w, SW, source << 0);
      Sws(x) == Sws(w) && DecodeCfgr(x) == DecodeCfgr(w).(sw := (source as bv2) as int)
    ensures SameOutside(Merged(w, SW, source << 0), w, 0x0000_0003)
  {
    SwKeepsTheRest(w, source);
    SwFields(w, source);
    hide Merged, Sw, Sws, Hpre, Ppre1, Ppre2, SameOutside;
  }

  // PWR_CR: VOS bits 15:14, ODEN 16, ODSWEN 17.
  function Vos(w: bv32): bv2 { ((w >> 14) & 0x3) as bv2 }

  function DecodePwrCr(w: bv32): PwrCr {
    PwrCr(Vos(w) as int, Bit(w, 16), Bit(w, 17))
  }

  lemma VosKeepsTheRest(w: bv32, vos: bv32)
    requires vos < 4
    ensures SameOutside(Merged(w, VOS, vos << 14), w, 0x0000_C000)
  {
  }

  lemma VosWrite(w: bv32, vos: bv32)
    requires vos < 4
    ensures DecodePwrCr(Merged(w, VOS, vos << 14)) == DecodePwrCr(w).(vos := (vos as bv2) as int)
    ensures SameOutside(Merged(w, VOS, vos << 14), w, 0x0000_C000)
  {
    VosKeepsTheRest(w, vos);
    var x := Merged(w, VOS, vos << 14);
    assert Vos(x) == vos as bv2 && Bit(x, 16) == Bit(w, 16) && Bit(x, 17) == Bit(w, 17);
    hide Merged, Vos, SameOutside, Bit;
  }

  lemma OdenKeepsTheRest(w: bv32)
    ensures SameOutside(w | ODEN, w, 0x0001_0000)
  {
  }

  lemma OdenWrite(w: bv32)
    ensures DecodePwrCr(w | ODEN) == DecodePwrCr(w).(oden := true)
    ensures SameOutside(w | ODEN, w, 0x0001_0000)
  {
    OdenKeepsTheRest(w);
    assert Vos(w | ODEN) == Vos(w) && Bit(w | ODEN, 16) && Bit(w | ODEN, 17) == Bit(w, 17);
    hide Vos, SameOutside, Bit;
  }

  lemma OdswenKeepsTheRest(w: bv32)
    ensures SameOutside(w | ODSWEN, w, 0x0002_0000)
  {
  }

  lemma OdswenWrite(w: bv32)
    ensures DecodePwrCr(w | ODSWEN) == DecodePwrCr(w).(odswen := true)
    ensures SameOutside(w | ODSWEN, w, 0x0002_0000)
  {
    OdswenKeepsTheRest(w);
    assert Vos(w | ODSWEN) == Vos(w) && Bit(w | ODSWEN, 17) && Bit(w | ODSWEN, 16) == Bit(w, 16);
    hide Vos, SameOutside, Bit;
  }

  // FLASH_ACR: LATENCY bits 3:0, PRFTEN 8, ICEN 9, DCEN 10.
  function Latency(w: bv32): bv4 { ((w >> 0) & 0xF) as bv4 }

  function DecodeAcr(w: bv32): Acr {
    Acr(Latency(w) as int, Bit(w, 8), Bit(w, 9), Bit(w, 10))
  }

  lemma LatencyFields(w: bv32, latency: bv32)
    requires latency < 16
    ensures var x := Merged(w, LATENCY, latency << 0);
      Latency(x) == latency as bv4 && Bit(x, 8) == Bit(w, 8) && Bit(x, 9) == Bit(w, 9) && Bit(x, 10) == Bit(w, 10)
  {
  }

  lemma LatencyKeepsTheRest(w: bv32, latency: bv32)
    requires latency < 16
    ensures SameOutside(Merged(w, LATENCY, latency << 0), w, 0x0000_000F)
  {
  }

  lemma LatencyWrite(w: bv32, latency: bv32)
    requires latency < 16
    ensures DecodeAcr(Merged(w, LATENCY, latency << 0)) == DecodeAcr(w).(latency := (latency as bv4) as int)
    ensures SameOutside(Merged(w, LATENCY, latency << 0), w, 0x0000_000F)
  {
    LatencyKeepsTheRest(w, latency);
    LatencyFields(w, latency);
    hide Merged, Latency, SameOutside, Bit;
  }

  /** flashSetLatency()'s read-back compares the field in place; so does the model. */
  lemma LatencyReadBack(back: bv32, latency: bv32)
    requires latency < 16
    ensures back & LATENCY == latency << 0 <==> Latency(back) == latency as bv4
  {
  }

  lemma CachesKeepTheRest(w: bv32)
    ensures SameOutside(w | PRFTEN | ICEN | DCEN, w, 0x0000_0700)
  {
  }

  lemma CachesFields(w: bv32)
    ensures var x := w | PRFTEN | ICEN | DCEN; Latency(x) == Latency(w) && Bit(x, 8) && Bit(x, 9) && Bit(x, 10)
  {
  }

  lemma CachesWrite(w: bv32)
    ensures DecodeAcr(w | PRFTEN | ICEN | DCEN) == DecodeAcr(w).(prften := true, icen := true, dcen := true)
    ensures SameOutside(w | PRFTEN | ICEN | DCEN, w, 0x0000_0700)
  {
    CachesKeepTheRest(w);
    CachesFields(w);
    hide Latency, SameOutside, Bit;
  }
}
