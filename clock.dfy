/**
 * The clock controller of the Zynq UltraScale+ bitstream loader: the layout of
 * the PL clock, PLL and ACPU control words, the register offset tables of the
 * CRL_APB and CRF_APB blocks, the setters that rewrite fields of those words in
 * place, the index and source checks made before a PLL is read, and the
 * integer divisor logic of `setPLClock`.
 *
 * The two register blocks, mapped from physical memory in the source, are two
 * arrays of 64 32-bit words (0x100 bytes each); a register is named by its
 * block and byte offset, and a NULL entry of the PLL tables by `NullRegister`.
 * A `uint8_t` field value is a `bv8` where it is written into a word, and a
 * bounded integer where the source does arithmetic with it.
 */
module Clock {
  import opened Common

  // ---------------------------------------------------------------------
  // Constants and offset tables
  // ---------------------------------------------------------------------

  const CRL_APB_ADDRESS: int := 0xFF5E0000
  const CRF_APB_ADDRESS: int := 0xFD1A0000
  const BASE_SIZE: int := 0x100
  const CRX_APB_SRC_DEFAULT: bv32 := 0

  /** Byte offsets in CRL_APB. */
  const IOPLL_CTRL_OFF: int := 0x20
  const RPLL_CTRL_OFF: int := 0x30
  const PL_REF_CTRL_OFFS: seq<int> := [0xC0, 0xC4, 0xC8, 0xCC]

  /** Byte offsets in CRF_APB. */
  const APLL_CTRL_OFF: int := 0x20
  const DPLL_CTRL_OFF: int := 0x2C
  const VPLL_CTRL_OFF: int := 0x38
  const ACPU_CTRL_OFF: int := 0x60

  /** The upper limit of both PL clock divisors. */
  const DIV_MAX: int := 63

  /** The largest division two divisors in range reach, 63 * 63. */
  const MAX_PRODUCT: int := 3969

  datatype Block = Crl | Crf

  /** A control register, or a NULL entry of a register table. */
  datatype RegRef = Register(block: Block, offset: int) | NullRegister

  /** A register that lies, word-aligned, inside its mapped block. */
  predicate Mapped(r: RegRef) {
    r.Register? && 0 <= r.offset < BASE_SIZE && r.offset % 4 == 0
  }

  /** `pl_clk_ctrls[k]`: PL clock k's control register. */
  function PlClockRegister(k: int): (r: RegRef)
    requires 0 <= k < 4
    ensures Mapped(r) && r.block == Crl && r.offset == 0xC0 + 4 * k
  {
    Register(Crl, PL_REF_CTRL_OFFS[k])
  }

  /** `pl_pll_ctrls[src]`: the PLL behind PL source index src (IOPLL, none, RPLL, DPLL). */
  function PlPllRegister(src: bv32): (r: RegRef)
    requires src < 4
    ensures r.NullRegister? <==> src == 1
    ensures r.Register? ==> Mapped(r) && r.offset < 0xC0
  {
    if src == 0 then Register(Crl, IOPLL_CTRL_OFF)
    else if src == 1 then NullRegister
    else if src == 2 then Register(Crl, RPLL_CTRL_OFF)
    else Register(Crf, DPLL_CTRL_OFF)
  }

  /** `ps_pll_ctrls[src]`: the PLL behind PS source index src (APLL, none, DPLL, VPLL). */
  function PsPllRegister(src: bv32): (r: RegRef)
    requires src < 4
    ensures r.NullRegister? <==> src == 1
    ensures r.Register? ==> Mapped(r) && r.block == Crf
  {
    if src == 0 then Register(Crf, APLL_CTRL_OFF)
    else if src == 1 then NullRegister
    else if src == 2 then Register(Crf, DPLL_CTRL_OFF)
    else Register(Crf, VPLL_CTRL_OFF)
  }

  /** `ps_clk_ctrls`: the ACPU clock control register. */
  const ACPU_REGISTER: RegRef := Register(Crf, ACPU_CTRL_OFF)

  /** The PL clock registers and the PL PLL registers are distinct registers. */
  lemma PlTablesApart(k: int, src: bv32)
    requires 0 <= k < 4 && src < 4
    ensures PlPllRegister(src) != PlClockRegister(k)
    ensures Mapped(ACPU_REGISTER) && ACPU_REGISTER != PlClockRegister(k)
  {
  }

  // ---------------------------------------------------------------------
  // Control-word layouts
  // ---------------------------------------------------------------------

  /** PL clock control word: srcsel bits 0-2, divisor0 bits 8-13, divisor1 bits 16-21, clkact bit 24. */
  function ClkSrcsel(w: bv32): (f: bv32)
    ensures f < 8
  {
    w & 0x7
  }

  function ClkDivisor0(w: bv32): (f: bv8)
    ensures f < 64
  {
    ((w >> 8) & 0x3F) as bv8
  }

  function ClkDivisor1(w: bv32): (f: bv8)
    ensures f < 64
  {
    ((w >> 16) & 0x3F) as bv8
  }

  function ClkAct(w: bv32): (f: bv32)
    ensures f <= 1
  {
    (w >> 24) & 1
  }

  /** PLL control word: fbdiv bits 8-14, div2 bit 16, pre_src bits 20-22. */
  function PllFbdiv(w: bv32): (f: bv32)
    ensures f < 128
  {
    (w >> 8) & 0x7F
  }

  function PllDiv2(w: bv32): (f: bv32)
    ensures f <= 1
  {
    (w >> 16) & 1
  }

  function PllPreSrc(w: bv32): (f: bv32)
    ensures f < 8
  {
    (w >> 20) & 0x7
  }

  /**
   * ACPU control word (`arm_bitfield_t`): srcsel bits 0-2, divisor0 bits 8-13.
   * The srcsel field sits where the PL clock word's does, but the two words are
   * different registers with different layouts above bit 13 (the ACPU word has
   * no divisor1 and no clkact), so each layout keeps its own accessors.
   */
  function ArmSrcsel(w: bv32): (f: bv32)
    ensures f < 8
  {
    w & 0x7
  }

  function ArmDivisor0(w: bv32): (f: bv32)
    ensures f < 64
  {
    (w >> 8) & 0x3F
  }

  const DIVISOR_BITS: bv32 := 0x013F_3F00
  const PL_BITS: bv32 := 0x013F_3F07
  const PLL_BITS: bv32 := 0x0071_7F00

  /**
   * `setPLDivs` on one word: both divisors, each truncated to its 6-bit field,
   * and clkact set; srcsel and every unused bit keep their values.
   */
  function WithDivisors(w: bv32, div0: bv8, div1: bv8): (r: bv32)
    ensures ClkDivisor0(r) == div0 & 0x3F && ClkDivisor1(r) == div1 & 0x3F && ClkAct(r) == 1
    ensures ClkSrcsel(r) == ClkSrcsel(w)
    ensures r & !DIVISOR_BITS == w & !DIVISOR_BITS
  {
    (w & !DIVISOR_BITS) | ((div0 & 0x3F) as bv32 << 8) | ((div1 & 0x3F) as bv32 << 16) | (1 << 24)
  }

  /** `setPLregs` on one word: srcsel (3 bits), clkact and both divisors; every other bit kept. */
  function WithPlFields(w: bv32, div0: bv8, div1: bv8, clkSrc: bv8): (r: bv32)
    ensures ClkDivisor0(r) == div0 & 0x3F && ClkDivisor1(r) == div1 & 0x3F && ClkAct(r) == 1
    ensures ClkSrcsel(r) == (clkSrc & 0x7) as bv32
    ensures r & !PL_BITS == w & !PL_BITS
  {
    (w & !PL_BITS) | (clkSrc & 0x7) as bv32 | ((div0 & 0x3F) as bv32 << 8)
      | ((div1 & 0x3F) as bv32 << 16) | (1 << 24)
  }

  /** `setPLLregs` on one word: fbdiv (7 bits), div2 (1 bit) and pre_src (3 bits); every other bit kept. */
  function WithPllFields(w: bv32, fbdiv: bv8, div2: bv8, preSrc: bv8): (r: bv32)
    ensures PllFbdiv(r) == (fbdiv & 0x7F) as bv32 && PllDiv2(r) == (div2 & 1) as bv32
    ensures PllPreSrc(r) == (preSrc & 0x7) as bv32
    ensures r & !PLL_BITS == w & !PLL_BITS
  {
    (w & !PLL_BITS) | ((fbdiv & 0x7F) as bv32 << 8) | ((div2 & 1) as bv32 << 16)
      | ((preSrc & 0x7) as bv32 << 20)
  }

  /** Divisors below 64 read back as written, whatever the word held before. */
  lemma DivisorsRoundTrip(w: bv32, div0: bv8, div1: bv8)
    requires div0 < 64 && div1 < 64
    ensures ClkDivisor0(WithDivisors(w, div0, div1)) == div0
    ensures ClkDivisor1(WithDivisors(w, div0, div1)) == div1
  {
  }

  /** Writing the same divisors twice is writing them once. */
  lemma DivisorsIdempotent(w: bv32, div0: bv8, div1: bv8)
    ensures WithDivisors(WithDivisors(w, div0, div1), div0, div1) == WithDivisors(w, div0, div1)
  {
  }

  /** `setPLregs` is `setPLDivs` plus the source selection. */
  lemma PlFieldsAddSource(w: bv32, div0: bv8, div1: bv8, clkSrc: bv8)
    ensures WithPlFields(w, div0, div1, clkSrc) == (WithDivisors(w, div0, div1) & !0x7) | (clkSrc & 0x7) as bv32
  {
  }

  // ---------------------------------------------------------------------
  // The register blocks
  // ---------------------------------------------------------------------

  /** The contents of both mapped blocks. */
  datatype RegisterFile = RegisterFile(crl: seq<bv32>, crf: seq<bv32>)

  predicate WellSized(s: RegisterFile) {
    |s.crl| == BASE_SIZE / 4 && |s.crf| == BASE_SIZE / 4
  }

  function ReadWord(s: RegisterFile, r: RegRef): bv32
    requires WellSized(s) && Mapped(r)
  {
    if r.block == Crl then s.crl[r.offset / 4] else s.crf[r.offset / 4]
  }

  /** The register file after the word of r has been replaced by w. */
  function Stored(s: RegisterFile, r: RegRef, w: bv32): (t: RegisterFile)
    requires WellSized(s) && Mapped(r)
    ensures WellSized(t) && ReadWord(t, r) == w
    ensures forall q | Mapped(q) && q != r :: ReadWord(t, q) == ReadWord(s, q)
  {
    if r.block == Crl then s.(crl := s.crl[r.offset / 4 := w])
    else s.(crf := s.crf[r.offset / 4 := w])
  }

  /** The PLL factors `get_pll_clk_mhz` multiplies the reference clock by: fbdiv / odiv2. */
  datatype PllFactors = PllFactors(fbdiv: bv32, odiv2: int)

  datatype ClockError =
    | InvalidPlIndex       // "Valid PL index is 0 - 3." / "Valid PL clock index is 0 - 3."
    | InvalidPllIndex      // "Valid PLL index is 0 - 3." (also thrown for a PL index above 3)
    | NullPll              // "Null pointer to PLL register." (or a store through it)
    | InvalidPllSource     // "Invalid PLL Source"
    | Divisor0OutOfRange   // "Frequency divider 0 value out of range."
    | Divisor1OutOfRange   // "Frequency divider 1 value out of range."
    | DivisionByZero       // an integer division by zero in the divisor search

  /**
   * The PLL source check of `get_pll_clk_mhz` as written: `!=` binds tighter
   * than `&`, so the test is `pre_src & (0x4 != 0)`, that is `pre_src & 1`.
   */
  predicate PreSrcRejectedAsWritten(preSrc: bv32) {
    preSrc & (if 0x4 != CRX_APB_SRC_DEFAULT then 1 else 0) != 0
  }

  /** The check as evidently intended: `(pre_src & 0x4) != CRX_APB_SRC_DEFAULT`. */
  predicate PreSrcRejected(preSrc: bv32) {
    preSrc & 0x4 != CRX_APB_SRC_DEFAULT
  }

  /** As written, the check rejects exactly the odd sources, whatever bit 2 holds. */
  lemma PreSrcCheckAsWritten(preSrc: bv32)
    ensures PreSrcRejectedAsWritten(preSrc) <==> preSrc & 1 == 1
    ensures PreSrcRejectedAsWritten(1) && !PreSrcRejected(1)
    ensures !PreSrcRejectedAsWritten(4) && PreSrcRejected(4)
  {
  }

  /** As intended, of the 3-bit pre_src values exactly 4..7 are rejected. */
  lemma PreSrcCheckIntended(preSrc: bv32)
    requires preSrc < 8
    ensures PreSrcRejected(preSrc) <==> preSrc >= 4
  {
  }

  /**
   * `get_pll_clk_mhz` up to the floating-point product: NULL throws, a
   * rejected source throws, otherwise fbdiv and the output divisor (2 when
   * div2 is set, else 1). `intended` selects the corrected source check.
   */
  function PllFactorsOf(s: RegisterFile, r: RegRef, intended: bool): (f: Result<PllFactors, ClockError>)
    requires WellSized(s) && (r.Register? ==> Mapped(r))
    ensures r.NullRegister? ==> f == Err(NullPll)
    ensures r.Register? ==> (f == Err(InvalidPllSource) <==>
              if intended then PreSrcRejected(PllPreSrc(ReadWord(s, r)))
              else PreSrcRejectedAsWritten(PllPreSrc(ReadWord(s, r))))
    ensures f.Ok? ==> f.value.fbdiv < 128 && f.value.odiv2 in {1, 2}
    ensures f.Ok? ==> r.Register? && var w := ReadWord(s, r);
              f.value == PllFactors(PllFbdiv(w), if PllDiv2(w) == 1 then 2 else 1)
  {
    if r.NullRegister? then Err(NullPll)
    else
      var w := ReadWord(s, r);
      var rejected := if intended then PreSrcRejected(PllPreSrc(w)) else PreSrcRejectedAsWritten(PllPreSrc(w));
      if rejected then Err(InvalidPllSource)
      else Ok(PllFactors(PllFbdiv(w), if PllDiv2(w) == 1 then 2 else 1))
  }

  /**
   * `get_pl_src_clk_mhz` up to the floating-point product: the index check,
   * the source index check, then the PLL that PL clock k runs from.
   */
  function PlSourceOf(s: RegisterFile, k: int, intended: bool): (f: Result<PllFactors, ClockError>)
    requires WellSized(s) && 0 <= k < 0x100
    ensures k > 3 ==> f == Err(InvalidPllIndex)
    ensures k <= 3 && ClkSrcsel(ReadWord(s, PlClockRegister(k))) > 3 ==> f == Err(InvalidPllIndex)
    ensures k <= 3 && ClkSrcsel(ReadWord(s, PlClockRegister(k))) == 1 ==> f == Err(NullPll)
    ensures f.Ok? ==> k <= 3 && ClkSrcsel(ReadWord(s, PlClockRegister(k))) in {0, 2, 3}
  {
    if k > 3 then Err(InvalidPllIndex)
    else
      var src := ClkSrcsel(ReadWord(s, PlClockRegister(k)));
      if src > 3 then Err(InvalidPllIndex)
      else PllFactorsOf(s, PlPllRegister(src), intended)
  }

  // ---------------------------------------------------------------------
  // The divisor logic of setPLClock
  // ---------------------------------------------------------------------

  function Abs(x: int): nat { if x < 0 then -x else x }

  /** What the automatic divisor search ends with. */
  datatype SearchOutcome = Found(div0: int, div1: int) | DividedByZero

  /**
   * The search loop from the state (div0_min, min_dist, div0, div1, dist) on,
   * as written: `product / div0_min` with `div0_min == 0` divides by zero,
   * `min_dist` is never lowered, a candidate div1 is truncated to `uint8_t`,
   * and the loop stops when dist is 0 or div0_min reaches 63.
   */
  function SearchFrom(product: int, div0Min: int, minDist: int, div0: int, div1: int, dist: int): SearchOutcome
    requires 0 <= div0Min <= DIV_MAX
    decreases DIV_MAX - div0Min
  {
    if dist == 0 then Found(div0, div1)
    else if div0Min == 0 then DividedByZero
    else
      var temp := product / div0Min;
      var dist' := Abs(product - div0Min * temp);
      var div0' := if dist' < minDist then div0Min else div0;
      var div1' := if dist' < minDist then ToU8(temp) else div1;
      if div0Min + 1 >= DIV_MAX then Found(div0', div1')
      else SearchFrom(product, div0Min + 1, minDist, div0', div1', dist')
  }

  /** The whole search, from `div0_min = 63 / product` (integer division). */
  function Search(product: u16): SearchOutcome {
    if product == 0 then DividedByZero
    else
      var start := DIV_MAX / product;
      var dist := Abs(product - start * DIV_MAX);
      SearchFrom(product, start, dist, start, DIV_MAX, dist)
  }

  /** From a non-zero div0_min on, the loop never divides by zero. */
  lemma {:induction false} SearchFromFinds(product: int, div0Min: int, minDist: int, div0: int, div1: int, dist: int)
    requires 1 <= div0Min <= DIV_MAX
    ensures SearchFrom(product, div0Min, minDist, div0, div1, dist).Found?
    decreases DIV_MAX - div0Min
  {
    if dist != 0 && div0Min + 1 < DIV_MAX {
      var temp := product / div0Min;
      var dist' := Abs(product - div0Min * temp);
      var div0' := if dist' < minDist then div0Min else div0;
      var div1' := if dist' < minDist then ToU8(temp) else div1;
      SearchFromFinds(product, div0Min + 1, minDist, div0', div1', dist');
    }
  }

  /** For any product above 63 the search starts with `div0_min = 0` and divides by zero. */
  lemma SearchDividesByZero(product: u16)
    requires product == 0 || product > DIV_MAX
    ensures Search(product) == DividedByZero
  {
    if product > DIV_MAX {
      assert DIV_MAX / product == 0;
    }
  }

  /** For a product in 1..63 the search never divides by zero. */
  lemma SearchFindsUpTo63(product: u16)
    requires 0 < product <= DIV_MAX
    ensures Search(product).Found?
  {
    var start := DIV_MAX / product;
    var dist := Abs(product - start * DIV_MAX);
    SearchFromFinds(product, start, dist, start, DIV_MAX, dist);
  }

  /** For a product of 1 (a request at or above the source clock) the search ends with div1 = 0. */
  lemma SearchOfOne()
    ensures Search(1) == Found(63, 0)
  {
  }

  /** `setPLClock`'s automatic search loop. */
  method SearchDivisors(product: u16) returns (s: SearchOutcome)
    ensures s == Search(product)
  {
    if product == 0 {
      return DividedByZero;
    }
    var div0Min := DIV_MAX / product;
    var dist := Abs(product - div0Min * DIV_MAX);
    var minDist := dist;
    var div0, div1 := div0Min, DIV_MAX;
    while dist != 0
      invariant 0 <= div0Min <= DIV_MAX
      invariant SearchFrom(product, div0Min, minDist, div0, div1, dist) == Search(product)
      decreases DIV_MAX - div0Min
    {
      if div0Min == 0 {
        return DividedByZero;
      }
      var div1Temp := product / div0Min;
      dist := Abs(product - div0Min * div1Temp);
      if dist < minDist {
        div0 := div0Min;
        div1 := ToU8(div1Temp);
      }
      div0Min := div0Min + 1;
      if div0Min >= DIV_MAX {
        break;
      }
    }
    s := Found(div0, div1);
  }

  /**
   * The divisors `setPLClock` settles on, as written, before they are stored:
   * the search when both are 0, `product / given` reduced modulo 256 when one
   * is given, the given pair otherwise; then both range checks. In the given
   * branch the quotient passes through `std::ceil` as a double, and converting
   * a double above 255 to `uint8_t` is undefined in C++; the reduction modulo
   * 256 is what the AArch64 conversion (to 32 bits, then the low byte) gives.
   */
  function PlannedDivisors(div0: u8, div1: u8, product: u16): (r: Result<(int, int), ClockError>)
    ensures r.Ok? ==> 1 <= r.value.0 <= DIV_MAX && 1 <= r.value.1 <= DIV_MAX
    ensures div0 != 0 && div1 != 0 ==> r == (if div0 > DIV_MAX then Err(Divisor0OutOfRange)
                                          else if div1 > DIV_MAX then Err(Divisor1OutOfRange)
                                          else Ok((div0, div1)))
  {
    var chosen :=
      if div0 == 0 && div1 == 0 then
        match Search(product)
        case DividedByZero => None
        case Found(a, b) => Some((a, b))
      else if div0 != 0 && div1 == 0 then Some((div0 as int, ToU8(product / div0)))
      else if div1 != 0 && div0 == 0 then Some((ToU8(product / div1), div1 as int))
      else Some((div0 as int, div1 as int));
    match chosen
    case None => Err(DivisionByZero)
    case Some(pair) =>
      var d0, d1 := pair.0, pair.1;
      if d0 <= 0 || d0 > DIV_MAX then Err(Divisor0OutOfRange)
      else if d1 <= 0 || d1 > DIV_MAX then Err(Divisor1OutOfRange)
      else Ok((d0, d1))
  }

  /**
   * With div0 given, the computed div1 is the floor of product / div0 (the
   * `std::ceil` is applied to an integer quotient), so div0 * div1 never
   * exceeds the product: the clock is at or above the one asked for.
   */
  lemma GivenDivisorFloors(div0: u8, product: u16)
    requires div0 != 0 && PlannedDivisors(div0, 0, product).Ok?
    ensures var d := PlannedDivisors(div0, 0, product).value;
            d.0 == div0 && d.0 * d.1 <= product
  {
    var q := product as int / div0 as int;
    var d1 := ToU8(q);
    assert PlannedDivisors(div0, 0, product).value == (div0 as int, d1);
    assert div0 as int * d1 <= product as int by {
      QuotientBelow(product as int, div0 as int);
      FloorBelow(q);
      MulMono(d1, q, div0 as int);
    }
  }

  /** Reduction to uint8_t never increases a natural number. */
  lemma FloorBelow(x: int)
    requires 0 <= x
    ensures ToU8(x) <= x
  {
  }

  /** The truncated quotient times the divisor does not exceed the dividend. */
  lemma QuotientBelow(a: int, b: int)
    requires 0 <= a && 0 < b
    ensures 0 <= a / b && b * (a / b) <= a
  {
  }

  /** Asked for a tenth of the source with div0 = 3, the result is 3 * 3 = 9: a faster clock. */
  lemma GivenDivisorTooFast()
    ensures PlannedDivisors(3, 0, 10) == Ok((3, 3))
  {
  }

  /**
   * A quotient of 300 is stored as 44 (the AArch64 result of the undefined
   * conversion of the double 300.0 to `uint8_t`), which passes the range check.
   */
  lemma GivenDivisorTruncated()
    ensures PlannedDivisors(1, 0, 300) == Ok((1, 44))
  {
  }

  // ---------------------------------------------------------------------
  // The divisor logic as evidently intended
  // ---------------------------------------------------------------------

  /** Division rounded up, what `std::ceil` of a real quotient would give. */
  function CeilDiv(p: nat, d: nat): (q: nat)
    requires d > 0
    ensures d * q >= p && (q > 0 ==> d * (q - 1) < p)
  {
    (p + d - 1) / d
  }

  /** Among the multiples of d, d * CeilDiv(p, d) is the least that reaches p. */
  lemma CeilDivLeast(p: nat, d: nat, b: int)
    requires d > 0 && d * b >= p
    ensures b >= CeilDiv(p, d)
  {
    var q := CeilDiv(p, d);
    if b < q {
      MulMono(b, q - 1, d);
    }
  }

  /** A divisor pair in 1..63 whose product reaches p: a clock at or below the one asked for. */
  predicate Covers(p: int, a: int, b: int) {
    1 <= a <= DIV_MAX && 1 <= b <= DIV_MAX && a * b >= p
  }

  lemma CoversBound(p: int, a: int, b: int)
    requires Covers(p, a, b)
    ensures p <= MAX_PRODUCT
  {
    MulMono(b, DIV_MAX, a);
    MulMono(a, DIV_MAX, DIV_MAX);
    assert DIV_MAX * DIV_MAX == MAX_PRODUCT;
  }

  /** The least divisor b in 1.. with d * b reaching p. */
  function LeastCover(p: nat, d: nat): (b: nat)
    requires d > 0
    ensures b >= 1 && d * b >= p
    ensures forall y | 1 <= y && d * y >= p :: b <= y
  {
    var q := CeilDiv(p, d);
    assert forall y | 1 <= y && d * y >= p :: q <= y by {
      forall y | 1 <= y && d * y >= p ensures q <= y {
        CeilDivLeast(p, d, y);
      }
    }
    if q == 0 then 1 else q
  }

  /**
   * The search as intended: over every div0 in 1..63 take the least div1 that
   * reaches the product, and keep the pair with the smallest product. It finds
   * a pair exactly when the product is at most 63 * 63, and no pair in range
   * comes closer to the product from above.
   */
  method BestDivisors(product: nat) returns (found: bool, div0: int, div1: int)
    ensures found <==> product <= MAX_PRODUCT
    ensures found ==> Covers(product, div0, div1)
    ensures found ==> forall a, b | Covers(product, a, b) :: div0 * div1 <= a * b
  {
    found, div0, div1 := false, 0, 0;
    var a := 1;
    while a <= DIV_MAX
      invariant 1 <= a <= DIV_MAX + 1
      invariant found ==> Covers(product, div0, div1)
      invariant forall x, y | Covers(product, x, y) && x < a :: found && div0 * div1 <= x * y
    {
      var b := LeastCover(product, a);
      if b <= DIV_MAX && (!found || a * b < div0 * div1) {
        found, div0, div1 := true, a, b;
      }
      forall x, y | Covers(product, x, y) && x == a
        ensures found && div0 * div1 <= x * y
      {
        MulMono(b, y, a);
      }
      a := a + 1;
    }
    if found {
      CoversBound(product, div0, div1);
    } else {
      assert !Covers(product, DIV_MAX, DIV_MAX);
    }
  }

  // ---------------------------------------------------------------------
  // The clock controller
  // ---------------------------------------------------------------------

  /** The divisor selection and range checks of `setPLClock`, as written. */
  method ChooseDivisors(div0: u8, div1: u8, product: u16) returns (r: Result<(int, int), ClockError>)
    ensures r == PlannedDivisors(div0, div1, product)
  {
    var d0, d1 := div0 as int, div1 as int;
    if d0 == 0 && d1 == 0 {
      var found := SearchDivisors(product);
      if found.DividedByZero? {
        return Err(DivisionByZero);
      }
      d0, d1 := found.div0, found.div1;
    } else if d0 != 0 && d1 == 0 {
      d1 := ToU8(product / d0);
    } else if d1 != 0 && d0 == 0 {
      d0 := ToU8(product / d1);
    }
    if d0 <= 0 || d0 > DIV_MAX {
      return Err(Divisor0OutOfRange);
    }
    if d1 <= 0 || d1 > DIV_MAX {
      return Err(Divisor1OutOfRange);
    }
    r := Ok((d0, d1));
  }

  /**
   * The divisor selection as evidently intended: a computed divisor is the
   * least that keeps the clock at or below the one asked for, the automatic
   * choice is the best pair in range, and the range checks see the
   * untruncated values. Two given divisors are used as they are.
   */
  method ChooseDivisorsCorrected(div0: u8, div1: u8, product: u16) returns (r: Result<(int, int), ClockError>)
    ensures r.Ok? ==> 1 <= r.value.0 <= DIV_MAX && 1 <= r.value.1 <= DIV_MAX
    ensures r.Ok? && (div0 == 0 || div1 == 0) ==> r.value.0 * r.value.1 >= product
    ensures r.Ok? && div0 == 0 && div1 == 0 ==>
              forall a, b | Covers(product, a, b) :: r.value.0 * r.value.1 <= a * b
    ensures div0 == 0 && div1 == 0 ==> (r.Ok? <==> product <= MAX_PRODUCT)
    ensures div0 != 0 && div1 == 0 ==>
              (r.Ok? <==> div0 <= DIV_MAX && LeastCover(product, div0) <= DIV_MAX)
              && (r.Ok? ==> r.value == (div0 as int, LeastCover(product, div0)))
    ensures div0 == 0 && div1 != 0 ==>
              (r.Ok? <==> div1 <= DIV_MAX && LeastCover(product, div1) <= DIV_MAX)
              && (r.Ok? ==> r.value == (LeastCover(product, div1), div1 as int))
    ensures div0 != 0 && div1 != 0 ==>
              (r.Ok? <==> div0 <= DIV_MAX && div1 <= DIV_MAX)
              && (r.Ok? ==> r.value == (div0 as int, div1 as int))
  {
    var d0, d1 := div0 as int, div1 as int;
    if d0 == 0 && d1 == 0 {
      var found;
      found, d0, d1 := BestDivisors(product);
      if !found {
        return Err(Divisor0OutOfRange);
      }
    } else if d0 != 0 && d1 == 0 {
      d1 := LeastCover(product, d0);
    } else if d1 != 0 && d0 == 0 {
      d0 := LeastCover(product, d1);
    }
    if d0 <= 0 || d0 > DIV_MAX {
      return Err(Divisor0OutOfRange);
    }
    if d1 <= 0 || d1 > DIV_MAX {
      return Err(Divisor1OutOfRange);
    }
    r := Ok((d0, d1));
  }

  /** The divisors `setPLClock` stores for PL clock k, or what it throws, as written. */
  function SetPLClockPlan(s: RegisterFile, k: u8, div0: u8, div1: u8, product: u16): (r: Result<(int, int), ClockError>)
    requires WellSized(s)
    ensures k > 3 ==> r == Err(InvalidPlIndex)
    ensures k <= 3 && PlSourceOf(s, k, false).Err? ==> r == Err(PlSourceOf(s, k, false).error)
    ensures r.Ok? ==> 1 <= r.value.0 <= DIV_MAX && 1 <= r.value.1 <= DIV_MAX
  {
    if k > 3 then Err(InvalidPlIndex)
    else match PlSourceOf(s, k, false)
    case Err(e) => Err(e)
    case Ok(_) => PlannedDivisors(div0, div1, product)
  }

  /** `UltrascaleClock`: the two mapped register blocks and the operations on them. */
  class UltrascaleClock {
    const crl: array<bv32>
    const crf: array<bv32>

    predicate Valid() {
      crl.Length == BASE_SIZE / 4 && crf.Length == BASE_SIZE / 4 && crl != crf
    }

    function State(): (s: RegisterFile)
      requires Valid()
      reads crl, crf
      ensures WellSized(s)
    {
      RegisterFile(crl[..], crf[..])
    }

    /** The register blocks as mapped, holding whatever the hardware holds. */
    constructor (crlWords: seq<bv32>, crfWords: seq<bv32>)
      requires |crlWords| == BASE_SIZE / 4 && |crfWords| == BASE_SIZE / 4
      ensures Valid() && State() == RegisterFile(crlWords, crfWords)
      ensures fresh(crl) && fresh(crf)
    {
      crl := new bv32[BASE_SIZE / 4](i requires 0 <= i < |crlWords| => crlWords[i]);
      crf := new bv32[BASE_SIZE / 4](i requires 0 <= i < |crfWords| => crfWords[i]);
    }

    /** `setPLDivs`: rewrites both divisors of PL clock k and enables it; nothing else changes. */
    method SetPLDivs(k: int, div0: bv8, div1: bv8)
      requires Valid() && 0 <= k < 4
      modifies crl
      ensures var r := PlClockRegister(k);
              State() == Stored(old(State()), r, WithDivisors(ReadWord(old(State()), r), div0, div1))
    {
      var i := PL_REF_CTRL_OFFS[k] / 4;
      crl[i] := WithDivisors(crl[i], div0, div1);
    }

    /** `getPLDivs`: the divisor fields of PL clock k. */
    method GetPLDivs(k: int) returns (div0: bv8, div1: bv8)
      requires Valid() && 0 <= k < 4
      ensures div0 < 64 && div1 < 64
      ensures var w := ReadWord(State(), PlClockRegister(k));
              div0 == ClkDivisor0(w) && div1 == ClkDivisor1(w)
      ensures forall w: bv32, d0: bv8, d1: bv8 | ReadWord(State(), PlClockRegister(k)) == WithDivisors(w, d0, d1)
                :: div0 == d0 & 0x3F && div1 == d1 & 0x3F
    {
      var w := crl[PL_REF_CTRL_OFFS[k] / 4];
      div0 := ClkDivisor0(w);
      div1 := ClkDivisor1(w);
    }

    /** `setPLregs` on PL clock k: source, divisors and enable; nothing else changes. */
    method SetPLregs(k: int, div0: bv8, div1: bv8, clkSrc: bv8)
      requires Valid() && 0 <= k < 4
      modifies crl
      ensures var r := PlClockRegister(k);
              State() == Stored(old(State()), r, WithPlFields(ReadWord(old(State()), r), div0, div1, clkSrc))
    {
      var i := PL_REF_CTRL_OFFS[k] / 4;
      crl[i] := WithPlFields(crl[i], div0, div1, clkSrc);
    }

    /** `setPLLregs` on the PLL register r: fbdiv, div2 and pre_src; nothing else changes. */
    method SetPLLregs(r: RegRef, fbdiv: bv8, div2: bv8, preSrc: bv8)
      requires Valid() && Mapped(r)
      modifies crl, crf
      ensures State() == Stored(old(State()), r, WithPllFields(ReadWord(old(State()), r), fbdiv, div2, preSrc))
    {
      var i := r.offset / 4;
      if r.block == Crl {
        crl[i] := WithPllFields(crl[i], fbdiv, div2, preSrc);
      } else {
        crf[i] := WithPllFields(crf[i], fbdiv, div2, preSrc);
      }
    }

    /**
     * `fullSetPLClock`: both indices are checked before anything is written;
     * source 1 has no PLL and the store through its NULL entry fails; otherwise
     * the PLL word of the source and then the PL clock word are rewritten.
     */
    method FullSetPLClock(k: u8, div0: bv8, div1: bv8, clkSrc: bv8, fbdiv: bv8, div2: bv8, preSrc: bv8)
      returns (error: Option<ClockError>)
      requires Valid()
      modifies crl, crf
      ensures clkSrc > 3 ==> error == Some(InvalidPllIndex)
      ensures clkSrc <= 3 && k > 3 ==> error == Some(InvalidPlIndex)
      ensures clkSrc == 1 && k <= 3 ==> error == Some(NullPll)
      ensures error.Some? ==> State() == old(State())
      ensures error.None? ==>
                && clkSrc in {0, 2, 3} && k <= 3
                && var pll, pl, s := PlPllRegister(clkSrc as bv32), PlClockRegister(k), old(State());
                   State() == Stored(Stored(s, pll, WithPllFields(ReadWord(s, pll), fbdiv, div2, preSrc)),
                                     pl, WithPlFields(ReadWord(s, pl), div0, div1, clkSrc))
    {
      if clkSrc > 3 {
        return Some(InvalidPllIndex);
      }
      if k > 3 {
        return Some(InvalidPlIndex);
      }
      var pll := PlPllRegister(clkSrc as bv32);
      if pll.NullRegister? {
        // the source dereferences the NULL entry here (undefined behaviour)
        return Some(NullPll);
      }
      ghost var s := State();
      SetPLLregs(pll, fbdiv, div2, preSrc);
      PlTablesApart(k, clkSrc as bv32);
      SetPLregs(k, div0, div1, clkSrc);
      error := None;
    }

    /**
     * `setPLClock`, as written, with the product `ceil(source MHz / requested
     * MHz)` given as an integer: the divisors are stored only when every check
     * passes, and the error is what `SetPLClockPlan` says.
     */
    method SetPLClock(k: u8, div0: u8, div1: u8, product: u16) returns (error: Option<ClockError>)
      requires Valid()
      modifies crl
      ensures var plan := SetPLClockPlan(old(State()), k, div0, div1, product);
              && error == (if plan.Err? then Some(plan.error) else None)
              && (plan.Err? ==> State() == old(State()))
              && (plan.Ok? ==> var r := PlClockRegister(k);
                    State() == Stored(old(State()), r,
                      WithDivisors(ReadWord(old(State()), r), plan.value.0 as bv8, plan.value.1 as bv8)))
    {
      if k > 3 {
        return Some(InvalidPlIndex);
      }
      var source := PlSourceOf(State(), k, false);
      if source.Err? {
        return Some(source.error);
      }
      var plan := ChooseDivisors(div0, div1, product);
      if plan.Err? {
        return Some(plan.error);
      }
      SetPLDivs(k, plan.value.0 as bv8, plan.value.1 as bv8);
      error := None;
    }

    /**
     * `setPLClock` as evidently intended: the corrected PLL source check,
     * divisors rounded up so the clock never exceeds the one asked for, the
     * best pair in range when neither is given, and no truncation before the
     * range checks.
     */
    method SetPLClockCorrected(k: u8, div0: u8, div1: u8, product: u16)
      returns (error: Option<ClockError>, d0: int, d1: int)
      requires Valid()
      modifies crl
      ensures error.None? ==> PlSourceOf(old(State()), k, true).Ok? && 1 <= d0 <= DIV_MAX && 1 <= d1 <= DIV_MAX
      ensures error.None? && (div0 == 0 || div1 == 0) ==> d0 * d1 >= product
      ensures error.None? && div0 == 0 && div1 == 0 ==> forall a, b | Covers(product, a, b) :: d0 * d1 <= a * b
      ensures error.None? && div0 != 0 ==> d0 == div0
      ensures error.None? && div1 != 0 ==> d1 == div1
      ensures PlSourceOf(old(State()), k, true).Ok? && div0 == 0 && div1 == 0 ==>
                (error.None? <==> product <= MAX_PRODUCT)
      ensures error.Some? ==> State() == old(State())
      ensures error.None? ==> var r := PlClockRegister(k);
                State() == Stored(old(State()), r, WithDivisors(ReadWord(old(State()), r), d0 as bv8, d1 as bv8))
    {
      d0, d1 := 0, 0;
      if k > 3 {
        return Some(InvalidPlIndex), d0, d1;
      }
      var source := PlSourceOf(State(), k, true);
      if source.Err? {
        return Some(source.error), d0, d1;
      }
      var plan := ChooseDivisorsCorrected(div0, div1, product);
      if plan.Err? {
        return Some(plan.error), d0, d1;
      }
      d0, d1 := plan.value.0, plan.value.1;
      SetPLDivs(k, d0 as bv8, d1 as bv8);
      error := None;
    }
  }
}
