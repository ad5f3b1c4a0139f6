/** Display timings in Haiku's form and in NVKMS's, and the conversions between them. */
module Timings {
  import opened Common

  type u16 = x: nat | x < 0x1_0000
  type u32 = x: nat | x < WORD

  // The three flags the conversions know, as the Haiku headers number them.
  const INTERLACED: bv32 := 0x1000_0000
  const POSITIVE_HSYNC: bv32 := 0x2000_0000
  const POSITIVE_VSYNC: bv32 := 0x4000_0000
  const KNOWN_FLAGS: bv32 := 0x7000_0000

  /** display_timing; the clock is in kHz. */
  datatype HaikuTiming = HaikuTiming(
    pixelClock: u32,
    hDisplay: u16, hSyncStart: u16, hSyncEnd: u16, hTotal: u16,
    vDisplay: u16, vSyncStart: u16, vSyncEnd: u16, vTotal: u16,
    flags: bv32)

  /** NvModeTimings; the clock is in Hz, the refresh rate in mHz. */
  datatype NvTiming = NvTiming(
    rrx1k: u32, pixelClockHz: u32,
    hVisible: u16, hSyncStart: u16, hSyncEnd: u16, hTotal: u16,
    vVisible: u16, vSyncStart: u16, vSyncEnd: u16, vTotal: u16,
    interlaced: bool, hSyncPos: bool, hSyncNeg: bool, vSyncPos: bool, vSyncNeg: bool)

  predicate IsInterlaced(t: HaikuTiming) {
    INTERLACED & t.flags != 0
  }

  /** The divisor of CalcRefreshRate. */
  function FrameTotal(t: HaikuTiming): nat {
    t.hTotal * t.vTotal
  }

  lemma FrameTotalIsPositive(t: HaikuTiming)
    ensures FrameTotal(t) > 0 <==> t.hTotal > 0 && t.vTotal > 0
  {
    if t.hTotal > 0 && t.vTotal > 0 {
      assert t.hTotal * t.vTotal >= 1 * t.vTotal;
    }
  }

  /** Fields of one interlaced frame count twice. */
  function Fields(interlaced: bool): nat {
    if interlaced then 2 else 1
  }

  /** The quotient of CalcRefreshRate before it is cut to 32 bits; the product fits in 64. */
  function FullRefreshRate(t: HaikuTiming): nat
    requires FrameTotal(t) > 0
  {
    Fields(IsInterlaced(t)) * 1000000 * t.pixelClock / FrameTotal(t)
  }

  function CalcRefreshRate(t: HaikuTiming): u32
    requires FrameTotal(t) > 0
  {
    FullRefreshRate(t) % WORD
  }

  function ToHaiku(n: NvTiming): HaikuTiming {
    HaikuTiming(
      n.pixelClockHz / 1000,
      n.hVisible, n.hSyncStart, n.hSyncEnd, n.hTotal,
      n.vVisible, n.vSyncStart, n.vSyncEnd, n.vTotal,
      (if n.interlaced then INTERLACED else 0)
        | (if n.hSyncPos then POSITIVE_HSYNC else 0)
        | (if n.vSyncPos then POSITIVE_VSYNC else 0))
  }

  function ToNvKms(t: HaikuTiming): NvTiming
    requires FrameTotal(t) > 0
  {
    NvTiming(
      CalcRefreshRate(t),
      t.pixelClock * 1000 % WORD,
      t.hDisplay, t.hSyncStart, t.hSyncEnd, t.hTotal,
      t.vDisplay, t.vSyncStart, t.vSyncEnd, t.vTotal,
      INTERLACED & t.flags != 0,
      POSITIVE_HSYNC & t.flags != 0, POSITIVE_HSYNC & t.flags == 0,
      POSITIVE_VSYNC & t.flags != 0, POSITIVE_VSYNC & t.flags == 0)
  }

  // -- Round trips --

  /** The flags that come back are the known ones among those that went in. */
  lemma KnownFlagsSurvive(t: HaikuTiming)
    requires FrameTotal(t) > 0
    ensures ToHaiku(ToNvKms(t)).flags == t.flags & KNOWN_FLAGS
  {
    var f := t.flags;
    assert INTERLACED & f == 0 || INTERLACED & f == INTERLACED;
    assert POSITIVE_HSYNC & f == 0 || POSITIVE_HSYNC & f == POSITIVE_HSYNC;
    assert POSITIVE_VSYNC & f == 0 || POSITIVE_VSYNC & f == POSITIVE_VSYNC;
    assert (INTERLACED & f) | (POSITIVE_HSYNC & f) | (POSITIVE_VSYNC & f) == f & KNOWN_FLAGS;
  }

  /** Haiku to NVKMS and back changes nothing exactly when the clock in Hz fits in 32 bits and no
      other flag is set. */
  lemma HaikuRoundTripIff(t: HaikuTiming)
    requires FrameTotal(t) > 0
    ensures ToHaiku(ToNvKms(t)) == t <==> t.pixelClock * 1000 < WORD && t.flags & KNOWN_FLAGS == t.flags
  {
    KnownFlagsSurvive(t);
  }

  /** A listed mode that a client hands back unchanged is recognised: only the first conversion
      loses anything. */
  lemma ListedTimingReturns(n: NvTiming)
    requires n.hTotal > 0 && n.vTotal > 0
    ensures FrameTotal(ToHaiku(n)) > 0
    ensures ToHaiku(ToNvKms(ToHaiku(n))) == ToHaiku(n)
  {
    FrameTotalIsPositive(ToHaiku(n));
    KnownFlagsSurvive(ToHaiku(n));
    FlagsAreKnown(n);
  }

  lemma FlagsAreKnown(n: NvTiming)
    ensures ToHaiku(n).flags & KNOWN_FLAGS == ToHaiku(n).flags
    ensures IsInterlaced(ToHaiku(n)) <==> n.interlaced
    ensures POSITIVE_HSYNC & ToHaiku(n).flags != 0 <==> n.hSyncPos
    ensures POSITIVE_VSYNC & ToHaiku(n).flags != 0 <==> n.vSyncPos
  {
  }

  function CeilDiv(a: nat, d: nat): nat
    requires d > 0
  {
    (a + d - 1) / d
  }

  lemma QuotientGap(a: nat, b: nat, g: nat, d: nat)
    requires d > 0 && b <= a <= b + g
    ensures b / d <= a / d <= b / d + CeilDiv(g, d)
  {
    DivisionBounds(a, d);
    DivisionBounds(b, d);
    DivisionBounds(g + d - 1, d);
    GapBetween(a, b, g, d, a / d, b / d, CeilDiv(g, d));
  }

  lemma DivisionBounds(a: nat, d: nat)
    requires d > 0
    ensures a / d * d <= a < a / d * d + d
  {
  }

  lemma GapBetween(a: nat, b: nat, g: nat, d: nat, qa: nat, qb: nat, qg: nat)
    requires d > 0 && b <= a <= b + g
    requires qa * d <= a < qa * d + d && qb * d <= b < qb * d + d && g <= qg * d
    ensures qb <= qa <= qb + qg
  {
    Sum(qa, 1, d);
    Below(qb, qa + 1, d);
    Sum(qb, qg, d);
    Sum(qb + qg, 1, d);
    Below(qa, qb + qg + 1, d);
  }

  lemma Sum(x: nat, y: nat, d: nat)
    ensures (x + y) * d == x * d + y * d
  {
  }

  lemma Below(x: nat, y: nat, d: nat)
    requires d > 0
    ensures x * d < y * d ==> x < y
  {
    if x >= y {
      Sum(y, x - y, d);
    }
  }

  /** NVKMS to Haiku and back loses less than one kHz of clock and keeps geometry and polarity; the
      negative sync flags become the complements of the positive ones. */
  lemma NvKmsRoundTrip(n: NvTiming)
    requires n.hTotal > 0 && n.vTotal > 0
    ensures FrameTotal(ToHaiku(n)) > 0
    ensures var b := ToNvKms(ToHaiku(n));
            && b == n.(rrx1k := b.rrx1k, pixelClockHz := b.pixelClockHz,
                       hSyncNeg := !n.hSyncPos, vSyncNeg := !n.vSyncPos)
            && b.pixelClockHz <= n.pixelClockHz < b.pixelClockHz + 1000
  {
    FrameTotalIsPositive(ToHaiku(n));
    FlagsAreKnown(n);
    ClockLoss(n.pixelClockHz);
  }

  lemma ClockLoss(hz: u32)
    ensures hz / 1000 * 1000 % WORD == hz / 1000 * 1000 <= hz < hz / 1000 * 1000 + 1000
  {
  }

  /** The refresh rate in mHz that the clock in Hz stands for. */
  function ExactRate(n: NvTiming): nat
    requires n.hTotal * n.vTotal > 0
  {
    (if n.interlaced then 2000 else 1000) * n.pixelClockHz / (n.hTotal * n.vTotal)
  }

  lemma RateGap(k: nat, hz: nat, d: nat)
    requires d > 0 && (k == 1 || k == 2)
    ensures k * 1000000 * (hz / 1000) / d <= k * 1000 * hz / d
         <= k * 1000000 * (hz / 1000) / d + CeilDiv(999000 * k, d)
  {
    if k == 1 {
      QuotientGap(1000 * hz, 1000000 * (hz / 1000), 999000, d);
    } else {
      QuotientGap(2000 * hz, 2000000 * (hz / 1000), 1998000, d);
    }
  }

  /** With k fields per frame and D pixels, the recomputed rate is below the exact one by at most
      999000 k / D, rounded up, and it is what ToNvKms stores unless 32 bits are too few. */
  lemma RecomputedRate(n: NvTiming)
    requires n.hTotal > 0 && n.vTotal > 0
    ensures FrameTotal(ToHaiku(n)) == n.hTotal * n.vTotal > 0
    ensures var rate := FullRefreshRate(ToHaiku(n));
            && rate <= ExactRate(n) <= rate + CeilDiv(if n.interlaced then 1998000 else 999000, n.hTotal * n.vTotal)
            && (ExactRate(n) < WORD ==> ToNvKms(ToHaiku(n)).rrx1k == rate)
  {
    FrameTotalIsPositive(ToHaiku(n));
    FlagsAreKnown(n);
    RateGap(Fields(n.interlaced), n.pixelClockHz, n.hTotal * n.vTotal);
  }
}
