/** G.711 mu-law companding of src/ulaw.c: a sign, a three-bit segment and a four-bit mantissa,
    complemented. Bit operations are written as arithmetic on the values they act on. */
module Ulaw {
  import opened MachineInts

  const BIAS := 0x84
  const CLIP := 32635

  // exp_lut: the position of the highest set bit, zero for zero.
  function ExpLut(i: int): (e: int)
    requires 0 <= i < 256
    ensures 0 <= e <= 7
  {
    if i < 2 then 0
    else if i < 4 then 1
    else if i < 8 then 2
    else if i < 16 then 3
    else if i < 32 then 4
    else if i < 64 then 5
    else if i < 128 then 6
    else 7
  }

  function ExpLutInv(e: int): int
    requires 0 <= e <= 7
  {
    match e
    case 0 => 0
    case 1 => 132
    case 2 => 396
    case 3 => 924
    case 4 => 1980
    case 5 => 4092
    case 6 => 8316
    case _ => 16764
  }

  // 1 << (e + 3), the width of a code in segment e
  function Width(e: int): (w: int)
    requires 0 <= e <= 7
    ensures w >= 8
  {
    match e
    case 0 => 8
    case 1 => 16
    case 2 => 32
    case 3 => 64
    case 4 => 128
    case 5 => 256
    case 6 => 512
    case _ => 1024
  }

  // (sample >> 8) & 0x80
  function SignBit(sample: Short): (sign: int)
    ensures sign == if sample < 0 then 0x80 else 0
  {
    sample / 256 % 256 / 128 * 128
  }

  function Magnitude(sample: Short): (m: int)
    ensures BIAS <= m <= CLIP + BIAS
  {
    var magnitude := if SignBit(sample) != 0 then -(sample as int) else sample;
    (if magnitude > CLIP then CLIP else magnitude) + BIAS
  }

  function Segment(m: int): (e: int)
    requires BIAS <= m <= CLIP + BIAS
    ensures 0 <= e <= 7
  {
    ExpLut(m / 128 % 256)
  }

  // One sample, with the zero code trapped to 0x02.
  function Encode(sample: Short): Byte {
    var m := Magnitude(sample);
    var exponent := Segment(m);
    var mantissa := m / Width(exponent) % 16;
    var ulawbyte := 255 - (SignBit(sample) + exponent * 16 + mantissa);
    if ulawbyte == 0 then 0x02 else ulawbyte
  }

  function Decode(ulawbyte: Byte): (sample: int)
    ensures -32124 <= sample <= 32124
  {
    var complement := 255 - ulawbyte;
    var exponent := complement / 16 % 8;
    var mantissa := complement % 16;
    var sample := ExpLutInv(exponent) + mantissa * Width(exponent);
    if complement / 128 != 0 then -sample else sample
  }

  method Linear2Ulaw(samples: array<Short>, ulawbytes: array<Byte>, nSamples: nat) returns (ret: int)
    requires nSamples <= samples.Length && nSamples <= ulawbytes.Length
    modifies ulawbytes
    ensures ret == 0
    ensures forall k :: 0 <= k < nSamples ==> ulawbytes[k] == Encode(samples[k])
    ensures forall k :: nSamples <= k < ulawbytes.Length ==> ulawbytes[k] == old(ulawbytes[k])
  {
    hide ExpLut, Width;
    for itr := 0 to nSamples
      invariant forall k :: 0 <= k < itr ==> ulawbytes[k] == Encode(samples[k])
      invariant forall k :: itr <= k < ulawbytes.Length ==> ulawbytes[k] == old(ulawbytes[k])
    {
      var sample: int := samples[itr];
      var sign := SignBit(samples[itr]);
      if sign != 0 {
        sample := -sample;
      }
      if sample > CLIP {
        sample := CLIP;
      }
      sample := sample + BIAS;
      assert sample == Magnitude(samples[itr]);
      var exponent := ExpLut(sample / 128 % 256);
      var mantissa := sample / Width(exponent) % 16;
      var ulawbyte := 255 - (sign + exponent * 16 + mantissa);
      if ulawbyte == 0 {
        ulawbyte := 0x02;
      }
      ulawbytes[itr] := ulawbyte;
    }
    ret := 0;
  }

  method Ulaw2Linear(ulawbytes: array<Byte>, samples: array<int>, nSamples: nat) returns (ret: int)
    requires nSamples <= samples.Length && nSamples <= ulawbytes.Length
    modifies samples
    ensures ret == 0
    ensures forall k :: 0 <= k < nSamples ==> samples[k] == Decode(ulawbytes[k])
    ensures forall k :: nSamples <= k < samples.Length ==> samples[k] == old(samples[k])
  {
    hide ExpLutInv, Width;
    for itr := 0 to nSamples
      invariant forall k :: 0 <= k < itr ==> samples[k] == Decode(ulawbytes[k])
      invariant forall k :: itr <= k < samples.Length ==> samples[k] == old(samples[k])
    {
      var ulawbyte := 255 - ulawbytes[itr];
      var exponent := ulawbyte / 16 % 8;
      var mantissa := ulawbyte % 16;
      var sample := ExpLutInv(exponent) + mantissa * Width(exponent);
      if ulawbyte / 128 != 0 {
        sample := -sample;
      }
      samples[itr] := sample;
    }
    ret := 0;
  }

  // ---------------------------------------------------------------- one sample

  function Abs(x: int): nat {
    if x < 0 then -x else x
  }

  function Mantissa(m: int): int
    requires BIAS <= m <= CLIP + BIAS
  {
    m / Width(Segment(m)) - 16
  }

  // The code of a biased magnitude: the interval of its segment that holds it.
  lemma CodeOfMagnitude(m: int)
    requires BIAS <= m <= CLIP + BIAS
    ensures var e := Segment(m);
            && 0 <= Mantissa(m) <= 15
            && m / Width(e) % 16 == Mantissa(m)
            && Width(e) * (16 + Mantissa(m)) <= m < Width(e) * (17 + Mantissa(m))
  {
  }

  /** The byte of a sample outside the trap, complemented: the sign, the position of the magnitude's
      highest bit, and the four bits after it, the magnitude clipped and biased as G.711 says. */
  lemma CodeLayout(sample: Short)
    requires -31612 < sample
    ensures var c := 255 - Encode(sample) as int;
            var size := if sample < 0 then -(sample as int) else sample;
            var m := (if size > 32635 then 32635 else size) + 132;
            var e, mantissa := c / 16 % 8, c % 16;
            && 0 <= c <= 255 && (c >= 128 <==> sample < 0)
            && Width(e) * (16 + mantissa) <= m < Width(e) * (17 + mantissa)
  {
    hide ExpLut, Width;
    var m := Magnitude(sample);
    MagnitudeIs(sample);
    CodeOfMagnitude(m);
    Trapped(sample);
    hide Magnitude;
    PartsOfComplement(SignBit(sample), Segment(m), Mantissa(m));
    hide SignBit, Segment, Mantissa;
  }

  lemma MagnitudeIs(sample: Short)
    ensures var size := if sample < 0 then -(sample as int) else sample;
            Magnitude(sample) == (if size > 32635 then 32635 else size) + 132
  {
  }

  lemma Widths(e: int)
    requires 0 <= e < 7
    ensures Width(0) == 8 && Width(e + 1) == 2 * Width(e)
  {
  }

  // Decoding a code gives the middle of its interval, less the bias.
  lemma MiddleOfInterval(e: int, mantissa: int)
    requires 0 <= e <= 7 && 0 <= mantissa <= 15
    ensures 2 * (ExpLutInv(e) + mantissa * Width(e) + BIAS) == Width(e) * (33 + 2 * mantissa)
  {
  }

  // Only the most negative interval encodes to zero.
  const TRAPPED := -31612

  function Middle(m: int): int
    requires BIAS <= m <= CLIP + BIAS
  {
    ExpLutInv(Segment(m)) + Mantissa(m) * Width(Segment(m))
  }

  lemma Trapped(sample: Short)
    ensures var m := Magnitude(sample);
            sample < 0 && Segment(m) == 7 && Mantissa(m) == 15 <==> sample <= TRAPPED
  {
  }

  // What comes back for a sample.
  lemma DecodeEncode(sample: Short)
    ensures Decode(Encode(sample)) ==
      if sample <= TRAPPED then -30076
      else if sample < 0 then -Middle(Magnitude(sample))
      else Middle(Magnitude(sample))
  {
    hide ExpLut, ExpLutInv, Width;
    var m := Magnitude(sample);
    var e, mantissa := Segment(m), Mantissa(m);
    CodeOfMagnitude(m);
    Trapped(sample);
    var complement := SignBit(sample) + e * 16 + mantissa;
    PartsOfComplement(SignBit(sample), e, mantissa);
    hide SignBit;
    if complement == 255 {
      TrappedCode();
    }
  }

  lemma PartsOfComplement(sign: int, e: int, mantissa: int)
    requires (sign == 0 || sign == 0x80) && 0 <= e <= 7 && 0 <= mantissa <= 15
    ensures var complement := sign + e * 16 + mantissa;
            && complement / 16 % 8 == e && complement % 16 == mantissa
            && (complement / 128 != 0 <==> sign != 0)
  {
  }

  lemma TrappedCode()
    ensures Decode(0x02) == -30076
  {
  }

  lemma HalfWidth(m: int)
    requires BIAS <= m <= CLIP + BIAS
    ensures 2 * Abs(m - BIAS - Middle(m)) <= Width(Segment(m))
    ensures 16 * Width(Segment(m)) <= m
  {
    hide ExpLut, ExpLutInv, Segment;
    CodeOfMagnitude(m);
    MiddleOfInterval(Segment(m), Mantissa(m));
  }

  /** Mu-law error bound: encoding and decoding moves a sample by at most a thirty-second of its
      biased magnitude, clipped samples included; exactly the samples of the trapped zero code
      move further. */
  lemma ErrorBound(sample: Short)
    ensures 32 * Abs(sample - Decode(Encode(sample))) <= Abs(sample) + BIAS <==> sample > TRAPPED
  {
    hide Middle, Encode, Decode, Segment, Width;
    DecodeEncode(sample);
    HalfWidth(Magnitude(sample));
    if Abs(sample) > CLIP {
      ClippedMiddle();
    }
  }

  lemma ClippedMiddle()
    ensures Middle(CLIP + BIAS) == 32124
  {
    assert Segment(32767) == 7;
  }

  // ---------------------------------------------------------------- order

  lemma MiddleMonotone(m: int, n: int)
    requires BIAS <= m <= n <= CLIP + BIAS
    ensures Middle(m) <= Middle(n)
  {
    hide ExpLut, ExpLutInv, Segment, Width;
    CodeOfMagnitude(m);
    CodeOfMagnitude(n);
    MiddleOfInterval(Segment(m), Mantissa(m));
    MiddleOfInterval(Segment(n), Mantissa(n));
    SegmentMonotone(m, n);
    if Segment(m) == Segment(n) {
      MantissaMonotone(Width(Segment(m)), m, n);
    }
    MiddlesInOrder(Width(Segment(m)), Mantissa(m), Width(Segment(n)), Mantissa(n));
  }

  lemma MiddlesInOrder(v: int, a: int, w: int, b: int)
    requires v >= 8 && 0 <= a <= 15 && 0 <= b <= 15
    requires (v == w && a <= b) || 2 * v <= w
    ensures v * (33 + 2 * a) <= w * (33 + 2 * b)
  {
    if 2 * v <= w {
      assert v * (33 + 2 * a) <= v * 63;
      assert w * 33 <= w * (33 + 2 * b);
    }
  }

  lemma MantissaMonotone(w: int, m: int, n: int)
    requires w >= 8 && m <= n
    ensures m / w <= n / w
  {
    var a, b := m / w, n / w;
    assert w * a <= m && n < w * (b + 1);
    ProductGrows(w, b + 1, a);
  }

  lemma ProductGrows(w: int, a: int, b: int)
    requires w > 0
    ensures a <= b ==> w * a <= w * b
  {
    assert w * b == w * a + w * (b - a);
  }

  lemma SegmentMonotone(m: int, n: int)
    requires BIAS <= m <= n <= CLIP + BIAS
    ensures Segment(m) <= Segment(n)
    ensures Segment(m) < Segment(n) ==> 2 * Width(Segment(m)) <= Width(Segment(n))
  {
  }

  // The samples whose code lies just above the one the trap moves codes onto.
  const OVERTAKEN := -30588

  /** Order is preserved between any two samples, except that a trapped sample comes back above
      those of the one interval the trap skips over. */
  lemma OrderPreserved(s: Short, t: Short)
    requires s <= t
    ensures Decode(Encode(s)) <= Decode(Encode(t)) <==> !(s <= TRAPPED < t <= OVERTAKEN)
  {
    hide Middle, Encode, Decode;
    DecodeEncode(s);
    DecodeEncode(t);
    if s >= 0 {
      MiddleMonotone(Magnitude(s), Magnitude(t));
    } else if t < 0 {
      MiddleMonotone(Magnitude(t), Magnitude(s));
      if t > TRAPPED {
        OvertakenMiddle(t);
      }
    } else {
      MiddleNonNegative(Magnitude(s));
      MiddleNonNegative(Magnitude(t));
    }
  }

  lemma OvertakenMiddle(t: Short)
    requires TRAPPED < t < 0
    ensures Middle(Magnitude(t)) > 30076 <==> t <= OVERTAKEN
  {
  }

  lemma MiddleNonNegative(m: int)
    requires BIAS <= m <= CLIP + BIAS
    ensures Middle(m) >= 0
  {
    hide ExpLut, ExpLutInv, Segment, Width;
    CodeOfMagnitude(m);
    MiddleOfInterval(Segment(m), Mantissa(m));
    assert Width(Segment(m)) * (33 + 2 * Mantissa(m)) >= 8 * 33;
  }

  // ---------------------------------------------------------------- codes

  lemma SegmentFromBounds(m: int, e: int)
    requires BIAS <= m <= CLIP + BIAS && 0 <= e <= 7
    requires 16 * Width(e) <= m < 32 * Width(e)
    ensures Segment(m) == e
  {
  }

  lemma QuotientFromBounds(m: int, w: int, q: int)
    requires w >= 8 && w * q <= m < w * (q + 1)
    ensures m / w == q
  {
    var r := m / w;
    assert w * r <= m < w * (r + 1);
    assert r < q ==> w * (r + 1) <= w * q;
    assert q < r ==> w * (q + 1) <= w * r;
  }

  lemma MiddleHasItsCode(e: int, mantissa: int)
    requires 0 <= e <= 7 && 0 <= mantissa <= 15
    ensures var m := ExpLutInv(e) + mantissa * Width(e) + BIAS;
            && BIAS <= m <= CLIP + BIAS
            && Segment(m) == e && m / Width(e) % 16 == mantissa
  {
    hide Segment;
    var m, w := ExpLutInv(e) + mantissa * Width(e) + BIAS, Width(e);
    MiddleOfInterval(e, mantissa);
    assert w * (33 + 2 * mantissa) == 2 * (w * (16 + mantissa)) + w;
    MiddleInClip(e, mantissa);
    hide ExpLutInv, Width;
    assert w * (17 + mantissa) == w * (16 + mantissa) + w;
    assert w * 16 <= w * (16 + mantissa) && w * (17 + mantissa) <= w * 32;
    SegmentFromBounds(m, e);
    QuotientFromBounds(m, w, 16 + mantissa);
  }

  lemma MiddleInClip(e: int, mantissa: int)
    requires 0 <= e <= 7 && 0 <= mantissa <= 15
    ensures 0 <= ExpLutInv(e) + mantissa * Width(e) <= 32124
  {
  }

  /** Re-encoding a decoded byte gives it back, except that minus zero becomes plus zero and the
      zero code becomes its trap. */
  lemma Reencode(b: Byte)
    ensures Encode(Decode(b)) == if b == 0x7F then 0xFF else if b == 0x00 then 0x02 else b
  {
    hide ExpLut, ExpLutInv, Width, Segment, SignBit;
    var complement := 255 - b;
    var e, mantissa := complement / 16 % 8, complement % 16;
    var middle := ExpLutInv(e) + mantissa * Width(e);
    ComplementParts(complement);
    MiddleHasItsCode(e, mantissa);
    ZeroMiddle(e, mantissa);
    assert Decode(b) == if complement / 128 != 0 then -middle else middle;
    assert Magnitude(Decode(b)) == middle + BIAS;
  }

  lemma ComplementParts(complement: Byte)
    ensures complement == (if complement / 128 != 0 then 128 else 0) + complement / 16 % 8 * 16 + complement % 16
  {
  }

  lemma ZeroMiddle(e: int, mantissa: int)
    requires 0 <= e <= 7 && 0 <= mantissa <= 15
    ensures ExpLutInv(e) + mantissa * Width(e) >= 0
    ensures ExpLutInv(e) + mantissa * Width(e) == 0 <==> e == 0 && mantissa == 0
  {
  }
}
