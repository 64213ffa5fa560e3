/** The IMA ADPCM codec of src/kodek.c: an adaptive quantizer whose encoder runs the decoder's
    own prediction loop. Floats are exact at these magnitudes, so every float of the source is an
    integer number of quarters here. */
module Kodek {
  import opened MachineInts

  // ---------------------------------------------------------------- tables

  function IndexAdjust(q: int): int
    requires 0 <= q <= 7
  {
    match q
    case 4 => 2
    case 5 => 4
    case 6 => 6
    case 7 => 8
    case _ => -1
  }

  function StepSize(i: int): (step: int)
    requires 0 <= i <= 88
    ensures 7 <= step <= 32767
  {
    match i
    case 0 => 7 case 1 => 8 case 2 => 9 case 3 => 10 case 4 => 11 case 5 => 12 case 6 => 13 case 7 => 14
    case 8 => 16 case 9 => 17 case 10 => 19 case 11 => 21 case 12 => 23 case 13 => 25 case 14 => 28 case 15 => 31
    case 16 => 34 case 17 => 37 case 18 => 41 case 19 => 45 case 20 => 50 case 21 => 55 case 22 => 60 case 23 => 66
    case 24 => 73 case 25 => 80 case 26 => 88 case 27 => 97 case 28 => 107 case 29 => 118 case 30 => 130 case 31 => 143
    case 32 => 157 case 33 => 173 case 34 => 190 case 35 => 209 case 36 => 230 case 37 => 253 case 38 => 279 case 39 => 307
    case 40 => 337 case 41 => 371 case 42 => 408 case 43 => 449 case 44 => 494 case 45 => 544 case 46 => 598 case 47 => 658
    case 48 => 724 case 49 => 796 case 50 => 876 case 51 => 963 case 52 => 1060 case 53 => 1166 case 54 => 1282 case 55 => 1411
    case 56 => 1552 case 57 => 1707 case 58 => 1878 case 59 => 2066 case 60 => 2272 case 61 => 2499 case 62 => 2749 case 63 => 3024
    case 64 => 3327 case 65 => 3660 case 66 => 4026 case 67 => 4428 case 68 => 4871 case 69 => 5358 case 70 => 5894 case 71 => 6484
    case 72 => 7132 case 73 => 7845 case 74 => 8630 case 75 => 9493 case 76 => 10442 case 77 => 11487 case 78 => 12635 case 79 => 13899
    case 80 => 15289 case 81 => 16818 case 82 => 18500 case 83 => 20350 case 84 => 22385 case 85 => 24623 case 86 => 27086 case 87 => 29794
    case _ => 32767
  }

  // ---------------------------------------------------------------- one sample

  // What the encoder and the decoder both carry from one sample to the next.
  datatype Predictor = Predictor(previous: Short, index: int) {
    predicate Valid() { 0 <= index <= 88 }
  }

  // The two halves of a four-bit code: three bits of magnitude under a sign bit.
  datatype Code = Code(negative: bool, q: int) {
    predicate Valid() { 0 <= q <= 7 }

    function Nibble(): (n: Nibble)
      requires Valid()
    {
      if negative then q + 8 else q
    }
  }

  function CodeOf(n: Nibble): (c: Code)
    ensures c.Valid()
  {
    if n >= 8 then Code(true, n - 8) else Code(false, n)
  }

  // The magnitude code of |delta|: the number of quarter steps that fit, at most seven. A
  // negative magnitude (the one delta whose negation wraps) matches no interval.
  function Quantized(delta: int, step: int): (q: int)
    requires step >= 7
    ensures 0 <= q <= 7
    ensures delta >= 0 ==> q * step <= 4 * delta
    ensures delta >= 0 && q < 7 ==> 4 * delta < (q + 1) * step
    ensures delta < 0 ==> q == 7
  {
    if delta < 0 then 7
    else if 4 * delta >= 7 * step then 7
    else QuarterSteps(delta, step, 0)
  }

  function QuarterSteps(delta: int, step: int, from: int): (q: int)
    requires step >= 7 && 0 <= from < 7
    requires from * step <= 4 * delta < 7 * step
    ensures from <= q < 7 && q * step <= 4 * delta < (q + 1) * step
    decreases 7 - from
  {
    if 4 * delta < (from + 1) * step then from else QuarterSteps(delta, step, from + 1)
  }

  // C's conversion of a float to an integer, on a number of quarters: toward zero.
  function TruncQuarters(x: int): int {
    if x >= 0 then x / 4 else -(-x / 4)
  }

  // roundOff(previous + b), with b in quarters, as the macro of src/kodek.h:12 expands when its
  // argument is not parenthesised: the test compares previous + b - previous + b with one half.
  function RoundOff(previous: int, b: int): int {
    var p := 4 * previous;
    if p + b - p + b >= 2 then TruncQuarters(p + b + 4) else TruncQuarters(p + b)
  }

  function Clamp(index: int): (i: int)
    ensures 0 <= i <= 88
  {
    if index < 0 then 0 else if index > 88 then 88 else index
  }

  // The next prediction: the previous one moved by q quarter steps, rounded as the source rounds.
  function Predicted(previous: Short, step: int, c: Code): Short {
    ToShort(RoundOff(previous, (if c.negative then -1 else 1) * (c.q * step)))
  }

  // One step of the prediction loop, the same in both directions.
  function Advance(p: Predictor, c: Code): (p': Predictor)
    requires p.Valid() && c.Valid()
    ensures p'.Valid()
  {
    Predictor(Predicted(p.previous, StepSize(p.index), c), Clamp(p.index + IndexAdjust(c.q)))
  }

  // The code of a sample: the sign and the quantized magnitude of its sixteen-bit difference
  // from the prediction.
  function Chosen(previous: Short, step: int, sample: Short): (c: Code)
    requires step >= 7
    ensures c.Valid()
  {
    var delta: int := ToShort(sample - previous);
    if delta < 0 then Code(true, Quantized(ToShort(-delta), step)) else Code(false, Quantized(delta, step))
  }

  function CodeFor(p: Predictor, sample: Short): (c: Code)
    requires p.Valid()
    ensures c.Valid()
  {
    Chosen(p.previous, StepSize(p.index), sample)
  }

  function EncodeStep(p: Predictor, sample: Short): (p': Predictor)
    requires p.Valid()
    ensures p'.Valid()
  {
    Advance(p, CodeFor(p, sample))
  }

  function DecodeStep(p: Predictor, n: Nibble): (p': Predictor)
    requires p.Valid()
    ensures p'.Valid()
  {
    Advance(p, CodeOf(n))
  }

  // ---------------------------------------------------------------- whole blocks

  // The encoder's predictor after the first i samples.
  function EncodeAt(p: Predictor, pcm: seq<Short>, i: nat): (p': Predictor)
    requires p.Valid() && i <= |pcm|
    ensures p'.Valid()
  {
    if i == 0 then p else EncodeStep(EncodeAt(p, pcm, i - 1), pcm[i - 1])
  }

  function CodeAt(p: Predictor, pcm: seq<Short>, i: nat): Nibble
    requires p.Valid() && i < |pcm|
  {
    CodeFor(EncodeAt(p, pcm, i), pcm[i]).Nibble()
  }

  function Codes(p: Predictor, pcm: seq<Short>): (codes: seq<Nibble>)
    requires p.Valid()
    ensures |codes| == |pcm|
    ensures forall i :: 0 <= i < |pcm| ==> codes[i] == CodeAt(p, pcm, i)
  {
    seq(|pcm|, i requires 0 <= i < |pcm| => CodeAt(p, pcm, i))
  }

  // What the encoder believes the decoder will play for sample i.
  function EncodeOutput(p: Predictor, pcm: seq<Short>, i: nat): Short
    requires p.Valid() && i < |pcm|
  {
    EncodeAt(p, pcm, i + 1).previous
  }

  function EncodeTrace(p: Predictor, pcm: seq<Short>): (trace: seq<Short>)
    requires p.Valid()
    ensures |trace| == |pcm|
    ensures forall i :: 0 <= i < |pcm| ==> trace[i] == EncodeOutput(p, pcm, i)
  {
    seq(|pcm|, i requires 0 <= i < |pcm| => EncodeOutput(p, pcm, i))
  }

  function DecodeAt(p: Predictor, codes: seq<Nibble>, i: nat): (p': Predictor)
    requires p.Valid() && i <= |codes|
    ensures p'.Valid()
  {
    if i == 0 then p else DecodeStep(DecodeAt(p, codes, i - 1), codes[i - 1])
  }

  function DecodeOutput(p: Predictor, codes: seq<Nibble>, i: nat): Short
    requires p.Valid() && i < |codes|
  {
    DecodeAt(p, codes, i + 1).previous
  }

  function DecodeTrace(p: Predictor, codes: seq<Nibble>): (trace: seq<Short>)
    requires p.Valid()
    ensures |trace| == |codes|
    ensures forall i :: 0 <= i < |codes| ==> trace[i] == DecodeOutput(p, codes, i)
  {
    seq(|codes|, i requires 0 <= i < |codes| => DecodeOutput(p, codes, i))
  }

  // Two codes to a byte, the first in the high half; the byte is a signed char.
  function PackByte(hi: Nibble, lo: Nibble): SByte {
    ToSByte(16 * hi + lo)
  }

  function Pack(codes: seq<Nibble>): (bytes: seq<SByte>)
    ensures |bytes| == |codes| / 2
    ensures forall k :: 0 <= k < |bytes| ==> bytes[k] == PackByte(codes[2 * k], codes[2 * k + 1])
  {
    seq(|codes| / 2, k requires 0 <= k < |codes| / 2 => PackByte(codes[2 * k], codes[2 * k + 1]))
  }

  // (byte >> 4) & 0x0f and byte & 0x0f; the shift copies the sign bit down and the mask drops it.
  function NibbleOf(byte: SByte, high: bool): Nibble {
    if high then (byte / 16) % 16 else byte % 16
  }

  function Unpack(bytes: seq<SByte>): (codes: seq<Nibble>)
    ensures |codes| == 2 * |bytes|
    ensures forall i :: 0 <= i < |codes| ==> codes[i] == NibbleOf(bytes[i / 2], i % 2 == 0)
  {
    seq(2 * |bytes|, i requires 0 <= i < 2 * |bytes| => NibbleOf(bytes[i / 2], i % 2 == 0))
  }

  // What adpcm_encode leaves in its counted output bytes. A left-over code of an odd block goes
  // to the first byte, whatever was there.
  function Encoded(p: Predictor, pcm: seq<Short>): (bytes: seq<SByte>)
    requires p.Valid()
    ensures |bytes| == |pcm| / 2
  {
    var codes := Codes(p, pcm);
    var bytes := Pack(codes);
    if |pcm| % 2 == 1 && |pcm| > 1 then bytes[0 := PackByte(codes[|pcm| - 1], 0)] else bytes
  }

  function Decoded(p: Predictor, bytes: seq<SByte>): (samples: seq<Short>)
    requires p.Valid()
    ensures |samples| == 2 * |bytes|
  {
    DecodeTrace(p, Unpack(bytes))
  }

  lemma SignedProduct(sign: int, step: int, q: int)
    requires sign == 1 || sign == -1
    ensures sign * step * q == sign * (q * step)
    ensures sign * q * step == sign * (q * step)
  {
  }

  // ---------------------------------------------------------------- the codec object

  class AdpcmState {
    var previous: Short
    var index: int
    var isNew: bool
    var qVal: int
    var mul: int          // in quarters
    var count: int
    var outputBuffer: int // the code waiting for its other half, already shifted up
    var isBuffered: bool

    ghost predicate Valid()
      reads this
    {
      0 <= index <= 88
    }

    ghost function Now(): (p: Predictor)
      reads this
    {
      Predictor(previous, index)
    }

    constructor ()
      ensures Valid() && Now() == Predictor(0, 0) && isNew
    {
      previous, index, isNew := 0, 0, true;
      qVal, mul, count, outputBuffer, isBuffered := 0, 0, 0, 0, false;
    }

    method Set(first: Short, startIndex: int)
      requires 0 <= startIndex <= 88
      modifies this
      ensures Valid() && Now() == Predictor(first, startIndex) && isNew
    {
      previous, index, isNew := first, startIndex, true;
    }

    // Walks the seven quarter-step intervals; min and max are numbers of quarters.
    method Quantize(delta: int, step: int)
      requires step >= 7
      modifies this`qVal, this`mul
      ensures qVal == Quantized(delta, step) && mul == qVal
    {
      var max := 0;
      qVal := 0;
      while qVal < 7
        invariant 0 <= qVal <= 7 && max == qVal
        invariant delta >= 0 ==> qVal * step <= 4 * delta
      {
        var min := max;
        max := qVal + 1;
        if min * step <= 4 * delta && 4 * delta < max * step {
          mul := min;
          QuantizedUnique(delta, step, qVal);
          return;
        }
        qVal := qVal + 1;
      }
      qVal := 7;
      mul := 7;
    }

    // One pass of the encoding loop up to the packing: quantize the difference, run the
    // predictor forward, move and clamp the index, and return the code with its sign bit.
    method EncodeSample(sample: Short) returns (qOut: Nibble)
      requires Valid()
      modifies this`previous, this`index, this`qVal, this`mul
      ensures Valid() && Now() == EncodeStep(old(Now()), sample)
      ensures qOut == CodeFor(old(Now()), sample).Nibble()
    {
      hide StepSize, RoundOff, Quantized, ToShort;
      var delta: int := ToShort(sample - previous);
      var sign := if delta < 0 then -1 else 1;
      if sign < 0 {
        delta := ToShort(-delta);
      }
      var step := StepSize(index);
      Quantize(delta, step);
      SignedProduct(sign, step, qVal);
      previous := ToShort(RoundOff(previous, sign * step * mul));
      index := index + IndexAdjust(qVal);
      if index < 0 {
        index := 0;
      } else if index > 88 {
        index := 88;
      }
      qOut := if sign < 0 then qVal + 8 else qVal;
    }

    // One pass of the decoding loop after the unpacking.
    method DecodeSample(code: Nibble)
      requires Valid()
      modifies this`previous, this`index, this`mul
      ensures Valid() && Now() == DecodeStep(old(Now()), code)
    {
      hide StepSize, RoundOff, ToShort;
      var sign, qOut := 1, code;
      if qOut >= 8 {
        sign := -1;
        qOut := qOut - 8;
      }
      var step := StepSize(index);
      mul := qOut;
      SignedProduct(sign, step, qOut);
      previous := ToShort(RoundOff(previous, sign * mul * step));
      index := index + IndexAdjust(qOut);
      if index < 0 {
        index := 0;
      } else if index > 88 {
        index := 88;
      }
    }

    // Encodes pcm[from..from + n] into out[at..]; the count of whole bytes is returned. Only a lone
    // sample needs a byte that is not counted.
    method Encode(pcm: array<Short>, from: nat, n: nat, out: array<SByte>, at: nat) returns (ret: int)
      requires Valid() && from + n <= pcm.Length && at + (if n == 1 then 1 else n / 2) <= out.Length
      modifies this, out
      ensures Valid() && isNew == old(isNew)
      ensures ret == n / 2
      ensures Now() == EncodeAt(old(Now()), pcm[from..from + n], n)
      ensures out[at..at + n / 2] == Encoded(old(Now()), pcm[from..from + n])
      ensures n == 1 ==> out[at] == PackByte(CodeAt(old(Now()), pcm[from..from + n], 0), 0)
      ensures forall k :: 0 <= k < out.Length && !(at <= k < at + n / 2) && !(n == 1 && k == at) ==> out[k] == old(out[k])
    {
      hide CodeFor, EncodeStep, EncodeAt, CodeAt, Encoded, PackedAt;
      ghost var p := Now();
      ghost var block := pcm[from..from + n];
      assert Now() == EncodeAt(p, block, 0) by { EncodeStart(p, block); }
      isBuffered := true;
      count := 0;
      var itr := 0;
      while itr < n
        invariant 0 <= itr <= n && itr == 2 * count + (if isBuffered then 0 else 1)
        invariant Valid() && Now() == EncodeAt(p, block, itr) && isNew == old(isNew)
        invariant !isBuffered ==> outputBuffer == 16 * CodeAt(p, block, itr - 1)
        invariant forall k :: 0 <= k < count ==> out[at + k] == PackedAt(p, block, k)
        invariant forall k :: 0 <= k < out.Length && !(at <= k < at + count) ==> out[k] == old(out[k])
      {
        var qOut := EncodeSample(pcm[from + itr]);
        assert pcm[from + itr] == block[itr];
        EncodeNext(p, block, itr);
        if isBuffered {
          outputBuffer := 16 * (qOut as int);
          isBuffered := false;
        } else {
          out[at + count] := ToSByte(outputBuffer + qOut);
          PackedHere(p, block, count);
          count := count + 1;
          isBuffered := true;
        }
        itr := itr + 1;
      }
      if !isBuffered {
        out[at] := ToSByte(outputBuffer);
        assert out[at] == PackByte(CodeAt(p, block, n - 1), 0);
      }
      ret := count;
      assert count == n / 2 && isBuffered == (n % 2 == 0);
      ghost var bytes := out[at..at + count];
      assert forall k :: 0 <= k < count && (k > 0 || isBuffered) ==> bytes[k] == out[at + k] == PackedAt(p, block, k);
      EncodedAt(p, block, bytes);
    }

    // Decodes data[at..at + nBytes] into samples[from..]. A code is at most fifteen, so the
    // source's error return for a magnitude above seven is never taken.
    method Decode(data: array<SByte>, at: nat, nBytes: nat, samples: array<Short>, from: nat) returns (ret: int)
      requires Valid() && at + nBytes <= data.Length && from + 2 * nBytes <= samples.Length
      modifies this, samples
      ensures Valid() && isNew == old(isNew)
      ensures ret == 2 * nBytes
      ensures Now() == DecodeAt(old(Now()), Unpack(data[at..at + nBytes]), 2 * nBytes)
      ensures samples[from..from + 2 * nBytes] == Decoded(old(Now()), data[at..at + nBytes])
      ensures forall k :: 0 <= k < samples.Length && !(from <= k < from + 2 * nBytes) ==> samples[k] == old(samples[k])
    {
      hide DecodeStep, DecodeAt, DecodeOutput, NibbleOf;
      ghost var bytes := data[at..at + nBytes];
      ghost var p := Now();
      ghost var codes := Unpack(bytes);
      assert Now() == DecodeAt(p, codes, 0) by { DecodeStart(p, codes); }
      count := nBytes * 2;
      isBuffered := false;
      qVal := 0;
      var itr := 0;
      while itr < count
        invariant 0 <= itr <= count == 2 * nBytes && itr == 2 * qVal + (if isBuffered then 1 else 0)
        invariant Valid() && Now() == DecodeAt(p, codes, itr) && isNew == old(isNew)
        invariant forall i :: 0 <= i < itr ==> samples[from + i] == DecodeOutput(p, codes, i)
        invariant forall k :: 0 <= k < samples.Length && !(from <= k < from + itr) ==> samples[k] == old(samples[k])
      {
        var qOut: Nibble;
        if isBuffered {
          qOut := NibbleOf(data[at + qVal], false);
          qVal := qVal + 1;
          isBuffered := false;
        } else {
          qOut := NibbleOf(data[at + qVal], true);
          isBuffered := true;
        }
        assert qOut == codes[itr] by { assert data[at + itr / 2] == bytes[itr / 2]; }
        DecodeSample(qOut);
        DecodeNext(p, codes, itr);
        samples[from + itr] := previous;
        itr := itr + 1;
      }
      ret := count;
    }
  }

  lemma EncodeStart(p: Predictor, pcm: seq<Short>)
    requires p.Valid()
    ensures EncodeAt(p, pcm, 0) == p
  {
  }

  lemma EncodeNext(p: Predictor, pcm: seq<Short>, i: nat)
    requires p.Valid() && i < |pcm|
    ensures EncodeAt(p, pcm, i + 1) == EncodeStep(EncodeAt(p, pcm, i), pcm[i])
    ensures CodeAt(p, pcm, i) == CodeFor(EncodeAt(p, pcm, i), pcm[i]).Nibble()
    ensures EncodeOutput(p, pcm, i) == EncodeAt(p, pcm, i + 1).previous
  {
    hide EncodeStep, CodeFor;
  }

  lemma DecodeStart(p: Predictor, codes: seq<Nibble>)
    requires p.Valid()
    ensures DecodeAt(p, codes, 0) == p
  {
  }

  lemma DecodeNext(p: Predictor, codes: seq<Nibble>, i: nat)
    requires p.Valid() && i < |codes|
    ensures DecodeAt(p, codes, i + 1) == DecodeStep(DecodeAt(p, codes, i), codes[i])
    ensures DecodeOutput(p, codes, i) == DecodeAt(p, codes, i + 1).previous
  {
    hide DecodeStep;
  }

  // Byte k of an even block.
  ghost function PackedAt(p: Predictor, pcm: seq<Short>, k: nat): SByte
    requires p.Valid() && 2 * k + 1 < |pcm|
  {
    PackByte(CodeAt(p, pcm, 2 * k), CodeAt(p, pcm, 2 * k + 1))
  }

  // The quantizer's interval is the only one that holds a given magnitude.
  lemma QuantizedUnique(delta: int, step: int, q: int)
    requires step >= 7 && 0 <= q < 7 && delta >= 0
    requires q * step <= 4 * delta < (q + 1) * step
    ensures Quantized(delta, step) == q
  {
    var r := Quantized(delta, step);
    assert r < q ==> (r + 1) * step <= q * step;
    assert q < r ==> (q + 1) * step <= r * step;
  }

  lemma PackedHere(p: Predictor, pcm: seq<Short>, k: nat)
    requires p.Valid() && 2 * k + 1 < |pcm|
    ensures PackedAt(p, pcm, k) == ToSByte(16 * CodeAt(p, pcm, 2 * k) + CodeAt(p, pcm, 2 * k + 1))
  {
    hide CodeAt;
  }

  lemma EncodedAt(p: Predictor, pcm: seq<Short>, bytes: seq<SByte>)
    requires p.Valid() && |bytes| == |pcm| / 2
    requires forall k :: 0 <= k < |bytes| ==>
      bytes[k] == if k == 0 && |pcm| % 2 == 1 then PackByte(CodeAt(p, pcm, |pcm| - 1), 0)
                  else PackedAt(p, pcm, k)
    ensures bytes == Encoded(p, pcm)
  {
    hide CodeAt, PackByte;
  }
}
