/** What src/kodek.c is for: the decoder follows the encoder exactly, the predictor needs no clamp,
    it tracks the signal to within a quarter step, and it settles on a constant input. */
module KodekTheorems {
  import opened MachineInts
  import opened Kodek

  // ---------------------------------------------------------------- lock step

  lemma StepsAgree(p: Predictor, sample: Short)
    requires p.Valid()
    ensures DecodeStep(p, CodeFor(p, sample).Nibble()) == EncodeStep(p, sample)
  {
    hide CodeFor, Advance;
  }

  lemma {:induction false} PredictorsAgree(p: Predictor, pcm: seq<Short>, i: nat)
    requires p.Valid() && i <= |pcm|
    ensures DecodeAt(p, Codes(p, pcm), i) == EncodeAt(p, pcm, i)
  {
    hide EncodeStep, DecodeStep, CodeFor;
    if i > 0 {
      PredictorsAgree(p, pcm, i - 1);
      EncodeNext(p, pcm, i - 1);
      DecodeNext(p, Codes(p, pcm), i - 1);
      StepsAgree(EncodeAt(p, pcm, i - 1), pcm[i - 1]);
    }
  }

  lemma NibblesOfByte(hi: Nibble, lo: Nibble)
    ensures NibbleOf(PackByte(hi, lo), true) == hi
    ensures NibbleOf(PackByte(hi, lo), false) == lo
  {
    if hi < 8 {
      Sixteens(16 * hi + lo, hi, lo);
    } else {
      Sixteens(16 * hi + lo - 256, hi - 16, lo);
      Sixteens(hi - 16, -1, hi);
    }
  }

  lemma Sixteens(x: int, q: int, r: int)
    requires x == 16 * q + r && 0 <= r < 16
    ensures x / 16 == q && x % 16 == r
  {
  }

  // Packing is undone through the signed char: its sign extension never reaches a code.
  lemma UnpackPack(codes: seq<Nibble>)
    ensures Unpack(Pack(codes)) == codes[..|codes| / 2 * 2]
  {
    hide NibbleOf, PackByte;
    var bytes := Pack(codes);
    forall i | 0 <= i < 2 * |bytes|
      ensures Unpack(bytes)[i] == codes[i]
    {
      NibblesOfByte(codes[i / 2 * 2], codes[i / 2 * 2 + 1]);
      assert i == i / 2 * 2 || i == i / 2 * 2 + 1;
    }
  }

  // The codes a decoder reads back. An odd block loses its last code as such, and finds it in
  // place of its first two.
  lemma CodesReadBack(p: Predictor, pcm: seq<Short>)
    requires p.Valid()
    ensures var codes, n := Codes(p, pcm), |pcm|;
            Unpack(Encoded(p, pcm)) ==
              if n % 2 == 0 then codes
              else if n == 1 then []
              else [codes[n - 1], 0] + codes[2..n - 1]
  {
    hide NibbleOf, PackByte, CodeAt;
    var codes, n := Codes(p, pcm), |pcm|;
    UnpackPack(codes);
    if n % 2 == 1 && n > 1 {
      OddCodesReadBack(p, pcm);
    } else {
      assert codes[..n / 2 * 2] == if n % 2 == 0 then codes else [];
    }
  }

  lemma OddCodesReadBack(p: Predictor, pcm: seq<Short>)
    requires p.Valid() && |pcm| % 2 == 1 && |pcm| > 1
    ensures var codes, n := Codes(p, pcm), |pcm|;
            Unpack(Encoded(p, pcm)) == [codes[n - 1], 0] + codes[2..n - 1]
  {
    hide NibbleOf, PackByte, CodeAt, Codes, Pack, Unpack;
    var codes, n := Codes(p, pcm), |pcm|;
    UnpackPack(codes);
    FirstByteReplaced(Pack(codes), PackByte(codes[n - 1], 0));
    NibblesOfByte(codes[n - 1], 0);
    assert codes[..n / 2 * 2][2..] == codes[2..n - 1];
  }

  lemma FirstByteReplaced(bytes: seq<SByte>, b: SByte)
    requires bytes != []
    ensures Unpack(bytes[0 := b]) == [NibbleOf(b, true), NibbleOf(b, false)] + Unpack(bytes)[2..]
  {
    hide NibbleOf;
    forall i | 0 <= i < 2 * |bytes|
      ensures Unpack(bytes[0 := b])[i] == ([NibbleOf(b, true), NibbleOf(b, false)] + Unpack(bytes)[2..])[i]
    {
      assert i / 2 == 0 <==> i < 2;
    }
  }

  /** From the same start, decoding the encoder's bytes plays exactly the encoder's own
      predictions and ends in its state: on every block of even length, and on no other. */
  lemma LockStep(p: Predictor, pcm: seq<Short>)
    requires p.Valid()
    ensures Decoded(p, Encoded(p, pcm)) == EncodeTrace(p, pcm) <==> |pcm| % 2 == 0
    ensures |pcm| % 2 == 0 ==>
      DecodeAt(p, Unpack(Encoded(p, pcm)), |pcm|) == EncodeAt(p, pcm, |pcm|)
  {
    hide EncodeStep, DecodeStep, CodeAt, Encoded;
    CodesReadBack(p, pcm);
    if |pcm| % 2 == 0 {
      var codes := Codes(p, pcm);
      PredictorsAgree(p, pcm, |pcm|);
      forall i | 0 <= i < |pcm|
        ensures DecodeOutput(p, codes, i) == EncodeOutput(p, pcm, i)
      {
        PredictorsAgree(p, pcm, i + 1);
      }
      assert Unpack(Encoded(p, pcm)) == codes;
      assert DecodeTrace(p, codes) == EncodeTrace(p, pcm);
    }
  }

  // ---------------------------------------------------------------- one prediction, as inequalities

  // The sixteen-bit difference and its negation both keep their value.
  predicate DeltaFits(previous: int, sample: int) {
    -32767 <= sample - previous <= 32767
  }

  // Where the prediction lands: the rounding of the source brings it at most one past the sample.
  lemma PredictionBetween(previous: Short, step: int, sample: Short)
    requires 7 <= step <= 32767 && DeltaFits(previous, sample) && sample < 32767
    ensures var r := Predicted(previous, step, Chosen(previous, step, sample));
            && (sample >= previous ==> previous <= r <= sample + 1)
            && (sample < previous ==> sample <= r <= previous)
            && r == RoundOff(previous, (if sample < previous then -1 else 1) * (Chosen(previous, step, sample).q * step))
  {
    var c := Chosen(previous, step, sample);
    var m := c.q * step;
    assert 0 <= m <= 4 * (if sample < previous then previous - sample else sample - previous);
    assert c.negative == (sample < previous);
    assert (if c.negative then -1 else 1) * m == if c.negative then -m else m;
  }

  // The rounding of the source loses less than a whole unit, toward zero.
  lemma RoundOffBounds(previous: int, b: int)
    ensures var n := 4 * previous + b + (if b >= 1 then 4 else 0);
            && (n >= 0 ==> n - 3 <= 4 * RoundOff(previous, b) <= n)
            && (n < 0 ==> n <= 4 * RoundOff(previous, b) <= n + 3)
  {
  }

  // What the code says about the magnitude, without products: m is the coded quarter steps.
  lemma CodedMagnitude(delta: nat, step: int, q: int, m: int)
    requires step >= 7 && q == Quantized(delta, step) && m == q * step
    ensures m <= 4 * delta
    ensures q < 7 ==> 4 * delta < m + step
    ensures q == 7 ==> m == 7 * step
    ensures 4 * delta < 2 * step ==> q <= 1
    ensures q == 0 <==> m < 1
  {
    assert (q + 1) * step == m + step;
    assert q >= 2 ==> m >= 2 * step;
    assert q >= 1 ==> m >= step;
  }

  lemma ErrorAfter(previous: int, sample: int, step: int, m: int, r: int)
    requires step >= 7 && 0 <= m <= 4 * Abs(sample - previous)
    requires m == 7 * step || 4 * Abs(sample - previous) < m + step
    requires 4 * Abs(sample - previous) < 7 * step || m == 7 * step
    requires m == 0 || m >= step
    requires r == RoundOff(previous, if sample < previous then -m else m)
    ensures Abs(sample - previous) < 2 * step ==> 4 * Abs(sample - r) < step + 4
    ensures Abs(sample - previous) >= 2 * step ==> Abs(sample - r) < Abs(sample - previous)
  {
    RoundOffBounds(previous, if sample < previous then -m else m);
    hide RoundOff;
  }

  // One step of the tracking bound, on the table entry in use.
  lemma TrackedPrediction(previous: Short, step: int, sample: Short)
    requires 7 <= step <= 32767 && DeltaFits(previous, sample) && sample < 32767
    ensures var c := Chosen(previous, step, sample);
            var delta, error := Abs(sample - previous), Abs(sample - Predicted(previous, step, c));
            && (delta < 2 * step ==> 4 * error < step + 4)
            && (delta >= 2 * step ==> error < delta && c.q == 7)
            && (4 * delta < 2 * step ==> c.q <= 1)
  {
    var c := Chosen(previous, step, sample);
    var delta := Abs(sample - previous);
    assert c.q == Quantized(delta, step) && c.negative == (sample < previous);
    var m := c.q * step;
    assert (if c.negative then -1 else 1) * m == if c.negative then -m else m;
    PredictionBetween(previous, step, sample);
    hide RoundOff, Chosen, Quantized, Predicted;
    CodedMagnitude(delta, step, c.q, m);
    ErrorAfter(previous, sample, step, m, Predicted(previous, step, c));
  }

  function Abs(x: int): nat {
    if x < 0 then -x else x
  }

  // ---------------------------------------------------------------- the index and the step table

  function Bounded(index: int): int {
    if index < 0 then 0 else if index > 88 then 88 else index
  }

  /** How the index moves, told from the difference alone: down one when the sample lies within a
      step of the prediction, and up two more with every quarter step beyond. */
  lemma IndexFollowsDifference(p: Predictor, sample: Short)
    requires p.Valid() && DeltaFits(p.previous, sample)
    ensures var d, step := 4 * Abs(sample - p.previous), StepSize(p.index);
            EncodeStep(p, sample).index == Bounded(p.index +
              if d < 4 * step then -1
              else if d < 5 * step then 2
              else if d < 6 * step then 4
              else if d < 7 * step then 6
              else 8)
  {
    hide StepSize, Predicted, Chosen, Quantized;
    ChosenMagnitude(p.previous, StepSize(p.index), sample);
    QuartersFromDifference(Abs(sample - p.previous), StepSize(p.index));
  }

  lemma ChosenMagnitude(previous: Short, step: int, sample: Short)
    requires step >= 7 && DeltaFits(previous, sample)
    ensures Chosen(previous, step, sample).q == Quantized(Abs(sample - previous), step)
    ensures Chosen(previous, step, sample).negative == (sample < previous)
  {
    hide Quantized;
  }

  lemma QuartersFromDifference(delta: nat, step: int)
    requires step >= 7
    ensures var q, d := Quantized(delta, step), 4 * delta;
            && (d < 4 * step ==> q <= 3)
            && (4 * step <= d < 5 * step ==> q == 4)
            && (5 * step <= d < 6 * step ==> q == 5)
            && (6 * step <= d < 7 * step ==> q == 6)
            && (7 * step <= d ==> q == 7)
  {
    var q := Quantized(delta, step);
    hide Quantized;
    var m := q * step;
    assert q == 0 ==> m == 0;
    assert q == 1 ==> m == step;
    assert q == 2 ==> m == 2 * step;
    assert q == 3 ==> m == 3 * step;
    assert q == 4 ==> m == 4 * step;
    assert q == 5 ==> m == 5 * step;
    assert q == 6 ==> m == 6 * step;
    assert q == 7 ==> m == 7 * step;
    assert (q + 1) * step == m + step;
  }

  // The decoder's index moves by the code it reads, whatever its sign bit.
  lemma IndexFollowsCode(p: Predictor, n: Nibble)
    requires p.Valid()
    ensures DecodeStep(p, n).index == Bounded(p.index + if n % 8 < 4 then -1 else 2 * (n % 8 - 3))
  {
    hide StepSize, Predicted;
  }

  // The steps are eleven tenths of one another, to the nearest integer or thereabouts.
  lemma StepsGrowByATenth(i: int)
    requires 0 <= i < 87
    ensures -7 <= 10 * StepSize(i + 1) - 11 * StepSize(i) <= 8
    ensures StepSize(0) == 7 && StepSize(87) == 29794 && StepSize(88) == 32767
  {
    if i < 11 {} else if i < 22 {} else if i < 33 {} else if i < 44 {} else if i < 55 {} else if i < 66 {} else if i < 77 {}
  }

  // ---------------------------------------------------------------- the bytes on the wire

  // What n says about a sample that follows prediction p: the high bit is set below it, and the
  // other three are the quarter steps of the difference, at most seven.
  predicate Describes(n: int, p: Predictor, sample: Short)
    requires p.Valid()
  {
    var step, d := StepSize(p.index), 4 * Abs(sample - p.previous);
    var q := if sample < p.previous then n - 8 else n;
    && 0 <= q <= 7 && q * step <= d && (q < 7 ==> d < (q + 1) * step)
  }

  /** The code of every sample of a block describes it, from the prediction before it. */
  lemma CodeDescribes(p: Predictor, pcm: seq<Short>, i: nat)
    requires p.Valid() && i < |pcm| && DeltaFits(EncodeAt(p, pcm, i).previous, pcm[i])
    ensures Describes(CodeAt(p, pcm, i), EncodeAt(p, pcm, i), pcm[i])
  {
    hide StepSize, EncodeAt, Chosen;
    var p' := EncodeAt(p, pcm, i);
    ChosenMagnitude(p'.previous, StepSize(p'.index), pcm[i]);
  }

  /** Each byte of an even block holds the codes of two samples, the earlier one in its high half. */
  lemma ByteHoldsTwoCodes(p: Predictor, pcm: seq<Short>, k: nat)
    requires p.Valid() && |pcm| % 2 == 0 && 2 * k + 1 < |pcm|
    ensures (Encoded(p, pcm)[k] as int) % 256 == 16 * (CodeAt(p, pcm, 2 * k) as int) + CodeAt(p, pcm, 2 * k + 1)
  {
    hide CodeAt;
    assert Encoded(p, pcm)[k] == PackByte(CodeAt(p, pcm, 2 * k), CodeAt(p, pcm, 2 * k + 1));
  }

  // ---------------------------------------------------------------- no clamp is needed

  // No conversion of this step loses a bit: neither the difference, nor its negation, nor the
  // rounded prediction leaves sixteen bits.
  predicate StepFits(p: Predictor, sample: Short)
    requires p.Valid()
  {
    var c := CodeFor(p, sample);
    && DeltaFits(p.previous, sample)
    && -0x8000 <= RoundOff(p.previous, (if c.negative then -1 else 1) * (c.q * StepSize(p.index))) < 0x8000
  }

  // A signal range that leaves the predictor its one unit of slack inside sixteen bits.
  predicate SafeRange(lo: int, hi: int) {
    -0x8000 <= lo <= hi && hi + 1 < 0x8000 && hi + 1 - lo <= 32767
  }

  predicate Within(pcm: seq<Short>, lo: int, hi: int) {
    forall i :: 0 <= i < |pcm| ==> lo <= pcm[i] <= hi
  }

  lemma StepStays(p: Predictor, sample: Short, lo: int, hi: int)
    requires p.Valid() && SafeRange(lo, hi) && lo <= p.previous <= hi + 1 && lo <= sample <= hi
    ensures lo <= EncodeStep(p, sample).previous <= hi + 1
    ensures StepFits(p, sample)
  {
    hide StepSize, RoundOff, Predicted, Chosen, IndexAdjust;
    PredictionBetween(p.previous, StepSize(p.index), sample);
    ChosenSign(p, sample);
  }

  lemma ChosenSign(p: Predictor, sample: Short)
    requires p.Valid() && DeltaFits(p.previous, sample)
    ensures CodeFor(p, sample).negative == (sample < p.previous)
  {
    hide StepSize, Quantized;
  }

  /** A signal kept inside a safe range keeps the predictor inside it too, one unit wider on top,
      for the whole run, and nothing overflows: the missing clamp is never missed. */
  lemma {:induction false} NoClampNeeded(p: Predictor, pcm: seq<Short>, lo: int, hi: int, i: nat)
    requires p.Valid() && SafeRange(lo, hi) && lo <= p.previous <= hi + 1
    requires Within(pcm, lo, hi) && i <= |pcm|
    ensures lo <= EncodeAt(p, pcm, i).previous <= hi + 1
    ensures forall k :: 0 <= k < i ==> StepFits(EncodeAt(p, pcm, k), pcm[k])
  {
    hide EncodeStep, StepFits, EncodeAt;
    EncodeStart(p, pcm);
    if i > 0 {
      assert lo <= pcm[i - 1] <= hi;
      hide Within, SafeRange;
      NoClampNeeded(p, pcm, lo, hi, i - 1);
      EncodeNext(p, pcm, i - 1);
      StepStays(EncodeAt(p, pcm, i - 1), pcm[i - 1], lo, hi);
    }
  }

  // The decoder of such a stream plays nothing outside the same bound.
  lemma DecoderStaysInRange(p: Predictor, pcm: seq<Short>, lo: int, hi: int)
    requires p.Valid() && SafeRange(lo, hi) && lo <= p.previous <= hi + 1
    requires Within(pcm, lo, hi) && |pcm| % 2 == 0
    ensures Within(Decoded(p, Encoded(p, pcm)), lo, hi + 1)
  {
    hide EncodeAt, EncodeOutput, DecodeAt, Encoded, Decoded, EncodeTrace, StepFits;
    LockStep(p, pcm);
    EncoderStaysInRange(p, pcm, lo, hi);
  }

  lemma EncoderStaysInRange(p: Predictor, pcm: seq<Short>, lo: int, hi: int)
    requires p.Valid() && SafeRange(lo, hi) && lo <= p.previous <= hi + 1
    requires Within(pcm, lo, hi)
    ensures Within(EncodeTrace(p, pcm), lo, hi + 1)
  {
    hide EncodeAt, EncodeOutput, StepFits, SafeRange;
    forall i | 0 <= i < |pcm|
      ensures lo <= EncodeTrace(p, pcm)[i] <= hi + 1
    {
      OutputStaysInRange(p, pcm, lo, hi, i);
    }
  }

  lemma OutputStaysInRange(p: Predictor, pcm: seq<Short>, lo: int, hi: int, i: nat)
    requires p.Valid() && SafeRange(lo, hi) && lo <= p.previous <= hi + 1
    requires Within(pcm, lo, hi) && i < |pcm|
    ensures lo <= EncodeOutput(p, pcm, i) <= hi + 1
  {
    hide EncodeAt, EncodeOutput, StepFits, SafeRange, Within;
    EncodeNext(p, pcm, i);
    NoClampNeeded(p, pcm, lo, hi, i + 1);
  }

  // No run on a signal in lo..hi, from any start in lo..hi + 1, loses a bit.
  ghost predicate NeverOverflows(lo: int, hi: int) {
    forall p: Predictor, pcm: seq<Short>, k: nat ::
      p.Valid() && lo <= p.previous <= hi + 1 && Within(pcm, lo, hi) && k < |pcm| ==>
        StepFits(EncodeAt(p, pcm, k), pcm[k])
  }

  // At the very top the differences are too small for any code but zero.
  lemma TopStaysPut(p: Predictor, sample: Short)
    requires p.Valid() && p.previous >= 32766 && sample >= 32766
    ensures EncodeStep(p, sample).previous == p.previous && StepFits(p, sample)
  {
    hide StepSize;
    var delta: int := sample - p.previous;
    QuantizedUnique(if delta < 0 then -delta else delta, StepSize(p.index), 0);
  }

  lemma {:induction false} TopNeverMoves(p: Predictor, pcm: seq<Short>, k: nat)
    requires p.Valid() && p.previous >= 32766 && k <= |pcm|
    requires forall i :: 0 <= i < |pcm| ==> pcm[i] >= 32766
    ensures EncodeAt(p, pcm, k).previous == p.previous
    ensures k < |pcm| ==> StepFits(EncodeAt(p, pcm, k), pcm[k])
  {
    hide EncodeStep, StepFits;
    if k > 0 {
      TopNeverMoves(p, pcm, k - 1);
      EncodeNext(p, pcm, k - 1);
      TopStaysPut(EncodeAt(p, pcm, k - 1), pcm[k - 1]);
    } else {
      EncodeStart(p, pcm);
    }
    if k < |pcm| {
      TopStaysPut(EncodeAt(p, pcm, k), pcm[k]);
    }
  }

  // A start and a sample of an unsafe range with which the very first step overflows.
  function UnsafeStart(lo: int, hi: int): Predictor
    requires -0x8000 <= lo <= hi < 0x8000
  {
    if hi == 32767 then Predictor(32765, 1) else Predictor(hi + 1, 0)
  }

  lemma UnsafeStepOverflows(lo: int, hi: int)
    requires -0x8000 <= lo <= hi < 0x8000 && !SafeRange(lo, hi) && lo < 32766
    ensures var p := UnsafeStart(lo, hi);
            !StepFits(p, if hi == 32767 then 32767 else lo)
  {
    if hi == 32767 {
      FirstSteps();
      QuantizedUnique(2, 8, 1);
    }
  }

  /** The missing clamp is never missed exactly on the signal ranges with one unit of slack above
      and no more than 32767 wide, and on the two values at the very top. */
  lemma ClampNotNeededExactly(lo: int, hi: int)
    requires -0x8000 <= lo <= hi < 0x8000
    ensures NeverOverflows(lo, hi) <==> SafeRange(lo, hi) || lo >= 32766
  {
    hide StepFits, EncodeAt;
    if SafeRange(lo, hi) || lo >= 32766 {
      forall p: Predictor, pcm: seq<Short>, k: nat |
        p.Valid() && lo <= p.previous <= hi + 1 && Within(pcm, lo, hi) && k < |pcm|
        ensures StepFits(EncodeAt(p, pcm, k), pcm[k])
      {
        if SafeRange(lo, hi) {
          NoClampNeeded(p, pcm, lo, hi, k + 1);
        } else {
          TopNeverMoves(p, pcm, k);
        }
      }
    } else {
      var p := UnsafeStart(lo, hi);
      var pcm: seq<Short> := [if hi == 32767 then 32767 else lo];
      UnsafeStepOverflows(lo, hi);
      EncodeStart(p, pcm);
      assert Within(pcm, lo, hi);
      assert !StepFits(EncodeAt(p, pcm, 0), pcm[0]);
    }
  }

  // The slack is real: in a packet that starts near full scale the prediction of the largest sample
  // wraps to the smallest.
  lemma FullScaleWraps()
    ensures EncodeStep(Predictor(32760, 0), 32767).previous == -32768
    ensures !StepFits(Predictor(32760, 0), 32767)
  {
    FirstSteps();
    QuantizedUnique(7, 7, 4);
    assert CodeFor(Predictor(32760, 0), 32767) == Code(false, 4);
    assert RoundOff(32760, 4 * 7) == 32768;
  }

  // ---------------------------------------------------------------- tracking

  /** One sample of tracking. Within two steps of the sample the reconstruction error is under a
      quarter step and a unit; further away the error shrinks and the index climbs as far as eight. */
  lemma TrackingStep(p: Predictor, sample: Short)
    requires p.Valid() && DeltaFits(p.previous, sample) && sample < 32767
    ensures var p' := EncodeStep(p, sample);
            var step, delta, error := StepSize(p.index), Abs(sample - p.previous), Abs(sample - p'.previous);
            if delta < 2 * step then 4 * error < step + 4
            else error < delta && p'.index - p.index == if p.index <= 80 then 8 else 88 - p.index
  {
    hide StepSize, Predicted, Chosen;
    TrackedPrediction(p.previous, StepSize(p.index), sample);
  }

  /** The same at every sample of every run inside a safe range. */
  lemma Tracking(p: Predictor, pcm: seq<Short>, lo: int, hi: int, i: nat)
    requires p.Valid() && SafeRange(lo, hi) && lo <= p.previous <= hi + 1
    requires Within(pcm, lo, hi) && i < |pcm|
    ensures var now, next := EncodeAt(p, pcm, i), EncodeAt(p, pcm, i + 1);
            var step, delta, error := StepSize(now.index), Abs(pcm[i] - now.previous), Abs(pcm[i] - next.previous);
            if delta < 2 * step then 4 * error < step + 4
            else error < delta && next.index - now.index == if now.index <= 80 then 8 else 88 - now.index
  {
    hide EncodeStep, StepSize, StepFits;
    NoClampNeeded(p, pcm, lo, hi, i);
    EncodeNext(p, pcm, i);
    TrackingStep(EncodeAt(p, pcm, i), pcm[i]);
  }

  // ---------------------------------------------------------------- settling on a constant

  // The predictor after n samples of the same value.
  function Hold(p: Predictor, c: Short, n: nat): (p': Predictor)
    requires p.Valid()
    ensures p'.Valid()
  {
    if n == 0 then p else EncodeStep(Hold(p, c, n - 1), c)
  }

  lemma {:induction false} HoldIsEncodeAt(p: Predictor, c: Short, n: nat, i: nat)
    requires p.Valid() && i <= n
    ensures EncodeAt(p, seq(n, _ => c), i) == Hold(p, c, i)
  {
    hide EncodeStep;
    if i > 0 {
      HoldIsEncodeAt(p, c, n, i - 1);
      EncodeNext(p, seq(n, _ => c), i - 1);
    }
  }

  // Slope overload: the largest code cannot reach the sample.
  predicate Overloaded(p: Predictor, c: Short)
    requires p.Valid()
  {
    Abs(c - p.previous) >= 2 * StepSize(p.index)
  }

  // Close enough that only the two smallest codes can be chosen.
  predicate Calm(p: Predictor, c: Short)
    requires p.Valid()
  {
    4 * Abs(c - p.previous) < 2 * StepSize(p.index)
  }

  lemma NeighbouringSteps(i: int)
    requires 0 <= i < 88
    ensures StepSize(i) < StepSize(i + 1)
    ensures StepSize(i + 1) + 4 <= 2 * StepSize(i)
  {
    if i < 11 {} else if i < 22 {} else if i < 33 {} else if i < 44 {} else if i < 55 {} else if i < 66 {} else if i < 77 {}
  }

  lemma {:induction false} StepsIncrease(i: int, j: int)
    requires 0 <= i <= j <= 88
    ensures StepSize(i) <= StepSize(j)
    decreases j
  {
    hide StepSize;
    if i < j {
      StepsIncrease(i, j - 1);
      NeighbouringSteps(j - 1);
    }
  }

  lemma FirstSteps()
    ensures StepSize(0) == 7 && StepSize(1) == 8 && StepSize(88) == 32767
  {
  }

  // The three kinds of step a constant input can cause.
  lemma HeldStep(p: Predictor, c: Short)
    requires p.Valid() && DeltaFits(p.previous, c) && c < 32767
    ensures var p' := EncodeStep(p, c);
            && DeltaFits(p'.previous, c)
            && (Overloaded(p, c) ==> p'.index >= p.index + 8 || p'.index == 88)
            && (!Overloaded(p, c) ==> Calm(p', c) && 4 * Abs(c - p'.previous) < StepSize(p.index) + 4)
            && (Calm(p, c) ==> p'.index == if p.index == 0 then 0 else p.index - 1)
            && (Calm(p, c) ==> !Overloaded(p, c))
  {
    hide StepSize, Predicted, Chosen;
    var p' := EncodeStep(p, c);
    var q := CodeFor(p, c).q;
    TrackedPrediction(p.previous, StepSize(p.index), c);
    PredictionBetween(p.previous, StepSize(p.index), c);
    FirstSteps();
    assert p'.index >= p.index - 1;
    if p.index > 0 {
      NeighbouringSteps(p.index - 1);
      StepsIncrease(p.index - 1, p'.index);
    } else {
      StepsIncrease(0, p'.index);
    }
  }

  lemma {:induction false} HeldDeltaFits(p: Predictor, c: Short, n: nat)
    requires p.Valid() && DeltaFits(p.previous, c) && c < 32767
    ensures DeltaFits(Hold(p, c, n).previous, c)
  {
    hide EncodeStep, Overloaded, Calm;
    if n > 0 {
      HeldDeltaFits(p, c, n - 1);
      HeldStep(Hold(p, c, n - 1), c);
    }
  }

  // While overloaded the index climbs by eight.
  lemma {:induction false} OverloadClimbs(p: Predictor, c: Short, n: nat)
    requires p.Valid() && DeltaFits(p.previous, c) && c < 32767
    requires forall k: nat :: k < n ==> Overloaded(Hold(p, c, k), c)
    ensures Hold(p, c, n).index >= 8 * n || Hold(p, c, n).index == 88
  {
    hide EncodeStep, Overloaded, Calm;
    if n > 0 {
      OverloadClimbs(p, c, n - 1);
      HeldDeltaFits(p, c, n - 1);
      HeldStep(Hold(p, c, n - 1), c);
    }
  }

  // Once out of overload: never back, and after m more samples the index has come down by m - 1.
  lemma {:induction false} AfterOverload(p: Predictor, c: Short, k: nat, m: nat)
    requires p.Valid() && DeltaFits(p.previous, c) && c < 32767
    requires !Overloaded(Hold(p, c, k), c)
    ensures !Overloaded(Hold(p, c, k + m), c)
    ensures m >= 1 ==> Calm(Hold(p, c, k + m), c)
    ensures m >= 1 ==> Hold(p, c, k + m).index <= if m <= 89 then 89 - m else 0
    ensures m >= 1 ==>
      4 * Abs(c - Hold(p, c, k + m).previous) < StepSize(Hold(p, c, k + m - 1).index) + 4
  {
    hide EncodeStep, Overloaded, Calm, StepSize;
    if m > 0 {
      AfterOverload(p, c, k, m - 1);
      HeldDeltaFits(p, c, k + m - 1);
      HeldDeltaFits(p, c, k + m);
      HeldStep(Hold(p, c, k + m - 1), c);
      HeldStep(Hold(p, c, k + m), c);
    }
  }

  // The first sample, at most the eleventh, that finds the predictor out of overload.
  lemma FirstOutOfOverload(p: Predictor, c: Short, n: nat) returns (k: nat)
    requires p.Valid() && DeltaFits(p.previous, c) && c < 32767 && n <= 11
    requires forall i: nat :: i < n ==> Overloaded(Hold(p, c, i), c)
    ensures n <= k <= 11 && !Overloaded(Hold(p, c, k), c)
    ensures forall i: nat :: i < k ==> Overloaded(Hold(p, c, i), c)
    decreases 11 - n
  {
    hide EncodeStep, StepSize, Hold;
    if n == 11 {
      OverloadClimbs(p, c, 11);
      HeldDeltaFits(p, c, 11);
      FirstSteps();
    }
    if !Overloaded(Hold(p, c, n), c) {
      k := n;
    } else {
      k := FirstOutOfOverload(p, c, n + 1);
    }
  }

  /** On a constant input slope overload ends within eleven samples and never returns; from the
      hundredth sample on the index is zero and the output is within two of the input for ever. */
  lemma Settling(p: Predictor, c: Short) returns (k: nat)
    requires p.Valid() && DeltaFits(p.previous, c) && c < 32767
    ensures k <= 11
    ensures forall n: nat :: Overloaded(Hold(p, c, n), c) <==> n < k
    ensures forall n: nat :: n >= 100 ==> Hold(p, c, n).index == 0 && Abs(c - Hold(p, c, n).previous) <= 2
  {
    hide EncodeStep, Overloaded, Calm, StepSize, Hold;
    k := FirstOutOfOverload(p, c, 0);
    forall n: nat | n >= k
      ensures !Overloaded(Hold(p, c, n), c)
    {
      AfterOverload(p, c, k, n - k);
    }
    forall n: nat | n >= 100
      ensures Hold(p, c, n).index == 0 && Abs(c - Hold(p, c, n).previous) <= 2
    {
      AfterOverload(p, c, k, n - k);
      AfterOverload(p, c, k, n - 1 - k);
      FirstSteps();
    }
  }
}
