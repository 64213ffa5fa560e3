/** Packet-level promises of src/AdpcmCodec.cpp: a payload plays back the encoder's own trace, and
    no packet's bytes depend on any other packet, whatever the order of the calls. */
module CodecTheorems {
  import opened MachineInts
  import opened Kodek
  import opened KodekTheorems
  import opened AdpcmCodec

  lemma ShortInTwoBytes(s: Short)
    ensures ShortOf(LowByte(s), HighByte(s)) == s
  {
    assert s == 256 * (s / 256) + s % 256;
  }

  /** A capture of odd length comes back with its own length, its first sample exact and every
      other sample as the encoder predicted it; a capture of even length comes back one short. */
  lemma PacketRoundTrip(t: Tables, stale: Short, data: seq<SByte>)
    requires 1 <= |data| <= SCRATCH_SIZE
    ensures var payload, pcm := Payload(t, stale, data), Linears(t, data);
            && Readable(payload)
            && |payload| == 4 + (|data| - 1) / 2
            && (|Playable(t, payload)| == |data| <==> |data| % 2 == 1)
            && (|data| % 2 == 1 ==>
                  PayloadSamples(payload) == [pcm[0]] + EncodeTrace(Predictor(pcm[0], 0), pcm[1..])
                  && Playable(t, payload) == CodedAll(t, PayloadSamples(payload)))
  {
    hide EncodeStep, DecodeStep, Encoded, Decoded, LowByte, HighByte, ShortOf, Tables.Linear, Tables.Coded;
    var payload, pcm := Payload(t, stale, data), Linears(t, data);
    var first := pcm[0];
    ShortInTwoBytes(first);
    assert payload[PAYLOAD_HEADER..] == Encoded(Predictor(first, 0), pcm[1..]);
    LockStep(Predictor(first, 0), pcm[1..]);
  }

  // The capture size of the application: 161 samples, 84 bytes, 161 samples.
  lemma ApplicationPacketSizes(t: Tables, stale: Short, data: seq<SByte>)
    requires |data| == SAMPLES_PER_CAPTURE
    ensures |Payload(t, stale, data)| == 84 && Readable(Payload(t, stale, data))
    ensures |Playable(t, Payload(t, stale, data))| == SAMPLES_PER_CAPTURE
  {
    PacketRoundTrip(t, stale, data);
  }

  /** The payload on the wire: the first sample, low byte first, a zero step index, a zero, and the
      codes of the other samples from that sample on. */
  lemma PayloadLayout(t: Tables, stale: Short, data: seq<SByte>)
    requires data != []
    ensures var payload, pcm := Payload(t, stale, data), Linears(t, data);
            && |payload| == 4 + (|data| - 1) / 2
            && (payload[0] as int) % 256 + 256 * ((payload[1] as int) % 256) == (pcm[0] as int) % 0x1_0000
            && payload[2] == 0 && payload[3] == 0
            && payload[4..] == Encoded(Predictor(pcm[0], 0), pcm[1..])
  {
    hide Encoded, Tables.Linear, LowByte, HighByte;
    HalvesOfShort(Linears(t, data)[0]);
  }

  lemma HalvesOfShort(s: Short)
    ensures (LowByte(s) as int) % 256 + 256 * ((HighByte(s) as int) % 256) == (s as int) % 0x1_0000
  {
    var low, high := (s as int) % 256, (s as int) / 256;
    assert (LowByte(s) as int) % 256 == low;
    assert (HighByte(s) as int) % 256 == if high < 0 then high + 256 else high;
    assert s as int == 256 * high + low;
  }

  /** Whoever wrote a payload, playing it starts from its first two bytes, low byte first, and the
      step index in its third, and decodes the rest. */
  lemma PlayedFromLayout(payload: seq<SByte>)
    requires Readable(payload)
    ensures var pcm := PayloadSamples(payload);
            && |pcm| == 2 * |payload| - 7
            && (pcm[0] as int) % 0x1_0000 == (payload[0] as int) % 256 + 256 * ((payload[1] as int) % 256)
            && pcm[1..] == Decoded(Predictor(pcm[0], payload[2]), payload[4..])
  {
    hide Decoded, ShortOf;
    BytesOfShort(payload[0], payload[1]);
  }

  lemma BytesOfShort(lo: SByte, hi: SByte)
    ensures (ShortOf(lo, hi) as int) % 0x1_0000 == (lo as int) % 256 + 256 * ((hi as int) % 256)
  {
    var x := (lo as int) % 256 + 256 * ((hi as int) % 256);
    ShortOfUnsigned(x);
    hide ToShort;
  }

  lemma ShortOfUnsigned(x: int)
    requires 0 <= x < 0x1_0000
    ensures (ToShort(x) as int) % 0x1_0000 == x
  {
    assert ToShort(x) == if x < 0x8000 then x else x - 0x1_0000;
  }

  // The tables are inverse: the second, read without the low three bits, undoes the first.
  ghost predicate Inverse(t: Tables) {
    forall b: Byte :: t.s2u(t.u2s(b) as int / 8) == b
  }

  /** With inverse tables, compressing what was expanded gives back every byte, and so each packet's
      first byte survives the whole way. */
  lemma InverseTables(t: Tables, stale: Short, data: seq<SByte>)
    requires Inverse(t)
    ensures CodedAll(t, Linears(t, data)) == data
    ensures 1 <= |data| <= SCRATCH_SIZE ==>
      Readable(Payload(t, stale, data)) && Playable(t, Payload(t, stale, data))[0] == data[0]
  {
    hide Encoded, Decoded, Tables.Linear, Tables.Coded;
    forall i | 0 <= i < |data| ensures t.Coded(t.Linear(data[i])) == data[i] {
      InverseByte(t, data[i]);
    }
    if 1 <= |data| <= SCRATCH_SIZE {
      ShortInTwoBytes(t.Linear(data[0]));
    }
  }

  lemma InverseByte(t: Tables, b: SByte)
    requires Inverse(t)
    ensures t.Coded(t.Linear(b)) == b
  {
    var u: Byte := b as int % 256;
    assert ToUShort(ToShort(t.u2s(u))) == t.u2s(u);
  }

  // Exactly the empty capture lets an earlier packet show through the shared scratch buffer.
  lemma ScratchShowsThrough(t: Tables, a: Short, b: Short, data: seq<SByte>)
    ensures Payload(t, a, data) == Payload(t, b, data) <==> data != [] || a == b
  {
    hide EncodeAt, Encoded, LowByte, HighByte, ShortOf;
    ShortInTwoBytes(a);
    ShortInTwoBytes(b);
    var pa, pb := Payload(t, a, data), Payload(t, b, data);
    assert pa[0] == LowByte(FirstSample(t, a, data)) && pa[1] == HighByte(FirstSample(t, a, data));
    assert pb[0] == LowByte(FirstSample(t, b, data)) && pb[1] == HighByte(FirstSample(t, b, data));
  }

  // ---------------------------------------------------------------- interleavings

  datatype Op = EncodeMemo(id: nat) | DecodeMemo(id: nat)

  // Everything the calls share: the first scratch sample, and all memos.
  datatype World = World(scratch: Short, memos: map<nat, seq<SByte>>)

  predicate Ready(op: Op, content: seq<SByte>) {
    match op
    case EncodeMemo(_) => 1 <= |content| <= SCRATCH_SIZE
    case DecodeMemo(_) => Readable(content)
  }

  function Recoded(t: Tables, stale: Short, op: Op, content: seq<SByte>): seq<SByte>
    requires Ready(op, content)
  {
    match op
    case EncodeMemo(_) => Payload(t, stale, content)
    case DecodeMemo(_) => Playable(t, content)
  }

  // One call of Codec.Encode or Codec.Decode on memo op.id.
  function Apply(t: Tables, w: World, op: Op): World
    requires op.id in w.memos && Ready(op, w.memos[op.id])
  {
    var content := w.memos[op.id];
    World(match op case EncodeMemo(_) => FirstSample(t, w.scratch, content)
                   case DecodeMemo(_) => PayloadStart(content).previous,
          w.memos[op.id := Recoded(t, w.scratch, op, content)])
  }

  predicate Runnable(t: Tables, w: World, ops: seq<Op>)
    decreases |ops|
  {
    ops == [] ||
    (ops[0].id in w.memos && Ready(ops[0], w.memos[ops[0].id]) && Runnable(t, Apply(t, w, ops[0]), ops[1..]))
  }

  function Run(t: Tables, w: World, ops: seq<Op>): World
    requires Runnable(t, w, ops)
    decreases |ops|
  {
    if ops == [] then w else Run(t, Apply(t, w, ops[0]), ops[1..])
  }

  // The calls on one memo, with the others gone.
  function Project(ops: seq<Op>, id: nat): seq<Op> {
    if ops == [] then []
    else if ops[0].id == id then [ops[0]] + Project(ops[1..], id)
    else Project(ops[1..], id)
  }

  predicate RunnableAlone(t: Tables, content: seq<SByte>, ops: seq<Op>)
    decreases |ops|
  {
    ops == [] || (Ready(ops[0], content) && RunnableAlone(t, Recoded(t, 0, ops[0], content), ops[1..]))
  }

  // The same calls on that memo by itself, in a codec nobody else has used.
  function Alone(t: Tables, content: seq<SByte>, ops: seq<Op>): seq<SByte>
    requires RunnableAlone(t, content, ops)
    decreases |ops|
  {
    if ops == [] then content else Alone(t, Recoded(t, 0, ops[0], content), ops[1..])
  }

  /** In every interleaving of encode and decode calls over any memos, each memo ends as if its
      own calls had been the only ones. */
  lemma {:induction false} PacketIndependence(t: Tables, w: World, ops: seq<Op>, id: nat)
    requires Runnable(t, w, ops) && id in w.memos
    ensures RunnableAlone(t, w.memos[id], Project(ops, id))
    ensures id in Run(t, w, ops).memos
    ensures Run(t, w, ops).memos[id] == Alone(t, w.memos[id], Project(ops, id))
    decreases |ops|
  {
    hide Payload, Playable, Readable, PayloadStart, FirstSample;
    if ops != [] {
      var op := ops[0];
      PacketIndependence(t, Apply(t, w, op), ops[1..], id);
      if op.id == id {
        assert Project(ops, id)[1..] == Project(ops[1..], id);
        if op.EncodeMemo? {
          ScratchShowsThrough(t, w.scratch, 0, w.memos[id]);
        }
      }
    }
  }

  /** Losing, adding or reordering the calls on other packets changes nothing for this one. */
  lemma OthersDoNotMatter(t: Tables, w1: World, ops1: seq<Op>, w2: World, ops2: seq<Op>, id: nat)
    requires Runnable(t, w1, ops1) && Runnable(t, w2, ops2)
    requires id in w1.memos && id in w2.memos && w1.memos[id] == w2.memos[id]
    requires Project(ops1, id) == Project(ops2, id)
    ensures id in Run(t, w1, ops1).memos && id in Run(t, w2, ops2).memos
    ensures Run(t, w1, ops1).memos[id] == Run(t, w2, ops2).memos[id]
  {
    PacketIndependence(t, w1, ops1, id);
    PacketIndependence(t, w2, ops2, id);
  }
}
