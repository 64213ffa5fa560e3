/** The packet codec of src/AdpcmCodec.cpp: mu-law captures become ADPCM payloads and back, in place
    in the memo that carried them, through one scratch buffer shared by both directions. */
module AdpcmCodec {
  import opened MachineInts
  import opened Kodek
  import opened Memos

  const SAMPLES_PER_CAPTURE := 161
  const SCRATCH_SIZE := SAMPLES_PER_CAPTURE + 10
  const MEMO_SIZE := SAMPLES_PER_CAPTURE * 2 + 10
  const PAYLOAD_HEADER := 4

  // The audio_u2s and audio_s2u tables, whatever they hold; the second drops the low three bits.
  datatype Tables = Tables(u2s: Byte -> UShort, s2u: int -> Byte) {
    function Linear(b: SByte): Short { ToShort(u2s(b % 256)) }
    function Coded(s: Short): SByte { ToSByte(s2u(ToUShort(s) / 8)) }
  }

  // ---------------------------------------------------------------- payloads as values

  function LowByte(s: Short): SByte { ToSByte(s % 256) }

  function HighByte(s: Short): SByte { ToSByte(s / 256) }

  function ShortOf(lo: SByte, hi: SByte): Short { ToShort(lo % 256 + 256 * (hi % 256)) }

  function Linears(t: Tables, data: seq<SByte>): (pcm: seq<Short>)
    ensures |pcm| == |data|
    ensures forall i :: 0 <= i < |data| ==> pcm[i] == t.Linear(data[i])
  {
    seq(|data|, i requires 0 <= i < |data| => t.Linear(data[i]))
  }

  function CodedAll(t: Tables, pcm: seq<Short>): (data: seq<SByte>)
    ensures |data| == |pcm|
    ensures forall i :: 0 <= i < |pcm| ==> data[i] == t.Coded(pcm[i])
  {
    seq(|pcm|, i requires 0 <= i < |pcm| => t.Coded(pcm[i]))
  }

  // The sample a payload starts from. An empty capture leaves the scratch buffer's old one.
  function FirstSample(t: Tables, stale: Short, data: seq<SByte>): Short {
    if data == [] then stale else t.Linear(data[0])
  }

  // The payload of a capture: its first sample as it is, step index zero, then the codes of the rest.
  function Payload(t: Tables, stale: Short, data: seq<SByte>): (payload: seq<SByte>)
    ensures |payload| == PAYLOAD_HEADER + (if data == [] then 0 else (|data| - 1) / 2)
  {
    var first := FirstSample(t, stale, data);
    [LowByte(first), HighByte(first), 0, 0] +
    Encoded(Predictor(first, 0), if data == [] then [] else Linears(t, data)[1..])
  }

  // What the reader of a payload relies on: a header, a table index, and room in the scratch.
  predicate Readable(payload: seq<SByte>) {
    && |payload| >= PAYLOAD_HEADER
    && 0 <= payload[2] <= 88
    && 1 + 2 * (|payload| - PAYLOAD_HEADER) <= SCRATCH_SIZE
  }

  function PayloadStart(payload: seq<SByte>): Predictor
    requires Readable(payload)
  {
    Predictor(ShortOf(payload[0], payload[1]), payload[2])
  }

  function PayloadSamples(payload: seq<SByte>): (pcm: seq<Short>)
    requires Readable(payload)
    ensures |pcm| == 1 + 2 * (|payload| - PAYLOAD_HEADER)
  {
    [PayloadStart(payload).previous] + Decoded(PayloadStart(payload), payload[PAYLOAD_HEADER..])
  }

  function Playable(t: Tables, payload: seq<SByte>): (data: seq<SByte>)
    requires Readable(payload)
    ensures |data| == 1 + 2 * (|payload| - PAYLOAD_HEADER)
  {
    CodedAll(t, PayloadSamples(payload))
  }

  // ---------------------------------------------------------------- memos and the codec

  // A memo of the audio pool.
  ghost predicate IsAudio(memo: Memo)
    reads memo
  {
    memo.Valid() && memo.bytes.Length >= MEMO_SIZE
  }

  // Where the run loop hands a memo on.
  datatype Destination = ToSendQ | ToPlayQ | ToPool | Lost

  class Codec {
    const tables: Tables
    const pcmSamples: array<Short>
    const stateEnc: AdpcmState
    const stateDec: AdpcmState

    constructor (tables: Tables)
      ensures Valid() && this.tables == tables && fresh(Repr())
    {
      this.tables := tables;
      pcmSamples := new Short[SCRATCH_SIZE](_ => 0);
      stateEnc := new AdpcmState();
      stateDec := new AdpcmState();
    }

    ghost function Repr(): set<object> {
      {pcmSamples, stateEnc, stateDec}
    }

    ghost predicate Valid() {
      pcmSamples.Length == SCRATCH_SIZE && stateEnc != stateDec
    }

    // The loop that expands a mu-law capture into the scratch buffer.
    method Expand(memo: Memo)
      requires Valid() && IsAudio(memo) && memo.data1 <= SCRATCH_SIZE
      modifies pcmSamples
      ensures pcmSamples[..memo.data1] == Linears(tables, memo.Contents())
      ensures memo.data1 == 0 ==> pcmSamples[0] == old(pcmSamples[0])
    {
      hide Tables.Linear;
      ghost var data := memo.Contents();
      for itr := 0 to memo.data1
        invariant forall k :: 0 <= k < itr ==> pcmSamples[k] == tables.Linear(data[k])
        invariant itr == 0 ==> pcmSamples[0] == old(pcmSamples[0])
      {
        pcmSamples[itr] := tables.Linear(memo.bytes[itr]);
      }
    }

    // The loop that compresses the scratch buffer back into the memo.
    method Compress(memo: Memo)
      requires Valid() && IsAudio(memo) && memo.data1 <= SCRATCH_SIZE
      modifies memo.bytes
      ensures memo.Contents() == CodedAll(tables, pcmSamples[..memo.data1])
    {
      hide Tables.Coded;
      for itr := 0 to memo.data1
        invariant forall k :: 0 <= k < itr ==> memo.bytes[k] == tables.Coded(pcmSamples[k])
      {
        memo.bytes[itr] := tables.Coded(pcmSamples[itr]);
      }
    }

    // The ADPCM half of encode: every sample after the first, coded behind the payload header.
    method EncodeRest(memo: Memo, ghost pcm: seq<Short>) returns (ret: int)
      requires Valid() && IsAudio(memo) && memo.data1 <= SCRATCH_SIZE
      requires pcmSamples[..memo.data1] == pcm
      modifies stateEnc, memo`data1, memo.bytes
      ensures IsAudio(memo) && ret == memo.data1 - PAYLOAD_HEADER >= 0
      ensures memo.bytes[..PAYLOAD_HEADER] == old(memo.bytes[..PAYLOAD_HEADER])
      ensures memo.bytes[PAYLOAD_HEADER..memo.data1] ==
        Encoded(Predictor(pcmSamples[0], 0), if pcm == [] then [] else pcm[1..])
    {
      hide EncodeAt, Encoded;
      var first := pcmSamples[0];
      stateEnc.Set(first, 0);
      var n := if memo.data1 == 0 then 0 else memo.data1 - 1;
      assert pcmSamples[1..1 + n] == if pcm == [] then [] else pcm[1..];
      ret := stateEnc.Encode(pcmSamples, 1, n, memo.bytes, PAYLOAD_HEADER);
      memo.data1 := ret + PAYLOAD_HEADER;
    }

    method Encode(memo: Memo) returns (ret: int)
      requires Valid() && IsAudio(memo) && memo.data1 <= SCRATCH_SIZE
      modifies pcmSamples, stateEnc, memo`data1, memo.bytes
      ensures IsAudio(memo) && ret == memo.data1 - PAYLOAD_HEADER
      ensures memo.Contents() == Payload(tables, old(pcmSamples[0]), old(memo.Contents()))
      ensures pcmSamples[0] == FirstSample(tables, old(pcmSamples[0]), old(memo.Contents()))
    {
      hide LowByte, HighByte, Encoded;
      ghost var data := memo.Contents();
      Expand(memo);
      ghost var pcm := Linears(tables, data);
      assert data != [] ==> pcmSamples[..memo.data1][0] == pcm[0];
      var first := pcmSamples[0];
      memo.bytes[0] := LowByte(first);
      memo.bytes[1] := HighByte(first);
      ret := EncodeRest(memo, pcm);
      ghost var codes := memo.bytes[PAYLOAD_HEADER..memo.data1];
      memo.bytes[2] := 0;
      memo.bytes[3] := 0;
      assert memo.bytes[PAYLOAD_HEADER..memo.data1] == codes;
      assert memo.Contents() == [LowByte(first), HighByte(first), 0, 0] + codes;
    }

    method Decode(memo: Memo) returns (ret: int)
      requires Valid() && IsAudio(memo) && Readable(memo.Contents())
      modifies pcmSamples, stateDec, memo`data1, memo.bytes
      ensures IsAudio(memo) && ret == memo.data1 - 1
      ensures memo.Contents() == Playable(tables, old(memo.Contents()))
      ensures pcmSamples[0] == PayloadStart(old(memo.Contents())).previous
    {
      hide ShortOf, DecodeAt, Decoded, Unpack;
      ghost var payload := memo.Contents();
      var first := ShortOf(memo.bytes[0], memo.bytes[1]);
      pcmSamples[0] := first;
      stateDec.Set(first, memo.bytes[2]);
      var nBytes := memo.data1 - PAYLOAD_HEADER;
      assert memo.bytes[PAYLOAD_HEADER..PAYLOAD_HEADER + nBytes] == payload[PAYLOAD_HEADER..];
      ret := stateDec.Decode(memo.bytes, PAYLOAD_HEADER, nBytes, pcmSamples, 1);
      assert pcmSamples[..1 + ret] == [first] + pcmSamples[1..1 + ret];
      assert pcmSamples[..1 + ret] == PayloadSamples(payload);
      memo.data1 := ret + 1;
      Compress(memo);
    }

    // One memo through the run loop: recode in place, relabel, hand on.
    method Handle(memo: Memo) returns (dest: Destination)
      requires Valid() && IsAudio(memo)
      requires memo.code.Enc? ==> memo.data1 <= SCRATCH_SIZE
      requires memo.code.Dec? ==> Readable(memo.Contents())
      modifies pcmSamples, stateEnc, stateDec, memo, memo.bytes
      ensures IsAudio(memo)
      ensures old(memo.code).Enc? ==>
        && dest == ToSendQ && memo.code == Send
        && memo.Contents() == Payload(tables, old(pcmSamples[0]), old(memo.Contents()))
      ensures old(memo.code).Dec? ==>
        && dest == ToPlayQ && memo.code == Play
        && memo.Contents() == Playable(tables, old(memo.Contents()))
      ensures !old(memo.code).Enc? && !old(memo.code).Dec? ==>
        && dest == (if old(memo.code).Respond? then ToPool else Lost)
        && memo.code == old(memo.code) && memo.Contents() == old(memo.Contents())
    {
      match memo.code
      case Enc =>
        var _ := Encode(memo);
        memo.code := Send;
        dest := ToSendQ;
      case Dec =>
        var _ := Decode(memo);
        memo.code := Play;
        dest := ToPlayQ;
      case Respond =>
        dest := ToPool;
      case _ =>
        dest := Lost;
    }
  }
}
