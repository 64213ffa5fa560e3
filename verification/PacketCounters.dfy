/** The counters of src/RTPManager.cpp against the packets of src/AdpcmCodec.cpp: the bytes and samples
    counted for each packet are those of the application's payloads and captures. */
module PacketCounters {
  import opened MachineInts
  import opened AdpcmCodec
  import CodecTheorems
  import opened RtpManager

  // Bytes of the payloads and samples of the captures, in all.
  function Bytes(t: Tables, captures: seq<seq<SByte>>): nat {
    if captures == [] then 0
    else Bytes(t, captures[..|captures| - 1]) + |Payload(t, 0, captures[|captures| - 1])|
  }

  function Samples(captures: seq<seq<SByte>>): nat {
    if captures == [] then 0 else Samples(captures[..|captures| - 1]) + |captures[|captures| - 1]|
  }

  lemma {:induction false} EachPacketCounts(t: Tables, captures: seq<seq<SByte>>)
    requires forall i :: 0 <= i < |captures| ==> |captures[i]| == SAMPLES_PER_CAPTURE
    ensures Bytes(t, captures) == 84 * |captures| && Samples(captures) == 161 * |captures|
    decreases |captures|
  {
    hide Payload;
    if captures != [] {
      var n := |captures|;
      CodecTheorems.ApplicationPacketSizes(t, 0, captures[n - 1]);
      EachPacketCounts(t, captures[..n - 1]);
    }
  }

  /** After sending the payloads of any captures of the application's size, one packet each, the byte
      count has grown by their bytes and the timestamp by their samples, modulo the counter width,
      and the packet count and the extended sequence number by their number. */
  lemma CountersMatchPackets(t: Tables, s: Sender, captures: seq<seq<SByte>>)
    requires forall i :: 0 <= i < |captures| ==> |captures[i]| == SAMPLES_PER_CAPTURE
    ensures var s' := Departures(s, |captures|);
            && SameCounter(s'.bytes, s.bytes + Bytes(t, captures))
            && SameCounter(s'.timestamp, s.timestamp + Samples(captures))
            && SameCounter(s'.sent, s.sent + |captures|)
            && SameCounter(0x1_0000 * s'.wraps + s'.sequence, 0x1_0000 * s.wraps + s.sequence + |captures|)
  {
    hide SameCounter, Departures, Bytes, Samples, Payload;
    EachPacketCounts(t, captures);
    SenderKeepsCount(s, |captures|);
  }
}
