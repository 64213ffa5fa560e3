/** The sequence and loss accounting of src/RTPManager.cpp. The counters are thirty-two bits wide and
    wrap; a gap is added to the loss count as an unsigned difference, so a late or repeated packet
    takes back what an earlier gap added. */
module RtpManager {
  import opened MachineInts

  const SEQ_CYCLE := 0x1_0000
  const COUNTER_CYCLE := 0x1_0000_0000
  const BYTES_PER_PACKET := 84
  const SAMPLES_PER_PACKET := 161

  // ---------------------------------------------------------------- receiving

  datatype Receiver = Receiver(next: ULong, last: ULong, lost: ULong, received: ULong)

  // The accounting of handleRTPRecv for one packet.
  function Arrive(r: Receiver, sequence: UShort): Receiver {
    var lost := if sequence != r.next && r.received > 0 then ToULong(r.lost + (sequence - r.next)) else r.lost;
    Receiver(sequence + 1, sequence, lost, ToULong(r.received + 1))
  }

  function Arrivals(r: Receiver, sequences: seq<UShort>): Receiver {
    if sequences == [] then r
    else Arrive(Arrivals(r, sequences[..|sequences| - 1]), sequences[|sequences| - 1])
  }

  // ---------------------------------------------------------------- sending

  datatype Sender = Sender(sequence: UShort, wraps: UShort, sent: ULong, bytes: ULong, timestamp: ULong)

  // The accounting of handleRTPSend after one packet.
  function Depart(s: Sender): Sender {
    var sequence := ToUShort(s.sequence + 1);
    Sender(sequence, if sequence <= 0 then ToUShort(s.wraps + 1) else s.wraps,
           ToULong(s.sent + 1), ToULong(s.bytes + BYTES_PER_PACKET), ToULong(s.timestamp + SAMPLES_PER_PACKET))
  }

  function Departures(s: Sender, n: nat): Sender {
    if n == 0 then s else Depart(Departures(s, n - 1))
  }

  // ---------------------------------------------------------------- the state object

  class RTPState {
    var sequence: UShort
    var seqWrap: UShort
    var isFirstPack: bool
    var recvSeqNext: ULong
    var recvSeq: ULong
    var recvSeqWrap: UShort
    var nPacketsLost: ULong
    var nPacketsRecvd: ULong
    var nPacketsSent: ULong
    var nBytesRecvd: ULong
    var nBytesSent: ULong
    var rtpTimestampSend: ULong
    var ssrc: ULong
    var remoteSSRC: ULong

    ghost function Receiving(): Receiver
      reads this
    {
      Receiver(recvSeqNext, recvSeq, nPacketsLost, nPacketsRecvd)
    }

    ghost function Sending(): Sender
      reads this
    {
      Sender(sequence, seqWrap, nPacketsSent, nBytesSent, rtpTimestampSend)
    }

    method Reset()
      modifies this
      ensures Receiving() == Receiver(0, 0, 0, 0)
      ensures Sending() == Sender(0, 0, 0, old(nBytesSent), old(rtpTimestampSend))
      ensures recvSeqWrap == 0 && !isFirstPack
    {
      sequence, isFirstPack := 0, false;
      nPacketsRecvd, nPacketsSent := 0, 0;
      sequence, seqWrap := 0, 0;
      recvSeqNext, recvSeq, recvSeqWrap := 0, 0, 0;
      nPacketsLost := 0;
    }

    // RTPManager::init with the random numbers it draws. The packet counts stay.
    method Init(newSsrc: ULong, newTimestamp: ULong)
      modifies this
      ensures Receiving() == old(Receiving()).(next := 0, last := 0)
      ensures Sending() == old(Sending()).(sequence := 0, timestamp := newTimestamp)
      ensures ssrc == newSsrc && isFirstPack && recvSeqWrap == old(recvSeqWrap)
    {
      sequence := 0;
      ssrc := newSsrc;
      recvSeqNext := 0;
      recvSeq := 0;
      isFirstPack := true;
      rtpTimestampSend := newTimestamp;
    }

    method HandleRTPRecv(packetSequence: UShort, packetSSRC: ULong)
      modifies this
      ensures Receiving() == Arrive(old(Receiving()), packetSequence)
      ensures Sending() == old(Sending()) && !isFirstPack
      ensures remoteSSRC == if old(isFirstPack) then packetSSRC else old(remoteSSRC)
      ensures recvSeqWrap == old(recvSeqWrap)
      ensures nBytesRecvd == ToULong(old(nBytesRecvd) + BYTES_PER_PACKET)
    {
      if isFirstPack {
        remoteSSRC := packetSSRC;
        isFirstPack := false;
      }
      if packetSequence != recvSeqNext {
        if nPacketsRecvd > 0 {
          nPacketsLost := ToULong(nPacketsLost + (packetSequence - recvSeqNext));
          recvSeq := packetSequence;
        }
      }
      recvSeq := packetSequence;
      recvSeqNext := recvSeq + 1;
      assert recvSeqNext > 0;  // so the roll-over branch of the source, which counts cycles, is dead
      nPacketsRecvd := ToULong(nPacketsRecvd + 1);
      nBytesRecvd := ToULong(nBytesRecvd + BYTES_PER_PACKET);
    }

    // Returns the sequence number and timestamp the packet carries.
    method HandleRTPSend() returns (packetSequence: UShort, packetTimestamp: ULong)
      modifies this
      ensures packetSequence == old(sequence) && packetTimestamp == old(rtpTimestampSend)
      ensures Sending() == Depart(old(Sending())) && Receiving() == old(Receiving())
    {
      packetTimestamp := rtpTimestampSend;
      packetSequence := sequence;
      nPacketsSent := ToULong(nPacketsSent + 1);
      nBytesSent := ToULong(nBytesSent + BYTES_PER_PACKET);
      rtpTimestampSend := ToULong(rtpTimestampSend + SAMPLES_PER_PACKET);
      sequence := ToUShort(sequence + 1);
      if sequence <= 0 {
        seqWrap := ToUShort(seqWrap + 1);
        sequence := 0;
      }
    }
  }

  // ---------------------------------------------------------------- loss accounting

  // Equal as thirty-two-bit counters.
  predicate SameCounter(x: int, y: int) {
    (x - y) % COUNTER_CYCLE == 0
  }

  lemma CountersAdd(x: int, y: int, u: int, v: int)
    requires SameCounter(x, y) && SameCounter(u, v)
    ensures SameCounter(x + u, y + v) && SameCounter(x - u, y - v) && SameCounter(y, x)
  {
    var a, b := (x - y) / COUNTER_CYCLE, (u - v) / COUNTER_CYCLE;
    assert x - y == a * COUNTER_CYCLE && u - v == b * COUNTER_CYCLE;
    assert (x + u) - (y + v) == (a + b) * COUNTER_CYCLE;
    assert (x - u) - (y - v) == (a - b) * COUNTER_CYCLE;
    assert y - x == (-a) * COUNTER_CYCLE;
    Multiples(a + b);
    Multiples(a - b);
    Multiples(-a);
  }

  lemma Multiples(k: int)
    ensures (k * COUNTER_CYCLE) % COUNTER_CYCLE == 0
  {
  }

  function Balance(r: Receiver): int {
    r.lost + r.received - r.next
  }

  // What the accounting does not see: the gap in front of a packet that finds the count at zero,
  // as the first one does and, since the count wraps, every COUNTER_CYCLE packets another one.
  function Unseen(r: Receiver, sequence: UShort): int {
    if r.received == 0 then sequence - r.next else 0
  }

  function Uncounted(r: Receiver, sequences: seq<UShort>): int {
    if sequences == [] then 0
    else
      var front := sequences[..|sequences| - 1];
      Uncounted(r, front) + Unseen(Arrivals(r, front), sequences[|sequences| - 1])
  }

  // One more packet moves the balance by nothing but its unseen gap.
  lemma ArrivePreserves(r: Receiver, sequence: UShort)
    ensures SameCounter(Balance(Arrive(r, sequence)), Balance(r) - Unseen(r, sequence))
  {
    var r' := Arrive(r, sequence);
    var gap := if sequence != r.next && r.received > 0 then sequence - r.next else 0;
    assert SameCounter(r.lost + gap, r'.lost) && SameCounter(r.received + 1, r'.received);
    CountersAdd(r.lost + gap, r'.lost, r.received + 1, r'.received);
    CountersAdd(r.lost + gap + r.received + 1, r'.lost + r'.received, r'.next, r'.next);
  }

  /** From any state, over any arrivals with loss, duplication and reordering, as counters:
      lost + received grow by what next expected grows, but for the gaps not counted. */
  lemma {:induction false} LossBalance(r: Receiver, sequences: seq<UShort>)
    ensures SameCounter(Balance(Arrivals(r, sequences)), Balance(r) - Uncounted(r, sequences))
    decreases |sequences|
  {
    hide SameCounter, Balance, Arrive, Unseen;
    if sequences == [] {
      SameCounterReflexive(Balance(r));
    } else {
      var last := sequences[|sequences| - 1];
      var front := sequences[..|sequences| - 1];
      var before := Arrivals(r, front);
      var balanced := Balance(r) - Uncounted(r, front);
      LossBalance(r, front);
      ArrivePreserves(before, last);
      CountersShift(Balance(before), balanced, Unseen(before, last));
      SameCounterTransitive(Balance(Arrive(before, last)), Balance(before) - Unseen(before, last),
                            balanced - Unseen(before, last));
    }
  }

  lemma CountersShift(x: int, y: int, d: int)
    ensures SameCounter(x - d, y - d) <==> SameCounter(x, y)
  {
  }

  // While the count has not wrapped it tells the packets apart, and only the first gap is unseen.
  lemma {:induction false} UntilCountWraps(r: Receiver, sequences: seq<UShort>)
    requires r.received + |sequences| <= COUNTER_CYCLE
    ensures r.received + |sequences| < COUNTER_CYCLE ==> Arrivals(r, sequences).received == r.received + |sequences|
    ensures r.received + |sequences| == COUNTER_CYCLE && sequences != [] ==> Arrivals(r, sequences).received == 0
    ensures sequences != [] ==> Arrivals(r, sequences).next == sequences[|sequences| - 1] as int + 1
    ensures Uncounted(r, sequences) == if sequences != [] && r.received == 0 then sequences[0] - r.next else 0
    decreases |sequences|
  {
    if sequences != [] {
      UntilCountWraps(r, sequences[..|sequences| - 1]);
    }
  }

  lemma SameCounterTransitive(x: int, y: int, z: int)
    requires SameCounter(x, y) && SameCounter(y, z)
    ensures SameCounter(x, z)
  {
    CountersAdd(x, y, y, z);
  }

  // The receiver remembers the number that came last, and expects the one after it.
  lemma LatestIsRemembered(r: Receiver, sequences: seq<UShort>)
    requires sequences != []
    ensures var r' := Arrivals(r, sequences);
            r'.last == sequences[|sequences| - 1] && r'.next == sequences[|sequences| - 1] as int + 1
  {
    hide ToULong;
  }

  const RESET := Receiver(0, 0, 0, 0)

  /** Loss accounting after a reset, over any arrivals: lost + received is next expected minus the
      first sequence number, modulo the counter width, exactly when the gaps not counted come to
      that number: always up to COUNTER_CYCLE packets. */
  lemma LossAccounting(sequences: seq<UShort>)
    requires sequences != []
    ensures var r := Arrivals(RESET, sequences);
            && (SameCounter(r.lost + r.received, r.next - sequences[0])
                <==> SameCounter(Uncounted(RESET, sequences), sequences[0]))
            && (|sequences| <= COUNTER_CYCLE ==> SameCounter(r.lost + r.received, r.next - sequences[0]))
  {
    hide Arrivals, Uncounted;
    var r := Arrivals(RESET, sequences);
    var uncounted := Uncounted(RESET, sequences);
    LossBalance(RESET, sequences);
    assert SameCounter(r.lost + r.received - r.next, -uncounted);
    BalanceMeans(r.lost + r.received, r.next, uncounted, sequences[0]);
    if |sequences| <= COUNTER_CYCLE {
      UntilCountWraps(RESET, sequences);
      SameCounterReflexive(uncounted);
    }
  }

  lemma BalanceMeans(total: int, next: int, uncounted: int, first: int)
    requires SameCounter(total - next, -uncounted)
    ensures SameCounter(total, next - first) <==> SameCounter(uncounted, first)
  {
    hide SameCounter;
    CountersShift(total, next - uncounted, next);
    assert SameCounter(total, next - uncounted);
    SameCounterReflexive(next);
    if SameCounter(uncounted, first) {
      CountersAdd(next, next, uncounted, first);
      SameCounterTransitive(total, next - uncounted, next - first);
    }
    if SameCounter(total, next - first) {
      CountersAdd(total, next - uncounted, 0, 0) by { SameCounterReflexive(0); }
      SameCounterTransitive(next - uncounted, total, next - first);
      CountersAdd(next, next, next - uncounted, next - first);
    }
  }

  /** One packet further the count has wrapped to zero, and the accounting fails whenever that
      packet is not the one expected. */
  lemma WrappedCountHidesGap(sequences: seq<UShort>)
    requires |sequences| == COUNTER_CYCLE + 1
    ensures var r := Arrivals(RESET, sequences);
            SameCounter(r.lost + r.received, r.next - sequences[0])
            <==> sequences[COUNTER_CYCLE] == sequences[COUNTER_CYCLE - 1] as int + 1
  {
    var front := sequences[..COUNTER_CYCLE];
    UntilCountWraps(RESET, front);
    LossAccounting(sequences);
    var last := sequences[COUNTER_CYCLE];
    var unseen := Unseen(Arrivals(RESET, front), last);
    assert Uncounted(RESET, sequences) == Uncounted(RESET, front) + unseen;
    assert unseen == last as int - (sequences[COUNTER_CYCLE - 1] as int + 1);
    SmallCounter(sequences[0], unseen);
  }

  lemma SmallCounter(x: int, d: int)
    requires -SEQ_CYCLE <= d <= SEQ_CYCLE
    ensures SameCounter(x + d, x) <==> d == 0
  {
  }

  /** Over any arrivals after a reset, fewer than the packet count can hold, with loss, duplication
      and reordering: the packets received are counted, and the loss count is the packets expected
      between the first and the last number less those received exactly when that is not negative. */
  lemma LossIsExpectedMinusReceived(sequences: seq<UShort>)
    requires sequences != [] && |sequences| < COUNTER_CYCLE
    ensures var r := Arrivals(RESET, sequences);
            var expected := sequences[|sequences| - 1] as int + 1 - sequences[0];
            && r.received == |sequences|
            && (r.lost == expected - |sequences| <==> |sequences| <= expected)
  {
    hide SameCounter, Arrivals;
    LossAccounting(sequences);
    UntilCountWraps(RESET, sequences);
    var r := Arrivals(RESET, sequences);
    var expected := sequences[|sequences| - 1] as int + 1 - sequences[0];
    SameCounterReflexive(r.received);
    CountersAdd(r.lost + r.received, expected, r.received, r.received);
    if |sequences| <= expected {
      EqualCounters(r.lost, expected - |sequences|);
    }
  }

  lemma EqualCounters(x: ULong, y: ULong)
    requires SameCounter(x, y)
    ensures x == y
  {
  }

  // So it is when every number arrives once, between the first and the last.
  lemma LossOfDistinctArrivals(sequences: seq<UShort>)
    requires sequences != []
    requires forall i :: 0 <= i < |sequences| ==> sequences[0] <= sequences[i] <= sequences[|sequences| - 1]
    requires forall i, j :: 0 <= i < j < |sequences| ==> sequences[i] != sequences[j]
    ensures var r := Arrivals(RESET, sequences);
            r.lost == sequences[|sequences| - 1] as int + 1 - sequences[0] - |sequences|
  {
    hide Arrivals;
    DistinctInRange(sequences, sequences[0], sequences[|sequences| - 1]);
    LossIsExpectedMinusReceived(sequences);
  }

  // Distinct numbers of a range are no more than the range holds.
  lemma DistinctInRange(sequences: seq<UShort>, lo: int, hi: int)
    requires lo <= hi
    requires forall i :: 0 <= i < |sequences| ==> lo <= sequences[i] <= hi
    requires forall i, j :: 0 <= i < j < |sequences| ==> sequences[i] != sequences[j]
    ensures |sequences| <= hi + 1 - lo
  {
    var members := set i | 0 <= i < |sequences| :: sequences[i] as int;
    SetOfDistinct(sequences, members);
    var all := RangeSet(lo, hi + 1);
    assert members <= all;
    SubsetIsSmaller(members, all);
  }

  function RangeSet(lo: int, hi: int): (s: set<int>)
    requires lo <= hi
    ensures |s| == hi - lo
    ensures forall x :: x in s <==> lo <= x < hi
    decreases hi - lo
  {
    if lo == hi then {} else RangeSet(lo, hi - 1) + {hi - 1}
  }

  lemma SubsetIsSmaller(a: set<int>, b: set<int>)
    requires a <= b
    ensures |a| <= |b|
  {
    assert b == a + (b - a);
  }

  lemma {:induction false} SetOfDistinct(sequences: seq<UShort>, members: set<int>)
    requires members == set i | 0 <= i < |sequences| :: sequences[i] as int
    requires forall i, j :: 0 <= i < j < |sequences| ==> sequences[i] != sequences[j]
    ensures |members| == |sequences|
    decreases |sequences|
  {
    if sequences != [] {
      var n := |sequences|;
      var front := sequences[..n - 1];
      var fewer := set i | 0 <= i < |front| :: front[i] as int;
      SetOfDistinct(front, fewer);
      assert members == fewer + {sequences[n - 1] as int};
    }
  }

  /** init clears the sequence numbers but not the packet count. On a call accepted without a
      reset the accounting of that call is right exactly when nothing had been received before,
      or its first sequence number is zero. */
  lemma AccountingAfterInit(r: Receiver, sequences: seq<UShort>)
    requires sequences != [] && r.next == 0 && r.received + |sequences| <= COUNTER_CYCLE
    ensures var r' := Arrivals(r, sequences);
            SameCounter((r'.lost - r.lost) + (r'.received - r.received), r'.next - sequences[0])
            <==> r.received == 0 || sequences[0] == 0
  {
    hide Arrivals, Uncounted, SameCounter;
    var r' := Arrivals(r, sequences);
    var uncounted := Uncounted(r, sequences);
    LossBalance(r, sequences);
    UntilCountWraps(r, sequences);
    CountersShift(r'.lost + r'.received - r'.next, r.lost + r.received - r.next - uncounted, r.lost + r.received);
    BalanceMeans((r'.lost - r.lost) + (r'.received - r.received), r'.next, uncounted, sequences[0]);
    SmallCounter(sequences[0], uncounted - sequences[0]);
  }

  // ---------------------------------------------------------------- the sender's own count

  // t is s after n packets: the extended sequence number, the packet count, the byte count and the
  // timestamp have advanced by one, one, 84 and 161 a packet.
  predicate InStep(s: Sender, t: Sender, n: nat) {
    && SameCounter(SEQ_CYCLE * t.wraps + t.sequence, SEQ_CYCLE * s.wraps + s.sequence + n)
    && SameCounter(t.sent, s.sent + n)
    && SameCounter(t.bytes, s.bytes + BYTES_PER_PACKET * n)
    && SameCounter(t.timestamp, s.timestamp + SAMPLES_PER_PACKET * n)
  }

  /** The sender's four counters advance together, through every sixteen-bit wrap. */
  lemma {:induction false} SenderKeepsCount(s: Sender, n: nat)
    ensures InStep(s, Departures(s, n), n)
    decreases n
  {
    hide InStep;
    if n == 0 {
      NoDeparture(s);
    } else {
      SenderKeepsCount(s, n - 1);
      OneMoreDeparture(s, Departures(s, n - 1), n - 1);
    }
  }

  lemma NoDeparture(s: Sender)
    ensures InStep(s, s, 0)
  {
    hide SameCounter;
    SameCounterReflexive(SEQ_CYCLE * s.wraps + s.sequence);
    SameCounterReflexive(s.sent);
    SameCounterReflexive(s.bytes);
    SameCounterReflexive(s.timestamp);
  }

  lemma OneMoreDeparture(s: Sender, b: Sender, n: nat)
    requires InStep(s, b, n)
    ensures InStep(s, Depart(b), n + 1)
  {
    hide SameCounter;
    DepartAdvances(b);
    var t := Depart(b);
    hide Depart;
    Advance(SEQ_CYCLE * t.wraps + t.sequence, SEQ_CYCLE * b.wraps + b.sequence, SEQ_CYCLE * s.wraps + s.sequence + n, 1);
    Advance(t.sent, b.sent, s.sent + n, 1);
    Advance(t.bytes, b.bytes, s.bytes + BYTES_PER_PACKET * n, BYTES_PER_PACKET);
    Advance(t.timestamp, b.timestamp, s.timestamp + SAMPLES_PER_PACKET * n, SAMPLES_PER_PACKET);
  }

  lemma SameCounterReflexive(x: int)
    ensures SameCounter(x, x)
  {
  }

  lemma Advance(t: int, b: int, x: int, k: int)
    requires SameCounter(t, b + k) && SameCounter(b, x)
    ensures SameCounter(t, x + k)
  {
    CountersAdd(b, x, k, k);
    SameCounterTransitive(t, b + k, x + k);
  }

  lemma DepartAdvances(b: Sender)
    ensures var t := Depart(b);
            && SameCounter(SEQ_CYCLE * t.wraps + t.sequence, SEQ_CYCLE * b.wraps + b.sequence + 1)
            && SameCounter(t.sent, b.sent + 1)
            && SameCounter(t.bytes, b.bytes + BYTES_PER_PACKET)
            && SameCounter(t.timestamp, b.timestamp + SAMPLES_PER_PACKET)
  {
  }
}
