/** Where every field of an RTCP report lies in its bytes, position by position, as src/RTP.h lays the
    structures out: a reader that shares nothing with the parser finds the same report. */
module RtcpWire {
  import opened MachineInts
  import opened Options
  import opened Rtcp

  // Two and four bytes from position i on, the most significant first.
  function Half(b: seq<Byte>, i: nat): int
    requires i + 2 <= |b|
  {
    256 * (b[i] as int) + b[i + 1]
  }

  function Word(b: seq<Byte>, i: nat): int
    requires i + 4 <= |b|
  {
    0x100_0000 * (b[i] as int) + 0x1_0000 * (b[i + 1] as int) + 256 * (b[i + 2] as int) + b[i + 3]
  }

  lemma NetLayout(x: ULong, y: UShort)
    ensures Word(Net32(x), 0) == x && Half(Net16(y), 0) == y
  {
  }

  // A part of a message is where it was put.
  lemma WordWithin(a: seq<Byte>, b: seq<Byte>, c: seq<Byte>, i: nat)
    requires i + 4 <= |b|
    ensures Word(a + b + c, |a| + i) == Word(b, i)
  {
    assert forall k :: 0 <= k < |b| ==> (a + b + c)[|a| + k] == b[k];
  }

  lemma HeaderFields(p: Report)
    ensures var h := HeaderBytes(p);
            && h[0] == p.version % 4 + (if p.padding != 0 then 4 else 0) + 8 * (|p.rReports| % 32)
            && h[1] == p.rtcpType % 256
            && Half(h, 2) == (p.length - 1) % 0x1_0000
            && Word(h, 4) == p.ssrc
  {
    hide Net32;
    NetLayout(p.ssrc, 0);
    var h := HeaderBytes(p);
    assert forall k :: 0 <= k < 4 ==> h[4 + k] == Net32(p.ssrc)[k];
  }

  lemma BytesStartWithHeader(p: Report)
    ensures var b, h := Bytes(p), HeaderBytes(p);
            && (forall k :: 0 <= k < 8 ==> b[k] == h[k])
  {
    hide HeaderBytes, SReportBytes, RReportsBytes;
  }

  lemma BuiltIs(ssrc: ULong, sReport: Option<SReport>, reports: seq<RReport>)
    ensures var p := Built(ssrc, sReport, reports);
            && p.rReports == reports && p.sReport == sReport && p.ssrc == ssrc
            && p.version == 2 && p.padding == 0
            && p.rtcpType == if sReport.Some? then 200 else if reports != [] then 201 else -1
  {
    assert [] + reports == reports;
  }

  /** The header: version 2, the report count in the upper five bits, the type 200 or 201, the number
      of bytes less one, and the sender. */
  lemma HeaderLayout(ssrc: ULong, sReport: Option<SReport>, reports: seq<RReport>)
    ensures var b := Bytes(Built(ssrc, sReport, reports));
            && |b| == 8 + (if sReport.Some? then 20 else 0) + 24 * |reports|
            && b[0] == 2 + 8 * (|reports| % 32)
            && (sReport.Some? ==> b[1] == 200)
            && (sReport.None? && reports != [] ==> b[1] == 201)
            && Half(b, 2) == (|b| - 1) % 0x1_0000
            && Word(b, 4) == ssrc
  {
    hide AddAll, Built, HeaderBytes, Bytes, Received;
    var p := Built(ssrc, sReport, reports);
    BuiltIs(ssrc, sReport, reports);
    HeaderFields(p);
    BytesStartWithHeader(p);
    assert |Bytes(p)| == p.length by {
      ReportRoundTrip(ssrc, sReport, reports);
    }
  }

  // A sender report is five words.
  lemma SReportWords(r: SReport)
    ensures var b := SReportBytes(r);
            && Word(b, 0) == r.ntpTimestamp1 && Word(b, 4) == r.ntpTimestamp2 && Word(b, 8) == r.rtpTimestamp
            && Word(b, 12) == r.nSentPackets && Word(b, 16) == r.nSentBytes
  {
    hide Net32, Word;
    var w1, w2, w3 := Net32(r.ntpTimestamp1), Net32(r.ntpTimestamp2), Net32(r.rtpTimestamp);
    var w4, w5 := Net32(r.nSentPackets), Net32(r.nSentBytes);
    var b := SReportBytes(r);
    NetLayout(r.ntpTimestamp1, 0);
    NetLayout(r.ntpTimestamp2, 0);
    NetLayout(r.rtpTimestamp, 0);
    NetLayout(r.nSentPackets, 0);
    NetLayout(r.nSentBytes, 0);
    assert b == [] + w1 + (w2 + w3 + w4 + w5);
    WordWithin([], w1, w2 + w3 + w4 + w5, 0);
    assert b == w1 + w2 + (w3 + w4 + w5);
    WordWithin(w1, w2, w3 + w4 + w5, 0);
    assert b == (w1 + w2) + w3 + (w4 + w5);
    WordWithin(w1 + w2, w3, w4 + w5, 0);
    WordWithin(w1 + w2 + w3, w4, w5, 0);
    assert b == (w1 + w2 + w3 + w4) + w5 + [];
    WordWithin(w1 + w2 + w3 + w4, w5, [], 0);
  }

  /** The sender report comes first, word by word. */
  lemma SReportLayout(ssrc: ULong, r: SReport, reports: seq<RReport>)
    ensures var b := Bytes(Built(ssrc, Some(r), reports));
            && |b| >= 28
            && Word(b, 8) == r.ntpTimestamp1 && Word(b, 12) == r.ntpTimestamp2 && Word(b, 16) == r.rtpTimestamp
            && Word(b, 20) == r.nSentPackets && Word(b, 24) == r.nSentBytes
  {
    hide Net32, HeaderBytes, SReportBytes, RReportsBytes, Word;
    SReportWords(r);
    var p := Built(ssrc, Some(r), reports);
    assert p.sReport == Some(r);
    var h, s, t := HeaderBytes(p), SReportBytes(r), RReportsBytes(p.rReports);
    assert Bytes(p) == h + s + t;
    WordWithin(h, s, t, 0);
    WordWithin(h, s, t, 4);
    WordWithin(h, s, t, 8);
    WordWithin(h, s, t, 12);
    WordWithin(h, s, t, 16);
  }

  // What the twenty-four bytes of a receiver report from position i on say.
  predicate HoldsRReport(b: seq<Byte>, i: nat, r: RReport)
    requires i + 24 <= |b|
  {
    && Word(b, i) == r.ssrc
    && b[i + 4] == r.fractionLost
    && b[i + 5] as int + 256 * (b[i + 6] as int) + 0x1_0000 * (b[i + 7] as int) == r.nLostPackets
    && Half(b, i + 8) == r.extSeqCycles && Half(b, i + 10) == r.extSeqRecvd
    && Word(b, i + 12) == r.jitter && Word(b, i + 16) == r.lsr && Word(b, i + 20) == r.dlsr
  }

  lemma RReportFields(r: RReport)
    ensures HoldsRReport(RReportBytes(r), 0, r)
  {
    hide Net32, Word;
    var b := RReportBytes(r);
    var w1, w2, w3, w4 := Net32(r.ssrc), Net32(r.jitter), Net32(r.lsr), Net32(r.dlsr);
    var m := [r.fractionLost] + Mem24(r.nLostPackets) + Net16(r.extSeqCycles) + Net16(r.extSeqRecvd);
    NetLayout(r.ssrc, r.extSeqCycles);
    NetLayout(r.jitter, r.extSeqRecvd);
    NetLayout(r.lsr, 0);
    NetLayout(r.dlsr, 0);
    assert b == [] + w1 + (m + w2 + w3 + w4);
    WordWithin([], w1, m + w2 + w3 + w4, 0);
    assert b == (w1 + m) + w2 + (w3 + w4);
    WordWithin(w1 + m, w2, w3 + w4, 0);
    assert b == (w1 + m + w2) + w3 + w4;
    WordWithin(w1 + m + w2, w3, w4, 0);
    assert b == (w1 + m + w2 + w3) + w4 + [];
    WordWithin(w1 + m + w2 + w3, w4, [], 0);
    assert forall k :: 0 <= k < 8 ==> b[4 + k] == m[k];
  }

  lemma RReportWithin(a: seq<Byte>, b: seq<Byte>, c: seq<Byte>, i: nat, r: RReport)
    requires i + 24 <= |b|
    ensures HoldsRReport(a + b + c, |a| + i, r) == HoldsRReport(b, i, r)
  {
    hide Word;
    var t := a + b + c;
    assert forall k :: 0 <= k < |b| ==> t[|a| + k] == b[k];
    WordWithin(a, b, c, i);
    WordWithin(a, b, c, i + 12);
    WordWithin(a, b, c, i + 16);
    WordWithin(a, b, c, i + 20);
    assert t[|a| + i + 4] == b[i + 4] && t[|a| + i + 5] == b[i + 5] && t[|a| + i + 6] == b[i + 6];
    assert t[|a| + i + 7] == b[i + 7] && t[|a| + i + 8] == b[i + 8] && t[|a| + i + 9] == b[i + 9];
    assert t[|a| + i + 10] == b[i + 10] && t[|a| + i + 11] == b[i + 11];
  }

  lemma {:induction false} RReportsFields(reports: seq<RReport>, k: nat)
    requires k < |reports|
    ensures HoldsRReport(RReportsBytes(reports), 24 * k, reports[|reports| - 1 - k])
    decreases k
  {
    hide HoldsRReport, RReportBytes;
    var last, front := reports[|reports| - 1], reports[..|reports| - 1];
    var head, tail := RReportBytes(last), RReportsBytes(front);
    if k == 0 {
      RReportFields(last);
      assert RReportsBytes(reports) == [] + head + tail;
      RReportWithin([], head, tail, 0, last);
    } else {
      RReportsFields(front, k - 1);
      assert RReportsBytes(reports) == head + tail + [];
      RReportWithin(head, tail, [], 24 * (k - 1), reports[|reports| - 1 - k]);
    }
  }

  /** The receiver reports follow, the one added last first. */
  lemma RReportLayout(ssrc: ULong, sReport: Option<SReport>, reports: seq<RReport>, k: nat)
    requires k < |reports|
    ensures var b := Bytes(Built(ssrc, sReport, reports));
            var i := 8 + (if sReport.Some? then 20 else 0) + 24 * k;
            i + 24 <= |b| && HoldsRReport(b, i, reports[|reports| - 1 - k])
  {
    hide AddAll, Built, HeaderBytes, Bytes, HoldsRReport;
    BuiltIs(ssrc, sReport, reports);
    RReportsInBytes(Built(ssrc, sReport, reports), k);
  }

  lemma RReportsInBytes(p: Report, k: nat)
    requires k < |p.rReports|
    ensures var b := Bytes(p);
            var i := 8 + (if p.sReport.Some? then 20 else 0) + 24 * k;
            i + 24 <= |b| && HoldsRReport(b, i, p.rReports[|p.rReports| - 1 - k])
  {
    hide HeaderBytes, SReportBytes, HoldsRReport;
    RReportsFields(p.rReports, k);
    var front := HeaderBytes(p) + if p.sReport.Some? then SReportBytes(p.sReport.value) else [];
    var tail := RReportsBytes(p.rReports);
    hide RReportsBytes;
    assert Bytes(p) == front + tail + [];
    hide Bytes;
    RReportWithin(front, tail, [], 24 * k, p.rReports[|p.rReports| - 1 - k]);
  }

  // ---------------------------------------------------------------- the parser, on any message

  lemma HostLayout(b: seq<Byte>, i: nat)
    requires i + 4 <= |b|
    ensures Host32(b[i..]) == Word(b, i) && Host16(b[i..]) == Half(b, i)
  {
    assert b[i..][2..] == b[i + 2..];
  }

  lemma ParsedRReport(b: seq<Byte>)
    requires |b| >= 24
    ensures HoldsRReport(b, 0, RReportOf(b))
  {
    hide Host32, Host16, Word, Half;
    HostLayout(b, 0);
    HostLayout(b, 8);
    HostLayout(b, 10);
    HostLayout(b, 12);
    HostLayout(b, 16);
    HostLayout(b, 20);
    assert b[0..] == b;
  }

  lemma {:induction false} ParsedRReports(b: seq<Byte>, n: nat, k: nat)
    requires |b| >= 24 * n && k < n
    ensures HoldsRReport(b, 24 * k, RReportsOf(b, n)[k])
    decreases k
  {
    hide HoldsRReport, RReportOf;
    if k == 0 {
      ParsedRReport(b);
    } else {
      var rest := b[24..];
      ParsedRReports(rest, n - 1, k - 1);
      assert b == b[..24] + rest + [];
      RReportWithin(b[..24], rest, [], 24 * (k - 1), RReportsOf(rest, n - 1)[k - 1]);
    }
  }

  /** Whoever wrote the message: the first byte is version, padding and report count, the fields are
      the sender's and each report's own bytes, and the receiver reports are kept in wire order. */
  lemma ParsedLayout(msg: seq<Byte>, k: nat)
    requires |msg| >= 8 && (msg[1] == 200 || msg[1] == 201)
    requires |msg| >= 8 + (if msg[1] == 200 then 20 else 0) + 24 * (msg[0] as int / 8)
    ensures Received(msg).Some?
    ensures var p := Received(msg).value;
            && 0 <= p.version < 4 && 0 <= p.padding < 2
            && msg[0] == p.version + 4 * p.padding + 8 * |p.rReports|
            && p.ssrc == Word(msg, 4)
            && (p.sReport.Some? <==> msg[1] == 200)
            && (p.sReport.Some? ==>
                 var r := p.sReport.value;
                 && Word(msg, 8) == r.ntpTimestamp1 && Word(msg, 12) == r.ntpTimestamp2
                 && Word(msg, 16) == r.rtpTimestamp
                 && Word(msg, 20) == r.nSentPackets && Word(msg, 24) == r.nSentBytes)
            && (k < |p.rReports| ==>
                  HoldsRReport(msg, 8 + (if msg[1] == 200 then 20 else 0) + 24 * k, p.rReports[k]))
  {
    hide Host32, Word, HoldsRReport, RReportsOf;
    var from := 8 + if msg[1] == 200 then 20 else 0;
    var n := msg[0] / 8;
    HostLayout(msg, 4);
    if msg[1] == 200 {
      ParsedSReport(msg);
    }
    var tail := msg[from..];
    var reports := RReportsOf(tail, n);
    assert Received(msg).value.rReports == reports by {
      assert [] + reports == reports;
    }
    if k < n {
      ParsedRReports(tail, n, k);
      assert msg == msg[..from] + tail + [];
      RReportWithin(msg[..from], tail, [], 24 * k, reports[k]);
    }
  }

  lemma ParsedSReport(msg: seq<Byte>)
    requires |msg| >= 28
    ensures var r := SReportOf(msg[8..]);
            && Word(msg, 8) == r.ntpTimestamp1 && Word(msg, 12) == r.ntpTimestamp2
            && Word(msg, 16) == r.rtpTimestamp
            && Word(msg, 20) == r.nSentPackets && Word(msg, 24) == r.nSentBytes
  {
    hide Host32, Word;
    var b := msg[8..];
    assert b[4..] == msg[12..] && b[8..] == msg[16..] && b[12..] == msg[20..] && b[16..] == msg[24..];
    HostLayout(msg, 8);
    HostLayout(msg, 12);
    HostLayout(msg, 16);
    HostLayout(msg, 20);
    HostLayout(msg, 24);
  }

  // Any other type is refused.
  lemma OtherTypesRefused(msg: seq<Byte>)
    requires |msg| >= 8 && msg[1] != 200 && msg[1] != 201
    ensures Received(msg).None?
  {
  }
}
