/** RTCP reports of src/RTP.cpp: the packet under construction, and its bytes. Integers cross the
    wire most significant byte first, except the 24-bit loss count, which is copied as it lies in
    memory; bit fields fill a byte from its low end. */
module Rtcp {
  import opened MachineInts
  import opened Options

  const FIX_HDR_LEN := 8
  const S_REPORT_LEN := 20
  const R_REPORT_LEN := 24
  const TYPE_SR := 200
  const TYPE_RR := 201

  type Lost24 = x: int | 0 <= x < 0x100_0000

  datatype SReport = SReport(ntpTimestamp1: ULong, ntpTimestamp2: ULong, rtpTimestamp: ULong,
                             nSentPackets: ULong, nSentBytes: ULong)

  datatype RReport = RReport(ssrc: ULong, fractionLost: Byte, nLostPackets: Lost24,
                             extSeqCycles: UShort, extSeqRecvd: UShort,
                             jitter: ULong, lsr: ULong, dlsr: ULong)

  // ---------------------------------------------------------------- integers on the wire

  // htons and htonl, then memory order
  function Net16(x: UShort): seq<Byte> {
    [x / 256, x % 256]
  }

  function Net32(x: ULong): (b: seq<Byte>)
    ensures |b| == 4
  {
    Net16(x / 0x1_0000) + Net16(x % 0x1_0000)
  }

  function Mem24(x: Lost24): seq<Byte> {
    [x % 256, x / 256 % 256, x / 0x1_0000]
  }

  function Host16(b: seq<Byte>): UShort
    requires |b| >= 2
  {
    256 * (b[0] as int) + b[1]
  }

  function Host32(b: seq<Byte>): ULong
    requires |b| >= 4
  {
    0x1_0000 * (Host16(b) as int) + Host16(b[2..])
  }

  function Lost24Of(b: seq<Byte>): Lost24
    requires |b| >= 3
  {
    b[0] as int + 256 * (b[1] as int) + 0x1_0000 * (b[2] as int)
  }

  // ---------------------------------------------------------------- reports on the wire

  function SReportBytes(r: SReport): (b: seq<Byte>)
    ensures |b| == S_REPORT_LEN
  {
    Net32(r.ntpTimestamp1) + Net32(r.ntpTimestamp2) + Net32(r.rtpTimestamp) +
    Net32(r.nSentPackets) + Net32(r.nSentBytes)
  }

  function SReportOf(b: seq<Byte>): SReport
    requires |b| >= S_REPORT_LEN
  {
    SReport(Host32(b), Host32(b[4..]), Host32(b[8..]), Host32(b[12..]), Host32(b[16..]))
  }

  function RReportBytes(r: RReport): (b: seq<Byte>)
    ensures |b| == R_REPORT_LEN
  {
    Net32(r.ssrc) + [r.fractionLost] + Mem24(r.nLostPackets) +
    Net16(r.extSeqCycles) + Net16(r.extSeqRecvd) +
    Net32(r.jitter) + Net32(r.lsr) + Net32(r.dlsr)
  }

  function RReportOf(b: seq<Byte>): RReport
    requires |b| >= R_REPORT_LEN
  {
    RReport(Host32(b), b[4], Lost24Of(b[5..]), Host16(b[8..]), Host16(b[10..]),
            Host32(b[12..]), Host32(b[16..]), Host32(b[20..]))
  }

  // ---------------------------------------------------------------- packets

  // A packet as built with setSReport and addRReport and as parsed; sReport is None when no
  // sender report is pending.
  datatype Report = Report(version: int, padding: int, ssrc: ULong, rtcpType: int, length: int,
                           sReport: Option<SReport>, rReports: seq<RReport>)

  const NO_TYPE := -1

  function Emptied(ssrc: ULong): Report {
    Report(2, 0, ssrc, NO_TYPE, FIX_HDR_LEN, None, [])
  }

  function WithSReport(p: Report, r: SReport): Report {
    p.(rtcpType := TYPE_SR, sReport := Some(r), length := p.length + S_REPORT_LEN)
  }

  function WithRReport(p: Report, r: RReport): Report {
    p.(rtcpType := if p.rtcpType != TYPE_SR then TYPE_RR else p.rtcpType,
       rReports := p.rReports + [r], length := p.length + R_REPORT_LEN)
  }

  function HeaderBytes(p: Report): (b: seq<Byte>)
    ensures |b| == FIX_HDR_LEN
  {
    [p.version % 4 + (if p.padding != 0 then 4 else 0) + 8 * (|p.rReports| % 32), p.rtcpType % 256] +
    Net16(ToUShort(p.length - 1)) + Net32(p.ssrc)
  }

  // Receiver reports go out last added first: nextRReport takes from the back.
  function RReportsBytes(reports: seq<RReport>): (b: seq<Byte>)
    ensures |b| == R_REPORT_LEN * |reports|
  {
    if reports == [] then []
    else RReportBytes(reports[|reports| - 1]) + RReportsBytes(reports[..|reports| - 1])
  }

  function Bytes(p: Report): (b: seq<Byte>)
    ensures |b| == FIX_HDR_LEN + (if p.sReport.Some? then S_REPORT_LEN else 0) + R_REPORT_LEN * |p.rReports|
  {
    HeaderBytes(p) + (if p.sReport.Some? then SReportBytes(p.sReport.value) else []) + RReportsBytes(p.rReports)
  }

  function RReportsOf(b: seq<Byte>, n: nat): (reports: seq<RReport>)
    requires |b| >= R_REPORT_LEN * n
    ensures |reports| == n
  {
    if n == 0 then [] else [RReportOf(b)] + RReportsOf(b[R_REPORT_LEN..], n - 1)
  }

  function HeaderReport(msg: seq<Byte>): Report
    requires |msg| >= FIX_HDR_LEN
  {
    Emptied(Host32(msg[4..])).(version := msg[0] % 4, padding := msg[0] / 4 % 2)
  }

  // The bytes parseBytes reads of a message with this header; it trusts the header's count.
  function Extent(msg: seq<Byte>): nat
    requires |msg| >= FIX_HDR_LEN
  {
    FIX_HDR_LEN + (if msg[1] == TYPE_SR then S_REPORT_LEN else 0) + R_REPORT_LEN * (msg[0] / 8)
  }

  predicate Accepted(msg: seq<Byte>)
    requires |msg| >= FIX_HDR_LEN
  {
    msg[1] == TYPE_SR || msg[1] == TYPE_RR
  }

  function Parsed(msg: seq<Byte>): Report
    requires |msg| >= FIX_HDR_LEN && (Accepted(msg) ==> |msg| >= Extent(msg))
  {
    var p := HeaderReport(msg);
    if !Accepted(msg) then p
    else if msg[1] == TYPE_SR then
      AddAll(WithSReport(p, SReportOf(msg[FIX_HDR_LEN..])),
             RReportsOf(msg[FIX_HDR_LEN + S_REPORT_LEN..], msg[0] / 8))
    else AddAll(p, RReportsOf(msg[FIX_HDR_LEN..], msg[0] / 8))
  }

  function AddAll(p: Report, reports: seq<RReport>): (q: Report)
    ensures q.rReports == p.rReports + reports && q.sReport == p.sReport
    ensures q.version == p.version && q.padding == p.padding && q.ssrc == p.ssrc
    ensures q.length == p.length + R_REPORT_LEN * |reports|
    ensures q.rtcpType == if reports == [] || p.rtcpType == TYPE_SR then p.rtcpType else TYPE_RR
    decreases |reports|
  {
    if reports == [] then p else AddAll(WithRReport(p, reports[0]), reports[1..])
  }

  // ---------------------------------------------------------------- the objects

  class RTCPPacket {
    var reportCount: int
    var rtcpType: int
    var length: int
    var isSRepValid: bool
    var sendRep: SReport
    var recvRepsVec: seq<RReport>
    var ssrc: ULong
    var version: int
    var padding: int

    ghost function View(): Report
      reads this
    {
      Report(version, padding, ssrc, rtcpType, length,
             if isSRepValid then Some(sendRep) else None, recvRepsVec)
    }

    constructor (ssrc: ULong)
      ensures View() == Emptied(ssrc)
    {
      reportCount, rtcpType, isSRepValid, version, padding := 0, NO_TYPE, false, 2, 0;
      length, recvRepsVec, this.ssrc := FIX_HDR_LEN, [], ssrc;
      sendRep := SReport(0, 0, 0, 0, 0);
    }

    method Reset()
      modifies this
      ensures View() == Emptied(old(ssrc)) && reportCount == 0
    {
      reportCount := 0;
      rtcpType := NO_TYPE;
      isSRepValid := false;
      version := 2;
      padding := 0;
      length := FIX_HDR_LEN;
      recvRepsVec := [];
    }

    method SetSReport(report: SReport)
      modifies this
      ensures View() == WithSReport(old(View()), report) && reportCount == old(reportCount)
    {
      rtcpType := TYPE_SR;
      sendRep := report;
      isSRepValid := true;
      length := length + S_REPORT_LEN;
    }

    // Takes the pending sender report.
    method GetSReport() returns (report: Option<SReport>)
      modifies this`isSRepValid
      ensures report == old(View()).sReport && !isSRepValid
    {
      if isSRepValid {
        report := Some(sendRep);
        isSRepValid := false;
      } else {
        report := None;
      }
    }

    method AddRReport(report: RReport)
      modifies this
      ensures View() == WithRReport(old(View()), report) && reportCount == old(reportCount) + 1
    {
      if rtcpType != TYPE_SR {
        rtcpType := TYPE_RR;
      }
      reportCount := reportCount + 1;
      recvRepsVec := recvRepsVec + [report];
      length := length + R_REPORT_LEN;
    }

    method ClearRReports()
      modifies this
      ensures View() == old(View()).(rReports := [], length := old(length) - R_REPORT_LEN * |old(recvRepsVec)|)
      ensures reportCount == 0
    {
      length := length - |recvRepsVec| * R_REPORT_LEN;
      reportCount := 0;
      recvRepsVec := [];
    }

    // Takes the receiver report added last.
    method NextRReport() returns (report: Option<RReport>)
      modifies this`recvRepsVec
      ensures old(recvRepsVec) == [] ==> report == None && recvRepsVec == []
      ensures old(recvRepsVec) != [] ==>
        recvRepsVec == old(recvRepsVec)[..|old(recvRepsVec)| - 1]
        && report == Some(old(recvRepsVec)[|old(recvRepsVec)| - 1])
    {
      report := None;
      if recvRepsVec != [] {
        report := Some(recvRepsVec[|recvRepsVec| - 1]);
        recvRepsVec := recvRepsVec[..|recvRepsVec| - 1];
      }
    }

    // Every receiver report, as calling nextRReport until the packet is empty hands them out.
    method TakeRReports() returns (reports: seq<RReport>)
      modifies this`recvRepsVec
      ensures reports == Reversed(old(recvRepsVec)) && recvRepsVec == []
    {
      reports := [];
      while recvRepsVec != []
        invariant reports + Reversed(recvRepsVec) == Reversed(old(recvRepsVec))
        decreases |recvRepsVec|
      {
        var report := NextRReport();
        reports := reports + [report.value];
      }
    }
  }

  class RTPPacketFormatter {
    var offset: nat

    constructor () { offset := 0; }

    // memcpy(msg + offset, ...); offset moves past what was copied.
    method Put(msg: array<Byte>, bytes: seq<Byte>)
      requires offset + |bytes| <= msg.Length
      modifies this, msg
      ensures offset == old(offset) + |bytes|
      ensures msg[..offset] == old(msg[..offset]) + bytes
    {
      forall i | 0 <= i < |bytes| {
        msg[offset + i] := bytes[i];
      }
      offset := offset + |bytes|;
    }

    // Empties the packet into msg and resets it; returns the number of bytes written.
    method WriteBytes(pack: RTCPPacket, msg: array<Byte>) returns (ret: int)
      requires |Bytes(pack.View())| <= msg.Length
      modifies this, pack, msg
      ensures ret == |Bytes(old(pack.View()))|
      ensures msg[..ret] == Bytes(old(pack.View()))
      ensures pack.View() == Emptied(old(pack.ssrc))
    {
      hide HeaderBytes, SReportBytes, RReportBytes;
      ghost var p := pack.View();
      var header := HeaderBytes(Report(pack.version, pack.padding, pack.ssrc, pack.rtcpType, pack.length, None, pack.recvRepsVec));
      HeaderIgnoresSReport(p);
      offset := 0;
      Put(msg, header);
      assert msg[..offset] == HeaderBytes(p);
      var sRep := pack.GetSReport();
      if sRep.Some? {
        Put(msg, SReportBytes(sRep.value));
      }
      ghost var front := HeaderBytes(p) + if p.sReport.Some? then SReportBytes(p.sReport.value) else [];
      assert msg[..offset] == front;
      while |pack.recvRepsVec| > 0
        invariant pack.ssrc == p.ssrc
        invariant offset + R_REPORT_LEN * |pack.recvRepsVec| == |Bytes(p)| <= msg.Length
        invariant msg[..offset] + RReportsBytes(pack.recvRepsVec) == Bytes(p)
        decreases |pack.recvRepsVec|
      {
        var rRep := pack.NextRReport();
        if rRep.Some? {
          Put(msg, RReportBytes(rRep.value));
        }
      }
      pack.Reset();
      ret := offset;
    }

    method ParseHeader(pack: RTCPPacket, msg: array<Byte>)
      requires msg.Length >= FIX_HDR_LEN
      modifies pack
      ensures pack.View() == HeaderReport(msg[..])
    {
      hide Host32;
      pack.Reset();
      pack.version := msg[0] % 4;
      pack.padding := msg[0] / 4 % 2;
      pack.ssrc := Host32(msg[4..]);
      assert msg[4..] == msg[..][4..];
    }

    // Fills the packet from msg; -1 for a type that is not a report.
    method ParseBytes(pack: RTCPPacket, msg: array<Byte>) returns (ret: int)
      requires msg.Length >= FIX_HDR_LEN && (Accepted(msg[..]) ==> msg.Length >= Extent(msg[..]))
      modifies this, pack
      ensures pack.View() == Parsed(msg[..])
      ensures ret == if Accepted(msg[..]) then Extent(msg[..]) else -1
    {
      hide SReportOf, RReportOf, Host32, HeaderReport, AddAll, RReportsOf, WithSReport, WithRReport;
      ghost var bytes := msg[..];
      offset := 0;
      ParseHeader(pack, msg);
      var repCount := msg[0] / 8;
      offset := FIX_HDR_LEN;
      if msg[1] == TYPE_SR {
        assert msg[offset..] == bytes[offset..];
        pack.SetSReport(SReportOf(msg[offset..]));
        offset := offset + S_REPORT_LEN;
      } else if msg[1] != TYPE_RR {
        return -1;
      }
      var temp := 0;
      while temp < repCount
        invariant 0 <= temp <= repCount == bytes[0] / 8
        invariant offset + R_REPORT_LEN * (repCount - temp) == Extent(bytes) <= |bytes|
        invariant AddAll(pack.View(), RReportsOf(bytes[offset..], repCount - temp)) == Parsed(bytes)
      {
        assert msg[offset..] == bytes[offset..];
        AddNext(pack.View(), bytes, offset, repCount - temp);
        pack.AddRReport(RReportOf(msg[offset..]));
        offset := offset + R_REPORT_LEN;
        temp := temp + 1;
      }
      ret := offset;
    }
  }

  lemma HeaderIgnoresSReport(p: Report)
    ensures HeaderBytes(p.(sReport := None)) == HeaderBytes(p)
  {
  }

  lemma AddNext(p: Report, bytes: seq<Byte>, offset: nat, k: nat)
    requires k > 0 && offset + R_REPORT_LEN * k <= |bytes|
    ensures AddAll(p, RReportsOf(bytes[offset..], k)) ==
      AddAll(WithRReport(p, RReportOf(bytes[offset..])), RReportsOf(bytes[offset + R_REPORT_LEN..], k - 1))
  {
    hide RReportOf, WithRReport;
    assert bytes[offset..][R_REPORT_LEN..] == bytes[offset + R_REPORT_LEN..];
    var rest := RReportsOf(bytes[offset..], k);
    assert rest[1..] == RReportsOf(bytes[offset + R_REPORT_LEN..], k - 1);
  }

  // ---------------------------------------------------------------- round trips

  lemma IntegersSurvive(x: ULong, y: UShort, z: Lost24, rest: seq<Byte>)
    ensures Host32(Net32(x) + rest) == x
    ensures Host16(Net16(y) + rest) == y
    ensures Lost24Of(Mem24(z) + rest) == z
  {
    assert (Net32(x) + rest)[2..] == Net16(x % 0x1_0000) + rest;
  }

  lemma SReportSurvives(r: SReport, rest: seq<Byte>)
    ensures SReportOf(SReportBytes(r) + rest) == r
  {
    hide Net32, Host32, Net16, Host16;
    var b := SReportBytes(r) + rest;
    assert b[16..] == Net32(r.nSentBytes) + rest;
    assert b[12..] == Net32(r.nSentPackets) + b[16..];
    assert b[8..] == Net32(r.rtpTimestamp) + b[12..];
    assert b[4..] == Net32(r.ntpTimestamp2) + b[8..];
    assert b == Net32(r.ntpTimestamp1) + b[4..];
    IntegersSurvive(r.nSentBytes, 0, 0, rest);
    IntegersSurvive(r.nSentPackets, 0, 0, b[16..]);
    IntegersSurvive(r.rtpTimestamp, 0, 0, b[12..]);
    IntegersSurvive(r.ntpTimestamp2, 0, 0, b[8..]);
    IntegersSurvive(r.ntpTimestamp1, 0, 0, b[4..]);
  }

  lemma RReportSurvives(r: RReport, rest: seq<Byte>)
    ensures RReportOf(RReportBytes(r) + rest) == r
  {
    hide Net32, Host32, Host16, Lost24Of;
    var b := RReportBytes(r) + rest;
    assert b[20..] == Net32(r.dlsr) + rest;
    assert b[16..] == Net32(r.lsr) + b[20..];
    assert b[12..] == Net32(r.jitter) + b[16..];
    assert b[10..] == Net16(r.extSeqRecvd) + b[12..];
    assert b[8..] == Net16(r.extSeqCycles) + b[10..];
    assert b[5..] == Mem24(r.nLostPackets) + b[8..];
    assert b[4] == r.fractionLost;
    assert b == Net32(r.ssrc) + b[4..];
    IntegersSurvive(r.dlsr, 0, 0, rest);
    IntegersSurvive(r.lsr, 0, 0, b[20..]);
    IntegersSurvive(r.jitter, r.extSeqRecvd, 0, b[16..]);
    IntegersSurvive(0, r.extSeqRecvd, 0, b[12..]);
    IntegersSurvive(0, r.extSeqCycles, 0, b[10..]);
    IntegersSurvive(0, 0, r.nLostPackets, b[8..]);
    IntegersSurvive(r.ssrc, 0, 0, b[4..]);
  }

  function Reversed<T>(s: seq<T>): (r: seq<T>)
    ensures |r| == |s|
  {
    if s == [] then [] else [s[|s| - 1]] + Reversed(s[..|s| - 1])
  }

  lemma {:induction false} ReversedAt<T>(s: seq<T>, k: nat)
    requires k < |s|
    ensures Reversed(s)[k] == s[|s| - 1 - k]
  {
    if k > 0 {
      ReversedAt(s[..|s| - 1], k - 1);
    }
  }

  lemma ReversedTwice<T>(s: seq<T>)
    ensures Reversed(Reversed(s)) == s
  {
    forall k | 0 <= k < |s|
      ensures Reversed(Reversed(s))[k] == s[k]
    {
      ReversedAt(Reversed(s), k);
      ReversedAt(s, |s| - 1 - k);
    }
  }

  // Reading n reports of what was written gives the n added last, newest first.
  lemma {:induction false} RReportsSurvive(reports: seq<RReport>, n: nat)
    requires n <= |reports|
    ensures RReportsOf(RReportsBytes(reports), n) == Reversed(reports)[..n]
    decreases n
  {
    hide RReportBytes, RReportOf;
    if n > 0 {
      var last, front := reports[|reports| - 1], reports[..|reports| - 1];
      RReportSurvives(last, RReportsBytes(front));
      assert RReportsBytes(reports)[R_REPORT_LEN..] == RReportsBytes(front);
      RReportsSurvive(front, n - 1);
    }
  }

  // A packet as a sender builds it: one optional sender report, then receiver reports.
  function Built(ssrc: ULong, sReport: Option<SReport>, reports: seq<RReport>): Report {
    AddAll(if sReport.Some? then WithSReport(Emptied(ssrc), sReport.value) else Emptied(ssrc), reports)
  }

  lemma HeaderSurvives(ssrc: ULong, sReport: Option<SReport>, reports: seq<RReport>)
    ensures var p := Built(ssrc, sReport, reports);
            var b := Bytes(p);
            && HeaderReport(b) == Emptied(ssrc)
            && b[0] / 8 == |reports| % 32
            && (b[1] == TYPE_SR <==> sReport.Some?)
            && (b[1] == TYPE_RR <==> sReport.None? && reports != [])
  {
    hide Net32, Host32, SReportBytes, RReportsBytes;
    var p := Built(ssrc, sReport, reports);
    var b := Bytes(p);
    var rest := b[FIX_HDR_LEN..];
    assert b[4..] == Net32(ssrc) + rest;
    IntegersSurvive(ssrc, 0, 0, rest);
    assert b[0] == 2 + 8 * (|reports| % 32);
    assert b[1] == p.rtcpType % 256;
  }

  // What a receiver has after parsing a message that is long enough for its own header.
  function Received(msg: seq<Byte>): Option<Report>
    requires |msg| >= FIX_HDR_LEN
  {
    if Accepted(msg) && |msg| >= Extent(msg) then Some(Parsed(msg)) else None
  }

  /** RTCP round trip, for any number of receiver reports. The bytes written are as many as the
      packet's length says. They are accepted exactly when there is a report in the packet; then
      everything comes back as it was built, with as many of the receiver reports as the five-bit
      count can say, the last added first. */
  lemma ReportRoundTrip(ssrc: ULong, sReport: Option<SReport>, reports: seq<RReport>)
    ensures var p := Built(ssrc, sReport, reports);
            && |Bytes(p)| == p.length
            && Received(Bytes(p)) ==
                 if sReport.Some? || reports != []
                 then Some(Built(ssrc, sReport, Reversed(reports)[..|reports| % 32]))
                 else None
  {
    hide HeaderBytes, RReportsBytes, RReportsOf, HeaderReport, AddAll, SReportBytes, SReportOf;
    var b := Bytes(Built(ssrc, sReport, reports));
    HeaderSurvives(ssrc, sReport, reports);
    BodySurvives(ssrc, sReport, reports);
  }

  lemma BodySurvives(ssrc: ULong, sReport: Option<SReport>, reports: seq<RReport>)
    ensures var b, n := Bytes(Built(ssrc, sReport, reports)), |reports| % 32;
            var body := b[FIX_HDR_LEN..];
            if sReport.Some? then
              && |body| >= S_REPORT_LEN + R_REPORT_LEN * n
              && SReportOf(body) == sReport.value
              && RReportsOf(b[FIX_HDR_LEN + S_REPORT_LEN..], n) == Reversed(reports)[..n]
            else
              && |body| >= R_REPORT_LEN * n
              && RReportsOf(body, n) == Reversed(reports)[..n]
  {
    hide SReportBytes, SReportOf, HeaderBytes, RReportsOf, RReportsBytes;
    var p := Built(ssrc, sReport, reports);
    assert p.rReports == reports && p.sReport == sReport by { assert [] + reports == reports; }
    hide AddAll, Built;
    var n := |reports| % 32;
    var middle := if sReport.Some? then SReportBytes(sReport.value) else [];
    var tail := RReportsBytes(reports);
    assert Bytes(p) == HeaderBytes(p) + middle + tail;
    ThreeParts(HeaderBytes(p), middle, tail);
    hide Bytes;
    RReportsSurvive(reports, n);
    if sReport.Some? {
      SReportSurvives(sReport.value, tail);
    } else {
      assert middle + tail == tail;
    }
  }

  lemma ThreeParts<T>(a: seq<T>, b: seq<T>, c: seq<T>)
    ensures (a + b + c)[|a|..] == b + c
    ensures (a + b + c)[|a| + |b|..] == c
  {
  }

  // Every receiver report survives exactly when there are at most thirty-one.
  lemma ThirtyOneReports(ssrc: ULong, sReport: Option<SReport>, reports: seq<RReport>)
    requires sReport.Some? || reports != []
    ensures var r := Received(Bytes(Built(ssrc, sReport, reports)));
            r.Some? && (|r.value.rReports| == |reports| <==> |reports| <= 31)
  {
    hide Bytes, Received;
    ReportRoundTrip(ssrc, sReport, reports);
  }

  /** Both ends work as stacks, so what the receiver takes out, the reverse of what it parsed, are
      the reports in the order the sender added them. */
  lemma ReadersOrder(ssrc: ULong, sReport: Option<SReport>, reports: seq<RReport>)
    requires (sReport.Some? || reports != []) && |reports| <= 31
    ensures var p := Built(ssrc, sReport, reports);
            var r := Received(Bytes(p));
            && r.Some?
            && Reversed(r.value.rReports) == reports
            && r.value.sReport == sReport && r.value.ssrc == ssrc && r.value.rtcpType == p.rtcpType
  {
    hide Bytes, Received;
    ReportRoundTrip(ssrc, sReport, reports);
    assert Reversed(reports)[..|reports| % 32] == Reversed(reports);
    assert Built(ssrc, sReport, Reversed(reports)).rReports == Reversed(reports);
    ReversedTwice(reports);
  }
}
