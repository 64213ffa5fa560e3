/** Writing an SDP packet and reading the text back: exactly which packets the reader accepts, and
    what it then holds. */
module SdpTheorems {
  import opened Options
  import opened Text
  import opened Sdp
  import opened SdpLines

  // ---------------------------------------------------------------- places in the field order

  // The fields by place.
  function FieldAt(i: int): char {
    if i == 0 then 'v' else if i == 1 then 'o' else if i == 2 then 's' else if i == 3 || i == 15 then 'i'
    else if i == 4 then 'u' else if i == 5 then 'e' else if i == 6 then 'p' else if i == 7 || i == 16 then 'c'
    else if i == 8 || i == 17 then 'b' else if i == 9 then 't' else if i == 10 then 'r'
    else if i == 11 then 'z' else if i == 12 || i == 18 then 'k' else if i == 13 || i == 19 then 'a' else 'm'
  }

  lemma FieldsAre(i: nat)
    requires i < 20
    ensures |SDP_FIELDS| == 20 && SDP_FIELDS[i] == FieldAt(i)
  {
  }

  // Before the media a field's place is its first one, from the first m line on its last.
  lemma SessionPlace(index: nat)
    requires index <= 14
    ensures IndexOf(SDP_FIELDS, FieldAt(index)) == index && FieldAt(index) !in MARKS
  {
    hide IndexOf;
    var i := IndexOf(SDP_FIELDS, FieldAt(index));
    FieldsAre(index);
    if 0 <= i {
      FieldsAre(i);
    }
  }

  lemma MediaPlace(index: nat)
    requires 14 <= index < 20
    ensures LastIndexOf(SDP_FIELDS, FieldAt(index)) == index && FieldAt(index) !in MARKS
    ensures IndexOf(SDP_MEDIA_FIELDS, FieldAt(index)) >= 0
  {
    hide IndexOf, LastIndexOf;
    var i := LastIndexOf(SDP_FIELDS, FieldAt(index));
    FieldsAre(index);
    if 0 <= i {
      FieldsAre(i);
    }
    assert |SDP_MEDIA_FIELDS| == 6 && SDP_MEDIA_FIELDS[if index == 14 then 0 else index - 14] == FieldAt(index);
  }

  // ---------------------------------------------------------------- the session's lines

  // The reader before the first m line.
  predicate InSession(r: Reader) {
    r.Ready() && !r.mediaStarted
  }

  function AfterLine(r: Reader, index: int, p: Contents): Reader {
    Reader(p, if index == 9 then 10 else if index == 10 then 8 else if index == 13 then 12 else index,
           r.reqdDone || index == 2, index == 14, FieldAt(index))
  }

  // A line in its place is stored, and the next one may not come from an earlier place.
  lemma ReadSessionLine(r: Reader, index: nat, value: string, rest: string)
    requires InSession(r) && r.oldIndex <= index <= 14 && (r.reqdDone || index <= 2) && IsField(value)
    requires index == 10 ==> r.prev == 't'
    ensures r.Admits(FieldAt(index)) == 0
    ensures var ch := FieldAt(index);
            var p := Stored(r, ch, Some(value));
            if p.None? then ReadText(r, Line(ch, value, rest)) == Undefined
            else
              && AfterLine(r, index, p.value).Ready()
              && ReadText(r, Line(ch, value, rest)) == ReadText(AfterLine(r, index, p.value), rest)
  {
    hide ReadText, Line, IndexOf, Stored;
    SessionPlace(index);
    ReadPrintedLine(r, FieldAt(index), value, rest);
  }

  // An out of place line stops the reading.
  lemma MisplacedLine(r: Reader, index: nat, value: string, rest: string)
    requires InSession(r) && index <= 14 && index < r.oldIndex && IsField(value)
    ensures ReadText(r, Line(FieldAt(index), value, rest)) == Rejected(-4)
  {
    hide ReadText, Line, IndexOf, Stored;
    SessionPlace(index);
    ReadPrintedLine(r, FieldAt(index), value, rest);
  }

  // The reader past the mandatory lines.
  function Session(p: Contents, oldIndex: int, prev: char): Reader {
    Reader(p, oldIndex, true, false, prev)
  }

  // The lines with a text that is stored as it is: i u e p b z k.
  predicate Plain(index: int) {
    3 <= index <= 6 || index == 8 || index == 11 || index == 12
  }

  function SetPlain(p: Contents, index: int, value: Option<string>): Contents
    requires Plain(index)
  {
    if index == 3 then p.(info := value) else if index == 4 then p.(uri := value)
    else if index == 5 then p.(email := value) else if index == 6 then p.(phone := value)
    else if index == 8 then p.(bandwidth := value) else if index == 11 then p.(timezone := value)
    else p.(key := value)
  }

  lemma ReadOptional(r: Reader, index: int, value: Option<string>, rest: string)
    requires InSession(r) && r.reqdDone && r.prev != 't' && Plain(index) && r.oldIndex <= index && OptField(value)
    ensures ReadText(r, OptLine(FieldAt(index), value, rest)) ==
            if value.None? then ReadText(r, rest)
            else ReadText(Session(SetPlain(r.packet, index, value), index, FieldAt(index)), rest)
  {
    hide ReadText, Line, IndexOf, ParseConnection, OwnerField;
    if value.Some? {
      ReadSessionLine(r, index, value.value, rest);
    }
  }

  // The attributes as the writer prints them: one that does not fit repeats the buffer's text.
  function Held(attributes: seq<string>, buffer: string): (held: seq<string>)
    ensures |held| == |attributes|
  {
    if attributes == [] then []
    else
      var filled := if |attributes[0]| < ROOM then attributes[0] else buffer;
      [filled] + Held(attributes[1..], filled)
  }

  // The buffer is printed only once an attribute has filled it, or held something to print before.
  predicate Filled(attributes: seq<string>, buffer: string) {
    attributes == [] || |attributes[0]| < ROOM || IsField(buffer)
  }

  lemma SessionAttribute(p: Contents, value: string)
    ensures SessionField(p, 'a', Some(value)) == Some(p.(attributes := p.attributes + [value]))
  {
  }

  lemma ReadOneAttribute(r: Reader, value: string, rest: string)
    requires InSession(r) && r.reqdDone && r.prev != 't' && r.oldIndex <= 13 && IsField(value)
    ensures ReadText(r, Line('a', value, rest)) ==
            ReadText(Session(r.packet.(attributes := r.packet.attributes + [value]), 12, 'a'), rest)
  {
    hide ReadText, Line, IndexOf, LastIndexOf, SessionField, Reader.Admits, IsField;
    ReadSessionLine(r, 13, value, rest);
    SessionAttribute(r.packet, value);
  }

  lemma {:induction false} ReadAttributes(r: Reader, attributes: seq<string>, buffer: string, rest: string)
    requires InSession(r) && r.reqdDone && r.prev != 't' && r.oldIndex <= 13 && Filled(attributes, buffer)
    requires forall i :: 0 <= i < |attributes| ==> IsField(attributes[i])
    ensures var p := r.packet.(attributes := r.packet.attributes + Held(attributes, buffer));
            ReadText(r, AttrsText(attributes, buffer, rest)) ==
            if attributes == [] then ReadText(r, rest) else ReadText(Session(p, 12, 'a'), rest)
    decreases |attributes|
  {
    hide ReadText, Line, IsField, Stored, Reader.Admits;
    if attributes != [] {
      var filled := if |attributes[0]| < ROOM then attributes[0] else buffer;
      var p := r.packet.(attributes := r.packet.attributes + [filled]);
      Regroup(r.packet.attributes, filled, Held(attributes[1..], filled));
      assert attributes[1..] == [] ==> Held(attributes, buffer) == [filled];
      ReadOneAttribute(r, filled, AttrsText(attributes[1..], filled, rest));
      ReadAttributes(Session(p, 12, 'a'), attributes[1..], filled, rest);
    }
  }

  // ---------------------------------------------------------------- the times

  function TimesBack(times: seq<TimeDesc>): (back: seq<TimeDesc>)
    ensures |back| == |times|
  {
    if times == [] then [] else [TimeBack(times[0])] + TimesBack(times[1..])
  }

  lemma ReadOneTime(r: Reader, t: TimeDesc, rest: string)
    requires InSession(r) && r.reqdDone && r.oldIndex <= 9
    ensures ReadText(r, Line('t', Words(Ints([t.startTime, t.stopTime])), Line('r', RepeatText(t), rest))) ==
            ReadText(Session(r.packet.(times := r.packet.times + [TimeBack(t)]), 8, 'r'), rest)
  {
    hide ReadText, Line, IndexOf, Words, Ints, IsField, RepeatText, TimeField, TimeBack;
    TimeSurvives(t);
    var start := Words(Ints([t.startTime, t.stopTime]));
    ReadSessionLine(r, 9, start, Line('r', RepeatText(t), rest));
    var t1 := TimeField(NEW_TIME, 't', start);
    var r1 := Session(r.packet.(times := r.packet.times + [t1]), 10, 't');
    ReadSessionLine(r1, 10, RepeatText(t), rest);
    assert r1.packet.times[..|r.packet.times|] == r.packet.times;
  }

  lemma {:induction false} ReadTimes(r: Reader, times: seq<TimeDesc>, rest: string)
    requires InSession(r) && r.reqdDone && r.oldIndex <= 9
    ensures var p := r.packet.(times := r.packet.times + TimesBack(times));
            ReadText(r, TimesText(times, rest)) ==
            if times == [] then ReadText(r, rest) else ReadText(Session(p, 8, 'r'), rest)
    decreases |times|
  {
    hide ReadText, Line, IndexOf, Words, Ints, IsField, RepeatText, TimeField, TimeBack;
    if times != [] {
      ReadOneTime(r, times[0], TimesText(times[1..], rest));
      var p := r.packet.(times := r.packet.times + [TimeBack(times[0])]);
      ReadTimes(Session(p, 8, 'r'), times[1..], rest);
      var back := TimesBack(times);
      assert r.packet.times + back == (r.packet.times + [TimeBack(times[0])]) + TimesBack(times[1..]);
      if times[1..] == [] {
        assert back == [TimeBack(times[0])];
      }
    }
  }

  // ---------------------------------------------------------------- the session up to its attributes

  lemma ReadMandatory(p0: Contents, p: Contents, rest: string)
    requires PrintableOwner(p.owner) && p.name.Some? && IsField(p.name.value)
    ensures var q := p0.(version := p.version, owner := p.owner, name := p.name);
            ReadText(Start(p0), Line('v', Int(p.version), Line('o', OwnerText(p.owner), Line('s', p.name.value, rest))))
            == ReadText(Session(q, 2, 's'), rest)
  {
    hide ReadText, Line, IndexOf, OwnerText, OwnerField, Int, Atoi, IsField, IsWord;
    OwnerSurvives(p0.owner, p.owner);
    IntIsWord(p.version);
    AtoiOfInt(p.version);
    assert IsField(Int(p.version)) by {
      assert IsWord(Int(p.version));
    }
    var p1 := p0.(version := p.version);
    var p2 := p1.(owner := p.owner);
    var named := Line('s', p.name.value, rest);
    ReadSessionLine(Start(p0), 0, Int(p.version), Line('o', OwnerText(p.owner), named));
    ReadSessionLine(Reader(p1, 0, false, false, 'v'), 1, OwnerText(p.owner), named);
    ReadSessionLine(Reader(p2, 1, false, false, 'o'), 2, p.name.value, rest);
  }

  // A field that is not printed keeps what the packet read into held before.
  function Over(before: Option<string>, printed: Option<string>): Option<string> {
    if printed.Some? then printed else before
  }

  lemma TakeOptional(r: Reader, index: int, value: Option<string>, rest: string) returns (next: Reader)
    requires InSession(r) && r.reqdDone && r.prev != 't' && Plain(index) && r.oldIndex <= index && OptField(value)
    ensures InSession(next) && next.reqdDone && next.prev != 't'
    ensures next.packet == if value.Some? then SetPlain(r.packet, index, value) else r.packet
    ensures next.oldIndex == if value.Some? then index else r.oldIndex
    ensures ReadText(r, OptLine(FieldAt(index), value, rest)) == ReadText(next, rest)
  {
    hide ReadText, Line, OptLine;
    ReadOptional(r, index, value, rest);
    next := if value.None? then r else Session(SetPlain(r.packet, index, value), index, FieldAt(index));
  }

  lemma ReadInformation(q: Contents, p: Contents, rest: string) returns (next: Reader)
    requires OptField(p.info) && OptField(p.uri) && OptField(p.email) && OptField(p.phone)
    ensures InSession(next) && next.reqdDone && next.prev != 't' && next.oldIndex <= 6
    ensures next.packet == q.(info := Over(q.info, p.info), uri := Over(q.uri, p.uri),
                              email := Over(q.email, p.email), phone := Over(q.phone, p.phone))
    ensures ReadText(Session(q, 2, 's'), OptLine('i', p.info, OptLine('u', p.uri, OptLine('e', p.email,
              OptLine('p', p.phone, rest))))) == ReadText(next, rest)
  {
    hide ReadText, Line, OptLine, OptField;
    var phone := OptLine('p', p.phone, rest);
    var email := OptLine('e', p.email, phone);
    var uri := OptLine('u', p.uri, email);
    next := TakeOptional(Session(q, 2, 's'), 3, p.info, uri);
    next := TakeOptional(next, 4, p.uri, email);
    next := TakeOptional(next, 5, p.email, phone);
    next := TakeOptional(next, 6, p.phone, rest);
  }

  lemma ReadConnection(r: Reader, c: Connection, rest: string)
    requires InSession(r) && r.reqdDone && r.prev != 't' && r.oldIndex <= 7 && PrintableConnection(c)
    ensures var p := r.packet.(connection := Some(c), nConnInfo := r.packet.nConnInfo + 1);
            ReadText(r, ConnText(Some(c), rest)) ==
            if Trailer(c) != "" then Rejected(-1) else ReadText(Session(p, 7, 'c'), rest)
  {
    hide ReadText, Line, IndexOf, ParseConnection, IsField, Words;
    ConnectionSurvives(c);
    ReadSessionLine(r, 7, ConnectionWords(c), Trailer(c) + rest);
    if Trailer(c) == "" {
      assert Trailer(c) + rest == rest;
    } else {
      var bare := c.(ttl := 0, numAddress := 0);
      var p := r.packet.(connection := Some(bare), nConnInfo := r.packet.nConnInfo + 1);
      TrailerRejected(Session(p, 7, 'c'), c, rest);
    }
  }

  // From the bandwidth to the key.
  lemma ReadRest(r: Reader, p: Contents, rest: string) returns (next: Reader)
    requires InSession(r) && r.reqdDone && r.prev != 't' && r.oldIndex <= 7
    requires OptField(p.bandwidth) && OptField(p.timezone) && OptField(p.key)
    ensures InSession(next) && next.reqdDone && next.prev != 't' && next.oldIndex <= 12
    ensures next.oldIndex > 9 <==> p.timezone.Some? || p.key.Some?
    ensures next.packet == r.packet.(bandwidth := Over(r.packet.bandwidth, p.bandwidth),
              timezone := Over(r.packet.timezone, p.timezone), key := Over(r.packet.key, p.key))
    ensures ReadText(r, OptLine('b', p.bandwidth, OptLine('z', p.timezone, OptLine('k', p.key, rest))))
            == ReadText(next, rest)
  {
    hide ReadText, Line, OptLine, OptField;
    var key := OptLine('k', p.key, rest);
    var timezone := OptLine('z', p.timezone, key);
    next := TakeOptional(r, 8, p.bandwidth, timezone);
    next := TakeOptional(next, 11, p.timezone, key);
    next := TakeOptional(next, 12, p.key, rest);
  }

  // ---------------------------------------------------------------- the media

  // The reader inside a medium: q but for its media, which are done and m.
  function Medium(q: Contents, done: seq<Media>, m: Media, oldIndex: int, prev: char): (r: Reader)
    ensures r.mediaStarted && r.reqdDone && |r.packet.media| == |done| + 1
    ensures r.packet.media[|done|] == m && r.packet.media[..|done|] == done
  {
    Reader(q.(media := done + [m]), oldIndex, true, true, prev)
  }

  // A line of a medium in its place goes to the last medium.
  lemma ReadMediumLine(r: Reader, q: Contents, done: seq<Media>, m: Media, index: nat, value: string, rest: string)
    requires r.prev != 't' && r == Medium(q, done, m, r.oldIndex, r.prev)
    requires r.oldIndex <= index && 15 <= index < 20 && IsField(value)
    ensures var m1 := MediaField(m, FieldAt(index), Some(value));
            m1.Some? ==>
              ReadText(r, Line(FieldAt(index), value, rest)) ==
              ReadText(Medium(q, done, m1.value, if index == 19 then 18 else index, FieldAt(index)), rest)
  {
    hide ReadText, Line, IndexOf, LastIndexOf, MediaField, SessionField, IsField;
    MediaPlace(index);
    ReadPrintedLine(r, FieldAt(index), value, rest);
    assert r.packet.media[|r.packet.media| - 1] == m;
    var m1 := MediaField(m, FieldAt(index), Some(value));
    if m1.Some? {
      assert LastMedia(r.packet, m1.value) == q.(media := done + [m1.value]);
    }
  }

  // An m line starts a new medium, after the session's lines or after another medium.
  lemma ReadMediaLine(r: Reader, m: Media, rest: string)
    requires r.Ready() && r.reqdDone && r.prev != 't' && (r.mediaStarted || r.oldIndex <= 14) && PrintableMedia(m)
    ensures ReadText(r, Line('m', MediaText(m), rest)) ==
            ReadText(Medium(r.packet, r.packet.media, LineBack(m), 14, 'm'), rest)
  {
    hide ReadText, Line, IndexOf, LastIndexOf, SessionField, MediaLine, IsField, MediaText, PrintableMedia;
    MediaPlace(14);
    SessionPlace(14);
    MediaLineSurvives(m);
    ReadPrintedLine(r, 'm', MediaText(m), rest);
    var p := r.packet.(media := r.packet.media + [NEW_MEDIA]);
    assert p.media[|p.media| - 1] == NEW_MEDIA && p.media[..|p.media| - 1] == r.packet.media;
    assert LastMedia(p, LineBack(m)) == r.packet.(media := r.packet.media + [LineBack(m)]);
  }

  // The lines of a medium that are stored as they are: i b k.
  function SetMediaPlain(m: Media, index: int, value: Option<string>): Media {
    if index == 15 then m.(title := value) else if index == 17 then m.(bandwidth := value) else m.(key := value)
  }

  lemma TakeMediaOptional(r: Reader, q: Contents, done: seq<Media>, m: Media, index: nat,
                          value: Option<string>, rest: string) returns (next: Reader)
    requires r.prev != 't' && r == Medium(q, done, m, r.oldIndex, r.prev)
    requires (index == 15 || index == 17 || index == 18) && r.oldIndex <= index && OptField(value)
    requires SetMediaPlain(m, index, None) == m
    ensures next.prev != 't' && next == Medium(q, done, SetMediaPlain(m, index, value), next.oldIndex, next.prev)
    ensures next.oldIndex == if value.Some? then index else r.oldIndex
    ensures ReadText(r, OptLine(FieldAt(index), value, rest)) == ReadText(next, rest)
  {
    hide ReadText, Line, Medium;
    next := r;
    if value.Some? {
      ReadMediumLine(r, q, done, m, index, value.value, rest);
      next := Medium(q, done, SetMediaPlain(m, index, value), index, FieldAt(index));
      assert next.oldIndex == index && next.prev == FieldAt(index) by {
        MediumIs(q, done, SetMediaPlain(m, index, value), index, FieldAt(index));
      }
    }
  }

  lemma MediumIs(q: Contents, done: seq<Media>, m: Media, oldIndex: int, prev: char)
    ensures var r := Medium(q, done, m, oldIndex, prev);
            r.oldIndex == oldIndex && r.prev == prev
  {
  }

  lemma ReadMediaConnection(r: Reader, q: Contents, done: seq<Media>, m: Media,
                            c: Option<Connection>, rest: string) returns (next: Reader)
    requires r.prev != 't' && r == Medium(q, done, m, r.oldIndex, r.prev) && r.oldIndex <= 16
    requires m.connection == None && (c.Some? ==> PrintableConnection(c.value))
    ensures next.prev != 't' && next == Medium(q, done, m.(connection := c), next.oldIndex, next.prev)
    ensures next.oldIndex <= 16
    ensures ReadText(r, ConnText(c, rest)) ==
            if c.Some? && Trailer(c.value) != "" then Rejected(-1) else ReadText(next, rest)
  {
    hide ReadText, Line, ParseConnection, IsField, Words;
    next := r;
    if c.Some? {
      ConnectionSurvives(c.value);
      ReadMediumLine(r, q, done, m, 16, ConnectionWords(c.value), Trailer(c.value) + rest);
      next := Medium(q, done, m.(connection := c), 16, 'c');
      if Trailer(c.value) == "" {
        assert Trailer(c.value) + rest == rest;
      } else {
        var bare := c.value.(ttl := 0, numAddress := 0);
        TrailerRejected(Medium(q, done, m.(connection := Some(bare)), 16, 'c'), c.value, rest);
      }
    }
  }

  function Fitting(attributes: seq<string>): seq<string> {
    if attributes == [] then []
    else (if |attributes[0]| < ROOM then [attributes[0]] else []) + Fitting(attributes[1..])
  }

  lemma MediaAttribute(m: Media, value: string)
    ensures MediaField(m, FieldAt(19), Some(value)) == Some(m.(attributes := m.attributes + [value]))
  {
  }

  lemma {:induction false} ReadMediaAttributes(r: Reader, q: Contents, done: seq<Media>, m: Media,
                                               attributes: seq<string>, rest: string) returns (next: Reader)
    requires r.prev != 't' && r == Medium(q, done, m, r.oldIndex, r.prev) && r.oldIndex <= 19
    requires forall i :: 0 <= i < |attributes| ==> IsField(attributes[i])
    ensures next.prev != 't' && next.oldIndex <= 19
    ensures next == Medium(q, done, m.(attributes := m.attributes + Fitting(attributes)), next.oldIndex, next.prev)
    ensures ReadText(r, MediaAttrsText(attributes, rest)) == ReadText(next, rest)
    decreases |attributes|
  {
    hide ReadText, Line, IsField, MediaField, Medium;
    next := r;
    if attributes == [] {
      assert m.attributes + Fitting(attributes) == m.attributes;
    } else if |attributes[0]| < ROOM {
      var m1 := m.(attributes := m.attributes + [attributes[0]]);
      MediaAttribute(m, attributes[0]);
      ReadMediumLine(r, q, done, m, 19, attributes[0], MediaAttrsText(attributes[1..], rest));
      MediumIs(q, done, m1, 18, 'a');
      next := ReadMediaAttributes(Medium(q, done, m1, 18, 'a'), q, done, m1, attributes[1..], rest);
      Regroup(m.attributes, attributes[0], Fitting(attributes[1..]));
    } else {
      next := ReadMediaAttributes(r, q, done, m, attributes[1..], rest);
      assert Fitting(attributes) == Fitting(attributes[1..]);
    }
  }

  predicate Untrailed(c: Option<Connection>) {
    c.Some? ==> c.value.ttl == 0 && c.value.numAddress == 0
  }

  lemma UntrailedIs(c: Connection)
    ensures Trailer(c) == "" <==> Untrailed(Some(c))
  {
  }

  // What one medium is read back as.
  function MediaBack(m: Media, keyed: bool): Media {
    LineBack(m).(title := m.title, connection := m.connection, bandwidth := m.bandwidth,
                 key := if keyed then Some(Str(m.key)) else None, attributes := Fitting(m.attributes))
  }

  lemma ReadOneMedia(r: Reader, m: Media, keyed: bool, rest: string) returns (next: Reader)
    requires r.Ready() && r.reqdDone && r.prev != 't' && (r.mediaStarted || r.oldIndex <= 14) && PrintableMedia(m)
    ensures next.Ready() && next.reqdDone && next.prev != 't' && next.mediaStarted
    ensures next.packet == r.packet.(media := r.packet.media + [MediaBack(m, keyed)])
    ensures ReadText(r, OneMediaText(m, keyed, rest)) ==
            if Untrailed(m.connection) then ReadText(next, rest) else Rejected(-1)
  {
    hide ReadText, Line, OptLine, ConnText, MediaAttrsText, MediaText, Trailer, Fitting, Str, IsField;
    var q, done := r.packet, r.packet.media;
    var key := if keyed then Some(Str(m.key)) else None;
    var attributes := MediaAttrsText(m.attributes, rest);
    var keyOn := OptLine('k', key, attributes);
    var bandwidthOn := OptLine('b', m.bandwidth, keyOn);
    var connectionOn := ConnText(m.connection, bandwidthOn);
    NullPrints(m.key);
    if m.connection.Some? {
      UntrailedIs(m.connection.value);
    }
    var m0 := LineBack(m);
    var m1 := m0.(title := m.title);
    var m2 := m1.(connection := m.connection);
    var m3 := m2.(bandwidth := m.bandwidth);
    var m4 := m3.(key := key);
    ReadMediaLine(r, m, OptLine('i', m.title, connectionOn));
    next := TakeMediaOptional(Medium(q, done, m0, 14, 'm'), q, done, m0, 15, m.title, connectionOn);
    next := ReadMediaConnection(next, q, done, m1, m.connection, bandwidthOn);
    next := TakeMediaOptional(next, q, done, m2, 17, m.bandwidth, keyOn);
    next := TakeMediaOptional(next, q, done, m3, 18, key, attributes);
    next := ReadMediaAttributes(next, q, done, m4, m.attributes, rest);
    assert m4.attributes + Fitting(m.attributes) == Fitting(m.attributes);
  }

  lemma NullPrints(s: Option<string>)
    requires OptField(s)
    ensures IsField(Str(s))
  {
  }

  function MediaListBack(media: seq<Media>, keyed: bool): (back: seq<Media>)
    ensures |back| == |media| && forall i :: 0 <= i < |media| ==> back[i] == MediaBack(media[i], keyed)
  {
    if media == [] then [] else [MediaBack(media[0], keyed)] + MediaListBack(media[1..], keyed)
  }

  predicate AllUntrailed(media: seq<Media>) {
    forall i :: 0 <= i < |media| ==> Untrailed(media[i].connection)
  }

  lemma NothingToRead(r: Reader)
    requires r.Ready()
    ensures ReadText(r, "") == Ok(r)
  {
    NoTokens(LINE_END);
  }

  // The media end the text.
  lemma {:induction false} ReadMedia(r: Reader, media: seq<Media>, keyed: bool)
    requires r.Ready() && r.reqdDone && r.prev != 't' && (r.mediaStarted || r.oldIndex <= 14)
    requires forall i :: 0 <= i < |media| ==> PrintableMedia(media[i])
    ensures Checked(ReadText(r, MediaListText(media, keyed, ""))) ==
            if !AllUntrailed(media) then Rejected(-1)
            else Checked(Ok(r.(packet := r.packet.(media := r.packet.media + MediaListBack(media, keyed)))))
    decreases |media|
  {
    hide OneMediaText, MediaBack, Line, PrintableMedia, ReadText;
    if media == [] {
      NothingToRead(r);
      assert r.packet.media + MediaListBack(media, keyed) == r.packet.media;
    } else {
      hide AllUntrailed, Untrailed;
      var next := ReadOneMedia(r, media[0], keyed, MediaListText(media[1..], keyed, ""));
      AllUntrailedSplits(media);
      Regroup(r.packet.media, MediaBack(media[0], keyed), MediaListBack(media[1..], keyed));
      if Untrailed(media[0].connection) {
        ReadMedia(next, media[1..], keyed);
      }
    }
  }

  lemma Regroup<T>(a: seq<T>, b: T, c: seq<T>)
    ensures (a + [b]) + c == a + ([b] + c)
  {
  }

  lemma AllUntrailedSplits(media: seq<Media>)
    requires media != []
    ensures AllUntrailed(media) <==> Untrailed(media[0].connection) && AllUntrailed(media[1..])
  {
    assert forall i :: 0 < i < |media| ==> media[i] == media[1..][i - 1];
  }

  // ---------------------------------------------------------------- the whole packet

  // Attributes, a key or a time zone, which the writer puts before the times.
  predicate Belated(p: Contents) {
    p.times != [] && (p.timezone.Some? || p.key.Some? || p.attributes != [])
  }

  // From the times on, read from where no attribute, key or time zone has been.
  lemma ReadTimesAndMedia(r: Reader, p: Contents)
    requires forall i :: 0 <= i < |p.media| ==> PrintableMedia(p.media[i])
    requires InSession(r) && r.reqdDone && r.prev != 't' && r.oldIndex <= 12
    requires p.times != [] ==> r.oldIndex <= 9
    requires r.packet.times == [] && r.packet.media == []
    ensures Checked(ReadText(r, TimesText(p.times, MediaListText(p.media, p.key.Some?, "")))) ==
            if !AllUntrailed(p.media) then Rejected(-1)
            else Checked(Ok(r.(packet := r.packet.(
                   times := TimesBack(p.times), media := MediaListBack(p.media, p.key.Some?)))))
  {
    hide ReadText, Line, MediaListText, MediaListBack, TimeBack, PrintableMedia, AllUntrailed, IsField;
    var mediaOn := MediaListText(p.media, p.key.Some?, "");
    var q := r.packet.(times := TimesBack(p.times));
    var next := if p.times == [] then r else Session(q, 8, 'r');
    assert r.packet.times + TimesBack(p.times) == TimesBack(p.times);
    assert ReadText(r, TimesText(p.times, mediaOn)) == ReadText(next, mediaOn) by {
      if p.times != [] {
        ReadTimes(r, p.times, mediaOn);
      }
    }
    ReadMedia(next, p.media, p.key.Some?);
    assert q.media + MediaListBack(p.media, p.key.Some?) == MediaListBack(p.media, p.key.Some?);
  }

  lemma ReadLower(r: Reader, p: Contents, buffer: string)
    requires Printable(p) && Filled(p.attributes, buffer)
    requires InSession(r) && r.reqdDone && r.prev != 't' && r.oldIndex <= 12
    requires r.oldIndex > 9 <==> p.timezone.Some? || p.key.Some?
    requires r.packet.attributes == [] && r.packet.times == [] && r.packet.media == []
    ensures Checked(ReadText(r, LowerText(p, buffer))) ==
            if Belated(p) then Rejected(-4)
            else if !AllUntrailed(p.media) then Rejected(-1)
            else Checked(Ok(r.(packet := r.packet.(attributes := Held(p.attributes, buffer),
                   times := TimesBack(p.times), media := MediaListBack(p.media, p.key.Some?)))))
  {
    hide ReadText, Line, AttrsText, MediaListText, Held, MediaListBack, TimesBack, PrintableMedia,
         PrintableOwner, PrintableConnection, AllUntrailed, IsField, Words, RepeatText;
    var mediaOn := MediaListText(p.media, p.key.Some?, "");
    var timesOn := TimesText(p.times, mediaOn);
    ReadAttributes(r, p.attributes, buffer, timesOn);
    var q := r.packet.(attributes := Held(p.attributes, buffer));
    var next := if p.attributes == [] then r else Session(q, 12, 'a');
    assert r.packet.attributes + Held(p.attributes, buffer) == Held(p.attributes, buffer);
    assert ReadText(r, LowerText(p, buffer)) == ReadText(next, timesOn) && next.packet == q;
    if Belated(p) {
      TimeSurvives(p.times[0]);
      MisplacedLine(next, 9, Words(Ints([p.times[0].startTime, p.times[0].stopTime])),
                    Line('r', RepeatText(p.times[0]), TimesText(p.times[1..], mediaOn)));
    } else {
      ReadTimesAndMedia(next, p);
    }
  }

  // What an accepted packet is read back as, over p0.
  function Recovered(p0: Contents, p: Contents, buffer: string): Contents {
    p.(info := Over(p0.info, p.info), uri := Over(p0.uri, p.uri), email := Over(p0.email, p.email),
       phone := Over(p0.phone, p.phone), bandwidth := Over(p0.bandwidth, p.bandwidth),
       timezone := Over(p0.timezone, p.timezone), key := Over(p0.key, p.key),
       nConnInfo := 1, attributes := Held(p.attributes, buffer), times := TimesBack(p.times),
       media := MediaListBack(p.media, p.key.Some?))
  }

  // The reader's answer to the writer's text.
  function Outcome(p0: Contents, p: Contents, buffer: string): Result<Contents> {
    if !Untrailed(p.connection) then Rejected(-1)
    else if Belated(p) then Rejected(-4)
    else if !AllUntrailed(p.media) then Rejected(-1)
    else if p.connection.None? then Rejected(-7)
    else Ok(Recovered(p0, p, buffer))
  }

  lemma RoundTrip(p0: Contents, p: Contents, buffer: string)
    requires IsCleared(p0) && Printable(p) && Filled(p.attributes, buffer)
    ensures Written(p, buffer).Ok? && Read(p0, Written(p, buffer).value) == Outcome(p0, p, buffer)
  {
    hide ReadText, Line, OptLine, LowerText, AllUntrailed, Held, PrintableMedia, IsField, IsWord, OptField;
    var p1 := p0.(version := p.version, owner := p.owner, name := p.name);
    ReadMandatory(p0, p, OptLine('i', p.info, OptLine('u', p.uri, OptLine('e', p.email,
                           OptLine('p', p.phone, ConnectedText(p, buffer))))));
    var r1 := ReadInformation(p1, p, ConnectedText(p, buffer));
    var last := OptLine('b', p.bandwidth, OptLine('z', p.timezone, OptLine('k', p.key, LowerText(p, buffer))));
    var r2 := r1;
    if p.connection.Some? {
      ReadConnection(r1, p.connection.value, last);
      UntrailedIs(p.connection.value);
      r2 := Session(r1.packet.(connection := p.connection, nConnInfo := 1), 7, 'c');
    }
    if Untrailed(p.connection) {
      var r3 := ReadRest(r2, p, LowerText(p, buffer));
      ReadLower(r3, p, buffer);
    }
  }

  // What the reader accepts, and when the packet comes back as it was.
  predicate Sendable(p: Contents) {
    && p.connection.Some? && Untrailed(p.connection) && AllUntrailed(p.media)
    && (p.times == [] || (p.timezone.None? && p.key.None? && p.attributes == []))
  }

  predicate AllFit(attributes: seq<string>) {
    forall i :: 0 <= i < |attributes| ==> |attributes[i]| < 100
  }

  predicate Faithful(m: Media, keyed: bool) {
    |m.formats| == 1 && AllFit(m.attributes) && (m.key.Some? <==> keyed)
  }

  lemma {:induction false} HeldAll(attributes: seq<string>, buffer: string)
    requires |buffer| < ROOM
    ensures Held(attributes, buffer) == attributes <==> AllFit(attributes)
  {
    if attributes != [] {
      var filled := if |attributes[0]| < ROOM then attributes[0] else buffer;
      HeldAll(attributes[1..], filled);
      var held := Held(attributes, buffer);
      assert held[0] == filled && held[1..] == Held(attributes[1..], filled);
      assert held == attributes <==> filled == attributes[0] && held[1..] == attributes[1..] by {
        assert held == [held[0]] + held[1..] && attributes == [attributes[0]] + attributes[1..];
      }
      AllFitSplits(attributes);
    }
  }

  lemma AllFitSplits(attributes: seq<string>)
    requires attributes != []
    ensures AllFit(attributes) <==> |attributes[0]| < ROOM && AllFit(attributes[1..])
  {
    assert forall i :: 0 < i < |attributes| ==> attributes[i] == attributes[1..][i - 1];
  }

  lemma {:induction false} FittingAll(attributes: seq<string>)
    ensures |Fitting(attributes)| <= |attributes|
    ensures Fitting(attributes) == attributes <==> AllFit(attributes)
  {
    if attributes != [] {
      FittingAll(attributes[1..]);
      AllFitSplits(attributes);
      if |attributes[0]| < ROOM {
        var fitting := Fitting(attributes);
        assert fitting[1..] == Fitting(attributes[1..]);
        assert fitting == attributes <==> fitting[1..] == attributes[1..] by {
          assert fitting == [fitting[0]] + fitting[1..] && attributes == [attributes[0]] + attributes[1..];
        }
      }
    }
  }

  lemma MediaUnchanged(m: Media, keyed: bool)
    requires PrintableMedia(m)
    ensures MediaBack(m, keyed) == m <==> Faithful(m, keyed)
  {
    FittingAll(m.attributes);
    if |m.formats| == 1 {
      assert m.formats == [m.formats[0]];
    }
  }

  // Every optional field that p0 holds is printed, and so replaced.
  predicate Replaced(p0: Contents, p: Contents) {
    && (p0.info.Some? ==> p.info.Some?) && (p0.uri.Some? ==> p.uri.Some?)
    && (p0.email.Some? ==> p.email.Some?) && (p0.phone.Some? ==> p.phone.Some?)
    && (p0.bandwidth.Some? ==> p.bandwidth.Some?) && (p0.timezone.Some? ==> p.timezone.Some?)
    && (p0.key.Some? ==> p.key.Some?)
  }

  // Accepted exactly when sendable; unchanged exactly when, besides, nothing was to be cut or
  // recounted and nothing old shows through.
  lemma UnchangedWhen(p0: Contents, p: Contents, buffer: string)
    requires IsCleared(p0) && Printable(p) && Filled(p.attributes, buffer) && |buffer| < ROOM
    ensures var answer := Read(p0, PacketText(p, buffer));
            && (answer.Ok? <==> Sendable(p))
            && (answer == Ok(p) <==>
                  && Sendable(p) && p.nConnInfo == 1 && p.times == [] && AllFit(p.attributes) && Replaced(p0, p)
                  && forall i :: 0 <= i < |p.media| ==> Faithful(p.media[i], p.key.Some?))
  {
    hide Read, PacketText, AllUntrailed, Held, MediaBack, PrintableMedia, Faithful, AllFit, TimeBack;
    RoundTrip(p0, p, buffer);
    HeldAll(p.attributes, buffer);
    var media := MediaListBack(p.media, p.key.Some?);
    forall i | 0 <= i < |p.media| ensures media[i] == p.media[i] <==> Faithful(p.media[i], p.key.Some?) {
      MediaUnchanged(p.media[i], p.key.Some?);
    }
    assert media == p.media <==> forall i :: 0 <= i < |p.media| ==> media[i] == p.media[i];
    if p.times != [] {
      TimeChanges(p.times[0]);
      assert TimesBack(p.times)[0] != p.times[0];
    }
  }

  // The offsets always come back longer.
  lemma TimeChanges(t: TimeDesc)
    ensures TimeBack(t) != t
  {
  }

  // ---------------------------------------------------------------- texts of other writers

  // The text with the connection as the standard has it, the TTL inside the address word.
  function StandardText(p: Contents, c: Connection, shown: nat, buffer: string): string
    requires Complete(p)
  {
    Line('v', Int(p.version), Line('o', OwnerText(p.owner), Line('s', p.name.value,
      OptLine('i', p.info, OptLine('u', p.uri, OptLine('e', p.email, OptLine('p', p.phone,
        Line('c', StandardConnection(c, shown), OptLine('b', p.bandwidth, OptLine('z', p.timezone, OptLine('k', p.key,
          LowerText(p, buffer))))))))))))
  }

  lemma ReadStandardConnection(r: Reader, c: Connection, shown: nat, rest: string)
    requires InSession(r) && r.reqdDone && r.prev != 't' && r.oldIndex <= 7 && PrintableConnection(c) && Shows(c, shown)
    ensures var p := r.packet.(connection := Some(c), nConnInfo := r.packet.nConnInfo + 1);
            ReadText(r, Line('c', StandardConnection(c, shown), rest)) == ReadText(Session(p, 7, 'c'), rest)
  {
    hide ReadText, Line, IndexOf, ParseConnection, IsField, Words, StandardConnection;
    StandardConnectionIsRead(c, shown);
    ReadSessionLine(r, 7, StandardConnection(c, shown), rest);
  }

  /** A session so written is read with its TTL and number of addresses, whatever they are, and is
      otherwise answered like the writer's own text. */
  lemma StandardTextIsRead(p0: Contents, p: Contents, shown: nat, buffer: string)
    requires IsCleared(p0) && Printable(p) && Filled(p.attributes, buffer) && p.connection.Some?
    requires Shows(p.connection.value, shown)
    ensures Read(p0, StandardText(p, p.connection.value, shown, buffer)) ==
            if Belated(p) then Rejected(-4)
            else if !AllUntrailed(p.media) then Rejected(-1)
            else Ok(Recovered(p0, p, buffer))
  {
    hide ReadText, Line, OptLine, LowerText, AllUntrailed, Held, PrintableMedia, IsField, IsWord, OptField, StandardConnection;
    var p1 := p0.(version := p.version, owner := p.owner, name := p.name);
    var last := OptLine('b', p.bandwidth, OptLine('z', p.timezone, OptLine('k', p.key, LowerText(p, buffer))));
    var connected := Line('c', StandardConnection(p.connection.value, shown), last);
    ReadMandatory(p0, p, OptLine('i', p.info, OptLine('u', p.uri, OptLine('e', p.email, OptLine('p', p.phone, connected)))));
    var r1 := ReadInformation(p1, p, connected);
    ReadStandardConnection(r1, p.connection.value, shown, last);
    var r2 := Session(r1.packet.(connection := p.connection, nConnInfo := 1), 7, 'c');
    var r3 := ReadRest(r2, p, LowerText(p, buffer));
    ReadLower(r3, p, buffer);
  }

  // ---------------------------------------------------------------- lines that are refused

  /** Before the name, a line of any later field ends the reading with -5. */
  lemma NameComesFirst(r: Reader, index: nat, value: string, rest: string)
    requires InSession(r) && !r.reqdDone && r.oldIndex <= 2 && 3 <= index <= 14 && IsField(value)
    ensures ReadText(r, Line(FieldAt(index), value, rest)) == Rejected(-5)
  {
    hide ReadText, Line, IndexOf, Stored;
    SessionPlace(index);
    ReadPrintedLine(r, FieldAt(index), value, rest);
  }

  // So no text without a name before its other fields is accepted.
  lemma UnnamedTextRefused(p0: Contents, version: int, owner: Owner, index: nat, value: string, rest: string)
    requires PrintableOwner(owner) && 3 <= index <= 14 && IsField(value)
    ensures Read(p0, Line('v', Int(version), Line('o', OwnerText(owner), Line(FieldAt(index), value, rest)))) == Rejected(-5)
    ensures Read(p0, Line(FieldAt(index), value, rest)) == Rejected(-5)
  {
    hide ReadText, Line, IndexOf, OwnerText, OwnerField, Int, Atoi, IsField, IsWord, FieldAt, Stored;
    OwnerSurvives(p0.owner, owner);
    IntIsWord(version);
    AtoiOfInt(version);
    assert IsField(Int(version)) by {
      assert IsWord(Int(version));
    }
    var next := Line(FieldAt(index), value, rest);
    NameComesFirst(Start(p0), index, value, rest);
    VersionAndOwner(p0, version, owner, next);
    var p1 := p0.(version := version, owner := owner);
    NameComesFirst(Reader(p1, 1, false, false, 'o'), index, value, rest);
  }

  lemma VersionAndOwner(p0: Contents, version: int, owner: Owner, rest: string)
    requires PrintableOwner(owner)
    ensures ReadText(Start(p0), Line('v', Int(version), Line('o', OwnerText(owner), rest))) ==
            ReadText(Reader(p0.(version := version, owner := owner), 1, false, false, 'o'), rest)
  {
    hide ReadText, Line, IndexOf, OwnerText, OwnerField, Int, Atoi, IsField, IsWord;
    OwnerSurvives(p0.owner, owner);
    IntIsWord(version);
    AtoiOfInt(version);
    assert IsField(Int(version)) by {
      assert IsWord(Int(version));
    }
    var p1 := p0.(version := version);
    ReadSessionLine(Start(p0), 0, Int(version), Line('o', OwnerText(owner), rest));
    ReadSessionLine(Reader(p1, 0, false, false, 'v'), 1, OwnerText(owner), rest);
  }

  /** A repeat line must follow a time line directly, else -6. */
  lemma RepeatFollowsTime(r: Reader, value: string, rest: string)
    requires InSession(r) && r.reqdDone && r.oldIndex <= 10 && r.prev != 't' && IsField(value)
    ensures ReadText(r, Line('r', value, rest)) == Rejected(-6)
  {
    hide ReadText, Line, IndexOf, Stored;
    SessionPlace(10);
    ReadPrintedLine(r, 'r', value, rest);
  }

  // The letters that are fields.
  predicate IsFieldKey(key: char) {
    exists i: nat :: i < 20 && FieldAt(i) == key
  }

  // The letters that are fields of a medium.
  predicate IsMediaKey(key: char) {
    key == 'm' || key == 'i' || key == 'c' || key == 'b' || key == 'k' || key == 'a'
  }

  /** From the first medium on, a letter that is no field is refused with -2, and one that is only a
      session's with -3. */
  lemma OnlyMediaFollowMedia(r: Reader, key: char, value: string, rest: string)
    requires r.Ready() && r.mediaStarted && r.reqdDone && 14 <= r.oldIndex && IsField(value) && key !in MARKS
    requires !IsMediaKey(key)
    ensures ReadText(r, Line(key, value, rest)) == Rejected(if IsFieldKey(key) then -3 else -2)
  {
    hide ReadText, Line, IndexOf, LastIndexOf, Stored;
    ReadPrintedLine(r, key, value, rest);
    var index := LastIndexOf(SDP_FIELDS, key);
    if index >= 0 {
      FieldsAre(index);
    } else {
      forall i: nat | i < 20 ensures FieldAt(i) != key {
        FieldsAre(i);
      }
    }
  }

  // A medium's fields keep their order too: -3 for one that comes too late.
  lemma MediaFieldsInOrder(r: Reader, index: nat, value: string, rest: string)
    requires r.Ready() && r.mediaStarted && r.reqdDone && IsField(value)
    requires 15 <= index < 20 && index < r.oldIndex
    ensures ReadText(r, Line(FieldAt(index), value, rest)) == Rejected(-3)
  {
    hide ReadText, Line, IndexOf, LastIndexOf, Stored;
    MediaPlace(index);
    ReadPrintedLine(r, FieldAt(index), value, rest);
  }

  /** Before the media a letter that is no field is refused with -4. */
  lemma UnknownFieldRefused(r: Reader, key: char, value: string, rest: string)
    requires InSession(r) && IsField(value) && key !in MARKS && !IsFieldKey(key)
    ensures ReadText(r, Line(key, value, rest)) == Rejected(-4)
  {
    hide ReadText, Line, IndexOf, LastIndexOf, Stored;
    ReadPrintedLine(r, key, value, rest);
    var index := IndexOf(SDP_FIELDS, key);
    if index >= 0 {
      FieldsAre(index);
    }
  }

  // ---------------------------------------------------------------- lines that say little

  /** A time line without a repeat line leaves the other numbers zero. */
  lemma BareTimeLine(r: Reader, start: int, u: char, stop: int, v: char, rest: string)
    requires InSession(r) && r.reqdDone && r.oldIndex <= 9 && Unit(u) > 0 && Unit(v) > 0
    ensures var p := r.packet.(times := r.packet.times + [TimeDesc(0, 0, start * Unit(u), stop * Unit(v), 0, 0, [])]);
            ReadText(r, Line('t', Words([Int(start) + [u], Int(stop) + [v]]), rest)) == ReadText(Session(p, 10, 't'), rest)
  {
    hide ReadText, Line, IndexOf, Words, IsField, TimeField;
    TimesInUnits(NEW_TIME, start, u, stop, v);
    ReadSessionLine(r, 9, Words([Int(start) + [u], Int(stop) + [v]]), rest);
  }

  /** A media line of one word starts a medium with nothing else in it. */
  lemma BareMediaLine(r: Reader, media: string, rest: string)
    requires InSession(r) && r.reqdDone && r.prev != 't' && r.oldIndex <= 14 && IsWord(media)
    ensures var m := Media(Some(media), 0, 0, None, [], None, None, None, None, []);
            var p := r.packet.(media := r.packet.media + [m]);
            ReadText(r, Line('m', media, rest)) == ReadText(Reader(p, 14, true, true, 'm'), rest)
  {
    hide ReadText, Line, IndexOf, LastIndexOf, SessionField, MediaLine;
    ShortMediaLine(NEW_MEDIA, [media]);
    MediaPlace(14);
    ReadSessionLine(r, 14, media, rest);
    var p := r.packet.(media := r.packet.media + [NEW_MEDIA]);
    assert p.media[|p.media| - 1] == NEW_MEDIA && p.media[..|p.media| - 1] == r.packet.media;
  }

  /** Resetting makes any packet fit to be read into, and changes no text of the session. */
  lemma ResetClears(p: Contents)
    ensures var q := Reset(p);
            && IsCleared(q) && q.version == 0
            && q.owner == p.owner && q.name == p.name && q.info == p.info && q.uri == p.uri
            && q.email == p.email && q.phone == p.phone && q.bandwidth == p.bandwidth
            && q.timezone == p.timezone && q.key == p.key
    ensures IsNew(p) ==> Reset(p) == p
  {
  }

  /** Nothing is written, and the answer is -8, exactly when one of the owner's four strings or the
      name is missing. */
  lemma WrittenUnlessMissing(p: Contents, buffer: string)
    ensures Written(p, buffer).Ok? <==>
      None !in [p.owner.username, p.owner.networkType, p.owner.addressType, p.owner.address, p.name]
    ensures !Written(p, buffer).Ok? ==> Written(p, buffer) == Rejected(-8)
  {
    hide PacketText;
    var strings := [p.owner.username, p.owner.networkType, p.owner.addressType, p.owner.address, p.name];
    assert strings[0] == p.owner.username && strings[1] == p.owner.networkType && strings[2] == p.owner.addressType
      && strings[3] == p.owner.address && strings[4] == p.name;
  }
}
