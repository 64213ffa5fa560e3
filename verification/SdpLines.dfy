/** What one printed line is read back as. */
module SdpLines {
  import opened Options
  import opened Text
  import opened Sdp

  // ---------------------------------------------------------------- what can be printed and split again

  const MARKS := {'=', '\r', '\n'}

  predicate IsField(s: string) { s != "" && Clean(s, MARKS) }

  predicate IsWord(s: string) { IsField(s) && Clean(s, SPACE) }

  predicate OptField(s: Option<string>) { s.Some? ==> IsField(s.value) }

  predicate PrintableConnection(c: Connection) {
    IsWord(c.networkType) && IsWord(c.addressType) && IsWord(c.address) && Clean(c.address, SLASH)
  }

  predicate PrintableMedia(m: Media) {
    && m.media.Some? && IsWord(m.media.value) && m.transport.Some? && IsWord(m.transport.value)
    && OptField(m.title) && OptField(m.bandwidth) && OptField(m.key)
    && (m.connection.Some? ==> PrintableConnection(m.connection.value))
    && forall i :: 0 <= i < |m.attributes| ==> IsField(m.attributes[i])
  }

  predicate PrintableOwner(o: Owner) {
    && o.username.Some? && IsWord(o.username.value) && o.networkType.Some? && IsWord(o.networkType.value)
    && o.addressType.Some? && IsWord(o.addressType.value) && o.address.Some? && IsWord(o.address.value)
  }

  predicate Printable(p: Contents) {
    && PrintableOwner(p.owner) && p.name.Some? && IsField(p.name.value)
    && OptField(p.info) && OptField(p.uri) && OptField(p.email) && OptField(p.phone)
    && OptField(p.bandwidth) && OptField(p.timezone) && OptField(p.key)
    && (p.connection.Some? ==> PrintableConnection(p.connection.value))
    && (forall i :: 0 <= i < |p.attributes| ==> IsField(p.attributes[i]))
    && (forall i :: 0 <= i < |p.media| ==> PrintableMedia(p.media[i]))
  }

  // ---------------------------------------------------------------- one line

  lemma CleanUnion(s: string)
    requires IsField(s)
    ensures Clean(s, EQUALS) && Clean(s, LINE_END)
  {
  }

  // A printed line is the next line read, split back into its key and value.
  lemma ReadPrintedLine(r: Reader, key: char, value: string, rest: string)
    requires r.Ready() && key !in MARKS && IsField(value)
    ensures var next := ReadField(r, [key], Some(value));
            ReadText(r, Line(key, value, rest)) == if next.Ok? then ReadText(next.value, rest) else next
  {
    hide ReadField;
    var line := [key] + "=" + value;
    CleanUnion(value);
    FirstToken(line, "\r\n" + rest, LINE_END);
    assert "\r\n" + rest == ['\r'] + (['\n'] + rest);
    DelimiterSkipped('\r', ['\n'] + rest, LINE_END);
    DelimiterSkipped('\n', rest, LINE_END);
    var lines := Tokens(rest, LINE_END);
    assert ([line] + lines)[1..] == lines;
    TwoTokens([key], '=', value, EQUALS);
    OnlyToken(value, EQUALS);
  }

  // A line that starts with a number after a slash has too long a key.
  lemma TrailerRejected(r: Reader, c: Connection, rest: string)
    requires r.Ready() && Trailer(c) != ""
    ensures ReadText(r, Trailer(c) + rest) == Rejected(-1)
  {
    var text := Trailer(c) + rest;
    assert text[0] == '/' && (IsDigit(text[1]) || text[1] == '-');
    assert SkipDelims(text, LINE_END) == text;
    var n := TokenLength(text, LINE_END);
    TokenLengthTwo(text, LINE_END);
    var line := text[..n];
    TokenLengthTwo(line, EQUALS);
    assert SkipDelims(line, EQUALS) == line;
  }

  lemma TokenLengthTwo(s: string, delims: set<char>)
    requires |s| >= 2 && s[0] !in delims && s[1] !in delims
    ensures TokenLength(s, delims) >= 2
  {
    assert s[1..][0] == s[1];
  }

  // ---------------------------------------------------------------- one value

  lemma {:induction false} NonEmptyAll(ws: seq<string>)
    requires forall i :: 0 <= i < |ws| ==> ws[i] != ""
    ensures NonEmpty(ws) == ws
  {
    if ws != [] {
      NonEmptyAll(ws[1..]);
    }
  }

  // Words printed on a line make a value that splits into the same words.
  lemma PrintedWords(ws: seq<string>)
    requires ws != [] && forall i :: 0 <= i < |ws| ==> IsWord(ws[i])
    ensures IsField(Words(ws)) && Tokens(Words(ws), SPACE) == ws
  {
    hide Words, Tokens, NonEmpty, Clean;
    TokensOfWords(ws);
    WordsAreClean(ws, MARKS);
    NonEmptyAll(ws);
    NoTokens(SPACE);
  }

  lemma IntIsWord(n: int)
    ensures IsWord(Int(n)) && Clean(Int(n), SLASH)
  {
    IntIsClean(n, MARKS);
    IntIsClean(n, SPACE);
    IntIsClean(n, SLASH);
  }

  lemma PrintedInts(ns: seq<int>)
    requires ns != []
    ensures IsField(Words(Ints(ns))) && Tokens(Words(Ints(ns)), SPACE) == Ints(ns)
  {
    forall i | 0 <= i < |ns| ensures IsWord(Ints(ns)[i]) {
      IntIsWord(ns[i]);
    }
    PrintedWords(Ints(ns));
  }

  lemma {:induction false} AtoisOfInts(ns: seq<int>)
    ensures Atois(Ints(ns)) == ns
  {
    if ns != [] {
      AtoiOfInt(ns[0]);
      AtoisOfInts(ns[1..]);
      assert Ints(ns)[1..] == Ints(ns[1..]);
    }
  }

  lemma ParseTimeOfInt(n: int)
    ensures ParseTime(Int(n)) == n
  {
    AtoiOfInt(n);
  }

  lemma OwnerSurvives(before: Owner, o: Owner)
    requires PrintableOwner(o)
    ensures IsField(OwnerText(o)) && OwnerField(before, OwnerText(o)) == o
  {
    hide Words, Atoi;
    IntIsWord(o.sessionId);
    IntIsWord(o.ownerVersion);
    AtoiOfInt(o.sessionId);
    AtoiOfInt(o.ownerVersion);
    PrintedWords([Str(o.username), Int(o.sessionId), Int(o.ownerVersion), Str(o.networkType),
                  Str(o.addressType), Str(o.address)]);
  }

  function ConnectionWords(c: Connection): string {
    Words([c.networkType, c.addressType, c.address])
  }

  // The line itself never carries the TTL.
  lemma ConnectionSurvives(c: Connection)
    requires PrintableConnection(c)
    ensures IsField(ConnectionWords(c))
    ensures ParseConnection(ConnectionWords(c)) == Ok(c.(ttl := 0, numAddress := 0))
  {
    hide Words;
    PrintedWords([c.networkType, c.addressType, c.address]);
    OnlyToken(c.address, SLASH);
  }

  // ---------------------------------------------------------------- time descriptions

  // The times come back in the other pair of fields, and the offsets with their count in front.
  function TimeBack(t: TimeDesc): TimeDesc {
    TimeDesc(0, 0, t.startTime, t.stopTime, t.interval, t.duration,
             [|t.offsets|] + if t.offsets == [] then [0] else t.offsets)
  }

  lemma TimeSurvives(t: TimeDesc)
    ensures var start := Words(Ints([t.startTime, t.stopTime]));
            && IsField(start) && IsField(RepeatText(t))
            && TimeField(TimeField(NEW_TIME, 't', start), 'r', RepeatText(t)) == TimeBack(t)
  {
    hide Words, Tokens, ParseTime, Atoi, Ints, Int;
    PrintedInts([t.startTime, t.stopTime]);
    ParseTimeOfInt(t.startTime);
    ParseTimeOfInt(t.stopTime);
    var ns := [t.interval, t.duration, |t.offsets|] + if t.offsets == [] then [0] else t.offsets;
    PrintedInts(ns);
    AtoisOfInts(ns);
    AtoiOfInt(t.interval);
    AtoiOfInt(t.duration);
    assert ns[2..] == TimeBack(t).offsets;
    assert Atois(Ints(ns)[2..]) == ns[2..];
  }

  // ---------------------------------------------------------------- media

  lemma PortSurvives(m: Media)
    ensures IsWord(PortText(m))
    ensures var ports := Tokens(PortText(m), SLASH);
            && ports != [] && Atoi(ports[0]) == m.port
            && (if |ports| > 1 then Atoi(ports[1]) else 0) == m.nPorts
  {
    hide Atoi, Int, Tokens;
    IntIsWord(m.port);
    IntIsWord(m.nPorts);
    AtoiOfInt(m.port);
    AtoiOfInt(m.nPorts);
    if m.nPorts == 0 {
      OnlyToken(Int(m.port), SLASH);
      assert PortText(m) == Int(m.port);
    } else {
      TwoTokens(Int(m.port), '/', Int(m.nPorts), SLASH);
      OnlyToken(Int(m.nPorts), SLASH);
      assert PortText(m) == Int(m.port) + ['/'] + Int(m.nPorts);
    }
  }

  // Only the first format is read.
  function LineBack(m: Media): Media {
    NEW_MEDIA.(media := m.media, port := m.port, nPorts := m.nPorts, transport := m.transport,
               formats := [if m.formats == [] then 0 else m.formats[0]])
  }

  function Formats(m: Media): (ns: seq<int>)
    ensures ns != []
  {
    if m.formats == [] then [0] else m.formats
  }

  lemma MediaTokens(m: Media)
    requires PrintableMedia(m)
    ensures IsField(MediaText(m))
    ensures Tokens(MediaText(m), SPACE) == [m.media.value, PortText(m), m.transport.value] + Ints(Formats(m))
  {
    hide Words, Atoi, Int, Tokens, PortText, NonEmpty;
    var numbers := Ints(Formats(m));
    var head := [m.media.value, PortText(m), m.transport.value];
    var ws := head + [""] + numbers;
    assert [Str(m.media), PortText(m), Str(m.transport), ""] + numbers == ws;
    PortSurvives(m);
    forall i | 0 <= i < |numbers| ensures IsWord(numbers[i]) {
      IntIsWord(Formats(m)[i]);
    }
    SplitWithGap(head, numbers);
  }

  lemma SplitWithGap(a: seq<string>, b: seq<string>)
    requires forall i :: 0 <= i < |a| ==> IsWord(a[i])
    requires forall i :: 0 <= i < |b| ==> IsWord(b[i])
    requires a != []
    ensures IsField(Words(a + [""] + b)) && Tokens(Words(a + [""] + b), SPACE) == a + b
  {
    hide Words, Tokens, NonEmpty, Clean;
    var ws := a + [""] + b;
    NothingIsClean(SPACE);
    NothingIsClean(MARKS);
    forall i | 0 <= i < |ws| ensures Clean(ws[i], SPACE) && Clean(ws[i], MARKS) {
      if i < |a| {
        assert ws[i] == a[i];
      } else if i > |a| {
        assert ws[i] == b[i - |a| - 1];
      }
    }
    TokensOfWords(ws);
    WordsAreClean(ws, MARKS);
    NonEmptyButOne(a, b);
    NoTokens(SPACE);
  }

  lemma NothingIsClean(delims: set<char>)
    ensures Clean("", delims)
  {
  }

  lemma MediaLineSurvives(m: Media)
    requires PrintableMedia(m)
    ensures IsField(MediaText(m)) && MediaLine(NEW_MEDIA, MediaText(m)) == LineBack(m)
  {
    hide Words, Atoi, Int, Tokens, PortText, MediaText;
    MediaTokens(m);
    PortSurvives(m);
    var first := Formats(m)[0];
    IntIsWord(first);
    OnlyToken(Int(first), SPACE);
    AtoiOfInt(first);
    assert Atois([Int(first)]) == [first];
  }

  lemma {:induction false} NonEmptyButOne(a: seq<string>, b: seq<string>)
    requires forall i :: 0 <= i < |a| ==> a[i] != ""
    requires forall i :: 0 <= i < |b| ==> b[i] != ""
    ensures NonEmpty(a + [""] + b) == a + b
  {
    if a == [] {
      assert a + [""] + b == [""] + b;
      assert ([""] + b)[1..] == b;
      NonEmptyAll(b);
    } else {
      assert (a + [""] + b)[1..] == a[1..] + [""] + b;
      NonEmptyButOne(a[1..], b);
    }
  }

  // ---------------------------------------------------------------- lines the writer never prints

  // The address word with none, one or both of its TTL and number of addresses, where section 5.7 of
  // RFC 4566 puts them.
  function AddressText(c: Connection, shown: nat): string {
    c.address + (if shown > 0 then "/" + Int(c.ttl) else "") + (if shown > 1 then "/" + Int(c.numAddress) else "")
  }

  // Only a number that is zero may be left out.
  predicate Shows(c: Connection, shown: nat) {
    (c.ttl != 0 ==> shown > 0) && (c.numAddress != 0 ==> shown > 1)
  }

  function StandardConnection(c: Connection, shown: nat): string {
    Words([c.networkType, c.addressType, AddressText(c, shown)])
  }

  lemma AddressSplits(c: Connection, shown: nat)
    requires PrintableConnection(c)
    ensures IsWord(AddressText(c, shown))
    ensures Tokens(AddressText(c, shown), SLASH) == [c.address] +
              (if shown > 0 then [Int(c.ttl)] else []) + (if shown > 1 then [Int(c.numAddress)] else [])
  {
    hide Int, Tokens;
    IntIsWord(c.ttl);
    IntIsWord(c.numAddress);
    OnlyToken(c.address, SLASH);
    OnlyToken(Int(c.ttl), SLASH);
    OnlyToken(Int(c.numAddress), SLASH);
    var two := Int(c.ttl) + ['/'] + Int(c.numAddress);
    TwoTokens(Int(c.ttl), '/', Int(c.numAddress), SLASH);
    TwoTokens(c.address, '/', Int(c.ttl), SLASH);
    TwoTokens(c.address, '/', two, SLASH);
    var text := AddressText(c, shown);
    if shown > 1 {
      assert text == c.address + ['/'] + two;
    } else if shown == 1 {
      assert text == c.address + ['/'] + Int(c.ttl);
    } else {
      assert text == c.address;
    }
  }

  /** A connection printed as the standard says is read with its TTL and its number of addresses. */
  lemma StandardConnectionIsRead(c: Connection, shown: nat)
    requires PrintableConnection(c) && Shows(c, shown)
    ensures IsField(StandardConnection(c, shown)) && ParseConnection(StandardConnection(c, shown)) == Ok(c)
  {
    hide Words, Tokens, AddressText, Atoi, Int;
    AddressSplits(c, shown);
    AtoiOfInt(c.ttl);
    AtoiOfInt(c.numAddress);
    PrintedWords([c.networkType, c.addressType, AddressText(c, shown)]);
  }

  // Seconds in a unit of time; -1 for a letter that is none.
  function Unit(c: char): int {
    if c == 's' then 1 else if c == 'm' then 60 else if c == 'h' then 60 * 60 else if c == 'd' then 24 * 60 * 60 else -1
  }

  lemma ParseTimeOfUnits(n: int, c: char)
    requires !IsDigit(c)
    ensures ParseTime(Int(n) + [c]) == if Unit(c) < 0 then -1 else n * Unit(c)
  {
    hide Int;
    AtoiOfIntAnd(n, c);
  }

  /** Start and stop times may be given in days, hours, minutes and seconds. */
  lemma TimesInUnits(t: TimeDesc, start: int, u: char, stop: int, v: char)
    requires Unit(u) > 0 && Unit(v) > 0
    ensures var value := Words([Int(start) + [u], Int(stop) + [v]]);
            IsField(value) && TimeField(t, 't', value) == t.(ntpStart := start * Unit(u), ntpStop := stop * Unit(v))
  {
    hide Words, Tokens, Int, ParseTime;
    IntIsWord(start);
    IntIsWord(stop);
    ParseTimeOfUnits(start, u);
    ParseTimeOfUnits(stop, v);
    PrintedWords([Int(start) + [u], Int(stop) + [v]]);
  }

  /** An owner of fewer than six words keeps what the missing ones would have set, but for the first
      of them that is a string, which becomes NULL. */
  lemma ShortOwner(o: Owner, ws: seq<string>)
    requires 1 <= |ws| < 6 && forall i :: 0 <= i < |ws| ==> IsWord(ws[i])
    ensures var o' := OwnerField(o, Words(ws));
            && o'.username == Some(ws[0])
            && o'.sessionId == (if |ws| >= 2 then Atoi(ws[1]) else o.sessionId)
            && o'.ownerVersion == (if |ws| >= 3 then Atoi(ws[2]) else o.ownerVersion)
            && o'.networkType == (if |ws| >= 4 then Some(ws[3]) else if |ws| == 3 then None else o.networkType)
            && o'.addressType == (if |ws| >= 5 then Some(ws[4]) else if |ws| == 4 then None else o.addressType)
            && o'.address == (if |ws| == 5 then None else o.address)
  {
    hide Words, Tokens, Atoi;
    PrintedWords(ws);
  }

  /** A media line that breaks off keeps what the missing words would have set; its media, its ports
      or its transport alone are stored. */
  lemma ShortMediaLine(m: Media, ws: seq<string>)
    requires 1 <= |ws| <= 3 && forall i :: 0 <= i < |ws| ==> IsWord(ws[i])
    requires |ws| >= 2 ==> Clean(ws[1], SLASH)
    ensures var m' := MediaLine(m, Words(ws));
            if |ws| == 1 then m' == m.(media := Some(ws[0]))
            else m' == m.(media := Some(ws[0]), port := Atoi(ws[1]), transport := Word(ws, 2))
  {
    hide Words, Tokens, Atoi;
    PrintedWords(ws);
    if |ws| >= 2 {
      OnlyToken(ws[1], SLASH);
    }
  }
}
