/** The session description writer and reader of src/SDP.cpp. A NULL string is None; what reads
    through a NULL pointer has no defined result. */
module Sdp {
  import opened Options
  import opened Text

  // ---------------------------------------------------------------- what a packet holds

  datatype Connection = Connection(networkType: string, addressType: string, address: string,
                                   ttl: int, numAddress: int)

  // The writer prints startTime and stopTime; the reader fills in ntpStart and ntpStop.
  datatype TimeDesc = TimeDesc(startTime: int, stopTime: int, ntpStart: int, ntpStop: int,
                               interval: int, duration: int, offsets: seq<int>)

  datatype Media = Media(media: Option<string>, port: int, nPorts: int, transport: Option<string>,
                         formats: seq<int>, title: Option<string>, connection: Option<Connection>,
                         bandwidth: Option<string>, key: Option<string>, attributes: seq<string>)

  datatype Owner = Owner(username: Option<string>, sessionId: int, ownerVersion: int,
                         networkType: Option<string>, addressType: Option<string>, address: Option<string>)

  datatype Contents = Contents(
    version: int, owner: Owner,
    name: Option<string>, info: Option<string>, uri: Option<string>,
    email: Option<string>, phone: Option<string>,
    connection: Option<Connection>, nConnInfo: int,
    bandwidth: Option<string>, timezone: Option<string>, key: Option<string>,
    attributes: seq<string>, times: seq<TimeDesc>, media: seq<Media>)

  const NEW_TIME := TimeDesc(0, 0, 0, 0, 0, 0, [])
  const NEW_MEDIA := Media(None, 0, 0, None, [], None, None, None, None, [])

  // A packet just constructed, whose two numbers of the owner are not yet set.
  predicate IsNew(p: Contents) {
    p == Contents(0, Owner(None, p.owner.sessionId, p.owner.ownerVersion, None, None, None),
                  None, None, None, None, None, None, 0, None, None, None, [], [], [])
  }

  // What reset does: the lists, the connection and its count go, the other strings stay.
  function Reset(p: Contents): Contents {
    p.(version := 0, connection := None, nConnInfo := 0, attributes := [], times := [], media := [])
  }

  // A packet fit to be read into: just constructed, or reset.
  predicate IsCleared(p: Contents) {
    p.connection == None && p.nConnInfo == 0 && p.attributes == [] && p.times == [] && p.media == []
  }

  // An answer, an error code, or a read through NULL.
  datatype Result<+T> = Ok(value: T) | Rejected(code: int) | Undefined

  // ---------------------------------------------------------------- the text of a packet

  const SPACE := {' '}
  const SLASH := {'/'}
  const EQUALS := {'='}
  const LINE_END := {'\r', '\n'}

  // Each piece of text is given what follows it, since a TTL lands on the next line.
  function Line(key: char, value: string, rest: string): string {
    ([key] + "=" + value) + ("\r\n" + rest)
  }

  function OptLine(key: char, value: Option<string>, rest: string): string {
    if value.Some? then Line(key, value.value, rest) else rest
  }

  // %s of a pointer that may be NULL.
  function Str(s: Option<string>): string {
    if s.Some? then s.value else "(null)"
  }

  // The TTL and the number of addresses come after the line end.
  function Trailer(c: Connection): string {
    (if c.ttl != 0 then "/" + Int(c.ttl) else "") +
    (if c.numAddress != 0 then "/" + Int(c.numAddress) else "")
  }

  function ConnText(c: Option<Connection>, rest: string): string {
    if c.None? then rest
    else Line('c', Words([c.value.networkType, c.value.addressType, c.value.address]), Trailer(c.value) + rest)
  }

  // getAttribute copies an attribute only when it fits the writer's 100 bytes.
  const ROOM := 100

  // The session attribute loop prints the buffer whether or not it was filled.
  function AttrsText(attributes: seq<string>, buffer: string, rest: string): string {
    if attributes == [] then rest
    else
      var filled := if |attributes[0]| < ROOM then attributes[0] else buffer;
      Line('a', filled, AttrsText(attributes[1..], filled, rest))
  }

  function MediaAttrsText(attributes: seq<string>, rest: string): string {
    if attributes == [] then rest
    else if |attributes[0]| < ROOM then Line('a', attributes[0], MediaAttrsText(attributes[1..], rest))
    else MediaAttrsText(attributes[1..], rest)
  }

  function Ints(ns: seq<int>): (ws: seq<string>)
    ensures |ws| == |ns| && forall i :: 0 <= i < |ns| ==> ws[i] == Int(ns[i])
  {
    if ns == [] then [] else [Int(ns[0])] + Ints(ns[1..])
  }

  // The count goes before the offsets; a lone zero stands for no offsets.
  function RepeatText(t: TimeDesc): string {
    Words(Ints([t.interval, t.duration, |t.offsets|] + if t.offsets == [] then [0] else t.offsets))
  }

  function TimesText(times: seq<TimeDesc>, rest: string): string {
    if times == [] then rest
    else
      Line('t', Words(Ints([times[0].startTime, times[0].stopTime])),
           Line('r', RepeatText(times[0]), TimesText(times[1..], rest)))
  }

  function PortText(m: Media): string {
    Int(m.port) + if m.nPorts != 0 then "/" + Int(m.nPorts) else ""
  }

  // Two spaces stand between the transport and the formats: an empty word.
  function MediaText(m: Media): string {
    Words([Str(m.media), PortText(m), Str(m.transport), ""] + Ints(if m.formats == [] then [0] else m.formats))
  }

  // The medium's key is printed when the session has one.
  function OneMediaText(m: Media, keyed: bool, rest: string): string {
    Line('m', MediaText(m), OptLine('i', m.title, ConnText(m.connection, OptLine('b', m.bandwidth,
      OptLine('k', if keyed then Some(Str(m.key)) else None, MediaAttrsText(m.attributes, rest))))))
  }

  function MediaListText(media: seq<Media>, keyed: bool, rest: string): string {
    if media == [] then rest
    else OneMediaText(media[0], keyed, MediaListText(media[1..], keyed, rest))
  }

  // The mandatory strings.
  predicate Complete(p: Contents) {
    && p.owner.username.Some? && p.owner.networkType.Some? && p.owner.addressType.Some?
    && p.owner.address.Some? && p.name.Some?
  }

  function OwnerText(o: Owner): string {
    Words([Str(o.username), Int(o.sessionId), Int(o.ownerVersion), Str(o.networkType),
           Str(o.addressType), Str(o.address)])
  }

  // From the session's attributes on.
  function LowerText(p: Contents, buffer: string): string {
    AttrsText(p.attributes, buffer, TimesText(p.times, MediaListText(p.media, p.key.Some?, "")))
  }

  function ConnectedText(p: Contents, buffer: string): string {
    ConnText(p.connection, OptLine('b', p.bandwidth, OptLine('z', p.timezone, OptLine('k', p.key,
      LowerText(p, buffer)))))
  }

  function PacketText(p: Contents, buffer: string): string
    requires Complete(p)
  {
    Line('v', Int(p.version), Line('o', OwnerText(p.owner), Line('s', p.name.value,
      OptLine('i', p.info, OptLine('u', p.uri, OptLine('e', p.email, OptLine('p', p.phone,
        ConnectedText(p, buffer))))))))
  }

  // buffer is what the writer's local buffer holds on entry.
  function Written(p: Contents, buffer: string): Result<string> {
    if Complete(p) then Ok(PacketText(p, buffer)) else Rejected(-8)
  }

  // ---------------------------------------------------------------- one field read

  function Word(words: seq<string>, i: nat): Option<string> {
    if i < |words| then Some(words[i]) else None
  }

  // -1 for a connection without its three words; an address of slashes alone is read as NULL.
  function ParseConnection(s: string): Result<Connection> {
    var words := Tokens(s, SPACE);
    if |words| < 3 then Rejected(-1)
    else
      var parts := Tokens(words[2], SLASH);
      if parts == [] then Undefined
      else Ok(Connection(words[0], words[1], parts[0], if |parts| > 1 then Atoi(parts[1]) else 0,
                         if |parts| > 2 then Atoi(parts[2]) else 0))
  }

  // A number of seconds, minutes, hours or days.
  function ParseTime(s: string): int
    requires s != ""
  {
    var unit := s[|s| - 1];
    if IsDigit(unit) || unit == 's' then Atoi(s)
    else if unit == 'm' then 60 * Atoi(s)
    else if unit == 'h' then 3600 * Atoi(s)
    else if unit == 'd' then 86400 * Atoi(s)
    else -1
  }

  function Atois(words: seq<string>): (ns: seq<int>)
    ensures |ns| == |words| && forall i :: 0 <= i < |words| ==> ns[i] == Atoi(words[i])
  {
    if words == [] then [] else [Atoi(words[0])] + Atois(words[1..])
  }

  function TimeField(t: TimeDesc, id: char, value: string): TimeDesc {
    var words := Tokens(value, SPACE);
    if id == 't' then
      t.(ntpStart := if |words| > 0 then ParseTime(words[0]) else t.ntpStart,
         ntpStop := if |words| > 1 then ParseTime(words[1]) else t.ntpStop)
    else
      t.(interval := if |words| > 0 then Atoi(words[0]) else t.interval,
         duration := if |words| > 1 then Atoi(words[1]) else t.duration,
         offsets := if |words| > 1 then Atois(words[2..]) else t.offsets)
  }

  // The value of an m line; what comes after a missing word keeps its value.
  function MediaLine(m: Media, value: string): Media {
    var words := Tokens(value, SPACE);
    var m1 := m.(media := Word(words, 0));
    if |words| < 2 then m1
    else
      var ports := Tokens(words[1], SLASH);
      if ports == [] then m1
      else
        m1.(port := Atoi(ports[0]), nPorts := if |ports| > 1 then Atoi(ports[1]) else m.nPorts,
            transport := Word(words, 2),
            formats := if |words| > 3 then Atois(Tokens(words[3], SPACE)) else m.formats)
  }

  // None when it reads through NULL, as an attribute, connection or m line without a value does.
  function MediaField(m: Media, id: char, value: Option<string>): Option<Media> {
    if id == 'i' then Some(m.(title := value))
    else if id == 'b' then Some(m.(bandwidth := value))
    else if id == 'k' then Some(m.(key := value))
    else if value.None? then None
    else if id == 'm' then Some(MediaLine(m, value.value))
    else if id == 'c' then
      match ParseConnection(value.value) {
        case Ok(c) => Some(m.(connection := Some(c)))
        case Rejected(_) => Some(m.(connection := None))
        case Undefined => None
      }
    else Some(m.(attributes := m.attributes + [value.value]))
  }

  function OwnerField(o: Owner, value: string): Owner {
    var words := Tokens(value, SPACE);
    Owner(Word(words, 0),
          if |words| > 1 then Atoi(words[1]) else o.sessionId,
          if |words| > 2 then Atoi(words[2]) else o.ownerVersion,
          if |words| > 2 then Word(words, 3) else o.networkType,
          if |words| > 3 then Word(words, 4) else o.addressType,
          if |words| > 4 then Word(words, 5) else o.address)
  }

  predicate TakenApart(id: char) { id == 'v' || id == 'o' || id == 'c' || id == 'a' }

  function SessionField(p: Contents, id: char, value: Option<string>): Option<Contents> {
    if id == 's' then Some(p.(name := value))
    else if id == 'i' then Some(p.(info := value))
    else if id == 'u' then Some(p.(uri := value))
    else if id == 'e' then Some(p.(email := value))
    else if id == 'p' then Some(p.(phone := value))
    else if id == 'b' then Some(p.(bandwidth := value))
    else if id == 'z' then Some(p.(timezone := value))
    else if id == 'k' then Some(p.(key := value))
    else if !TakenApart(id) then Some(p)
    else if value.None? then None
    else if id == 'v' then Some(p.(version := Atoi(value.value)))
    else if id == 'o' then Some(p.(owner := OwnerField(p.owner, value.value)))
    else if id == 'c' then
      match ParseConnection(value.value) {
        case Ok(c) => Some(p.(connection := Some(c), nConnInfo := p.nConnInfo + 1))
        case Rejected(_) => Some(p.(connection := None))
        case Undefined => None
      }
    else Some(p.(attributes := p.attributes + [value.value]))
  }

  // ---------------------------------------------------------------- the order of the lines

  const SDP_FIELDS := "vosiuepcbtrzkamicbka"
  const SDP_MEDIA_FIELDS := "micbka"

  // strchr and strrchr as indices; negative when there is none.
  function IndexOf(s: string, c: char): (i: int)
    ensures -1 <= i < |s| && (forall j :: 0 <= j < (if i < 0 then |s| else i) ==> s[j] != c)
    ensures i >= 0 ==> s[i] == c
  {
    if s == "" then -1
    else if s[0] == c then 0
    else
      var i := IndexOf(s[1..], c);
      assert forall j :: 0 < j < |s| ==> s[j] == s[1..][j - 1];
      if i < 0 then i else i + 1
  }

  function LastIndexOf(s: string, c: char): (i: int)
    ensures -1 <= i < |s| && (forall j :: i < j < |s| ==> s[j] != c)
    ensures i >= 0 ==> s[i] == c
  {
    if s == "" then -1
    else if s[|s| - 1] == c then |s| - 1
    else
      assert forall j :: 0 <= j < |s| - 1 ==> s[j] == s[..|s| - 1][j];
      LastIndexOf(s[..|s| - 1], c)
  }

  // The variables of the reading loop, and the packet being filled.
  datatype Reader = Reader(packet: Contents, oldIndex: int, reqdDone: bool, mediaStarted: bool, prev: char) {
    // mediaDesc and timeDesc point to the last descriptions.
    predicate Ready() {
      && (mediaStarted ==> packet.media != [])
      && (prev == 't' ==> packet.times != [])
    }

    function Index(ch: char): int {
      if mediaStarted then LastIndexOf(SDP_FIELDS, ch) else IndexOf(SDP_FIELDS, ch)
    }

    // Zero when a line of this key may come next, else the error code.
    function Admits(ch: char): int {
      var index := Index(ch);
      if mediaStarted && index < 0 then -2
      else if mediaStarted && index < oldIndex && ch != 'm' then -3
      else if !mediaStarted && (index < 0 || index < oldIndex) then -4
      else if !reqdDone && index > 2 then -5
      else if ch == 'r' && prev != 't' then -6
      else 0
    }

    // The loop's variables after a line that set the packet to p.
    function Next(p: Contents, ch: char): Reader {
      var index := Index(ch);
      Reader(p,
             if ch == 't' then 10 else if ch == 'r' then 8 else if ch == 'a' then index - 1 else index,
             reqdDone || index == 2, mediaStarted || ch == 'm', ch)
    }
  }

  function LastMedia(p: Contents, m: Media): Contents
    requires p.media != []
  {
    p.(media := p.media[..|p.media| - 1] + [m])
  }

  function LastTime(p: Contents, t: TimeDesc): Contents
    requires p.times != []
  {
    p.(times := p.times[..|p.times| - 1] + [t])
  }

  // What an admitted line does to the packet; None when it reads through NULL.
  function Stored(r: Reader, ch: char, value: Option<string>): (p: Option<Contents>)
    requires r.Ready() && r.Admits(ch) == 0
    ensures p.Some? && (r.mediaStarted || ch == 'm') ==> p.value.media != []
    ensures p.Some? && ch == 't' ==> p.value.times != []
  {
    var p := r.packet;
    if ch == 't' || ch == 'r' then
      if value.None? then None
      else if ch == 't' then Some(p.(times := p.times + [TimeField(NEW_TIME, 't', value.value)]))
      else Some(LastTime(p, TimeField(p.times[|p.times| - 1], 'r', value.value)))
    else if (r.mediaStarted || ch == 'm') && IndexOf(SDP_MEDIA_FIELDS, ch) >= 0 then
      var p1 := if ch == 'm' then p.(media := p.media + [NEW_MEDIA]) else p;
      var m := MediaField(p1.media[|p1.media| - 1], ch, value);
      if m.Some? then Some(LastMedia(p1, m.value)) else None
    else
      SessionFieldKeeps(p, ch, value);
      SessionField(p, ch, value)
  }

  lemma SessionFieldKeeps(p: Contents, ch: char, value: Option<string>)
    ensures var q := SessionField(p, ch, value);
            q.Some? ==> q.value.media == p.media && q.value.times == p.times
  {
  }

  function ReadField(r: Reader, key: string, value: Option<string>): (next: Result<Reader>)
    requires r.Ready() && key != ""
    ensures next.Ok? ==> next.value.Ready()
  {
    if |key| > 1 then Rejected(-1)
    else if r.Admits(key[0]) != 0 then Rejected(r.Admits(key[0]))
    else
      var p := Stored(r, key[0], value);
      if p.Some? then Ok(r.Next(p.value, key[0])) else Undefined
  }

  // A line is its first two tokens; one of equals signs alone has no key.
  function ReadLine(r: Reader, line: string): (next: Result<Reader>)
    requires r.Ready()
    ensures next.Ok? ==> next.value.Ready()
  {
    var words := Tokens(line, EQUALS);
    if words == [] then Undefined else ReadField(r, words[0], Word(words, 1))
  }

  function ReadLines(r: Reader, lines: seq<string>): (last: Result<Reader>)
    requires r.Ready()
    ensures last.Ok? ==> last.value.Ready()
    decreases |lines|
  {
    if lines == [] then Ok(r)
    else
      var next := ReadLine(r, lines[0]);
      if next.Ok? then ReadLines(next.value, lines[1..]) else next
  }

  function ReadText(r: Reader, text: string): Result<Reader>
    requires r.Ready()
  {
    ReadLines(r, Tokens(text, LINE_END))
  }

  function Start(p: Contents): (r: Reader)
    ensures r.Ready()
  {
    Reader(p, 0, false, false, 'v')
  }

  // A connection is required, and only the session's counts.
  function Checked(last: Result<Reader>): Result<Contents> {
    match last {
      case Ok(r) => if r.packet.nConnInfo < 1 then Rejected(-7) else Ok(r.packet)
      case Rejected(code) => Rejected(code)
      case Undefined => Undefined
    }
  }

  function Read(p: Contents, text: string): Result<Contents> {
    Checked(ReadText(Start(p), text))
  }
}
