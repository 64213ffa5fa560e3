/** SDPPacket and SDPHandler of src/SDP.cpp: the packet that is filled in place, the loop that reads
    a text into one and the loops that print one. Sdp says what they compute. */
module SdpHandler {
  import opened Options
  import opened Text
  import opened Sdp

  class SDPPacket {
    var version: int
    var username: Option<string>
    var sessionId: int
    var ownerVersion: int
    var networkType: Option<string>
    var addressType: Option<string>
    var address: Option<string>
    var name: Option<string>
    var info: Option<string>
    var uri: Option<string>
    var email: Option<string>
    var phone: Option<string>
    var sdpConnInfo: Option<Connection>
    var nConnInfo: int
    var bandwidth: Option<string>
    var timezoneAdj: Option<string>
    var encryptionKey: Option<string>
    var attribsList: seq<string>
    var timeDescList: seq<TimeDesc>
    var mediaDescList: seq<Media>

    function OwnerValue(): Owner
      reads `username, `sessionId, `ownerVersion, `networkType, `addressType, `address
    {
      Owner(username, sessionId, ownerVersion, networkType, addressType, address)
    }

    function Value(): Contents
      reads this
    {
      Contents(version, OwnerValue(),
               name, info, uri, email, phone, sdpConnInfo, nConnInfo, bandwidth, timezoneAdj,
               encryptionKey, attribsList, timeDescList, mediaDescList)
    }

    constructor ()
      ensures IsNew(Value()) && IsCleared(Value())
    {
      version, nConnInfo := 0, 0;
      username, networkType, addressType, address := None, None, None, None;
      name, info, uri, email, phone := None, None, None, None, None;
      sdpConnInfo, bandwidth, timezoneAdj, encryptionKey := None, None, None, None;
      attribsList, timeDescList, mediaDescList := [], [], [];
    }

    method ClearLists()
      modifies `attribsList, `timeDescList, `mediaDescList
      ensures Value() == old(Value()).(attributes := [], times := [], media := [])
    {
      mediaDescList, timeDescList, attribsList := [], [], [];
    }

    method Reset()
      modifies `version, `sdpConnInfo, `nConnInfo, `attribsList, `timeDescList, `mediaDescList
      ensures Value() == Sdp.Reset(old(Value()))
    {
      ClearLists();
      nConnInfo, version, sdpConnInfo := 0, 0, None;
    }

    method SetOwner(str: string)
      modifies `username, `sessionId, `ownerVersion, `networkType, `addressType, `address
      ensures OwnerValue() == OwnerField(old(OwnerValue()), str)
    {
      hide Tokens, Atoi;
      var words := Tokens(str, SPACE);
      username := Word(words, 0);
      if username.Some? {
        if |words| > 1 {
          sessionId := Atoi(words[1]);
          if |words| > 2 {
            ownerVersion := Atoi(words[2]);
            networkType := Word(words, 3);
            if networkType.Some? {
              addressType := Word(words, 4);
              if addressType.Some? {
                address := Word(words, 5);
              }
            }
          }
        }
      }
    }

    // True when defined.
    method SetConnection(str: string) returns (defined: bool)
      modifies `sdpConnInfo, `nConnInfo
      ensures var q := SessionField(old(Value()), 'c', Some(str));
              defined == q.Some? && (defined ==> Value() == q.value)
    {
      var parsed := ParseConnection(str);
      match parsed {
        case Ok(c) => {
          sdpConnInfo, nConnInfo, defined := Some(c), nConnInfo + 1, true;
        }
        case Rejected(_) => {
          sdpConnInfo, defined := None, true;
        }
        case Undefined => {
          defined := false;
        }
      }
    }

    // The fields that are taken apart: a NULL is read through.
    method SetParsedField(id: char, str: Option<string>) returns (defined: bool)
      requires TakenApart(id)
      modifies this
      ensures var q := SessionField(old(Value()), id, str);
              defined == q.Some? && (defined ==> Value() == q.value)
    {
      hide Tokens, Atoi, OwnerField, ParseConnection;
      if str.None? {
        return false;
      }
      defined := true;
      match id {
        case 'v' => version := Atoi(str.value);
        case 'o' => SetOwner(str.value);
        case 'c' => defined := SetConnection(str.value);
        case _ => attribsList := attribsList + [str.value];
      }
    }

    method SetField(id: char, str: Option<string>) returns (defined: bool)
      modifies this
      ensures var q := SessionField(old(Value()), id, str);
              defined == q.Some? && (defined ==> Value() == q.value)
    {
      hide OwnerField, ParseConnection;
      defined := true;
      match id {
        case 's' => name := str;
        case 'i' => info := str;
        case 'u' => uri := str;
        case 'e' => email := str;
        case 'p' => phone := str;
        case 'b' => bandwidth := str;
        case 'z' => timezoneAdj := str;
        case 'k' => encryptionKey := str;
        case _ => {
          if TakenApart(id) {
            defined := SetParsedField(id, str);
          }
        }
      }
    }

    // The part of the loop's body that stores an admitted line.
    method Store(r: Reader, ch: char, value: Option<string>) returns (defined: bool)
      requires r.packet == Value() && r.Ready() && r.Admits(ch) == 0
      modifies this
      ensures var q := Stored(r, ch, value);
              defined == q.Some? && (defined ==> Value() == q.value)
    {
      hide SessionField, MediaField, TimeField, IndexOf, LastIndexOf;
      if ch == 't' || ch == 'r' {
        if value.None? {
          return false;
        }
        if ch == 't' {
          timeDescList := timeDescList + [TimeField(NEW_TIME, 't', value.value)];
        } else {
          var last := |timeDescList| - 1;
          timeDescList := timeDescList[..last] + [TimeField(timeDescList[last], 'r', value.value)];
        }
        defined := true;
      } else if (r.mediaStarted || ch == 'm') && IndexOf(SDP_MEDIA_FIELDS, ch) >= 0 {
        if ch == 'm' {
          mediaDescList := mediaDescList + [NEW_MEDIA];
        }
        var last := |mediaDescList| - 1;
        var m := MediaField(mediaDescList[last], ch, value);
        if m.Some? {
          mediaDescList := mediaDescList[..last] + [m.value];
        }
        defined := m.Some?;
      } else {
        defined := SetField(ch, value);
      }
    }
  }

  // strtok_r's next token and what is left, None at the end.
  method NextToken(s: string, delims: set<char>) returns (token: Option<string>, rest: string)
    ensures Tokens(s, delims) == if token.None? then [] else [token.value] + Tokens(rest, delims)
    ensures token.Some? ==> token.value != "" && |rest| < |s|
  {
    var t := SkipDelims(s, delims);
    if t == "" {
      return None, "";
    }
    var n := TokenLength(t, delims);
    return Some(t[..n]), t[n..];
  }

  // Zero and a filled packet, or an error code, or no defined result.
  method ReadPacket(text: string, packet: SDPPacket) returns (answer: Result<int>)
    modifies packet
    ensures match Read(old(packet.Value()), text) {
              case Ok(p) => answer == Ok(0) && packet.Value() == p
              case Rejected(code) => answer == Ok(code)
              case Undefined => answer == Undefined
            }
  {
    hide Tokens, Stored, IndexOf, LastIndexOf;
    ghost var goal := ReadText(Start(packet.Value()), text);
    var oldIndex, reqdDone, mediaStarted, prev := 0, false, false, 'v';
    var line, rest := NextToken(text, LINE_END);
    while line.Some?
      invariant line.Some? ==> line.value != ""
      invariant var r := Reader(packet.Value(), oldIndex, reqdDone, mediaStarted, prev);
        r.Ready() && goal == ReadLines(r, if line.None? then [] else [line.value] + Tokens(rest, LINE_END))
      decreases line.Some?, |rest|
    {
      var r := Reader(packet.Value(), oldIndex, reqdDone, mediaStarted, prev);
      var words := Tokens(line.value, EQUALS);
      if words == [] {
        return Undefined;
      }
      var strKey, strValue := words[0], Word(words, 1);
      if |strKey| > 1 {
        return Ok(-1);
      }
      var ch := strKey[0];
      var index := r.Index(ch);
      if mediaStarted {
        if index < 0 {
          return Ok(-2);
        }
        if index < oldIndex && ch != 'm' {
          return Ok(-3);
        }
      } else if index < 0 || index < oldIndex {
        return Ok(-4);
      }
      if !reqdDone {
        if index > 2 {
          return Ok(-5);
        }
        if index == 2 {
          reqdDone := true;
        }
      }
      if ch == 'm' {
        mediaStarted := true;
      }
      if ch == 'r' && prev != 't' {
        return Ok(-6);
      }
      var defined := packet.Store(r, ch, strValue);
      if !defined {
        return Undefined;
      }
      oldIndex := if ch == 't' then 10 else if ch == 'r' then 8 else if ch == 'a' then index - 1 else index;
      prev := ch;
      line, rest := NextToken(rest, LINE_END);
    }
    answer := Ok(if packet.nConnInfo < 1 then -7 else 0);
  }

  // sprintf of one line. Here and below, rest is the text still to come.
  method PrintLine(text: string, key: char, value: string, ghost rest: string) returns (t: string)
    ensures t + rest == text + Line(key, value, rest)
  {
    t := text + [key] + "=" + value + "\r\n";
    assert t + rest == text + (([key] + "=" + value) + ("\r\n" + rest));
  }

  method PrintOptional(text: string, key: char, value: Option<string>, ghost rest: string) returns (t: string)
    ensures t + rest == text + OptLine(key, value, rest)
  {
    hide Line;
    t := text;
    if value.Some? {
      t := PrintLine(text, key, value.value, rest);
    }
  }

  // The function named writeTimeDesc in the source, which prints a connection.
  method PrintConnection(text: string, c: Option<Connection>, ghost rest: string) returns (t: string)
    ensures t + rest == text + ConnText(c, rest)
  {
    hide Line, Words;
    t := text;
    if c.Some? {
      t := PrintLine(text, 'c', Words([c.value.networkType, c.value.addressType, c.value.address]),
                     Trailer(c.value) + rest);
      ghost var lined := t;
      if c.value.ttl != 0 {
        t := t + ("/" + Int(c.value.ttl));
      }
      if c.value.numAddress != 0 {
        t := t + ("/" + Int(c.value.numAddress));
      }
      assert t == lined + Trailer(c.value);
      assert t + rest == lined + (Trailer(c.value) + rest);
    }
  }

  method PrintAttributes(text: string, attributes: seq<string>, buffer: string, ghost rest: string) returns (t: string)
    ensures t + rest == text + AttrsText(attributes, buffer, rest)
  {
    hide Line;
    t := text;
    var str := buffer;
    for itr := 0 to |attributes|
      invariant t + AttrsText(attributes[itr..], str, rest) == text + AttrsText(attributes, buffer, rest)
    {
      if |attributes[itr]| < ROOM {
        str := attributes[itr];
      }
      assert attributes[itr..][1..] == attributes[itr + 1..];
      t := PrintLine(t, 'a', str, AttrsText(attributes[itr + 1..], str, rest));
    }
  }

  method PrintMediaAttributes(text: string, attributes: seq<string>, ghost rest: string) returns (t: string)
    ensures t + rest == text + MediaAttrsText(attributes, rest)
  {
    hide Line;
    t := text;
    for itr := 0 to |attributes|
      invariant t + MediaAttrsText(attributes[itr..], rest) == text + MediaAttrsText(attributes, rest)
    {
      assert attributes[itr..][1..] == attributes[itr + 1..];
      if |attributes[itr]| < ROOM {
        t := PrintLine(t, 'a', attributes[itr], MediaAttrsText(attributes[itr + 1..], rest));
      }
    }
  }

  // A loop of " %d" after what is already printed, or " 0" when there is nothing to loop over.
  method PrintNumbers(ws: seq<string>, numbers: seq<int>) returns (t: string)
    requires ws != []
    ensures t == Words(ws + Ints(if numbers == [] then [0] else numbers))
  {
    hide Words;
    ghost var ints := Ints(numbers);
    t := Words(ws);
    assert ws + ints[..0] == ws;
    for itr := 0 to |numbers|
      invariant t == Words(ws + ints[..itr])
    {
      WordsAppend(ws + ints[..itr], ints[itr]);
      Regroup(ws, ints, itr);
      t := t + " " + Int(numbers[itr]);
    }
    assert ints[..|numbers|] == ints;
    if numbers == [] {
      WordsAppend(ws, Int(0));
      assert Ints([0]) == [Int(0)];
      assert ws + ints == ws;
      t := t + " " + Int(0);
    }
  }

  lemma Regroup(ws: seq<string>, more: seq<string>, i: nat)
    requires i < |more|
    ensures ws + more[..i] + [more[i]] == ws + more[..i + 1]
  {
  }

  method PrintTimes(text: string, times: seq<TimeDesc>, ghost rest: string) returns (t: string)
    ensures t + rest == text + TimesText(times, rest)
  {
    hide Line, Words, Ints;
    t := text;
    for itr := 0 to |times|
      invariant t + TimesText(times[itr..], rest) == text + TimesText(times, rest)
    {
      assert times[itr..][1..] == times[itr + 1..];
      ghost var after := TimesText(times[itr + 1..], rest);
      t := PrintLine(t, 't', Words(Ints([times[itr].startTime, times[itr].stopTime])),
                     Line('r', RepeatText(times[itr]), after));
      var repeats := PrintRepeat(times[itr]);
      t := PrintLine(t, 'r', repeats, after);
    }
  }

  method PrintRepeat(time: TimeDesc) returns (t: string)
    ensures t == RepeatText(time)
  {
    hide Words;
    var offsets := if time.offsets == [] then [0] else time.offsets;
    ThreeInts(time.interval, time.duration, |time.offsets|, offsets);
    hide Ints;
    t := PrintNumbers([Int(time.interval), Int(time.duration), Int(|time.offsets|)], time.offsets);
  }

  lemma ThreeInts(a: int, b: int, c: int, more: seq<int>)
    ensures Ints([a, b, c] + more) == [Int(a), Int(b), Int(c)] + Ints(more)
  {
    hide Int;
    assert ([a, b, c] + more)[1..] == [b, c] + more;
    assert ([b, c] + more)[1..] == [c] + more;
    assert ([c] + more)[1..] == more;
    assert Ints([c] + more) == [Int(c)] + Ints(more);
    assert Ints([b, c] + more) == [Int(b)] + Ints([c] + more);
  }

  method PrintMedia(text: string, media: seq<Media>, keyed: bool, ghost rest: string) returns (t: string)
    ensures t + rest == text + MediaListText(media, keyed, rest)
  {
    hide OneMediaText;
    t := text;
    for itr := 0 to |media|
      invariant t + MediaListText(media[itr..], keyed, rest) == text + MediaListText(media, keyed, rest)
    {
      assert media[itr..][1..] == media[itr + 1..];
      t := PrintOneMedia(t, media[itr], keyed, MediaListText(media[itr + 1..], keyed, rest));
    }
  }

  method PrintOneMedia(text: string, m: Media, keyed: bool, ghost rest: string) returns (t: string)
    ensures t + rest == text + OneMediaText(m, keyed, rest)
  {
    hide Line, OptLine, ConnText, MediaAttrsText, Words;
    ghost var attributes := MediaAttrsText(m.attributes, rest);
    var key := if keyed then Some(Str(m.key)) else None;
    ghost var keyOn := OptLine('k', key, attributes);
    ghost var bandwidthOn := OptLine('b', m.bandwidth, keyOn);
    ghost var connectionOn := ConnText(m.connection, bandwidthOn);
    var line := PrintNumbers([Str(m.media), PortText(m), Str(m.transport), ""], m.formats);
    t := PrintLine(text, 'm', line, OptLine('i', m.title, connectionOn));
    t := PrintOptional(t, 'i', m.title, connectionOn);
    t := PrintConnection(t, m.connection, bandwidthOn);
    t := PrintOptional(t, 'b', m.bandwidth, keyOn);
    t := PrintOptional(t, 'k', key, attributes);
    t := PrintMediaAttributes(t, m.attributes, rest);
  }

  // The text of a packet, or an error code; buffer is what the local buffer holds on entry.
  method WritePacket(packet: SDPPacket, buffer: string) returns (answer: Result<string>)
    ensures answer == Written(packet.Value(), buffer)
  {
    hide Line, OptLine, ConnText, AttrsText, TimesText, MediaListText, Words;
    var p := packet.Value();
    if !Complete(p) {
      return Rejected(-8);
    }
    ghost var media := MediaListText(p.media, p.key.Some?, "");
    ghost var times := TimesText(p.times, media);
    ghost var key := OptLine('k', p.key, LowerText(p, buffer));
    ghost var timezone := OptLine('z', p.timezone, key);
    ghost var bandwidth := OptLine('b', p.bandwidth, timezone);
    ghost var connection := ConnectedText(p, buffer);
    ghost var phone := OptLine('p', p.phone, connection);
    ghost var email := OptLine('e', p.email, phone);
    ghost var uri := OptLine('u', p.uri, email);
    ghost var info := OptLine('i', p.info, uri);
    ghost var name := Line('s', p.name.value, info);
    var text := PrintLine("", 'v', Int(p.version), Line('o', OwnerText(p.owner), name));
    text := PrintLine(text, 'o', OwnerText(p.owner), name);
    text := PrintLine(text, 's', p.name.value, info);
    text := PrintOptional(text, 'i', p.info, uri);
    text := PrintOptional(text, 'u', p.uri, email);
    text := PrintOptional(text, 'e', p.email, phone);
    text := PrintOptional(text, 'p', p.phone, connection);
    text := PrintConnection(text, p.connection, bandwidth);
    text := PrintOptional(text, 'b', p.bandwidth, timezone);
    text := PrintOptional(text, 'z', p.timezone, key);
    text := PrintOptional(text, 'k', p.key, LowerText(p, buffer));
    text := PrintAttributes(text, p.attributes, buffer, times);
    text := PrintTimes(text, p.times, media);
    text := PrintMedia(text, p.media, p.key.Some?, "");
    assert text + "" == text && "" + PacketText(p, buffer) == PacketText(p, buffer);
    answer := Ok(text);
  }
}
