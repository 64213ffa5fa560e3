/** The call control of src/UserAgent.cpp: one thread that takes user commands, already parsed SIP
    packets and timeouts one at a time. A value-level step function says what each event does; the
    class performs it field by field. */
module UserAgent {

  datatype State = Disconnected | SentInv | RcvdInv | SentBye | Accepted | Rejected | InCall

  // The pending timeout action. Unset is the zero the constructor stores.
  datatype Action = Unset | NoAction | Disconn | Conn | InvAck | Incoming | Ringing | SendRing | ByeAgain

  datatype Request = Invite | Ack | Bye | OtherRequest

  const OK := 200
  const RING := 180
  const BUSY := 486
  const DECLINE := 603

  // A parsed SIP packet. hasAudio says that checkPacket accepts its session description.
  datatype Packet = Packet(isRequest: bool, request: Request, response: int,
                           callId: int, callIdHost: string, hasAudio: bool)

  function RequestPacket(request: Request, id: CallId, hasAudio: bool): Packet {
    Packet(true, request, 0, id.number, id.host, hasAudio)
  }

  function ResponsePacket(response: int, id: CallId, hasAudio: bool): Packet {
    Packet(false, OtherRequest, response, id.number, id.host, hasAudio)
  }

  datatype Event =
    | InviteCommand(hasHost: bool, newCallId: int)
    | ByeCommand
    | AcceptCommand
    | RejectCommand
    | Received(packet: Packet)
    | ParseError
    | RespondCommand
    | UnknownCommand
    | Timeout

  // What a step does with memos and queues, in order. The memo in hand is the one that carried
  // the event, or one taken from the SIP pool on a timeout.
  datatype Effect = Release | SendMemo(packet: Packet) | Alloc | Drain | Drop

  // A pointer to a host string: null, the agent's own host, a malloc'd copy, or into the buffer of
  // the n-th packet received. Each is written once, so its text goes with the pointer; whether it
  // may still be read depends on what has been freed.
  datatype HostPointer =
    | NullHost
    | LocalHost(text: string)
    | Copy(id: nat, text: string)
    | InPacket(n: nat, text: string)

  datatype HostMemory = HostMemory(
    pointer: HostPointer,    // callIdHost
    prepared: HostPointer,   // sipPackSend->callIdHost
    live: set<nat>,          // copies not yet freed
    nextCopy: nat,
    packets: nat,            // packets received; only the last one's buffer is still there
    fault: bool,             // a null pointer or a freed copy was read or freed
    staleReads: nat,         // how often a freed packet was read
    stale: nat -> string)    // what each of those reads finds
  {
    predicate Readable(p: HostPointer) {
      match p
      case NullHost => false
      case LocalHost(_) => true
      case Copy(id, _) => id in live
      case InPacket(n, _) => n == packets
    }

    // What reading the string behind p finds.
    function Text(p: HostPointer): string {
      if Readable(p) then p.text else stale(staleReads)
    }

    function Read(p: HostPointer): HostMemory {
      if Readable(p) then this
      else if p.InPacket? then this.(staleReads := staleReads + 1)
      else this.(fault := true)
    }

    function PointTo(local: string): HostMemory {
      this.(pointer := LocalHost(local))
    }

    // malloc and sprintf
    function NewCopy(text: string): HostMemory {
      this.(pointer := Copy(nextCopy, text), live := live + {nextCopy}, nextCopy := nextCopy + 1)
    }

    // Frees the copy the pointer refers to, if it does not refer to the local host; the pointer
    // keeps its value.
    function Free(): HostMemory {
      match pointer
      case Copy(id, _) => this.(live := live - {id}, fault := fault || id !in live)
      case _ => this
    }

    // The reset of sipPackRecv frees the last packet's buffer, and reading allocates the next.
    function NextPacket(): HostMemory {
      this.(packets := packets + 1)
    }
  }

  // A Call-ID as it goes on the wire.
  datatype CallId = CallId(number: int, host: string)

  datatype Agent = Agent(
    state: State,
    action: Action,
    rptCount: int,
    callId: int,
    host: HostMemory,
    sendNumber: int,       // sipPackSend->callId
    connected: bool,
    ringing: bool,
    localHost: string)
  {
    // The Call-ID that SIPHandler::write prints, and the memory after it has read the host.
    function Printed(): CallId {
      CallId(sendNumber, host.Text(host.prepared))
    }

    function Print(): Agent {
      this.(host := host.Read(host.prepared))
    }

    function Prepare(number: int, pointer: HostPointer): Agent {
      this.(sendNumber := number, host := host.(prepared := pointer))
    }
  }

  function Start(localHost: string, stale: nat -> string): Agent {
    Agent(Disconnected, Unset, 0, 0, HostMemory(NullHost, NullHost, {}, 0, 0, false, 0, stale), 0, false, false, localHost)
  }

  datatype Outcome = Outcome(agent: Agent, effects: seq<Effect>)

  // ---------------------------------------------------------------- what the send methods do

  function DoSendInvite(a: Agent, newCallId: int): Outcome {
    var b := a.(callId := newCallId, host := a.host.PointTo(a.localHost)).Prepare(newCallId, LocalHost(a.localHost));
    Outcome(b.Print().(state := SentInv, action := Conn), [SendMemo(RequestPacket(Invite, b.Printed(), true))])
  }

  function DoSendBye(a: Agent): Outcome {
    Outcome(a.Print().(state := SentBye, action := ByeAgain),
            [SendMemo(RequestPacket(Bye, a.Printed(), false))])
  }

  function DoSendOk(a: Agent): Outcome {
    var b := a.Prepare(a.callId, a.host.pointer);
    Outcome(b.Print(), [SendMemo(ResponsePacket(OK, b.Printed(), true))])
  }

  function DoSendAck(a: Agent): Outcome {
    Outcome(a.Print().(state := InCall, connected := true, action := NoAction),
            [SendMemo(RequestPacket(Ack, a.Printed(), false))])
  }

  function DoSendDecline(a: Agent): Outcome {
    Outcome(a.Print().(state := Rejected, action := Disconn),
            [SendMemo(ResponsePacket(DECLINE, a.Printed(), false))])
  }

  // The prepared host becomes a pointer into the received packet.
  function DoSendBusy(a: Agent, p: Packet): Outcome {
    var b := a.Prepare(p.callId, InPacket(a.host.packets, p.callIdHost));
    Outcome(b.Print(), [SendMemo(ResponsePacket(BUSY, b.Printed(), false))])
  }

  function DoSendRinging(a: Agent): Outcome {
    var b := a.Prepare(a.callId, a.host.pointer);
    Outcome(b.Print().(state := RcvdInv, ringing := true, action := SendRing),
            [SendMemo(ResponsePacket(RING, b.Printed(), false))])
  }

  function DoCleanup(a: Agent): Outcome {
    Outcome(a.(connected := false, ringing := false, sendNumber := 0, callId := 0,
               host := a.host.Free(), state := Disconnected, action := NoAction),
            [Drain])
  }

  // ---------------------------------------------------------------- what one event does

  function Keep(a: Agent): Outcome { Outcome(a, [Release]) }

  // The reply to a packet no state wanted: busy to another call, silence to this one.
  function CheckSource(a: Agent, p: Packet): Outcome {
    if p.callId != a.callId then DoSendBusy(a, p) else Keep(a)
  }

  // The Call-ID test of a packet; the host is read only when the numbers agree.
  predicate SameCall(a: Agent, p: Packet) {
    p.callId == a.callId && a.host.Text(a.host.pointer) == p.callIdHost
  }

  function AfterSameCall(a: Agent, p: Packet): Agent {
    if p.callId == a.callId then a.(host := a.host.Read(a.host.pointer)) else a
  }

  function OnDisconnected(a: Agent, p: Packet): Outcome {
    if p.isRequest && p.request.Invite? && p.hasAudio then
      DoSendRinging(a.(callId := p.callId, host := a.host.NewCopy(p.callIdHost)))
    else Keep(a)
  }

  function OnSentInv(a: Agent, p: Packet): Outcome {
    if p.isRequest then CheckSource(a, p)
    else
      var b := AfterSameCall(a, p);
      if !SameCall(a, p) then CheckSource(b, p)
      else if p.response == RING then Keep(b.(ringing := true, action := Conn))
      else if p.response == BUSY || p.response == DECLINE then Keep(b.(action := Disconn, ringing := false))
      else if p.response == OK then
        if !p.hasAudio then Keep(b)
        else
          var r := DoSendAck(b);
          r.(agent := r.agent.(ringing := false))
      else CheckSource(b, p)
  }

  function OnSentBye(a: Agent, p: Packet): Outcome {
    if p.isRequest then CheckSource(a, p)
    else if p.response == OK then
      var r := DoCleanup(a.(state := Disconnected));
      Outcome(r.agent, r.effects + [Release])
    else Keep(a)
  }

  function OnAccepted(a: Agent, p: Packet): Outcome {
    if !p.isRequest || !p.request.Ack? then CheckSource(a, p)
    else
      var b := AfterSameCall(a, p);
      if SameCall(a, p) then Keep(b.(connected := true, action := NoAction, state := InCall, ringing := false))
      else CheckSource(b, p)
  }

  function OnRejected(a: Agent, p: Packet): Outcome {
    if !p.isRequest || !p.request.Ack? then CheckSource(a, p)
    else
      var b := AfterSameCall(a, p);
      if SameCall(a, p) then Keep(b.(connected := false, action := Disconn, ringing := false))
      else CheckSource(b, p)
  }

  function OnInCall(a: Agent, p: Packet): Outcome {
    if p.isRequest && p.request.Bye? && p.callId == a.callId then
      var r := DoSendOk(a);
      r.(agent := r.agent.(connected := false, action := Disconn, state := Disconnected))
    else CheckSource(a, p)
  }

  // sipPackRecv is reset and read, whether the packet then parses or not.
  function NewPacket(a: Agent): Agent {
    a.(host := a.host.NextPacket())
  }

  // The switch over a parsed packet.
  function OnPacket(a: Agent, p: Packet): Outcome {
    match a.state
    case Disconnected => OnDisconnected(a, p)
    case SentInv => OnSentInv(a, p)
    case SentBye => OnSentBye(a, p)
    case Accepted => OnAccepted(a, p)
    case Rejected => OnRejected(a, p)
    case InCall => OnInCall(a, p)
    case RcvdInv => CheckSource(a, p)
  }

  function OnTimeout(a: Agent): Outcome {
    match a.action
    case Disconn => DoCleanup(a)
    case ByeAgain =>
      if a.rptCount < 5 then
        var r := DoSendBye(a.(rptCount := a.rptCount + 1));
        Outcome(r.agent, [Alloc] + r.effects)
      else Outcome(a.(rptCount := 0, state := Disconnected, action := Disconn), [])
    case Conn => DoCleanup(a.(state := Disconnected))
    case InvAck => Outcome(a.(action := NoAction), [])
    case Incoming => DoCleanup(a.(ringing := false, action := NoAction))
    case SendRing =>
      if a.rptCount < 5 then
        var r := DoSendRinging(a.(rptCount := a.rptCount + 1));
        Outcome(r.agent, [Alloc] + r.effects)
      else Outcome(a.(rptCount := 0, action := Incoming), [])
    case _ => Outcome(a, [])
  }

  function Step(a: Agent, e: Event): Outcome {
    match e
    case InviteCommand(hasHost, newCallId) =>
      if a.state.Disconnected? && hasHost then
        var r := DoSendInvite(a, newCallId);
        r.(agent := r.agent.(connected := false))
      else Keep(a)
    case ByeCommand =>
      if a.connected then DoSendBye(a.(connected := false, rptCount := 0)) else Keep(a)
    case AcceptCommand =>
      if a.state.RcvdInv? then
        var r := DoSendOk(a);
        r.(agent := r.agent.(state := Accepted, ringing := false))
      else Keep(a)
    case RejectCommand =>
      if a.state.RcvdInv? then
        var r := DoSendDecline(a);
        r.(agent := r.agent.(ringing := false))
      else Keep(a)
    case Received(p) => OnPacket(NewPacket(a), p)
    case ParseError => Outcome(NewPacket(a), [Drop])
    case RespondCommand => Keep(a)
    case UnknownCommand => Keep(a)
    case Timeout => OnTimeout(a)
  }

  // ---------------------------------------------------------------- the agent object

  class Thread {
    var state: State
    var defaultAction: Action
    var rptCount: int
    var callId: int
    var host: HostMemory      // callIdHost, sipPackSend->callIdHost and what they may point to
    var sendNumber: int       // sipPackSend->callId
    var isConnected: bool     // common->isConnected
    var isRinging: bool       // common->isRinging
    const localHost: string
    var effects: seq<Effect>  // everything done with memos and queues so far

    ghost function View(): Agent
      reads this
    {
      Agent(state, defaultAction, rptCount, callId, host, sendNumber, isConnected, isRinging, localHost)
    }

    // The new state and the appended effects are those of r.
    twostate predicate Became(r: Outcome)
      reads this
    {
      View() == r.agent && effects == old(effects) + r.effects
    }

    constructor (localHost: string, stale: nat -> string)
      ensures View() == Start(localHost, stale) && effects == []
    {
      state, defaultAction, rptCount := Disconnected, Unset, 0;
      callId, host, sendNumber := 0, HostMemory(NullHost, NullHost, {}, 0, 0, false, 0, stale), 0;
      isConnected, isRinging := false, false;
      this.localHost := localHost;
      effects := [];
    }

    method ReadHost(p: HostPointer) returns (text: string)
      modifies this`host
      ensures host == old(host).Read(p) && text == old(host).Text(p)
    {
      text := host.Text(p);
      host := host.Read(p);
    }

    // SIPHandler::write, as far as the Call-ID goes.
    method Write() returns (id: CallId)
      modifies this`host
      ensures View() == old(View()).Print() && id == old(View()).Printed()
    {
      var text := ReadHost(host.prepared);
      id := CallId(sendNumber, text);
    }

    method SendInvite(newCallId: int)
      modifies this
      ensures Became(DoSendInvite(old(View()), newCallId))
    {
      callId := newCallId;
      host := host.PointTo(localHost);
      sendNumber := callId;
      host := host.(prepared := host.pointer);
      var id := Write();
      effects := effects + [SendMemo(RequestPacket(Invite, id, true))];
      state := SentInv;
      defaultAction := Conn;
    }

    method SendBye()
      modifies this
      ensures Became(DoSendBye(old(View())))
    {
      var id := Write();
      effects := effects + [SendMemo(RequestPacket(Bye, id, false))];
      state := SentBye;
      defaultAction := ByeAgain;
    }

    method SendOk()
      modifies this
      ensures Became(DoSendOk(old(View())))
    {
      sendNumber := callId;
      host := host.(prepared := host.pointer);
      var id := Write();
      effects := effects + [SendMemo(ResponsePacket(OK, id, true))];
    }

    method SendAck()
      modifies this
      ensures Became(DoSendAck(old(View())))
    {
      var id := Write();
      effects := effects + [SendMemo(RequestPacket(Ack, id, false))];
      state := InCall;
      isConnected := true;
      defaultAction := NoAction;
    }

    method SendDecline()
      modifies this
      ensures Became(DoSendDecline(old(View())))
    {
      var id := Write();
      effects := effects + [SendMemo(ResponsePacket(DECLINE, id, false))];
      state := Rejected;
      defaultAction := Disconn;
    }

    method SendBusy(p: Packet)
      modifies this
      ensures Became(DoSendBusy(old(View()), p))
    {
      sendNumber := p.callId;
      host := host.(prepared := InPacket(host.packets, p.callIdHost));
      var id := Write();
      effects := effects + [SendMemo(ResponsePacket(BUSY, id, false))];
    }

    method SendRinging()
      modifies this
      ensures Became(DoSendRinging(old(View())))
    {
      sendNumber := callId;
      host := host.(prepared := host.pointer);
      var id := Write();
      effects := effects + [SendMemo(ResponsePacket(RING, id, false))];
      state := RcvdInv;
      isRinging := true;
      defaultAction := SendRing;
    }

    method Cleanup()
      modifies this
      ensures Became(DoCleanup(old(View())))
    {
      isConnected := false;
      isRinging := false;
      sendNumber := 0;
      callId := 0;
      host := host.Free();
      effects := effects + [Drain];
      state := Disconnected;
      defaultAction := NoAction;
    }

    method DoDefaultAction()
      modifies this
      ensures Became(OnTimeout(old(View())))
    {
      match defaultAction
      case Disconn =>
        Cleanup();
      case ByeAgain =>
        rptCount := rptCount + 1;
        if 5 > rptCount - 1 {
          effects := effects + [Alloc];
          SendBye();
          defaultAction := ByeAgain;
        } else {
          rptCount := 0;
          state := Disconnected;
          defaultAction := Disconn;
        }
      case Conn =>
        state := Disconnected;
        Cleanup();
        defaultAction := NoAction;
      case InvAck =>
        defaultAction := NoAction;
      case Incoming =>
        isRinging := false;
        defaultAction := NoAction;
        Cleanup();
      case SendRing =>
        rptCount := rptCount + 1;
        if 5 > rptCount - 1 {
          effects := effects + [Alloc];
          SendRinging();
          defaultAction := SendRing;
        } else {
          rptCount := 0;
          defaultAction := Incoming;
        }
      case _ =>
    }

    // !strcmp(callIdHost, packet's), short-circuited behind the comparison of the numbers
    method MatchesCall(p: Packet) returns (same: bool)
      modifies this`host
      ensures host == AfterSameCall(old(View()), p).host && same == SameCall(old(View()), p)
    {
      same := p.callId == callId;
      if same {
        var text := ReadHost(host.pointer);
        same := text == p.callIdHost;
      }
    }

    // The packet switch of run; checkSrc starts false and is consumed before the next packet.
    method Receive(p: Packet)
      modifies this
      ensures Became(OnPacket(old(View()), p))
    {
      var checkSrc := false;
      match state {
        case Disconnected =>
          if p.isRequest && p.request.Invite? && p.hasAudio {
            callId := p.callId;
            host := host.NewCopy(p.callIdHost);
            SendRinging();
            state := RcvdInv;
            defaultAction := SendRing;
          } else {
            effects := effects + [Release];
          }
        case SentInv =>
          var same := false;
          if !p.isRequest {
            same := MatchesCall(p);
          }
          if !same {
            checkSrc := true;
          } else if p.response == RING {
            isRinging := true;
            defaultAction := Conn;
            effects := effects + [Release];
          } else if p.response == BUSY {
            defaultAction := Disconn;
            effects := effects + [Release];
            isRinging := false;
          } else if p.response == DECLINE {
            defaultAction := Disconn;
            effects := effects + [Release];
            isRinging := false;
          } else if p.response == OK {
            if !p.hasAudio {
              effects := effects + [Release];
            } else {
              SendAck();
              isRinging := false;
            }
          } else {
            checkSrc := true;
          }
        case SentBye =>
          if !p.isRequest {
            if p.response == OK {
              state := Disconnected;
              Cleanup();
              defaultAction := NoAction;
            }
            effects := effects + [Release];
          } else {
            checkSrc := true;
          }
        case Accepted =>
          var same := false;
          if p.isRequest && p.request.Ack? {
            same := MatchesCall(p);
          }
          if same {
            isConnected := true;
            defaultAction := NoAction;
            state := InCall;
            effects := effects + [Release];
            isRinging := false;
          } else {
            checkSrc := true;
          }
        case Rejected =>
          var same := false;
          if p.isRequest && p.request.Ack? {
            same := MatchesCall(p);
          }
          if same {
            isConnected := false;
            defaultAction := Disconn;
            effects := effects + [Release];
            isRinging := false;
          } else {
            checkSrc := true;
          }
        case InCall =>
          if p.isRequest && p.request.Bye? && p.callId == callId {
            SendOk();
            isConnected := false;
            defaultAction := Disconn;
            state := Disconnected;
          } else {
            checkSrc := true;
          }
        case RcvdInv =>
          checkSrc := true;
      }
      if checkSrc {
        if p.callId != callId {
          SendBusy(p);
        } else {
          effects := effects + [Release];
        }
      }
    }

    // One turn of the event loop.
    method Turn(e: Event)
      modifies this
      ensures Became(Step(old(View()), e))
    {
      match e
      case InviteCommand(hasHost, newCallId) =>
        if state.Disconnected? {
          if hasHost {
            SendInvite(newCallId);
            isConnected := false;
          } else {
            effects := effects + [Release];
          }
        } else {
          effects := effects + [Release];
        }
      case ByeCommand =>
        if isConnected {
          isConnected := false;
          rptCount := 0;
          SendBye();
        } else {
          effects := effects + [Release];
        }
      case AcceptCommand =>
        if state.RcvdInv? {
          SendOk();
          state := Accepted;
          isRinging := false;
        } else {
          effects := effects + [Release];
        }
      case RejectCommand =>
        if state.RcvdInv? {
          SendDecline();
          isRinging := false;
        } else {
          effects := effects + [Release];
        }
      case Received(p) =>
        host := host.NextPacket();
        Receive(p);
      case ParseError =>
        host := host.NextPacket();
        effects := effects + [Drop];
      case RespondCommand =>
        effects := effects + [Release];
      case UnknownCommand =>
        effects := effects + [Release];
      case Timeout =>
        DoDefaultAction();
    }
  }
}
