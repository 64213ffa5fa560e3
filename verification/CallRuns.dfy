/** What every run of the user agent keeps: the call-state invariant, memo discipline, the lifetime
    of the Call-ID host, and how long timeouts alone take to end a call. */
module CallRuns {
  import opened Options
  import opened UserAgent

  // ---------------------------------------------------------------- the call-state invariant

  // The timeout actions each state admits.
  predicate ActionFits(state: State, action: Action) {
    match state
    case InCall => action.NoAction?
    case SentInv => action.Conn? || action.Disconn?
    case RcvdInv => action.SendRing? || action.Incoming?
    case Accepted => action.SendRing? || action.Incoming?
    case SentBye => action.ByeAgain?
    case Rejected => action.Disconn?
    case Disconnected => action.Unset? || action.NoAction? || action.Disconn?
  }

  predicate Consistent(a: Agent) {
    && (a.connected <==> a.state.InCall?)
    && (a.ringing ==> a.state.SentInv? || a.state.RcvdInv?)
    && (a.state.RcvdInv? ==> a.ringing)
    && 0 <= a.rptCount <= 5
    && ActionFits(a.state, a.action)
  }

  // callIdHost may dangle only while no call is open or waiting to be cleaned up. In a call the
  // prepared Call-ID is the call's own, or else a busy reply's, whose host lies in a packet.
  predicate HostSafe(a: Agent) {
    && !a.host.fault
    && !a.host.pointer.InPacket?
    && ((a.state.Disconnected? && !a.action.Disconn?) || a.host.Readable(a.host.pointer))
    && (forall id :: id in a.host.live ==> id < a.host.nextCopy)
    && (a.host.prepared.InPacket? ==> a.host.prepared.n <= a.host.packets)
    && (!a.state.Disconnected? ==>
          if a.host.prepared.InPacket? then a.sendNumber != a.callId
          else a.host.prepared == a.host.pointer && a.sendNumber == a.callId)
  }

  predicate Invariant(a: Agent) {
    Consistent(a) && HostSafe(a)
  }

  function Run(a: Agent, events: seq<Event>): Agent
    decreases |events|
  {
    if events == [] then a else Run(Step(a, events[0]).agent, events[1..])
  }

  lemma PacketKeeps(a: Agent, p: Packet)
    requires Invariant(a)
    ensures Invariant(OnPacket(a, p).agent)
  {
    if a.state.SentInv? {
      hide OnDisconnected, OnSentBye, OnAccepted, OnRejected, OnInCall;
    } else {
      hide OnSentInv;
    }
  }

  lemma NewPacketKeeps(a: Agent)
    requires Invariant(a)
    ensures Invariant(NewPacket(a))
  {
  }

  lemma TimeoutKeeps(a: Agent)
    requires Invariant(a)
    ensures Invariant(OnTimeout(a).agent)
  {
  }

  lemma StepKeeps(a: Agent, e: Event)
    requires Invariant(a)
    ensures Invariant(Step(a, e).agent)
  {
    hide OnPacket, OnTimeout, NewPacket;
    match e
    case Received(p) =>
      NewPacketKeeps(a);
      PacketKeeps(NewPacket(a), p);
    case ParseError => NewPacketKeeps(a);
    case Timeout => TimeoutKeeps(a);
    case _ =>
  }

  lemma {:induction false} RunKeeps(a: Agent, events: seq<Event>)
    requires Invariant(a)
    ensures Invariant(Run(a, events))
    decreases |events|
  {
    hide Step, Invariant;
    if events != [] {
      StepKeeps(a, events[0]);
      RunKeeps(Step(a, events[0]).agent, events[1..]);
    }
  }

  /** In every run: connected exactly in a call, ringing only while a call is being set up, the
      repeat count in range, and only its own timeout actions pending in each state. */
  lemma CallStateInvariant(localHost: string, stale: nat -> string, events: seq<Event>)
    ensures Consistent(Run(Start(localHost, stale), events))
  {
    RunKeeps(Start(localHost, stale), events);
  }

  /** In every run, over any sequence of calls: no host string is read or freed through a null
      pointer or after cleanup freed it, neither by callIdHost nor by the prepared packet's pointer,
      although cleanup leaves both in place. */
  lemma HostNeverUsedAfterFree(localHost: string, stale: nat -> string, events: seq<Event>)
    ensures !Run(Start(localHost, stale), events).host.fault
  {
    RunKeeps(Start(localHost, stale), events);
  }

  // What counts as a fault: reading through null or into a freed copy, and freeing a copy twice. A
  // read of a freed packet is counted apart; any other read changes nothing.
  lemma FaultsAreSeen(m: HostMemory, p: HostPointer)
    ensures m.Read(p).fault <==> m.fault || p.NullHost? || (p.Copy? && p.id !in m.live)
    ensures m.Read(p).staleReads == m.staleReads + if p.InPacket? && p.n != m.packets then 1 else 0
    ensures m.Read(p) == m.(fault := m.Read(p).fault, staleReads := m.Read(p).staleReads)
    ensures m.Free().fault <==> m.fault || (m.pointer.Copy? && m.pointer.id !in m.live)
    ensures m.Free().live == m.live - if m.pointer.Copy? then {m.pointer.id} else {}
  {
  }

  // The pointer really does dangle in between: after a call that was cleaned up.
  lemma PointerDanglesWhenIdle(stale: nat -> string)
    ensures var packet := RequestPacket(Invite, CallId(7, "far"), true);
            var a := Run(Start("near", stale), [Received(packet), RejectCommand, Timeout]);
            a.host.pointer.Copy? && !a.host.Readable(a.host.pointer) && a.host.prepared == a.host.pointer
  {
    var packet := RequestPacket(Invite, CallId(7, "far"), true);
    var a0 := Start("near", stale);
    var a1 := Step(a0, Received(packet)).agent;
    var a2 := Step(a1, RejectCommand).agent;
    var a3 := Step(a2, Timeout).agent;
    assert [Received(packet), RejectCommand, Timeout][1..] == [RejectCommand, Timeout];
    assert [RejectCommand, Timeout][1..] == [Timeout];
    assert [Timeout][1..] == [];
    assert Run(a3, []) == a3;
    assert Run(a2, [Timeout]) == a3;
    assert Run(a1, [RejectCommand, Timeout]) == a3;
  }

  // ---------------------------------------------------------------- whose Call-ID is sent

  // The packet an event makes the agent send, always as its last effect.
  function SentPacket(effects: seq<Effect>): Option<Packet> {
    if effects != [] && effects[|effects| - 1].SendMemo? then Some(effects[|effects| - 1].packet) else None
  }

  // The packets that go out under the Call-ID prepared before: ACK, BYE and 603.
  predicate UsesPrepared(p: Packet) {
    if p.isRequest then p.request.Ack? || p.request.Bye? else p.response == DECLINE
  }

  predicate SendsPrepared(effects: seq<Effect>) {
    SentPacket(effects).Some? && UsesPrepared(SentPacket(effects).value)
  }

  // What an observer of the wire knows about the prepared Call-ID: that it is a busy reply's, and
  // how many packets have come in since that reply; or that an INVITE, 200 or 180 came after it.
  function Observed(a: Agent, e: Event, since: Option<nat>): Option<nat> {
    var sent := SentPacket(Step(a, e).effects);
    if sent.Some? && !UsesPrepared(sent.value) then
      if !sent.value.isRequest && sent.value.response == BUSY then Some(0) else None
    else if since.Some? && (e.Received? || e.ParseError?) then Some(since.value + 1)
    else since
  }

  function SinceBusy(a: Agent, events: seq<Event>, since: Option<nat>): Option<nat>
    decreases |events|
  {
    if events == [] then since
    else SinceBusy(Step(a, events[0]).agent, events[1..], Observed(a, events[0], since))
  }

  predicate Knows(a: Agent, since: Option<nat>) {
    if a.host.prepared.InPacket? then since == Some(a.host.packets - a.host.prepared.n)
    else since == None
  }

  // A step prepares a new Call-ID, its own or a packet's, or leaves the prepared one alone.
  predicate Prepares(a: Agent, b: Agent, effects: seq<Effect>, packets: nat) {
    var sent := SentPacket(effects);
    && b.host.packets == packets
    && (if sent.Some? && !UsesPrepared(sent.value) then
          if !sent.value.isRequest && sent.value.response == BUSY then
            b.host.prepared.InPacket? && b.host.prepared.n == packets
          else !b.host.prepared.InPacket?
        else b.host.prepared == a.host.prepared)
  }

  lemma PacketPrepares(a: Agent, p: Packet)
    requires Invariant(a)
    ensures var r := OnPacket(a, p);
            Prepares(a, r.agent, r.effects, a.host.packets)
  {
    if a.state.SentInv? {
      hide OnDisconnected, OnSentBye, OnAccepted, OnRejected, OnInCall;
    } else {
      hide OnSentInv;
    }
  }

  lemma TimeoutPrepares(a: Agent)
    requires Invariant(a)
    ensures var r := OnTimeout(a);
            Prepares(a, r.agent, r.effects, a.host.packets)
  {
  }

  lemma ObservedIsRight(a: Agent, e: Event, since: Option<nat>)
    requires Invariant(a) && Knows(a, since)
    ensures Knows(Step(a, e).agent, Observed(a, e, since))
  {
    hide OnPacket, OnTimeout;
    match e
    case Received(p) =>
      NewPacketKeeps(a);
      PacketPrepares(NewPacket(a), p);
    case Timeout => TimeoutPrepares(a);
    case _ =>
  }

  lemma {:induction false} SinceBusyIsRight(a: Agent, events: seq<Event>, since: Option<nat>)
    requires Invariant(a) && Knows(a, since)
    ensures Knows(Run(a, events), SinceBusy(a, events, since))
    decreases |events|
  {
    hide Step, Invariant, Knows, Observed;
    if events != [] {
      StepKeeps(a, events[0]);
      ObservedIsRight(a, events[0], since);
      SinceBusyIsRight(Step(a, events[0]).agent, events[1..], Observed(a, events[0], since));
    }
  }

  // Only packets under the prepared Call-ID can read a freed packet, and those that do.
  predicate ReadsPrepared(a: Agent, b: Agent, effects: seq<Effect>) {
    if SendsPrepared(effects) then
      var p := SentPacket(effects).value;
      && b.host.staleReads == a.host.Read(a.host.prepared).staleReads
      && p.callId == a.sendNumber && p.callIdHost == a.host.Text(a.host.prepared)
      && !a.state.Disconnected?
    else b.host.staleReads == a.host.staleReads
  }

  lemma PacketReads(a: Agent, p: Packet)
    requires Invariant(a)
    ensures var r := OnPacket(a, p);
            ReadsPrepared(a, r.agent, r.effects)
  {
    if a.state.SentInv? {
      hide OnDisconnected, OnSentBye, OnAccepted, OnRejected, OnInCall;
    } else {
      hide OnSentInv;
    }
  }

  lemma TimeoutReads(a: Agent)
    requires Invariant(a)
    ensures var r := OnTimeout(a);
            ReadsPrepared(a, r.agent, r.effects)
  {
  }

  lemma StepReads(a: Agent, e: Event)
    requires Invariant(a)
    ensures var r := Step(a, e);
            ReadsPrepared(if e.Received? then NewPacket(a) else a, r.agent, r.effects)
  {
    hide OnPacket, OnTimeout;
    match e
    case Received(p) =>
      NewPacketKeeps(a);
      PacketReads(NewPacket(a), p);
    case Timeout => TimeoutReads(a);
    case _ =>
  }

  lemma PreparedRead(a: Agent, e: Event, since: Option<nat>)
    requires Invariant(a) && Knows(a, since)
    ensures var r := Step(a, e);
            && (r.agent.host.staleReads != a.host.staleReads
                <==> SendsPrepared(r.effects) && since.Some? && (e.Received? || since.value > 0))
            && (SendsPrepared(r.effects) ==>
                 var p := SentPacket(r.effects).value;
                 && (p.callId == a.callId <==> since.None?)
                 && (since.None? ==> !a.host.pointer.NullHost? && p.callIdHost == a.host.pointer.text))
  {
    StepReads(a, e);
    hide Step;
  }

  /** In every run an ACK, BYE or 603 bears its own call's number and host exactly when no busy reply
      was sent after the call's last INVITE, 200 or 180. Otherwise it bears that reply's number, and
      its host is read from a freed packet exactly when another packet has come in since; nothing
      else ever reads one. */
  lemma WhoseCallId(localHost: string, stale: nat -> string, events: seq<Event>, e: Event)
    ensures var a := Run(Start(localHost, stale), events);
            var since := SinceBusy(Start(localHost, stale), events, None);
            var r := Step(a, e);
            && (r.agent.host.staleReads != a.host.staleReads
                <==> SendsPrepared(r.effects) && since.Some? && (e.Received? || since.value > 0))
            && (SendsPrepared(r.effects) ==>
                 var p := SentPacket(r.effects).value;
                 && (p.callId == a.callId <==> since.None?)
                 && (since.None? ==> !a.host.pointer.NullHost? && p.callIdHost == a.host.pointer.text))
  {
    hide Step, Knows, SinceBusy;
    var start := Start(localHost, stale);
    assert Knows(start, None) by { NothingKnown(localHost, stale); }
    RunKeeps(start, events);
    SinceBusyIsRight(start, events, None);
    PreparedRead(Run(start, events), e, SinceBusy(start, events, None));
  }

  lemma NothingKnown(localHost: string, stale: nat -> string)
    ensures Knows(Start(localHost, stale), None)
  {
  }

  // The agent waits for the answer to one INVITE all along.
  predicate StaysInviting(a: Agent, events: seq<Event>)
    decreases |events|
  {
    a.state.SentInv? && (events == [] || StaysInviting(Step(a, events[0]).agent, events[1..]))
  }

  predicate NoneForeign(events: seq<Event>, id: int) {
    forall i :: 0 <= i < |events| && events[i].Received? ==> events[i].packet.callId == id
  }

  lemma InvitingStep(a: Agent, e: Event)
    requires a.state.SentInv? && Step(a, e).agent.state.SentInv?
    ensures var b := Step(a, e).agent;
            && b.callId == a.callId
            && (b.sendNumber == b.callId
                <==> if e.Received? && e.packet.callId != a.callId then false else a.sendNumber == a.callId)
  {
    hide HostMemory.Read, HostMemory.Text;
  }

  lemma {:induction false} InvitingRun(a: Agent, events: seq<Event>)
    requires StaysInviting(a, events)
    ensures var b := Run(a, events);
            && b.state.SentInv? && b.callId == a.callId
            && (b.sendNumber == b.callId <==> a.sendNumber == a.callId && NoneForeign(events, a.callId))
    decreases |events|
  {
    hide Step;
    if events != [] {
      InvitingStep(a, events[0]);
      InvitingRun(Step(a, events[0]).agent, events[1..]);
      NoneForeignSplits(events, a.callId);
    }
  }

  lemma NoneForeignSplits(events: seq<Event>, id: int)
    requires events != []
    ensures NoneForeign(events, id) <==>
            (events[0].Received? ==> events[0].packet.callId == id) && NoneForeign(events[1..], id)
  {
    assert forall i :: 0 < i < |events| ==> events[i] == events[1..][i - 1];
  }

  /** The ACK of a call bears that call's number exactly when no packet with another number reached
      the caller between its INVITE and the 200. */
  lemma AckBearsItsNumber(a: Agent, newCallId: int, events: seq<Event>, ok: Event)
    requires a.state.Disconnected?
    requires StaysInviting(Step(a, InviteCommand(true, newCallId)).agent, events)
    requires var b := Run(Step(a, InviteCommand(true, newCallId)).agent, events);
             Step(b, ok).agent.state.InCall?
    ensures var b := Run(Step(a, InviteCommand(true, newCallId)).agent, events);
            var sent := SentPacket(Step(b, ok).effects);
            && sent.Some? && sent.value.isRequest && sent.value.request.Ack?
            && (sent.value.callId == newCallId <==> NoneForeign(events, newCallId))
  {
    var a0 := Step(a, InviteCommand(true, newCallId)).agent;
    InvitingRun(a0, events);
    AckIsPrepared(Run(a0, events), ok);
  }

  lemma AckIsPrepared(b: Agent, ok: Event)
    requires b.state.SentInv? && Step(b, ok).agent.state.InCall?
    ensures var sent := SentPacket(Step(b, ok).effects);
            sent.Some? && sent.value.isRequest && sent.value.request.Ack? && sent.value.callId == b.sendNumber
  {
  }

  // ---------------------------------------------------------------- memos

  // The effects of an event dispose of the memo in hand before another is taken, and end with
  // empty hands.
  predicate Balanced(effects: seq<Effect>, holding: bool) {
    if effects == [] then !holding
    else match effects[0]
      case Alloc => !holding && Balanced(effects[1..], true)
      case Drain => Balanced(effects[1..], holding)
      case _ => holding && Balanced(effects[1..], false)
  }

  /** Every event disposes of its memo exactly once; only a parse error drops it. */
  lemma MemosAreDisposedOnce(a: Agent, e: Event)
    ensures Balanced(Step(a, e).effects, !e.Timeout?)
    ensures Drop in Step(a, e).effects <==> e.ParseError?
  {
    var effects := Step(a, e).effects;
    OutcomeShapes(a, e);
    assert |effects| > 1 ==> effects[1..] == [effects[1]];
    assert |effects| > 0 ==> effects[|effects|..] == [];
  }

  // The few shapes the effects of an event take.
  lemma OutcomeShapes(a: Agent, e: Event)
    ensures var effects := Step(a, e).effects;
            if e.Timeout? then
              || effects == []
              || effects == [Drain]
              || (|effects| == 2 && effects[0] == Alloc && effects[1].SendMemo?)
            else if e.ParseError? then effects == [Drop]
            else
              || effects == [Release]
              || effects == [Drain, Release]
              || (|effects| == 1 && effects[0].SendMemo?)
  {
    hide HostMemory.Readable, HostMemory.Read, HostMemory.Text, HostMemory.NewCopy, HostMemory.Free;
  }

  // ---------------------------------------------------------------- draining

  function Timeouts(a: Agent, n: nat): Agent
    decreases n
  {
    if n == 0 then a else Timeouts(OnTimeout(a).agent, n - 1)
  }

  predicate Idle(a: Agent) {
    a.state.Disconnected? && (a.action.Unset? || a.action.NoAction?)
  }

  // How many timeouts are left before the agent is idle.
  function Rank(a: Agent): int {
    match a.action
    case ByeAgain => 7 - a.rptCount
    case SendRing => 7 - a.rptCount
    case Disconn => 1
    case Conn => 1
    case Incoming => 1
    case _ => 0
  }

  lemma TimeoutLowersRank(a: Agent)
    requires Invariant(a) && !a.state.InCall? && Rank(a) > 0
    ensures Rank(OnTimeout(a).agent) == Rank(a) - 1 && !OnTimeout(a).agent.state.InCall?
  {
  }

  lemma RankZeroIsIdle(a: Agent)
    requires Invariant(a) && !a.state.InCall?
    ensures Rank(a) >= 0
    ensures Rank(a) == 0 <==> Idle(a)
    ensures Idle(a) ==> OnTimeout(a).agent == a
  {
  }

  /** With timeouts only, an agent that is not in a call is idle after exactly its rank of them,
      never more than seven, and stays idle; even from Accepted, whose ring action re-enters
      RcvdInv on the way. */
  lemma {:induction false} Draining(a: Agent, n: nat)
    requires Invariant(a) && !a.state.InCall?
    ensures Rank(a) <= 7
    ensures Idle(Timeouts(a, n)) <==> n >= Rank(a)
    decreases n
  {
    hide OnTimeout, HostSafe;
    RankZeroIsIdle(a);
    if n > 0 {
      TimeoutKeeps(a);
      if Rank(a) > 0 {
        TimeoutLowersRank(a);
      }
      Draining(OnTimeout(a).agent, n - 1);
    }
  }

  // A call in progress does not time out.
  lemma {:induction false} CallsDoNotTimeOut(a: Agent, n: nat)
    requires Invariant(a) && a.state.InCall?
    ensures Timeouts(a, n) == a
  {
    if n > 0 {
      CallsDoNotTimeOut(a, n - 1);
    }
  }
}
