/** Two agents and one call between them, over a network that loses, duplicates, delays and
    reorders, with other traffic and other calls going on around it. */
module Consent {
  import opened UserAgent
  import opened CallRuns

  // The caller and the callee of call `id`, every packet either has put on the wire, and what
  // has happened so far: the callee's user accepted this call; the caller reached InCall on it
  // and sent its ACK.
  datatype System = System(caller: Agent, callee: Agent,
                           callerSent: set<Packet>, calleeSent: set<Packet>,
                           accepted: bool, acknowledged: bool)

  function Sent(effects: seq<Effect>): set<Packet> {
    set i | 0 <= i < |effects| && effects[i].SendMemo? :: effects[i].packet
  }

  // The events the caller may see. Its user may place any calls. A packet about call `id` was sent
  // by the callee at some time; anything else may arrive from anyone.
  predicate CallerMay(s: System, id: int, e: Event) {
    match e
    case Received(p) => p.callId == id ==> p in s.calleeSent
    case _ => true
  }

  // The callee's user may also place calls, under other numbers.
  predicate CalleeMay(s: System, id: int, e: Event) {
    match e
    case InviteCommand(_, newCallId) => newCallId != id
    case Received(p) => p.callId == id ==> p in s.callerSent
    case _ => true
  }

  datatype Turn = CallerTurn(e: Event) | CalleeTurn(e: Event)

  predicate May(s: System, id: int, t: Turn) {
    match t
    case CallerTurn(e) => CallerMay(s, id, e)
    case CalleeTurn(e) => CalleeMay(s, id, e)
  }

  predicate InCallOn(a: Agent, id: int) {
    a.state.InCall? && a.callId == id
  }

  function Take(s: System, id: int, t: Turn): System {
    match t
    case CallerTurn(e) =>
      var r := Step(s.caller, e);
      s.(caller := r.agent, callerSent := s.callerSent + Sent(r.effects),
         acknowledged := s.acknowledged ||
           (InCallOn(r.agent, id) && exists p :: p in Sent(r.effects) && p.isRequest && p.request.Ack?))
    case CalleeTurn(e) =>
      var r := Step(s.callee, e);
      s.(callee := r.agent, calleeSent := s.calleeSent + Sent(r.effects),
         accepted := s.accepted || (e.AcceptCommand? && s.callee.state.RcvdInv? && s.callee.callId == id))
  }

  // What reading freed memory finds is up to each agent's heap.
  datatype Party = Party(host: string, stale: nat -> string)

  function Begin(caller: Party, callee: Party): System {
    System(Start(caller.host, caller.stale), Start(callee.host, callee.stale), {}, {}, false, false)
  }

  predicate Possible(s: System, id: int, turns: seq<Turn>)
    decreases |turns|
  {
    turns == [] || (May(s, id, turns[0]) && Possible(Take(s, id, turns[0]), id, turns[1..]))
  }

  function After(s: System, id: int, turns: seq<Turn>): System
    decreases |turns|
  {
    if turns == [] then s else After(Take(s, id, turns[0]), id, turns[1..])
  }

  // The caller enters another call, and so sends that call's ACK, with the number of call `id`
  // prepared.
  predicate Misnumbers(s: System, id: int, t: Turn) {
    && t.CallerTurn? && s.caller.state.SentInv?
    && s.caller.callId != id && s.caller.sendNumber == id
    && Step(s.caller, t.e).agent.state.InCall?
  }

  predicate WellNumbered(s: System, id: int, turns: seq<Turn>)
    decreases |turns|
  {
    turns == [] || (!Misnumbers(s, id, turns[0]) && WellNumbered(Take(s, id, turns[0]), id, turns[1..]))
  }

  // A packet of call `id` finds the caller waiting for the answer to another call: it will be
  // answered busy.
  predicate Disturbs(s: System, id: int, t: Turn) {
    && t.CallerTurn? && t.e.Received? && t.e.packet.callId == id
    && s.caller.state.SentInv? && s.caller.callId != id
  }

  predicate Undisturbed(s: System, id: int, turns: seq<Turn>)
    decreases |turns|
  {
    turns == [] || (!Disturbs(s, id, turns[0]) && Undisturbed(Take(s, id, turns[0]), id, turns[1..]))
  }

  // The caller's user dials only this call.
  predicate DialsOnly(turns: seq<Turn>, id: int) {
    forall i :: 0 <= i < |turns| && turns[i].CallerTurn? && turns[i].e.InviteCommand? ==> turns[i].e.newCallId == id
  }

  // ---------------------------------------------------------------- the invariant

  predicate IsOk(p: Packet, id: int) { !p.isRequest && p.response == OK && p.callId == id }

  predicate IsRequest(p: Packet, request: Request, id: int) { p.isRequest && p.request == request && p.callId == id }

  // The caller never has this call as an incoming one.
  predicate CallerRole(a: Agent, id: int) {
    a.state.RcvdInv? || a.state.Accepted? || a.state.Rejected? ==> a.callId != id
  }

  // The callee never has this call as an outgoing one.
  predicate CalleeRole(a: Agent, id: int) {
    a.state.SentInv? ==> a.callId != id
  }

  predicate Consenting(s: System, id: int) {
    && CallerRole(s.caller, id)
    && CalleeRole(s.callee, id)
    && (forall p :: p in s.calleeSent ==> !IsRequest(p, Invite, id))
    && (forall p :: p in s.calleeSent && IsOk(p, id) ==> s.accepted)
    && (forall p :: p in s.callerSent && IsRequest(p, Ack, id) ==> s.acknowledged)
    && (s.callee.state.Accepted? && s.callee.callId == id ==> s.accepted)
    && (InCallOn(s.caller, id) ==> s.accepted && s.acknowledged)
    && (InCallOn(s.callee, id) ==> s.accepted && s.acknowledged)
    && (s.acknowledged ==> s.accepted)
  }

  // Every packet a step sends, by what it can be.
  lemma SentByStep(a: Agent, e: Event, p: Packet)
    requires p in Sent(Step(a, e).effects)
    ensures p.isRequest && p.request.Invite? ==> e.InviteCommand? && p.callId == e.newCallId
    ensures !p.isRequest && p.response == OK ==>
      && p.callId == a.callId
      && ((a.state.RcvdInv? && e.AcceptCommand?) || a.state.InCall?)
    ensures p.isRequest && p.request.Ack? ==>
      && a.state.SentInv? && e.Received? && IsOk(e.packet, a.callId)
      && InCallOn(Step(a, e).agent, a.callId) && p.callId == a.sendNumber
  {
    OutcomeShapes(a, e);
    hide HostMemory.Readable, HostMemory.Read, HostMemory.Text, HostMemory.NewCopy, HostMemory.Free;
  }

  // How a step can bring an agent into a call.
  lemma EntersCall(a: Agent, e: Event)
    requires Step(a, e).agent.state.InCall? && !a.state.InCall?
    ensures e.Received? && e.packet.callId == a.callId == Step(a, e).agent.callId
    ensures (a.state.SentInv? && IsOk(e.packet, a.callId)) || (a.state.Accepted? && IsRequest(e.packet, Ack, a.callId))
    ensures a.state.SentInv? ==> exists p :: p in Sent(Step(a, e).effects) && p.isRequest && p.request.Ack?
  {
    hide HostMemory.Readable, HostMemory.Read, HostMemory.NewCopy, HostMemory.Free;
    if a.state.SentInv? {
      var effects := Step(a, e).effects;
      assert effects[0].packet in Sent(effects);
    }
  }

  // How a step moves an agent from a to b between the states before a call, and under which number.
  predicate Moves(a: Agent, e: Event, b: Agent) {
    && (b.state.SentInv? ==>
          || (a.state.SentInv? && b.callId == a.callId &&
                (b.sendNumber == a.sendNumber || (e.Received? && b.sendNumber == e.packet.callId)))
          || (e.InviteCommand? && b.callId == b.sendNumber == e.newCallId))
    && (b.state.RcvdInv? || b.state.Accepted? || b.state.Rejected? ==>
          || ((a.state.RcvdInv? || a.state.Accepted? || a.state.Rejected? || a.action.SendRing?) && b.callId == a.callId)
          || (e.Received? && IsRequest(e.packet, Invite, b.callId)))
    && (b.state.Accepted? ==>
          b.callId == a.callId && (a.state.Accepted? || (a.state.RcvdInv? && e.AcceptCommand?)))
    && (b.state.InCall? ==> b.callId == a.callId)
  }

  lemma PacketMoves(a: Agent, p: Packet)
    ensures Moves(a, Received(p), OnPacket(NewPacket(a), p).agent)
  {
    hide HostMemory.Readable, HostMemory.Read, HostMemory.Text, HostMemory.NewCopy, HostMemory.Free;
    if a.state.SentInv? {
      hide OnDisconnected, OnSentBye, OnAccepted, OnRejected, OnInCall;
    } else {
      hide OnSentInv;
    }
  }

  lemma TimeoutMoves(a: Agent)
    ensures Moves(a, Timeout, OnTimeout(a).agent)
  {
    hide HostMemory.Readable, HostMemory.Read, HostMemory.Text, HostMemory.NewCopy, HostMemory.Free;
  }

  lemma Movement(a: Agent, e: Event)
    ensures Moves(a, e, Step(a, e).agent)
  {
    hide HostMemory.Readable, HostMemory.Read, HostMemory.Text, HostMemory.NewCopy, HostMemory.Free, OnPacket, OnTimeout;
    match e
    case Received(p) => PacketMoves(a, p);
    case Timeout => TimeoutMoves(a);
    case _ =>
  }

  lemma CallerStepConsents(s: System, id: int, e: Event)
    requires Consenting(s, id) && Consistent(s.caller) && CallerMay(s, id, e) && !Misnumbers(s, id, CallerTurn(e))
    ensures Consenting(Take(s, id, CallerTurn(e)), id)
  {
    hide Step, Sent;
    var a, r := s.caller, Step(s.caller, e);
    var s' := Take(s, id, CallerTurn(e));
    Movement(a, e);
    if r.agent.state.InCall? && !a.state.InCall? {
      EntersCall(a, e);
    }
    forall p | p in Sent(r.effects) && IsRequest(p, Ack, id)
      ensures s'.acknowledged && s'.accepted
    {
      SentByStep(a, e, p);
    }
  }

  lemma CalleeStepConsents(s: System, id: int, e: Event)
    requires Consenting(s, id) && CalleeMay(s, id, e)
    ensures Consenting(Take(s, id, CalleeTurn(e)), id)
  {
    hide Step, Sent;
    var a, r := s.callee, Step(s.callee, e);
    var s' := Take(s, id, CalleeTurn(e));
    Movement(a, e);
    if r.agent.state.InCall? && !a.state.InCall? {
      EntersCall(a, e);
    }
    forall p | p in Sent(r.effects)
      ensures !IsRequest(p, Invite, id)
      ensures IsOk(p, id) ==> s'.accepted
    {
      SentByStep(a, e, p);
    }
  }

  predicate Good(s: System, id: int) {
    Consenting(s, id) && Invariant(s.caller) && Invariant(s.callee)
  }

  lemma {:induction false} AlwaysGood(s: System, id: int, turns: seq<Turn>)
    requires Good(s, id) && Possible(s, id, turns) && WellNumbered(s, id, turns)
    ensures Good(After(s, id, turns), id)
    decreases |turns|
  {
    hide Consenting, Invariant, Step, Sent, Misnumbers;
    if turns != [] {
      match turns[0] {
        case CallerTurn(e) =>
          StepKeeps(s.caller, e);
          assert Consistent(s.caller) by { InvariantIsConsistent(s.caller); }
          CallerStepConsents(s, id, e);
        case CalleeTurn(e) =>
          StepKeeps(s.callee, e);
          CalleeStepConsents(s, id, e);
      }
      AlwaysGood(Take(s, id, turns[0]), id, turns[1..]);
    }
  }

  lemma InvariantIsConsistent(a: Agent)
    requires Invariant(a)
    ensures Consistent(a)
  {
  }

  /** Consent, among any number of calls. In every run where the caller never enters another call
      under this call's number: the caller is connected on this call only if the callee's user
      accepted it, and the callee is connected on it only if the caller has already been in the
      call and sent its ACK. */
  lemma ConsentAmongCalls(caller: Party, callee: Party, id: int, turns: seq<Turn>)
    requires Possible(Begin(caller, callee), id, turns) && WellNumbered(Begin(caller, callee), id, turns)
    ensures var s := After(Begin(caller, callee), id, turns);
            && (s.caller.connected && s.caller.callId == id ==> s.accepted)
            && (s.callee.connected && s.callee.callId == id ==> s.accepted && s.acknowledged)
  {
    hide Step, Take, May, Misnumbers;
    AlwaysGood(Begin(caller, callee), id, turns);
  }

  /** Conversely, from any state: entering another call under this call's number puts an ACK of this
      call on the wire and acknowledges nothing. */
  lemma MisnumberedAckIsSent(s: System, id: int, e: Event)
    requires Misnumbers(s, id, CallerTurn(e))
    ensures var s' := Take(s, id, CallerTurn(e));
            && (exists ack :: ack in s'.callerSent && IsRequest(ack, Ack, id))
            && s'.acknowledged == s.acknowledged
  {
    AckIsPrepared(s.caller, e);
    Movement(s.caller, e);
    var effects := Step(s.caller, e).effects;
    var ack := SentPacket(effects).value;
    hide Step;
    assert effects[|effects| - 1].packet == ack;
    assert ack in Sent(effects) && IsRequest(ack, Ack, id);
    assert ack in Take(s, id, CallerTurn(e)).callerSent;
  }

  /** A callee that has accepted this call may then receive that ACK, and while nothing is
      acknowledged is connected without acknowledgement exactly when the ACK's host is its own
      call's. */
  lemma UnacknowledgedAckConnects(s: System, id: int, ack: Packet)
    requires ack in s.callerSent && IsRequest(ack, Ack, id) && !s.acknowledged
    requires Invariant(s.callee) && s.callee.state.Accepted? && s.callee.callId == id
    ensures var t := CalleeTurn(Received(ack));
            var s' := Take(s, id, t);
            && May(s, id, t) && !s'.acknowledged
            && !s.callee.host.pointer.NullHost?
            && (s'.callee.connected && s'.callee.callId == id <==> ack.callIdHost == s.callee.host.pointer.text)
  {
    hide Sent, OnDisconnected, OnSentInv, OnSentBye, OnRejected, OnInCall, OnTimeout;
  }

  // A caller whom no packet of this call disturbs never prepares its number for another.
  lemma {:induction false} UndisturbedIsWellNumbered(s: System, id: int, turns: seq<Turn>)
    requires Undisturbed(s, id, turns)
    requires s.caller.state.SentInv? && s.caller.callId != id ==> s.caller.sendNumber != id
    ensures WellNumbered(s, id, turns)
    decreases |turns|
  {
    hide Step, Sent;
    if turns != [] {
      if turns[0].CallerTurn? {
        Movement(s.caller, turns[0].e);
      }
      UndisturbedIsWellNumbered(Take(s, id, turns[0]), id, turns[1..]);
    }
  }

  /** So consent holds in every run where no packet of this call reaches the caller while it waits
      for the answer to another. */
  lemma ConsentUndisturbed(caller: Party, callee: Party, id: int, turns: seq<Turn>)
    requires Possible(Begin(caller, callee), id, turns) && Undisturbed(Begin(caller, callee), id, turns)
    ensures var s := After(Begin(caller, callee), id, turns);
            && (s.caller.connected && s.caller.callId == id ==> s.accepted)
            && (s.callee.connected && s.callee.callId == id ==> s.accepted && s.acknowledged)
  {
    hide Possible, After, Undisturbed, WellNumbered;
    UndisturbedIsWellNumbered(Begin(caller, callee), id, turns);
    ConsentAmongCalls(caller, callee, id, turns);
  }

  // A caller that dials only this call never waits for another.
  lemma {:induction false} OneCallIsUndisturbed(s: System, id: int, turns: seq<Turn>)
    requires DialsOnly(turns, id) && (s.caller.state.SentInv? ==> s.caller.callId == id)
    ensures Undisturbed(s, id, turns)
    decreases |turns|
  {
    hide Step, Sent;
    if turns != [] {
      if turns[0].CallerTurn? {
        Movement(s.caller, turns[0].e);
      }
      assert forall i :: 0 < i < |turns| ==> turns[i] == turns[1..][i - 1];
      OneCallIsUndisturbed(Take(s, id, turns[0]), id, turns[1..]);
    }
  }

  /** And in every run where the caller's user dials only this call. */
  lemma ConsentHolds(caller: Party, callee: Party, id: int, turns: seq<Turn>)
    requires Possible(Begin(caller, callee), id, turns) && DialsOnly(turns, id)
    ensures var s := After(Begin(caller, callee), id, turns);
            && (s.caller.connected && s.caller.callId == id ==> s.accepted)
            && (s.callee.connected && s.callee.callId == id ==> s.accepted && s.acknowledged)
  {
    hide Possible, After, Undisturbed, DialsOnly;
    OneCallIsUndisturbed(Begin(caller, callee), id, turns);
    ConsentUndisturbed(caller, callee, id, turns);
  }
}
