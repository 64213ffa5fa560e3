/** What every event does to a call, seen from outside: the reply on the wire, the state entered, and
    what two agents reach together. Response codes are written as the numbers on the wire. */
module CallLaws {
  import opened Options
  import opened UserAgent
  import opened CallRuns

  // ---------------------------------------------------------------- packets by what they say

  predicate IsResponse(p: Packet, code: int) { !p.isRequest && p.response == code }

  // A packet of the agent's own call, by number and by host.
  predicate Own(a: Agent, p: Packet) {
    p.callId == a.callId && !a.host.pointer.NullHost? && p.callIdHost == a.host.pointer.text
  }

  // Nothing happens but the release of the packet's memo.
  ghost predicate Ignored(a: Agent, r: Outcome) {
    r == Outcome(NewPacket(a), [Release])
  }

  // ---------------------------------------------------------------- in a call

  /** A call in progress ends by the user's own command or by a BYE that bears its number, and by
      nothing else. */
  lemma InCallEnds(a: Agent, e: Event)
    requires Invariant(a) && a.state.InCall?
    ensures !Step(a, e).agent.state.InCall? <==>
            || e.ByeCommand?
            || (e.Received? && e.packet.isRequest && e.packet.request.Bye? && e.packet.callId == a.callId)
  {
  }

  /** The peer's BYE is answered by one 200 with the call's own Call-ID; the call is over at once,
      and cleaned up by the next timeout. */
  lemma ByeIsAnswered(a: Agent, bye: Packet)
    requires Invariant(a) && a.state.InCall?
    requires bye.isRequest && bye.request.Bye? && bye.callId == a.callId
    ensures var r := Step(a, Received(bye));
            && a.host.Readable(a.host.pointer)
            && r.effects == [SendMemo(Packet(false, OtherRequest, 200, a.callId, a.host.pointer.text, true))]
            && !r.agent.connected && r.agent.state.Disconnected?
            && !Idle(r.agent) && Idle(OnTimeout(r.agent).agent)
  {
  }

  /** Hanging up sends one BYE under the prepared Call-ID: its own, unless a busy reply borrowed it. */
  lemma HangUpSendsBye(a: Agent)
    requires Invariant(a) && a.state.InCall?
    ensures var r := Step(a, ByeCommand);
            && r.agent.state.SentBye? && !r.agent.connected && r.agent.rptCount == 0
            && r.effects == [SendMemo(Packet(true, Bye, 0, a.sendNumber, a.host.Text(a.host.prepared), false))]
  {
  }

  /** A hang-up whose BYE and 200 are delivered disconnects both ends, exactly when the BYE bears the
      number the other end has; otherwise the other end stays in the call. */
  lemma HangUpEndsBoth(a: Agent, b: Agent)
    requires Invariant(a) && a.state.InCall? && Invariant(b) && b.state.InCall?
    ensures var hungUp := Step(a, ByeCommand);
            var bye := SentPacket(hungUp.effects);
            && bye.Some?
            && var answered := Step(b, Received(bye.value));
               && (answered.agent.state.InCall? <==> a.sendNumber != b.callId)
               && (a.sendNumber == b.callId ==>
                    var ok := SentPacket(answered.effects);
                    && ok.Some? && IsResponse(ok.value, 200)
                    && var ended := Step(hungUp.agent, Received(ok.value));
                       && Idle(ended.agent) && !ended.agent.connected
                       && !answered.agent.connected && Idle(OnTimeout(answered.agent).agent))
  {
    HangUpSendsBye(a);
    StepKeeps(a, ByeCommand);
    var hungUp := Step(a, ByeCommand).agent;
    var bye := Packet(true, Bye, 0, a.sendNumber, a.host.Text(a.host.prepared), false);
    assert SentPacket(Step(a, ByeCommand).effects) == Some(bye);
    InCallEnds(b, Received(bye));
    if a.sendNumber == b.callId {
      ByeIsAnswered(b, bye);
      var ok := Packet(false, OtherRequest, 200, b.callId, b.host.pointer.text, true);
      ByeIsConfirmed(hungUp, ok);
    }
  }

  // ---------------------------------------------------------------- waiting for a BYE's answer

  /** Any 200 completes the disconnection; no other packet does. */
  lemma ByeIsConfirmed(a: Agent, p: Packet)
    requires Invariant(a) && a.state.SentBye?
    ensures var r := Step(a, Received(p));
            if IsResponse(p, 200) then Idle(r.agent) && !r.agent.connected && r.effects == [Drain, Release]
            else r.agent.state.SentBye? && r.agent.action == a.action
                 && (!p.isRequest || p.callId == a.callId ==> Ignored(a, r))
  {
  }

  // ---------------------------------------------------------------- waiting for an INVITE's answer

  /** What each reply to an INVITE does, when it is for this call. */
  lemma InviteIsAnswered(a: Agent, p: Packet)
    requires Invariant(a) && a.state.SentInv? && Own(a, p) && !p.isRequest
    ensures var r := Step(a, Received(p));
            if p.response == 180 then
              r == Outcome(NewPacket(a).(ringing := true, action := Conn), [Release])
            else if p.response == 486 || p.response == 603 then
              && r == Outcome(NewPacket(a).(ringing := false, action := Disconn), [Release])
              && Idle(OnTimeout(r.agent).agent)
            else if p.response == 200 && p.hasAudio then
              && r.agent.state.InCall? && r.agent.connected && !r.agent.ringing
              && r.effects == [SendMemo(Packet(true, Ack, 0, a.sendNumber, NewPacket(a).host.Text(a.host.prepared), false))]
            else Ignored(a, r)
  {
  }

  // A packet of another host under the call's number, or a request under it, is ignored.
  lemma InviteIsNotAnswered(a: Agent, p: Packet)
    requires Invariant(a) && a.state.SentInv? && p.callId == a.callId && (p.isRequest || !Own(a, p))
    ensures Ignored(a, Step(a, Received(p)))
  {
  }

  // ---------------------------------------------------------------- being called

  /** An INVITE with audio makes an idle agent ring, and 180 goes out under its Call-ID. */
  lemma InviteRings(a: Agent, p: Packet)
    requires Invariant(a) && a.state.Disconnected?
    ensures var r := Step(a, Received(p));
            if p.isRequest && p.request.Invite? && p.hasAudio then
              && r.agent.state.RcvdInv? && r.agent.ringing && r.agent.callId == p.callId
              && Own(r.agent, p) && r.agent.host.Readable(r.agent.host.pointer)
              && r.effects == [SendMemo(Packet(false, OtherRequest, 180, p.callId, p.callIdHost, false))]
            else Ignored(a, r)
  {
  }

  /** Accepting sends 200 and rejecting 603, each only while ringing for a call. */
  lemma UserAnswers(a: Agent)
    requires Invariant(a)
    ensures var r := Step(a, AcceptCommand);
            if a.state.RcvdInv? then
              && r.agent.state.Accepted? && !r.agent.ringing
              && r.effects == [SendMemo(Packet(false, OtherRequest, 200, a.callId, a.host.pointer.text, true))]
            else r == Outcome(a, [Release])
    ensures var r := Step(a, RejectCommand);
            if a.state.RcvdInv? then
              && r.agent.state.Rejected? && !r.agent.ringing && Idle(OnTimeout(r.agent).agent)
              && r.effects == [SendMemo(Packet(false, OtherRequest, 603, a.sendNumber, a.host.Text(a.host.prepared), false))]
            else r == Outcome(a, [Release])
  {
  }

  /** The caller's ACK completes an accepted call and only confirms a rejected one. */
  lemma AckArrives(a: Agent, p: Packet)
    requires Invariant(a) && (a.state.Accepted? || a.state.Rejected?)
    ensures var r := Step(a, Received(p));
            && (r.agent.state.InCall? <==> a.state.Accepted? && Own(a, p) && p.isRequest && p.request.Ack?)
            && (r.agent.state.InCall? ==> r.agent.connected && r.agent.action.NoAction? && r.effects == [Release])
            && (!r.agent.state.InCall? ==> r.agent.state == a.state && r.agent.action == a.action)
  {
  }

  // ---------------------------------------------------------------- other calls

  // The states that answer packets of other calls.
  predicate Busy(a: Agent, p: Packet) {
    p.callId != a.callId && !a.state.Disconnected? && (a.state.SentBye? ==> p.isRequest)
  }

  /** A packet of another call is answered 486 with its own Call-ID, in every state of a call; the
      agent goes on as before, but for the Call-ID it has prepared. */
  lemma OtherCallsAreBusy(a: Agent, p: Packet)
    requires Invariant(a) && Busy(a, p)
    ensures var r := Step(a, Received(p));
            && r.effects == [SendMemo(Packet(false, OtherRequest, 486, p.callId, p.callIdHost, false))]
            && r.agent == a.(sendNumber := p.callId, host := r.agent.host)
            && r.agent.host == NewPacket(a).host.(prepared := r.agent.host.prepared)
  {
  }

  // And nothing else is.
  lemma OnlyOtherCallsAreBusy(a: Agent, e: Event)
    requires Invariant(a)
    ensures SentPacket(Step(a, e).effects).Some? && IsResponse(SentPacket(Step(a, e).effects).value, 486)
            <==> e.Received? && Busy(a, e.packet)
  {
    hide HostMemory.Read, HostMemory.Text, HostMemory.NewCopy, HostMemory.Free;
  }

  // ---------------------------------------------------------------- calling

  /** Dialling works exactly when idle or about to be cleaned up, and then sends an INVITE with the
      new number and the local host. */
  lemma Dialling(a: Agent, hasHost: bool, newCallId: int)
    requires Invariant(a)
    ensures var r := Step(a, InviteCommand(hasHost, newCallId));
            if a.state.Disconnected? && hasHost then
              && r.agent.state.SentInv? && r.agent.callId == r.agent.sendNumber == newCallId
              && r.effects == [SendMemo(Packet(true, Invite, 0, newCallId, a.localHost, true))]
              && Idle(OnTimeout(r.agent).agent)
            else r == Outcome(a, [Release])
  {
  }

  /** A call that is dialled, delivered, accepted, and whose 200 and ACK are delivered connects both
      ends under the dialled number. */
  lemma CallConnectsBoth(a: Agent, b: Agent, newCallId: int)
    requires Invariant(a) && a.state.Disconnected? && Invariant(b) && b.state.Disconnected?
    ensures var calling := Step(a, InviteCommand(true, newCallId));
            var invite := SentPacket(calling.effects);
            && invite.Some?
            && var ringing := Step(b, Received(invite.value)).agent;
               var accepted := Step(ringing, AcceptCommand);
               var ok := SentPacket(accepted.effects);
            && ok.Some?
            && var connected := Step(calling.agent, Received(ok.value));
               var ack := SentPacket(connected.effects);
            && ack.Some?
            && var answered := Step(accepted.agent, Received(ack.value)).agent;
            && connected.agent.state.InCall? && connected.agent.connected && connected.agent.callId == newCallId
            && answered.state.InCall? && answered.connected && answered.callId == newCallId
  {
    Dialling(a, true, newCallId);
    StepKeeps(a, InviteCommand(true, newCallId));
    var invite := Packet(true, Invite, 0, newCallId, a.localHost, true);
    InviteRings(b, invite);
    StepKeeps(b, Received(invite));
    var ringing := Step(b, Received(invite)).agent;
    UserAnswers(ringing);
    AcceptKeepsCall(ringing);
    StepKeeps(ringing, AcceptCommand);
    DialledHost(a, newCallId);
    var calling, accepted := Step(a, InviteCommand(true, newCallId)).agent, Step(ringing, AcceptCommand).agent;
    var ok := Packet(false, OtherRequest, 200, newCallId, a.localHost, true);
    var ack := Packet(true, Ack, 0, newCallId, a.localHost, false);
    InviteIsAnswered(calling, ok);
    AckArrives(accepted, ack);
    hide Step;
  }

  lemma DialledHost(a: Agent, newCallId: int)
    requires a.state.Disconnected?
    ensures var b := Step(a, InviteCommand(true, newCallId)).agent;
            b.host.pointer == b.host.prepared == LocalHost(a.localHost)
  {
  }

  lemma AcceptKeepsCall(a: Agent)
    ensures var b := Step(a, AcceptCommand).agent;
            b.callId == a.callId && b.host.pointer == a.host.pointer
  {
  }

  // ---------------------------------------------------------------- the remaining events

  lemma OtherEvents(a: Agent)
    requires Invariant(a)
    ensures Step(a, RespondCommand) == Step(a, UnknownCommand) == Outcome(a, [Release])
    ensures Step(a, ParseError) == Outcome(NewPacket(a), [Drop])
    ensures !a.connected ==> Step(a, ByeCommand) == Outcome(a, [Release])
    ensures a.state.RcvdInv? ==> forall p: Packet :: p.callId == a.callId ==> Ignored(a, Step(a, Received(p)))
  {
  }

  // ---------------------------------------------------------------- repeats

  predicate SendsAgain(a: Agent, p: Packet) {
    OnTimeout(a).effects == [Alloc, SendMemo(p)]
  }

  /** While nothing comes in, a ringing agent repeats its 180 on each timeout until it has counted
      five repeats, and on none later: two more timeouts end the call. */
  lemma {:induction false} RingIsRepeated(a: Agent, k: nat)
    requires Invariant(a) && a.state.RcvdInv? && a.action.SendRing? && a.rptCount + k <= 5
    ensures var b := Timeouts(a, k);
            && b.rptCount == a.rptCount + k && b.state.RcvdInv? && b.action.SendRing? && Invariant(b)
            && b.callId == a.callId && b.host.pointer == a.host.pointer
            && (SendsAgain(b, Packet(false, OtherRequest, 180, a.callId, a.host.pointer.text, false)) <==> a.rptCount + k < 5)
            && (a.rptCount + k == 5 ==> GivesUp(b))
  {
    if k > 0 {
      RingIsRepeated(a, k - 1);
      TimeoutsSplit(a, k - 1);
      TimeoutKeeps(Timeouts(a, k - 1));
    }
  }

  // The next timeout sends nothing and starts the count again; the one after it cleans up.
  predicate GivesUp(a: Agent) {
    var b := OnTimeout(a);
    b.effects == [] && b.agent.rptCount == 0 && OnTimeout(b.agent).effects == [Drain] && Idle(OnTimeout(b.agent).agent)
  }

  lemma {:induction false} TimeoutsSplit(a: Agent, k: nat)
    ensures Timeouts(a, k + 1) == OnTimeout(Timeouts(a, k)).agent
    decreases k
  {
    hide OnTimeout;
    if k > 0 {
      TimeoutsSplit(OnTimeout(a).agent, k - 1);
    }
  }

  /** So is the BYE of an agent that hung up under its own Call-ID, whose count starts at zero. */
  lemma {:induction false} ByeIsRepeated(a: Agent, k: nat)
    requires Invariant(a) && a.state.SentBye? && a.rptCount + k <= 5
    requires !a.host.prepared.InPacket?
    ensures var b := Timeouts(a, k);
            && b.rptCount == a.rptCount + k && b.state.SentBye? && b.action.ByeAgain? && Invariant(b)
            && b.callId == a.callId && b.sendNumber == a.sendNumber
            && b.host.pointer == a.host.pointer && b.host.prepared == a.host.prepared
            && (SendsAgain(b, Packet(true, Bye, 0, a.callId, a.host.pointer.text, false)) <==> a.rptCount + k < 5)
            && (a.rptCount + k == 5 ==> GivesUp(b))
  {
    if k > 0 {
      ByeIsRepeated(a, k - 1);
      TimeoutsSplit(a, k - 1);
      TimeoutKeeps(Timeouts(a, k - 1));
    }
  }

  /** Whenever the queues are drained the agent is idle: in no call, connected to none, with no
      number left and the copy of the host freed. */
  lemma DrainMeansIdle(a: Agent, e: Event)
    requires Invariant(a) && Drain in Step(a, e).effects
    ensures var b := Step(a, e).agent;
            && Idle(b) && !b.connected && !b.ringing && b.callId == 0 && b.sendNumber == 0
            && (b.host.pointer.Copy? ==> b.host.pointer.id !in b.host.live)
  {
  }
}
