/** Why consent is promised only while the caller never enters another call under this call's number: a
    run of two calls in which it does, and consent fails. */
module ConsentLimits {
  import opened UserAgent
  import opened Consent

  // The packets of the two calls; near is the caller. The ACK's host is read from a freed packet.
  function Inv(near: Party, id: int): Packet { RequestPacket(Invite, CallId(id, near.host), true) }
  function Ring1(near: Party): Packet { ResponsePacket(RING, CallId(1, near.host), false) }
  function Ok2(near: Party): Packet { ResponsePacket(OK, CallId(2, near.host), true) }
  function Ack1(near: Party): Packet { RequestPacket(Ack, CallId(1, near.stale(0)), false) }

  // The caller dials call 1, gives up, and dials call 2. The callee accepts call 2, lets it ring
  // on, turns it down after all, and accepts a late copy of call 1. A late ringing for call 1
  // makes the caller answer busy, and the ACK of call 2 then goes out under number 1.
  function TurnAt(near: Party, k: nat): Turn {
    match k
    case 0 => CallerTurn(InviteCommand(true, 1))
    case 1 => CalleeTurn(Received(Inv(near, 1)))
    case 2 => CalleeTurn(RejectCommand)
    case 3 => CalleeTurn(Timeout)
    case 4 => CallerTurn(Timeout)
    case 5 => CallerTurn(InviteCommand(true, 2))
    case 6 => CalleeTurn(Received(Inv(near, 2)))
    case 7 => CalleeTurn(AcceptCommand)
    case 8 => CalleeTurn(Timeout)
    case 9 => CalleeTurn(RejectCommand)
    case 10 => CalleeTurn(Timeout)
    case 11 => CalleeTurn(Received(Inv(near, 1)))
    case 12 => CalleeTurn(AcceptCommand)
    case 13 => CallerTurn(Received(Ring1(near)))
    case 14 => CallerTurn(Received(Ok2(near)))
    case _ => CalleeTurn(Received(Ack1(near)))
  }

  function TurnsFrom(near: Party, k: nat): seq<Turn>
    decreases 16 - k
  {
    if k >= 16 then [] else [TurnAt(near, k)] + TurnsFrom(near, k + 1)
  }

  function TwoCalls(near: Party): seq<Turn> { TurnsFrom(near, 0) }

  // The two agents after each of their own turns.
  function CallerAt(near: Party, k: nat): Agent {
    var h := LocalHost(near.host);
    var heap := HostMemory(h, h, {}, 0, 0, false, 0, near.stale);
    var lent := heap.(prepared := InPacket(1, near.host), packets := 1);
    match k
    case 0 => Start(near.host, near.stale)
    case 1 => Agent(SentInv, Conn, 0, 1, heap, 1, false, false, near.host)
    case 2 => Agent(Disconnected, NoAction, 0, 0, heap, 0, false, false, near.host)
    case 3 => Agent(SentInv, Conn, 0, 2, heap, 2, false, false, near.host)
    case 4 => Agent(SentInv, Conn, 0, 2, lent, 1, false, false, near.host)
    case _ => Agent(InCall, NoAction, 0, 2, lent.(packets := 2, staleReads := 1), 1, true, false, near.host)
  }

  // The callee's heap with its n-th copy in use.
  function CopyInUse(near: Party, far: Party, n: nat, packets: nat): HostMemory {
    var h := Copy(n, near.host);
    HostMemory(h, h, {n}, n + 1, packets, false, 0, far.stale)
  }

  function CalleeAt(near: Party, far: Party, k: nat): Agent {
    var heap1, heap2 := CopyInUse(near, far, 0, 1), CopyInUse(near, far, 1, 2);
    var heap3 := CopyInUse(near, far, 2, 3);
    match k
    case 0 => Start(far.host, far.stale)
    case 1 => Agent(RcvdInv, SendRing, 0, 1, heap1, 1, false, true, far.host)
    case 2 => Agent(Rejected, Disconn, 0, 1, heap1, 1, false, false, far.host)
    case 3 => Agent(Disconnected, NoAction, 0, 0, heap1.(live := {}), 0, false, false, far.host)
    case 4 => Agent(RcvdInv, SendRing, 0, 2, heap2, 2, false, true, far.host)
    case 5 => Agent(Accepted, SendRing, 0, 2, heap2, 2, false, false, far.host)
    case 6 => Agent(RcvdInv, SendRing, 1, 2, heap2, 2, false, true, far.host)
    case 7 => Agent(Rejected, Disconn, 1, 2, heap2, 2, false, false, far.host)
    case 8 => Agent(Disconnected, NoAction, 1, 0, heap2.(live := {}), 0, false, false, far.host)
    case 9 => Agent(RcvdInv, SendRing, 1, 1, heap3, 1, false, true, far.host)
    case 10 => Agent(Accepted, SendRing, 1, 1, heap3, 1, false, false, far.host)
    case _ =>
      if near.stale(0) == near.host
      then Agent(InCall, NoAction, 1, 1, heap3.(packets := 4), 1, true, false, far.host)
      else Agent(Accepted, SendRing, 1, 1, heap3.(packets := 4), 1, false, false, far.host)
  }

  lemma SentFirst(effects: seq<Effect>, p: Packet)
    requires |effects| > 0 && effects[0] == SendMemo(p)
    ensures p in Sent(effects)
  {
    assert effects[0].packet == p;
  }

  lemma CallerTurns(near: Party)
    ensures Step(CallerAt(near, 0), InviteCommand(true, 1)).agent == CallerAt(near, 1)
    ensures Inv(near, 1) in Sent(Step(CallerAt(near, 0), InviteCommand(true, 1)).effects)
    ensures Step(CallerAt(near, 1), Timeout).agent == CallerAt(near, 2)
    ensures Step(CallerAt(near, 2), InviteCommand(true, 2)).agent == CallerAt(near, 3)
    ensures Inv(near, 2) in Sent(Step(CallerAt(near, 2), InviteCommand(true, 2)).effects)
  {
    SentFirst(Step(CallerAt(near, 0), InviteCommand(true, 1)).effects, Inv(near, 1));
    SentFirst(Step(CallerAt(near, 2), InviteCommand(true, 2)).effects, Inv(near, 2));
  }

  lemma CallerTurnsInSecondCall(near: Party)
    ensures Step(CallerAt(near, 3), Received(Ring1(near))).agent == CallerAt(near, 4)
    ensures Step(CallerAt(near, 4), Received(Ok2(near))).agent == CallerAt(near, 5)
    ensures Ack1(near) in Sent(Step(CallerAt(near, 4), Received(Ok2(near))).effects)
  {
    SentFirst(Step(CallerAt(near, 4), Received(Ok2(near))).effects, Ack1(near));
  }

  lemma CalleeTurnsToFirstCall(near: Party, far: Party)
    ensures Step(CalleeAt(near, far, 0), Received(Inv(near, 1))).agent == CalleeAt(near, far, 1)
    ensures Ring1(near) in Sent(Step(CalleeAt(near, far, 0), Received(Inv(near, 1))).effects)
    ensures Step(CalleeAt(near, far, 1), RejectCommand).agent == CalleeAt(near, far, 2)
    ensures Step(CalleeAt(near, far, 2), Timeout).agent == CalleeAt(near, far, 3)
  {
    SentFirst(Step(CalleeAt(near, far, 0), Received(Inv(near, 1))).effects, Ring1(near));
  }

  lemma CalleeTurnsInSecondCall(near: Party, far: Party)
    ensures Step(CalleeAt(near, far, 3), Received(Inv(near, 2))).agent == CalleeAt(near, far, 4)
    ensures Step(CalleeAt(near, far, 4), AcceptCommand).agent == CalleeAt(near, far, 5)
    ensures Ok2(near) in Sent(Step(CalleeAt(near, far, 4), AcceptCommand).effects)
  {
    SentFirst(Step(CalleeAt(near, far, 4), AcceptCommand).effects, Ok2(near));
  }

  lemma CalleeTurnsOutOfSecondCall(near: Party, far: Party)
    ensures Step(CalleeAt(near, far, 5), Timeout).agent == CalleeAt(near, far, 6)
    ensures Step(CalleeAt(near, far, 6), RejectCommand).agent == CalleeAt(near, far, 7)
    ensures Step(CalleeAt(near, far, 7), Timeout).agent == CalleeAt(near, far, 8)
  {
  }

  lemma CalleeTurnsBackInFirstCall(near: Party, far: Party)
    ensures Step(CalleeAt(near, far, 8), Received(Inv(near, 1))).agent == CalleeAt(near, far, 9)
    ensures Step(CalleeAt(near, far, 9), AcceptCommand).agent == CalleeAt(near, far, 10)
    ensures Step(CalleeAt(near, far, 10), Received(Ack1(near))).agent == CalleeAt(near, far, 11)
  {
  }

  lemma CallerGoes(s: System, id: int, near: Party, k: nat) returns (s': System)
    requires k < 16 && TurnAt(near, k).CallerTurn? && CallerMay(s, id, TurnAt(near, k).e)
    ensures After(s, id, TurnsFrom(near, k)) == After(s', id, TurnsFrom(near, k + 1))
    ensures Possible(s, id, TurnsFrom(near, k)) == Possible(s', id, TurnsFrom(near, k + 1))
    ensures s'.caller == Step(s.caller, TurnAt(near, k).e).agent && s'.callee == s.callee
    ensures s'.callerSent == s.callerSent + Sent(Step(s.caller, TurnAt(near, k).e).effects)
    ensures s'.calleeSent == s.calleeSent
    ensures s'.acknowledged ==> s.acknowledged || InCallOn(s'.caller, id)
  {
    hide Step, Sent, CallerMay, TurnAt;
    assert TurnsFrom(near, k)[1..] == TurnsFrom(near, k + 1);
    s' := Take(s, id, TurnAt(near, k));
  }

  lemma CalleeGoes(s: System, id: int, near: Party, k: nat) returns (s': System)
    requires k < 16 && TurnAt(near, k).CalleeTurn? && CalleeMay(s, id, TurnAt(near, k).e)
    ensures After(s, id, TurnsFrom(near, k)) == After(s', id, TurnsFrom(near, k + 1))
    ensures Possible(s, id, TurnsFrom(near, k)) == Possible(s', id, TurnsFrom(near, k + 1))
    ensures s'.callee == Step(s.callee, TurnAt(near, k).e).agent && s'.caller == s.caller
    ensures s'.calleeSent == s.calleeSent + Sent(Step(s.callee, TurnAt(near, k).e).effects)
    ensures s'.callerSent == s.callerSent && s'.acknowledged == s.acknowledged
  {
    hide Step, Sent, CalleeMay, TurnAt;
    assert TurnsFrom(near, k)[1..] == TurnsFrom(near, k + 1);
    s' := Take(s, id, TurnAt(near, k));
  }

  /** One late packet of call 1 in the wrong moment is enough, with every packet of both calls
      really sent: the callee ends connected on call 1, in which the caller never was, exactly when
      the freed packet still reads as the caller's host. */
  lemma SecondCallBreaksConsent(near: Party, far: Party)
    ensures forall id | id == 1 || id == 2 :: Possible(Begin(near, far), id, TwoCalls(near))
    ensures var s := After(Begin(near, far), 1, TwoCalls(near));
            && s.callee.callId == 1 && !s.acknowledged
            && (s.callee.connected <==> near.stale(0) == near.host)
  {
    TwoCallsRun(near, far, 2);
    TwoCallsRun(near, far, 1);
  }

  lemma UntilSecondCallAccepted(near: Party, far: Party, id: int) returns (s: System)
    requires id == 1 || id == 2
    ensures var start := Begin(near, far);
            && Possible(start, id, TwoCalls(near)) == Possible(s, id, TurnsFrom(near, 8))
            && After(start, id, TwoCalls(near)) == After(s, id, TurnsFrom(near, 8))
    ensures s.caller == CallerAt(near, 3) && s.callee == CalleeAt(near, far, 5) && !s.acknowledged
    ensures Inv(near, 1) in s.callerSent && Ring1(near) in s.calleeSent && Ok2(near) in s.calleeSent
  {
    hide Step, Sent, After, Possible, CallerAt, CalleeAt, TurnsFrom;
    CallerTurns(near);
    CalleeTurnsToFirstCall(near, far);
    CalleeTurnsInSecondCall(near, far);
    TwoCallsEnds(near, far);
    s := Begin(near, far);
    s := CallerGoes(s, id, near, 0);
    s := CalleeGoes(s, id, near, 1);
    s := CalleeGoes(s, id, near, 2);
    s := CalleeGoes(s, id, near, 3);
    s := CallerGoes(s, id, near, 4);
    s := CallerGoes(s, id, near, 5);
    s := CalleeGoes(s, id, near, 6);
    s := CalleeGoes(s, id, near, 7);
  }

  lemma UntilFirstCallAccepted(near: Party, far: Party, id: int) returns (s: System)
    requires id == 1 || id == 2
    ensures var start := Begin(near, far);
            && Possible(start, id, TwoCalls(near)) == Possible(s, id, TurnsFrom(near, 13))
            && After(start, id, TwoCalls(near)) == After(s, id, TurnsFrom(near, 13))
    ensures s.caller == CallerAt(near, 3) && s.callee == CalleeAt(near, far, 10) && !s.acknowledged
    ensures Ring1(near) in s.calleeSent && Ok2(near) in s.calleeSent
  {
    hide Step, Sent, After, Possible, CallerAt, CalleeAt, TurnsFrom, TwoCalls;
    CalleeTurnsOutOfSecondCall(near, far);
    CalleeTurnsBackInFirstCall(near, far);
    s := UntilSecondCallAccepted(near, far, id);
    s := CalleeGoes(s, id, near, 8);
    s := CalleeGoes(s, id, near, 9);
    s := CalleeGoes(s, id, near, 10);
    s := CalleeGoes(s, id, near, 11);
    s := CalleeGoes(s, id, near, 12);
  }

  lemma TwoCallsRun(near: Party, far: Party, id: int)
    requires id == 1 || id == 2
    ensures var start := Begin(near, far);
            && Possible(start, id, TwoCalls(near))
            && After(start, id, TwoCalls(near)).callee == CalleeAt(near, far, 11)
            && (id == 1 ==> !After(start, id, TwoCalls(near)).acknowledged)
    ensures CalleeAt(near, far, 11).callId == 1
    ensures CalleeAt(near, far, 11).connected <==> near.stale(0) == near.host
  {
    hide Step, Sent, After, Possible, CallerAt, TurnsFrom, TwoCalls;
    CallerTurnsInSecondCall(near);
    CalleeTurnsBackInFirstCall(near, far);
    TwoCallsEnds(near, far);
    var s := UntilFirstCallAccepted(near, far, id);
    s := CallerGoes(s, id, near, 13);
    s := CallerGoes(s, id, near, 14);
    s := CalleeGoes(s, id, near, 15);
    EmptyRun(s, id);
  }

  lemma TwoCallsEnds(near: Party, far: Party)
    ensures TurnsFrom(near, 16) == []
    ensures CallerAt(near, 0) == Start(near.host, near.stale) && CalleeAt(near, far, 0) == Start(far.host, far.stale)
    ensures CallerAt(near, 5).callId == 2 && forall k :: 0 <= k < 5 ==> !CallerAt(near, k).state.InCall?
  {
  }

  lemma EmptyRun(s: System, id: int)
    ensures Possible(s, id, []) && After(s, id, []) == s
  {
  }
}
