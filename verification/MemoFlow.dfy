/** Memo ownership across all threads: two pools, four queues, and what each thread holds between
    its steps. Every interleaving of the steps of src/UdpRW.cpp, src/UserAgent.cpp,
    src/AdpcmCodec.cpp, src/AudioRW.cpp and the console of src/VivaVoce.cpp is a run. */
module MemoFlow {
  import opened Memos
  import opened UserAgent
  import opened CallRuns

  // A memo by identity, whether its buffer is SIP-sized, and its code.
  datatype Item = Item(id: nat, sip: bool, code: MemoCode)

  // Where a memo can be. A thread's hand is a place; Dropped holds what a SIP parse error leaves
  // behind, and Lost what a switch without a matching case would leave behind.
  datatype Place =
    | AudioPool | SipPool
    | SendQ | CodecQ | PlayQ | SignalQ
    | ConsoleSip | ConsoleAudio | ReaderHand | WriterHand | AgentHand | DrainHand
    | CodecHand | AudioInHand | AudioOutHand
    | Dropped | Lost

  const PLACES: seq<Place> :=
    [AudioPool, SipPool, SendQ, CodecQ, PlayQ, SignalQ,
     ConsoleSip, ConsoleAudio, ReaderHand, WriterHand, AgentHand, DrainHand,
     CodecHand, AudioInHand, AudioOutHand, Dropped, Lost]

  type Layout = map<Place, seq<Item>>

  function At(at: Layout, p: Place): seq<Item> {
    if p in at then at[p] else []
  }

  datatype System = System(
    at: Layout,
    audioTotal: int,      // total of each pool
    sipTotal: int,
    live: set<nat>,       // memos created and not deleted
    agent: Agent,
    todo: seq<Effect>)    // what the agent thread still has to do for the event in progress

  // ---------------------------------------------------------------- moves

  // The front of p goes to the back of q, perhaps under a new code.
  function Move(at: Layout, p: Place, q: Place, code: MemoCode): Layout
    requires At(at, p) != []
  {
    var x := At(at, p)[0];
    var taken := at[p := At(at, p)[1..]];
    taken[q := At(taken, q) + [x.(code := code)]]
  }

  function Keep(at: Layout, p: Place, q: Place): Layout
    requires At(at, p) != []
  {
    Move(at, p, q, At(at, p)[0].code)
  }

  function MoveIn(s: System, p: Place, q: Place, code: MemoCode): System
    requires At(s.at, p) != []
  {
    s.(at := Move(s.at, p, q, code))
  }

  // allocMemo: the front of the pool, or a new memo counted in its total.
  function AllocIn(s: System, pool: Place, hand: Place, code: MemoCode, id: nat): System
    requires pool.AudioPool? || pool.SipPool?
  {
    if At(s.at, pool) != [] then MoveIn(s, pool, hand, code)
    else
      var t := s.(at := s.at[hand := At(s.at, hand) + [Item(id, pool.SipPool?, code)]], live := s.live + {id});
      if pool.SipPool? then t.(sipTotal := t.sipTotal + 1) else t.(audioTotal := t.audioTotal + 1)
  }

  // One turn of downsize's loop: the front memo is freed.
  function DeleteFrom(s: System, pool: Place): System
    requires (pool.AudioPool? || pool.SipPool?) && At(s.at, pool) != []
  {
    var t := s.(at := s.at[pool := At(s.at, pool)[1..]], live := s.live - {At(s.at, pool)[0].id});
    if pool.SipPool? then t.(sipTotal := t.sipTotal - 1) else t.(audioTotal := t.audioTotal - 1)
  }

  // ---------------------------------------------------------------- the steps of the threads

  datatype Step =
    // the console takes a memo for a command and posts it
    | ConsoleTakeSip(code: MemoCode, id: nat) | ConsolePostSip
    | ConsoleTakeAudio(id: nat) | ConsolePostAudio(queue: Place)
    // UdpReader: a SIP datagram, or an RTP packet, whatever the connected flag says by then
    | ReaderTakeSip(id: nat) | ReaderPostSip | ReaderFailSip
    | ReaderTakeRtp(id: nat) | ReaderPostRtp
    // UdpWriter: one memo of sendQ, or one turn of downsize
    | WriterTake | WriterDone | WriterDownsize(pool: Place)
    // UserAgent: an event, a timeout, and the effects of either
    | AgentTake(e: Event) | AgentTimeout | AgentDo(id: nat)
    | DrainTake(queue: Place) | DrainPut | DrainDone
    // AdpcmCodec
    | CodecTake | CodecDone
    // AudioReader and AudioWriter
    | AudioInTake(id: nat) | AudioInPost | AudioOutTake | AudioOutDone

  // The events a memo of signalQ can carry, by its code.
  predicate Carries(code: MemoCode, e: Event) {
    match code
    case SipInvite => e.InviteCommand?
    case SipBye => e.ByeCommand?
    case SipAccept => e.AcceptCommand?
    case SipReject => e.RejectCommand?
    case SipRcvd => e.Received? || e.ParseError?
    case Respond => e.RespondCommand?
    case _ => e.UnknownCommand?
  }

  predicate Fresh(s: System, id: nat) { id !in s.live }

  predicate Has(s: System, p: Place) { At(s.at, p) != [] }

  predicate May(s: System, step: Step) {
    match step
    case ConsoleTakeSip(code, id) =>
      && !Has(s, ConsoleSip) && Fresh(s, id)
      && (code.SipInvite? || code.SipBye? || code.SipAccept? || code.SipReject? || code.Respond?)
    case ConsolePostSip => Has(s, ConsoleSip)
    case ConsoleTakeAudio(id) => !Has(s, ConsoleAudio) && Fresh(s, id)
    case ConsolePostAudio(queue) => Has(s, ConsoleAudio) && (queue.SendQ? || queue.CodecQ? || queue.PlayQ?)
    case ReaderTakeSip(id) => !Has(s, ReaderHand) && Fresh(s, id)
    case ReaderPostSip => Has(s, ReaderHand) && At(s.at, ReaderHand)[0].code.SipRcvd?
    case ReaderFailSip => Has(s, ReaderHand) && At(s.at, ReaderHand)[0].code.SipRcvd?
    case ReaderTakeRtp(id) => !Has(s, ReaderHand) && Fresh(s, id)
    case ReaderPostRtp => Has(s, ReaderHand) && At(s.at, ReaderHand)[0].code.Dec?
    case WriterTake => !Has(s, WriterHand) && Has(s, SendQ)
    case WriterDone => Has(s, WriterHand)
    case WriterDownsize(pool) => !Has(s, WriterHand) && (pool.AudioPool? || pool.SipPool?) && Has(s, pool)
    case AgentTake(e) => s.todo == [] && Has(s, SignalQ) && Carries(At(s.at, SignalQ)[0].code, e)
    case AgentTimeout => s.todo == []
    case AgentDo(id) => s.todo != [] && !s.todo[0].Drain? && !Has(s, DrainHand) && Fresh(s, id)
    case DrainTake(queue) =>
      && s.todo != [] && s.todo[0].Drain? && !Has(s, DrainHand)
      && (queue.SendQ? || queue.CodecQ? || queue.PlayQ?) && Has(s, queue)
    case DrainPut => Has(s, DrainHand)
    case DrainDone => s.todo != [] && s.todo[0].Drain? && !Has(s, DrainHand)
    case CodecTake => !Has(s, CodecHand) && Has(s, CodecQ)
    case CodecDone => Has(s, CodecHand)
    case AudioInTake(id) => !Has(s, AudioInHand) && Fresh(s, id)
    case AudioInPost => Has(s, AudioInHand)
    case AudioOutTake => !Has(s, AudioOutHand) && Has(s, PlayQ)
    case AudioOutDone => Has(s, AudioOutHand)
  }

  // Where UdpWriter puts a memo it has sent, by its code.
  function WriterPlace(code: MemoCode): Place {
    match code
    case SipSend => SipPool
    case Send => AudioPool
    case Report => AudioPool
    case Respond => AudioPool
    case _ => Lost
  }

  function CodecPlace(code: MemoCode): Place {
    match code
    case Enc => SendQ
    case Dec => PlayQ
    case Respond => AudioPool
    case _ => Lost
  }

  function CodecCode(code: MemoCode): MemoCode {
    match code
    case Enc => Send
    case Dec => Play
    case _ => code
  }

  // The agent's next effect. Balanced says it holds a memo exactly when the effect needs one.
  function AgentEffect(s: System, id: nat): System
    requires s.todo != [] && !s.todo[0].Drain?
    requires s.todo[0].Alloc? || Has(s, AgentHand)
  {
    var t :=
      if s.todo[0].Release? then s.(at := Keep(s.at, AgentHand, SipPool))
      else if s.todo[0].SendMemo? then MoveIn(s, AgentHand, SendQ, SipSend)
      else if s.todo[0].Drop? then s.(at := Keep(s.at, AgentHand, Dropped))
      else AllocIn(s, SipPool, AgentHand, Other, id);
    t.(todo := s.todo[1..])
  }

  predicate AgentReady(s: System) {
    s.todo != [] && !s.todo[0].Drain? && !s.todo[0].Alloc? ==> Has(s, AgentHand)
  }

  function Do(s: System, step: Step): System
    requires May(s, step) && AgentReady(s)
  {
    match step
    case ConsoleTakeSip(code, id) => AllocIn(s, SipPool, ConsoleSip, code, id)
    case ConsolePostSip => s.(at := Keep(s.at, ConsoleSip, SignalQ))
    case ConsoleTakeAudio(id) => AllocIn(s, AudioPool, ConsoleAudio, Respond, id)
    case ConsolePostAudio(queue) => s.(at := Keep(s.at, ConsoleAudio, queue))
    case ReaderTakeSip(id) => AllocIn(s, SipPool, ReaderHand, SipRcvd, id)
    case ReaderPostSip => s.(at := Keep(s.at, ReaderHand, SignalQ))
    case ReaderFailSip => s.(at := Keep(s.at, ReaderHand, SipPool))
    case ReaderTakeRtp(id) => AllocIn(s, AudioPool, ReaderHand, Dec, id)
    case ReaderPostRtp => s.(at := Keep(s.at, ReaderHand, CodecQ))
    case WriterTake => s.(at := Keep(s.at, SendQ, WriterHand))
    case WriterDone => s.(at := Keep(s.at, WriterHand, WriterPlace(At(s.at, WriterHand)[0].code)))
    case WriterDownsize(pool) => DeleteFrom(s, pool)
    case AgentTake(e) =>
      var r := UserAgent.Step(s.agent, e);
      s.(at := Keep(s.at, SignalQ, AgentHand), agent := r.agent, todo := r.effects)
    case AgentTimeout =>
      var r := UserAgent.Step(s.agent, Timeout);
      s.(agent := r.agent, todo := r.effects)
    case AgentDo(id) => AgentEffect(s, id)
    case DrainTake(queue) => s.(at := Keep(s.at, queue, DrainHand))
    case DrainPut => s.(at := Keep(s.at, DrainHand, AudioPool))
    case DrainDone => s.(todo := s.todo[1..])
    case CodecTake => s.(at := Keep(s.at, CodecQ, CodecHand))
    case CodecDone =>
      var code := At(s.at, CodecHand)[0].code;
      MoveIn(s, CodecHand, CodecPlace(code), CodecCode(code))
    case AudioInTake(id) => AllocIn(s, AudioPool, AudioInHand, Enc, id)
    case AudioInPost => s.(at := Keep(s.at, AudioInHand, CodecQ))
    case AudioOutTake => s.(at := Keep(s.at, PlayQ, AudioOutHand))
    case AudioOutDone => s.(at := Keep(s.at, AudioOutHand, AudioPool))
  }

  // ---------------------------------------------------------------- counting memos

  function Count(items: seq<Item>, id: nat): nat {
    if items == [] then 0 else (if items[0].id == id then 1 else 0) + Count(items[1..], id)
  }

  function CountIn(at: Layout, places: seq<Place>, id: nat): nat {
    if places == [] then 0 else Count(At(at, places[0]), id) + CountIn(at, places[1..], id)
  }

  // How often memo id occurs in the whole system.
  function Occurrences(at: Layout, id: nat): nat {
    CountIn(at, PLACES, id)
  }

  lemma {:induction false} CountAppend(items: seq<Item>, x: Item, id: nat)
    ensures Count(items + [x], id) == Count(items, id) + if x.id == id then 1 else 0
  {
    if items == [] {
      assert items + [x] == [x];
      assert [x][1..] == [];
    } else {
      assert (items + [x])[1..] == items[1..] + [x];
      CountAppend(items[1..], x, id);
    }
  }

  // Changing one place changes the count by what that place gained and lost.
  lemma {:induction false} ReplaceAt(at: Layout, p: Place, items: seq<Item>, places: seq<Place>, id: nat)
    requires forall i, j :: 0 <= i < j < |places| ==> places[i] != places[j]
    ensures CountIn(at[p := items], places, id) ==
      CountIn(at, places, id) + if p in places then Count(items, id) - Count(At(at, p), id) else 0
  {
    if places != [] {
      ReplaceAt(at, p, items, places[1..], id);
      assert p in places <==> p == places[0] || p in places[1..];
      assert At(at[p := items], places[0]) == if p == places[0] then items else At(at, places[0]);
    }
  }

  lemma Replace(at: Layout, p: Place, items: seq<Item>, id: nat)
    ensures Occurrences(at[p := items], id) == Occurrences(at, id) + Count(items, id) - Count(At(at, p), id)
  {
    hide CountIn, Count, At;
    PlacesAreAll(p);
    ReplaceAt(at, p, items, PLACES, id);
  }

  lemma PlacesAreAll(p: Place)
    ensures p in PLACES
    ensures forall i, j :: 0 <= i < j < |PLACES| ==> PLACES[i] != PLACES[j]
  {
    match p
    case AudioPool => assert PLACES[0] == p;
    case SipPool => assert PLACES[1] == p;
    case SendQ => assert PLACES[2] == p;
    case CodecQ => assert PLACES[3] == p;
    case PlayQ => assert PLACES[4] == p;
    case SignalQ => assert PLACES[5] == p;
    case ConsoleSip => assert PLACES[6] == p;
    case ConsoleAudio => assert PLACES[7] == p;
    case ReaderHand => assert PLACES[8] == p;
    case WriterHand => assert PLACES[9] == p;
    case AgentHand => assert PLACES[10] == p;
    case DrainHand => assert PLACES[11] == p;
    case CodecHand => assert PLACES[12] == p;
    case AudioInHand => assert PLACES[13] == p;
    case AudioOutHand => assert PLACES[14] == p;
    case Dropped => assert PLACES[15] == p;
    case Lost => assert PLACES[16] == p;
  }

  lemma MoveKeeps(at: Layout, p: Place, q: Place, code: MemoCode, id: nat)
    requires At(at, p) != []
    ensures Occurrences(Move(at, p, q, code), id) == Occurrences(at, id)
  {
    hide CountIn, Occurrences;
    var x := At(at, p)[0];
    var taken := at[p := At(at, p)[1..]];
    Replace(at, p, At(at, p)[1..], id);
    Replace(taken, q, At(taken, q) + [x.(code := code)], id);
    CountAppend(At(taken, q), x.(code := code), id);
  }

  // ---------------------------------------------------------------- conservation

  // Every live memo is somewhere exactly once, nothing else is anywhere, and the two pools'
  // totals together count the live memos.
  ghost predicate Conserved(s: System) {
    && (forall id :: Occurrences(s.at, id) == if id in s.live then 1 else 0)
    && s.audioTotal + s.sipTotal == |s.live|
  }

  lemma AllocConserves(s: System, pool: Place, hand: Place, code: MemoCode, id: nat)
    requires Conserved(s) && Fresh(s, id) && (pool.AudioPool? || pool.SipPool?)
    ensures Conserved(AllocIn(s, pool, hand, code, id))
  {
    hide Occurrences, Count, CountIn;
    forall other
      ensures At(s.at, pool) != [] ==> Occurrences(AllocIn(s, pool, hand, code, id).at, other) == Occurrences(s.at, other)
      ensures At(s.at, pool) == [] ==>
        Occurrences(AllocIn(s, pool, hand, code, id).at, other) == Occurrences(s.at, other) + if other == id then 1 else 0
    {
      if At(s.at, pool) != [] {
        MoveKeeps(s.at, pool, hand, code, other);
      } else {
        var x := Item(id, pool.SipPool?, code);
        Replace(s.at, hand, At(s.at, hand) + [x], other);
        CountAppend(At(s.at, hand), x, other);
      }
    }
  }

  lemma DeleteConserves(s: System, pool: Place)
    requires Conserved(s) && (pool.AudioPool? || pool.SipPool?) && At(s.at, pool) != []
    ensures Conserved(DeleteFrom(s, pool))
  {
    hide Occurrences, CountIn;
    var items := At(s.at, pool);
    var gone := items[0].id;
    forall other
      ensures Occurrences(DeleteFrom(s, pool).at, other) == Occurrences(s.at, other) - if other == gone then 1 else 0
    {
      Replace(s.at, pool, items[1..], other);
    }
    assert Occurrences(s.at, gone) >= 1;
  }

  // Whatever else a step changes, a move of one memo conserves.
  lemma MoveConserves(s: System, p: Place, q: Place, code: MemoCode, t: System)
    requires Conserved(s) && At(s.at, p) != []
    requires t.at == Move(s.at, p, q, code) && t.live == s.live
    requires t.audioTotal == s.audioTotal && t.sipTotal == s.sipTotal
    ensures Conserved(t)
  {
    hide Occurrences, Move;
    forall id: nat
      ensures Occurrences(t.at, id) == Occurrences(s.at, id)
    {
      MoveKeeps(s.at, p, q, code, id);
    }
  }

  lemma KeepConserves(s: System, p: Place, q: Place, t: System)
    requires Conserved(s) && At(s.at, p) != []
    requires t.at == Keep(s.at, p, q) && t.live == s.live
    requires t.audioTotal == s.audioTotal && t.sipTotal == s.sipTotal
    ensures Conserved(t)
  {
    hide Conserved, Move;
    MoveConserves(s, p, q, At(s.at, p)[0].code, t);
  }

  lemma AgentEffectConserves(s: System, id: nat)
    requires Conserved(s) && Fresh(s, id) && s.todo != [] && !s.todo[0].Drain?
    requires s.todo[0].Alloc? || Has(s, AgentHand)
    ensures Conserved(AgentEffect(s, id))
  {
    hide Occurrences, Move, Keep;
    var t := AgentEffect(s, id);
    if s.todo[0].Alloc? {
      AllocConserves(s, SipPool, AgentHand, Other, id);
    } else if s.todo[0].SendMemo? {
      MoveConserves(s, AgentHand, SendQ, SipSend, t);
    } else {
      KeepConserves(s, AgentHand, if s.todo[0].Release? then SipPool else Dropped, t);
    }
  }

  lemma StepConserves(s: System, step: Step)
    requires Conserved(s) && May(s, step) && AgentReady(s)
    ensures Conserved(Do(s, step))
  {
    hide Occurrences, UserAgent.Step, Move, Keep, AllocIn, DeleteFrom, AgentEffect;
    var t := Do(s, step);
    match step
    case ConsoleTakeSip(code, id) => AllocConserves(s, SipPool, ConsoleSip, code, id);
    case ConsolePostSip => KeepConserves(s, ConsoleSip, SignalQ, t);
    case ConsoleTakeAudio(id) => AllocConserves(s, AudioPool, ConsoleAudio, Respond, id);
    case ConsolePostAudio(queue) => KeepConserves(s, ConsoleAudio, queue, t);
    case ReaderTakeSip(id) => AllocConserves(s, SipPool, ReaderHand, SipRcvd, id);
    case ReaderPostSip => KeepConserves(s, ReaderHand, SignalQ, t);
    case ReaderFailSip => KeepConserves(s, ReaderHand, SipPool, t);
    case ReaderTakeRtp(id) => AllocConserves(s, AudioPool, ReaderHand, Dec, id);
    case ReaderPostRtp => KeepConserves(s, ReaderHand, CodecQ, t);
    case WriterTake => KeepConserves(s, SendQ, WriterHand, t);
    case WriterDone => KeepConserves(s, WriterHand, WriterPlace(At(s.at, WriterHand)[0].code), t);
    case WriterDownsize(pool) => DeleteConserves(s, pool);
    case AgentTake(e) => KeepConserves(s, SignalQ, AgentHand, t);
    case AgentTimeout => assert t.at == s.at;
    case AgentDo(id) => AgentEffectConserves(s, id);
    case DrainTake(queue) => KeepConserves(s, queue, DrainHand, t);
    case DrainPut => KeepConserves(s, DrainHand, AudioPool, t);
    case DrainDone => assert t.at == s.at;
    case CodecTake => KeepConserves(s, CodecQ, CodecHand, t);
    case CodecDone =>
      var code := At(s.at, CodecHand)[0].code;
      MoveConserves(s, CodecHand, CodecPlace(code), CodecCode(code), t);
    case AudioInTake(id) => AllocConserves(s, AudioPool, AudioInHand, Enc, id);
    case AudioInPost => KeepConserves(s, AudioInHand, CodecQ, t);
    case AudioOutTake => KeepConserves(s, PlayQ, AudioOutHand, t);
    case AudioOutDone => KeepConserves(s, AudioOutHand, AudioPool, t);
  }

  // ---------------------------------------------------------------- sizes, codes and hands

  // What may be in each place.
  predicate Fits(p: Place, x: Item) {
    match p
    case SipPool => x.sip
    case SignalQ => x.sip
    case AgentHand => x.sip
    case ConsoleSip => x.sip
    case Dropped => x.sip
    case SendQ => (x.code.SipSend? && x.sip) || x.code.Send? || x.code.Respond?
    case WriterHand => (x.code.SipSend? && x.sip) || x.code.Send? || x.code.Respond?
    case CodecQ => x.code.Enc? || x.code.Dec? || x.code.Respond?
    case CodecHand => x.code.Enc? || x.code.Dec? || x.code.Respond?
    case ReaderHand => (x.code.SipRcvd? && x.sip) || x.code.Dec?
    case ConsoleAudio => x.code.Respond?
    case AudioInHand => x.code.Enc?
    case PlayQ => x.code.Play? || x.code.Respond?
    case AudioOutHand => x.code.Play? || x.code.Respond?
    case Lost => false
    case _ => true
  }

  predicate AllFit(p: Place, items: seq<Item>) {
    forall i :: 0 <= i < |items| ==> Fits(p, items[i])
  }

  ghost predicate Sorted(s: System) {
    forall p: Place :: AllFit(p, At(s.at, p))
  }

  // The agent holds one memo at most, and its remaining effects use it up.
  predicate Handed(s: System) {
    |At(s.at, AgentHand)| <= 1 && Balanced(s.todo, Has(s, AgentHand))
  }

  lemma MoveSorts(s: System, p: Place, q: Place, code: MemoCode)
    requires Sorted(s) && At(s.at, p) != [] && Fits(q, At(s.at, p)[0].(code := code))
    ensures Sorted(MoveIn(s, p, q, code))
  {
    hide Fits;
    var t := MoveIn(s, p, q, code);
    forall r: Place
      ensures AllFit(r, At(t.at, r))
    {
      assert AllFit(r, At(s.at, r)) && AllFit(p, At(s.at, p));
      assert AllFit(r, At(s.at[p := At(s.at, p)[1..]], r));
    }
  }

  lemma AllocSorts(s: System, pool: Place, hand: Place, code: MemoCode, id: nat)
    requires Sorted(s) && (pool.AudioPool? || pool.SipPool?)
    requires forall x: Item :: (pool.SipPool? ==> x.sip) && x.code == code ==> Fits(hand, x)
    ensures Sorted(AllocIn(s, pool, hand, code, id))
  {
    if At(s.at, pool) != [] {
      assert AllFit(pool, At(s.at, pool));
      MoveSorts(s, pool, hand, code);
    } else {
      hide Fits;
      var t := AllocIn(s, pool, hand, code, id);
      forall r: Place
        ensures AllFit(r, At(t.at, r))
      {
        assert AllFit(r, At(s.at, r));
      }
    }
  }

  lemma DeleteSorts(s: System, pool: Place)
    requires Sorted(s) && (pool.AudioPool? || pool.SipPool?) && At(s.at, pool) != []
    ensures Sorted(DeleteFrom(s, pool))
  {
    hide Fits;
    forall r: Place
      ensures AllFit(r, At(DeleteFrom(s, pool).at, r))
    {
      assert AllFit(r, At(s.at, r));
    }
  }

  lemma AgentEffectSorts(s: System, id: nat)
    requires Sorted(s) && s.todo != [] && !s.todo[0].Drain? && (s.todo[0].Alloc? || Has(s, AgentHand))
    ensures Sorted(AgentEffect(s, id))
  {
    assert AllFit(AgentHand, At(s.at, AgentHand));
    if s.todo[0].Release? {
      MoveSorts(s, AgentHand, SipPool, At(s.at, AgentHand)[0].code);
    } else if s.todo[0].SendMemo? {
      MoveSorts(s, AgentHand, SendQ, SipSend);
    } else if s.todo[0].Drop? {
      MoveSorts(s, AgentHand, Dropped, At(s.at, AgentHand)[0].code);
    } else {
      AllocSorts(s, SipPool, AgentHand, Other, id);
    }
  }

  // The front of a place, and where a step that keeps its code puts it.
  lemma KeepSorts(s: System, p: Place, q: Place)
    requires Sorted(s) && At(s.at, p) != [] && (Fits(p, At(s.at, p)[0]) ==> Fits(q, At(s.at, p)[0]))
    ensures Sorted(s.(at := Keep(s.at, p, q)))
  {
    assert AllFit(p, At(s.at, p));
    assert At(s.at, p)[0].(code := At(s.at, p)[0].code) == At(s.at, p)[0];
    MoveSorts(s, p, q, At(s.at, p)[0].code);
  }

  lemma StepSorts(s: System, step: Step)
    requires Sorted(s) && May(s, step) && AgentReady(s)
    ensures Sorted(Do(s, step))
  {
    hide UserAgent.Step, Sorted, Move, Keep, AllocIn, MoveIn;
    match step
    case ConsoleTakeSip(code, id) => AllocSorts(s, SipPool, ConsoleSip, code, id);
    case ConsolePostSip => KeepSorts(s, ConsoleSip, SignalQ);
    case ConsoleTakeAudio(id) => AllocSorts(s, AudioPool, ConsoleAudio, Respond, id);
    case ConsolePostAudio(queue) => KeepSorts(s, ConsoleAudio, queue);
    case ReaderTakeSip(id) => AllocSorts(s, SipPool, ReaderHand, SipRcvd, id);
    case ReaderPostSip => KeepSorts(s, ReaderHand, SignalQ);
    case ReaderFailSip => KeepSorts(s, ReaderHand, SipPool);
    case ReaderTakeRtp(id) => AllocSorts(s, AudioPool, ReaderHand, Dec, id);
    case ReaderPostRtp => KeepSorts(s, ReaderHand, CodecQ);
    case WriterTake => KeepSorts(s, SendQ, WriterHand);
    case WriterDone => KeepSorts(s, WriterHand, WriterPlace(At(s.at, WriterHand)[0].code));
    case WriterDownsize(pool) => DeleteSorts(s, pool);
    case AgentTake(e) =>
      KeepSorts(s, SignalQ, AgentHand);
      SameLayout(Do(s, step), s.(at := Keep(s.at, SignalQ, AgentHand)));
    case AgentTimeout => SameLayout(Do(s, step), s);
    case AgentDo(id) => AgentEffectSorts(s, id);
    case DrainTake(queue) => KeepSorts(s, queue, DrainHand);
    case DrainPut => KeepSorts(s, DrainHand, AudioPool);
    case DrainDone => SameLayout(Do(s, step), s);
    case CodecTake => KeepSorts(s, CodecQ, CodecHand);
    case CodecDone => CodecSorts(s);
    case AudioInTake(id) => AllocSorts(s, AudioPool, AudioInHand, Enc, id);
    case AudioInPost => KeepSorts(s, AudioInHand, CodecQ);
    case AudioOutTake => KeepSorts(s, PlayQ, AudioOutHand);
    case AudioOutDone => KeepSorts(s, AudioOutHand, AudioPool);
  }

  lemma SameLayout(s: System, t: System)
    requires s.at == t.at
    ensures Sorted(s) == Sorted(t)
  {
  }

  lemma CodecSorts(s: System)
    requires Sorted(s) && At(s.at, CodecHand) != []
    ensures var code := At(s.at, CodecHand)[0].code;
            Sorted(MoveIn(s, CodecHand, CodecPlace(code), CodecCode(code)))
  {
    assert AllFit(CodecHand, At(s.at, CodecHand));
    var code := At(s.at, CodecHand)[0].code;
    MoveSorts(s, CodecHand, CodecPlace(code), CodecCode(code));
  }

  // The agent's hand is its own: no other step reaches into it, or into what it has to do.
  lemma OthersLeaveHand(s: System, step: Step)
    requires AgentReady(s) && May(s, step)
    requires !step.AgentTake? && !step.AgentTimeout? && !step.AgentDo? && !step.DrainDone?
    ensures At(Do(s, step).at, AgentHand) == At(s.at, AgentHand) && Do(s, step).todo == s.todo
  {
  }

  lemma AgentStepHands(s: System, step: Step)
    requires Handed(s) && May(s, step)
    requires step.AgentTake? || step.AgentTimeout? || step.AgentDo? || step.DrainDone?
    ensures AgentReady(s) && Handed(Do(s, step))
  {
    hide UserAgent.Step;
    match step
    case AgentTake(e) => MemosAreDisposedOnce(s.agent, e);
    case AgentTimeout => MemosAreDisposedOnce(s.agent, Timeout);
    case _ =>
  }

  lemma StepHands(s: System, step: Step)
    requires Handed(s) && May(s, step)
    ensures AgentReady(s) && Handed(Do(s, step))
  {
    hide Do, May;
    if step.AgentTake? || step.AgentTimeout? || step.AgentDo? || step.DrainDone? {
      AgentStepHands(s, step);
    } else {
      OthersLeaveHand(s, step);
    }
  }

  // ---------------------------------------------------------------- every run

  ghost predicate Sound(s: System) {
    Conserved(s) && Sorted(s) && Handed(s)
  }

  ghost predicate Possible(s: System, steps: seq<Step>)
    decreases |steps|
  {
    steps == [] || (May(s, steps[0]) && AgentReady(s) && Possible(Do(s, steps[0]), steps[1..]))
  }

  ghost function After(s: System, steps: seq<Step>): System
    requires Possible(s, steps)
    decreases |steps|
  {
    if steps == [] then s else After(Do(s, steps[0]), steps[1..])
  }

  lemma {:induction false} RunIsSound(s: System, steps: seq<Step>)
    requires Sound(s) && Possible(s, steps)
    ensures Sound(After(s, steps))
    decreases |steps|
  {
    hide Conserved, Sorted, Handed, Do, May;
    if steps != [] {
      StepConserves(s, steps[0]);
      StepSorts(s, steps[0]);
      StepHands(s, steps[0]);
      RunIsSound(Do(s, steps[0]), steps[1..]);
    }
  }

  // The pools after init: memos from..from + n, all of one size.
  function Filled(from: nat, n: nat, sip: bool): (items: seq<Item>)
    ensures forall i :: 0 <= i < |items| ==> items[i].sip == sip
    decreases n
  {
    if n == 0 then [] else [Item(from, sip, Other)] + Filled(from + 1, n - 1, sip)
  }

  lemma {:induction false} FilledCount(from: nat, n: nat, sip: bool, id: nat)
    ensures Count(Filled(from, n, sip), id) == if from <= id < from + n then 1 else 0
    decreases n
  {
    if n > 0 {
      FilledCount(from + 1, n - 1, sip, id);
      assert Filled(from, n, sip)[1..] == Filled(from + 1, n - 1, sip);
    }
  }

  function Below(n: nat): (ids: set<nat>)
    ensures |ids| == n
    ensures forall id: nat :: id in ids <==> id < n
  {
    if n == 0 then {} else Below(n - 1) + {n - 1}
  }

  function Start(audio: nat, sip: nat, agent: Agent): System {
    System(map[AudioPool := Filled(0, audio, false)][SipPool := Filled(audio, sip, true)],
           audio, sip, Below(audio + sip), agent, [])
  }

  lemma {:induction false} NothingAnywhere(places: seq<Place>, id: nat)
    ensures CountIn(map[], places, id) == 0
  {
    if places != [] {
      NothingAnywhere(places[1..], id);
    }
  }

  lemma StartIsSound(audio: nat, sip: nat, agent: Agent)
    ensures Sound(Start(audio, sip, agent))
  {
    hide CountIn, Fits;
    var s := Start(audio, sip, agent);
    var one: Layout := map[][AudioPool := Filled(0, audio, false)];
    assert s.at == one[SipPool := Filled(audio, sip, true)];
    forall id
      ensures Occurrences(s.at, id) == if id in s.live then 1 else 0
    {
      NothingAnywhere(PLACES, id);
      Replace(map[], AudioPool, Filled(0, audio, false), id);
      Replace(one, SipPool, Filled(audio, sip, true), id);
      FilledCount(0, audio, false, id);
      FilledCount(audio, sip, true, id);
    }
    assert Sorted(s) by { StartSorted(audio, sip, agent); }
  }

  lemma StartSorted(audio: nat, sip: nat, agent: Agent)
    ensures Sorted(Start(audio, sip, agent))
  {
    forall p: Place
      ensures AllFit(p, At(Start(audio, sip, agent).at, p))
    {
    }
  }

  /** Memo conservation. From filled pools on, in every interleaving: each live memo is in exactly
      one place and no other memo is anywhere; the two totals count the live memos; a memo of
      audio size is never in the SIP pool; and no thread ever takes a memo it has no case for. */
  lemma MemoConservation(audio: nat, sip: nat, agent: Agent, steps: seq<Step>)
    requires Possible(Start(audio, sip, agent), steps)
    ensures var s := After(Start(audio, sip, agent), steps);
            && (forall id :: Occurrences(s.at, id) == if id in s.live then 1 else 0)
            && s.audioTotal + s.sipTotal == |s.live|
            && (forall i :: 0 <= i < |At(s.at, SipPool)| ==> At(s.at, SipPool)[i].sip)
            && At(s.at, Lost) == []
            && AgentReady(s)
  {
    hide Occurrences, Do, May, Start, Possible, After;
    StartIsSound(audio, sip, agent);
    RunIsSound(Start(audio, sip, agent), steps);
    var s := After(Start(audio, sip, agent), steps);
    assert AllFit(SipPool, At(s.at, SipPool));
    assert AllFit(Lost, At(s.at, Lost));
    assert At(s.at, Lost) != [] ==> Fits(Lost, At(s.at, Lost)[0]);
  }

  // One occurrence means one position.
  lemma {:induction false} CountTwice(items: seq<Item>, i: nat, j: nat)
    requires i < j < |items| && items[i].id == items[j].id
    ensures Count(items, items[i].id) >= 2
  {
    if i == 0 {
      CountOnce(items[1..], j - 1);
    } else {
      CountTwice(items[1..], i - 1, j - 1);
    }
  }

  lemma {:induction false} CountOnce(items: seq<Item>, i: nat)
    requires i < |items|
    ensures Count(items, items[i].id) >= 1
  {
    if i > 0 {
      CountOnce(items[1..], i - 1);
    }
  }

  lemma CountElsewhere(at: Layout, p: Place, q: Place, id: nat)
    requires p != q
    ensures Occurrences(at, id) >= Count(At(at, p), id) + Count(At(at, q), id)
  {
    hide Occurrences, CountIn, Count;
    Replace(at, p, [], id);
    Replace(at[p := []], q, [], id);
    assert At(at[p := []], q) == At(at, q);
    EmptyCount(id);
  }

  lemma EmptyCount(id: nat)
    ensures Count([], id) == 0
  {
  }

  /** In a sound state two positions that hold the same memo are the same position. */
  lemma OnePlaceEach(s: System, p: Place, i: nat, q: Place, j: nat)
    requires Conserved(s) && i < |At(s.at, p)| && j < |At(s.at, q)|
    requires At(s.at, p)[i].id == At(s.at, q)[j].id
    ensures p == q && i == j && At(s.at, p)[i].id in s.live
  {
    hide Occurrences;
    var id := At(s.at, p)[i].id;
    CountOnce(At(s.at, p), i);
    CountOnce(At(s.at, q), j);
    if p != q {
      CountElsewhere(s.at, p, q, id);
      assert false;
    }
    Replace(s.at, p, [], id);
    EmptyCount(id);
    if i < j {
      CountTwice(At(s.at, p), i, j);
    } else if j < i {
      CountTwice(At(s.at, p), j, i);
    }
  }
}
