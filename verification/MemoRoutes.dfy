/** The way of the audio through the threads: every capture goes through the codec to the network and
    every received packet through the codec to the loudspeaker, in order, unless a call's end drains
    it; and memos of the SIP size stay out of the audio pool until then. */
module MemoRoutes {
  import opened Memos
  import UserAgent
  import opened MemoFlow

  // ---------------------------------------------------------------- the two routes

  // From codecQ under inCode through the codec to outQ under outCode, and to the thread that
  // finishes it.
  datatype Route = Route(inCode: MemoCode, outCode: MemoCode, outQ: Place, outHand: Place)

  const CAPTURED := Route(Enc, Send, SendQ, WriterHand)
  const RECEIVED := Route(Dec, Play, PlayQ, AudioOutHand)

  predicate IsRoute(r: Route) { r == CAPTURED || r == RECEIVED }

  // The memos with a code, in order.
  function Coded(items: seq<Item>, code: MemoCode): seq<nat> {
    if items == [] then []
    else (if items[0].code == code then [items[0].id] else []) + Coded(items[1..], code)
  }

  // Everything under way on a route, what is nearest its end first.
  function Line(r: Route, at: Layout): seq<nat> {
    Coded(At(at, r.outHand), r.outCode) + Coded(At(at, r.outQ), r.outCode) +
    Coded(At(at, CodecHand), r.inCode) + Coded(At(at, CodecQ), r.inCode)
  }

  // A step posts a capture or a received packet.
  function Entered(r: Route, s: System, step: Step): seq<nat>
    requires May(s, step)
  {
    if r == CAPTURED && step.AudioInPost? then [At(s.at, AudioInHand)[0].id]
    else if r == RECEIVED && step.ReaderPostRtp? then [At(s.at, ReaderHand)[0].id]
    else []
  }

  // A step has sent a payload, or has played it.
  function Finished(r: Route, s: System, step: Step): seq<nat>
    requires May(s, step)
  {
    if r == CAPTURED && step.WriterDone? then Coded(At(s.at, WriterHand), Send)
    else if r == RECEIVED && step.AudioOutDone? then Coded(At(s.at, AudioOutHand), Play)
    else []
  }

  // A step has taken something under way for the drain.
  function Drained(r: Route, s: System, step: Step): nat
    requires May(s, step)
  {
    if !step.DrainTake? then 0
    else
      var x := At(s.at, step.queue)[0];
      if (step.queue == r.outQ && x.code == r.outCode) || (step.queue == CodecQ && x.code == r.inCode) then 1 else 0
  }

  // These threads hold one memo at a time.
  predicate OneEach(s: System) {
    |At(s.at, CodecHand)| <= 1 && |At(s.at, WriterHand)| <= 1 && |At(s.at, AudioOutHand)| <= 1
  }

  // ---------------------------------------------------------------- lists of codes

  lemma {:induction false} CodedAppend(items: seq<Item>, x: Item, code: MemoCode)
    ensures Coded(items + [x], code) == Coded(items, code) + if x.code == code then [x.id] else []
  {
    if items == [] {
      assert items + [x] == [x];
      assert [x][1..] == [];
    } else {
      assert (items + [x])[1..] == items[1..] + [x];
      CodedAppend(items[1..], x, code);
      CodedFront(items + [x], code);
      CodedFront(items, code);
      hide Coded;
      var head := if items[0].code == code then [items[0].id] else [];
      var last := if x.code == code then [x.id] else [];
      assert head + (Coded(items[1..], code) + last) == head + Coded(items[1..], code) + last;
    }
  }

  lemma CodedFront(items: seq<Item>, code: MemoCode)
    requires items != []
    ensures Coded(items, code) == (if items[0].code == code then [items[0].id] else []) + Coded(items[1..], code)
  {
  }

  lemma CodedOne(items: seq<Item>, code: MemoCode)
    requires |items| == 1
    ensures Coded(items, code) == if items[0].code == code then [items[0].id] else []
  {
    assert items[1..] == [];
  }

  // ---------------------------------------------------------------- one step

  lemma AfterMove(at: Layout, p: Place, q: Place, code: MemoCode)
    requires At(at, p) != [] && p != q
    ensures forall r :: At(Move(at, p, q, code), r) == (
              if r == p then At(at, p)[1..]
              else if r == q then At(at, q) + [At(at, p)[0].(code := code)]
              else At(at, r))
  {
  }

  predicate OnRoutes(p: Place) {
    || p == CodecQ || p == CodecHand || p == SendQ || p == WriterHand || p == PlayQ || p == AudioOutHand
  }

  predicate RouteCode(code: MemoCode) {
    code == Enc || code == Send || code == Dec || code == Play
  }

  // The routes look the same, and the hands hold as much.
  predicate SameLines(at: Layout, at': Layout) {
    && Line(CAPTURED, at') == Line(CAPTURED, at) && Line(RECEIVED, at') == Line(RECEIVED, at)
    && At(at', CodecHand) == At(at, CodecHand) && At(at', WriterHand) == At(at, WriterHand)
    && At(at', AudioOutHand) == At(at, AudioOutHand)
  }

  // A change to one place off the routes, or to a queue by a memo of another code, is not seen.
  lemma QuietPlace(at: Layout, p: Place, items: seq<Item>)
    requires !OnRoutes(p) || (p == SendQ || p == CodecQ || p == PlayQ)
    requires OnRoutes(p) ==> forall code :: RouteCode(code) ==> Coded(items, code) == Coded(At(at, p), code)
    ensures SameLines(at, at[p := items])
  {
    hide Coded;
  }

  lemma QuietAppend(at: Layout, p: Place, x: Item)
    requires !OnRoutes(p) || (p == SendQ || p == CodecQ || p == PlayQ)
    requires OnRoutes(p) ==> !RouteCode(x.code)
    ensures SameLines(at, at[p := At(at, p) + [x]])
  {
    hide Coded, SameLines;
    forall code | RouteCode(code)
      ensures OnRoutes(p) ==> Coded(At(at, p) + [x], code) == Coded(At(at, p), code)
    {
      CodedAppend(At(at, p), x, code);
    }
    QuietPlace(at, p, At(at, p) + [x]);
  }

  lemma QuietMove(at: Layout, p: Place, q: Place, code: MemoCode)
    requires At(at, p) != [] && !OnRoutes(p)
    requires !OnRoutes(q) || (q == SendQ || q == CodecQ || q == PlayQ)
    requires OnRoutes(q) ==> !RouteCode(code)
    ensures SameLines(at, Move(at, p, q, code))
  {
    hide Line, OnRoutes, RouteCode;
    var taken := at[p := At(at, p)[1..]];
    assert SameLines(at, taken) by {
      QuietTake(at, p);
    }
    QuietAppend(taken, q, At(at, p)[0].(code := code));
  }

  lemma QuietTake(at: Layout, p: Place)
    requires At(at, p) != [] && !OnRoutes(p)
    ensures SameLines(at, at[p := At(at, p)[1..]])
  {
    hide SameLines;
    QuietPlace(at, p, At(at, p)[1..]);
  }

  lemma QuietKeep(at: Layout, p: Place, q: Place)
    requires At(at, p) != [] && !OnRoutes(p)
    requires !OnRoutes(q) || (q == SendQ || q == CodecQ || q == PlayQ)
    requires OnRoutes(q) ==> !RouteCode(At(at, p)[0].code)
    ensures SameLines(at, Keep(at, p, q))
  {
    hide SameLines, OnRoutes, RouteCode, Move;
    QuietMove(at, p, q, At(at, p)[0].code);
  }

  lemma QuietAlloc(s: System, pool: Place, hand: Place, code: MemoCode, id: nat)
    requires (pool.AudioPool? || pool.SipPool?) && !OnRoutes(hand)
    ensures SameLines(s.at, AllocIn(s, pool, hand, code, id).at)
  {
    hide SameLines, Move;
    if At(s.at, pool) != [] {
      QuietMove(s.at, pool, hand, code);
    } else {
      QuietAppend(s.at, hand, Item(id, pool.SipPool?, code));
    }
  }

  // The steps that move memos along the routes.
  predicate OnRoute(step: Step) {
    || step.AudioInPost? || step.ReaderPostRtp? || step.CodecTake? || step.CodecDone?
    || step.WriterTake? || step.WriterDone? || step.AudioOutTake? || step.AudioOutDone? || step.DrainTake?
  }

  // No other step takes or posts anything under way.
  lemma OffRoute(s: System, step: Step)
    requires May(s, step) && AgentReady(s) && Sorted(s) && !OnRoute(step)
    ensures SameLines(s.at, Do(s, step).at)
  {
    hide UserAgent.Step, SameLines, Move, Keep, AllocIn, Sorted;
    match step
    case ConsoleTakeSip(code, id) => QuietAlloc(s, SipPool, ConsoleSip, code, id);
    case ConsolePostSip => QuietKeep(s.at, ConsoleSip, SignalQ);
    case ConsoleTakeAudio(id) => QuietAlloc(s, AudioPool, ConsoleAudio, Respond, id);
    case ConsolePostAudio(queue) =>
      FrontFits(s, ConsoleAudio);
      QuietKeep(s.at, ConsoleAudio, queue);
    case ReaderTakeSip(id) => QuietAlloc(s, SipPool, ReaderHand, SipRcvd, id);
    case ReaderPostSip => QuietKeep(s.at, ReaderHand, SignalQ);
    case ReaderFailSip => QuietKeep(s.at, ReaderHand, SipPool);
    case ReaderTakeRtp(id) => QuietAlloc(s, AudioPool, ReaderHand, Dec, id);
    case WriterDownsize(pool) => QuietTake(s.at, pool);
    case AgentTake(e) => QuietKeep(s.at, SignalQ, AgentHand);
    case AgentTimeout => SameAsBefore(s.at);
    case AgentDo(id) => QuietEffect(s, id);
    case DrainPut => QuietKeep(s.at, DrainHand, AudioPool);
    case DrainDone => SameAsBefore(s.at);
    case AudioInTake(id) => QuietAlloc(s, AudioPool, AudioInHand, Enc, id);
  }

  lemma SameAsBefore(at: Layout)
    ensures SameLines(at, at)
  {
  }

  lemma FrontFits(s: System, p: Place)
    requires Sorted(s) && At(s.at, p) != []
    ensures Fits(p, At(s.at, p)[0])
  {
    assert AllFit(p, At(s.at, p));
  }

  lemma QuietEffect(s: System, id: nat)
    requires s.todo != [] && !s.todo[0].Drain? && (s.todo[0].Alloc? || Has(s, AgentHand))
    ensures SameLines(s.at, AgentEffect(s, id).at)
  {
    hide SameLines, Move, Keep, AllocIn;
    if s.todo[0].Alloc? {
      QuietAlloc(s, SipPool, AgentHand, Other, id);
    } else if s.todo[0].SendMemo? {
      QuietMove(s.at, AgentHand, SendQ, SipSend);
    } else {
      QuietKeep(s.at, AgentHand, if s.todo[0].Release? then SipPool else Dropped);
    }
  }

  // ---------------------------------------------------------------- the steps along the routes

  // What enters goes to the end of the line, and what is finished leaves from its front; only a
  // drain takes from elsewhere.
  predicate Follows(r: Route, s: System, step: Step)
    requires May(s, step) && AgentReady(s)
  {
    var line, line' := Line(r, s.at), Line(r, Do(s, step).at);
    if step.DrainTake? then |line'| + Drained(r, s, step) == |line|
    else Finished(r, s, step) + line' == line + Entered(r, s, step)
  }

  // A post behind everything else.
  lemma PostFollows(r: Route, at: Layout, p: Place, code: MemoCode)
    requires IsRoute(r) && At(at, p) != [] && !OnRoutes(p)
    ensures var x := At(at, p)[0];
            Line(r, Move(at, p, CodecQ, code)) == Line(r, at) + if code == r.inCode then [x.id] else []
    ensures forall q :: OnRoutes(q) && q != CodecQ ==> At(Move(at, p, CodecQ, code), q) == At(at, q)
  {
    hide Coded, Move;
    var x := At(at, p)[0];
    AfterMove(at, p, CodecQ, code);
    CodedAppend(At(at, CodecQ), x.(code := code), r.inCode);
  }

  // The codec takes the front of codecQ into its empty hand.
  lemma CodecTakeFollows(r: Route, at: Layout)
    requires IsRoute(r) && At(at, CodecQ) != [] && At(at, CodecHand) == []
    ensures var at' := Move(at, CodecQ, CodecHand, At(at, CodecQ)[0].code);
            Line(r, at') == Line(r, at)
  {
    hide Move;
    var x := At(at, CodecQ)[0];
    AfterMove(at, CodecQ, CodecHand, x.code);
    assert At(Move(at, CodecQ, CodecHand, x.code), CodecHand) == [x];
    CodedOne([x], r.inCode);
  }

  // The codec puts what it holds behind the queue of its route, under the new code.
  lemma CodecDoneFollows(r: Route, at: Layout)
    requires IsRoute(r) && |At(at, CodecHand)| == 1 && Fits(CodecHand, At(at, CodecHand)[0])
    ensures var code := At(at, CodecHand)[0].code;
            var at' := Move(at, CodecHand, CodecPlace(code), CodecCode(code));
            && Line(r, at') == Line(r, at)
            && At(at', CodecHand) == [] && At(at', WriterHand) == At(at, WriterHand)
            && At(at', AudioOutHand) == At(at, AudioOutHand)
  {
    hide Move, Coded;
    var x := At(at, CodecHand)[0];
    var q, code := CodecPlace(x.code), CodecCode(x.code);
    AfterMove(at, CodecHand, q, code);
    CodedOne(At(at, CodecHand), r.inCode);
    CodedNone(r.inCode);
    CodedAppend(At(at, r.outQ), x.(code := code), r.outCode);
  }

  lemma CodedNone(code: MemoCode)
    ensures Coded([], code) == []
  {
  }

  // What a move leaves in the hands of the other threads.
  predicate SameHands(at: Layout, at': Layout, but: Place) {
    && (but != CodecHand ==> At(at', CodecHand) == At(at, CodecHand))
    && (but != WriterHand ==> At(at', WriterHand) == At(at, WriterHand))
    && (but != AudioOutHand ==> At(at', AudioOutHand) == At(at, AudioOutHand))
  }

  // The finishing thread takes the front of a queue into its empty hand.
  lemma TakeFollows(r: Route, at: Layout, q: Place, hand: Place)
    requires IsRoute(r) && ((q == SendQ && hand == WriterHand) || (q == PlayQ && hand == AudioOutHand))
    requires At(at, q) != [] && At(at, hand) == []
    ensures var at' := Move(at, q, hand, At(at, q)[0].code);
            Line(r, at') == Line(r, at) && |At(at', hand)| == 1 && SameHands(at, at', hand)
  {
    hide Move, Coded;
    var x := At(at, q)[0];
    var at' := Move(at, q, hand, x.code);
    AfterMove(at, q, hand, x.code);
    assert At(at', hand) == [x] && At(at', q) == At(at, q)[1..];
    assert At(at', CodecQ) == At(at, CodecQ);
    CodedOne([x], r.outCode);
    CodedNone(r.outCode);
    CodedFront(At(at, q), r.outCode);
    if r.outQ != q {
      assert At(at', r.outQ) == At(at, r.outQ) && At(at', r.outHand) == At(at, r.outHand);
    }
  }

  // It finishes what it holds.
  lemma DoneFollows(r: Route, at: Layout, hand: Place, q: Place)
    requires IsRoute(r) && (hand == WriterHand || hand == AudioOutHand)
    requires |At(at, hand)| == 1 && !OnRoutes(q)
    ensures var at' := Move(at, hand, q, At(at, hand)[0].code);
            && (if r.outHand == hand then Coded(At(at, hand), r.outCode) else []) + Line(r, at') == Line(r, at)
            && At(at', hand) == [] && SameHands(at, at', hand)
  {
    hide Move, Coded;
    var at' := Move(at, hand, q, At(at, hand)[0].code);
    AfterMove(at, hand, q, At(at, hand)[0].code);
    assert At(at', CodecHand) == At(at, CodecHand) && At(at', CodecQ) == At(at, CodecQ);
    assert At(at', hand) == [] && At(at', r.outQ) == At(at, r.outQ);
    hide At, OnRoutes;
    CodedNone(r.outCode);
    var rest := Coded(At(at, r.outQ), r.outCode) + Coded(At(at, CodecHand), r.inCode) + Coded(At(at, CodecQ), r.inCode);
    RestOfLine(r, at);
    RestOfLine(r, at');
    hide Line;
    if r.outHand == hand {
      assert [] + rest == rest;
    }
  }

  lemma RestOfLine(r: Route, at: Layout)
    ensures Line(r, at) == Coded(At(at, r.outHand), r.outCode) +
              (Coded(At(at, r.outQ), r.outCode) + Coded(At(at, CodecHand), r.inCode) + Coded(At(at, CodecQ), r.inCode))
  {
    hide Coded, At;
  }

  lemma DrainFollows(r: Route, at: Layout, q: Place)
    requires IsRoute(r) && (q == SendQ || q == CodecQ || q == PlayQ) && At(at, q) != []
    ensures var x := At(at, q)[0];
            var at' := Move(at, q, DrainHand, x.code);
            && |Line(r, at')| + (if (q == r.outQ && x.code == r.outCode) || (q == CodecQ && x.code == r.inCode) then 1 else 0)
               == |Line(r, at)|
            && SameHands(at, at', DrainHand)
  {
    hide Move, Coded;
    var at' := Move(at, q, DrainHand, At(at, q)[0].code);
    AfterMove(at, q, DrainHand, At(at, q)[0].code);
    CodedFront(At(at, q), r.outCode);
    CodedFront(At(at, q), r.inCode);
    assert forall p :: p == r.outHand || p == CodecHand || (p != q && (p == r.outQ || p == CodecQ)) ==> At(at', p) == At(at, p);
    assert At(at', q) == At(at, q)[1..];
  }

  lemma PostStepFollows(r: Route, s: System, step: Step)
    requires IsRoute(r) && May(s, step) && AgentReady(s) && Sorted(s) && OneEach(s)
    requires step.AudioInPost? || step.ReaderPostRtp?
    ensures Follows(r, s, step) && OneEach(Do(s, step))
  {
    hide Move, Coded, Sorted, Line, Fits;
    if step.AudioInPost? {
      FrontFits(s, AudioInHand);
      FitsAudioIn(At(s.at, AudioInHand)[0]);
      PostFollows(r, s.at, AudioInHand, Enc);
    } else {
      PostFollows(r, s.at, ReaderHand, At(s.at, ReaderHand)[0].code);
    }
  }

  lemma CodecStepFollows(r: Route, s: System, step: Step)
    requires IsRoute(r) && May(s, step) && AgentReady(s) && Sorted(s) && OneEach(s)
    requires step.CodecTake? || step.CodecDone?
    ensures Follows(r, s, step) && OneEach(Do(s, step))
  {
    hide Move, Coded, Sorted, Line, Fits, CodecPlace, CodecCode;
    if step.CodecTake? {
      CodecTakeFollows(r, s.at);
      AfterMove(s.at, CodecQ, CodecHand, At(s.at, CodecQ)[0].code);
    } else {
      FrontFits(s, CodecHand);
      CodecDoneFollows(r, s.at);
    }
  }

  lemma LastStepFollows(r: Route, s: System, step: Step)
    requires IsRoute(r) && May(s, step) && AgentReady(s) && Sorted(s) && OneEach(s)
    requires step.WriterTake? || step.WriterDone? || step.AudioOutTake? || step.AudioOutDone? || step.DrainTake?
    ensures Follows(r, s, step) && OneEach(Do(s, step))
  {
    hide Move, Coded, Sorted, Line, Fits, WriterPlace;
    match step {
      case WriterTake => {
        TakeFollows(r, s.at, SendQ, WriterHand);
      }
      case WriterDone => {
        WriterDoneFollows(r, s);
      }
      case AudioOutTake => {
        TakeFollows(r, s.at, PlayQ, AudioOutHand);
      }
      case AudioOutDone => {
        DoneFollows(r, s.at, AudioOutHand, AudioPool);
      }
      case DrainTake(queue) => {
        DrainFollows(r, s.at, queue);
      }
    }
  }

  lemma WriterDoneFollows(r: Route, s: System)
    requires IsRoute(r) && May(s, WriterDone) && AgentReady(s) && Sorted(s) && OneEach(s)
    ensures Follows(r, s, WriterDone) && OneEach(Do(s, WriterDone))
  {
    hide Move, Coded, Sorted, Line, Fits, WriterPlace;
    FrontFits(s, WriterHand);
    WriterFinishes(At(s.at, WriterHand)[0]);
    DoneFollows(r, s.at, WriterHand, WriterPlace(At(s.at, WriterHand)[0].code));
  }

  lemma StepFollows(r: Route, s: System, step: Step)
    requires IsRoute(r) && May(s, step) && AgentReady(s) && Sorted(s) && OneEach(s)
    ensures Follows(r, s, step) && OneEach(Do(s, step))
  {
    hide Do, May, Line, Sorted, AgentReady;
    if step.AudioInPost? || step.ReaderPostRtp? {
      PostStepFollows(r, s, step);
    } else if step.CodecTake? || step.CodecDone? {
      CodecStepFollows(r, s, step);
    } else if OnRoute(step) {
      LastStepFollows(r, s, step);
    } else {
      OffRoute(s, step);
    }
  }

  lemma FitsAudioIn(x: Item)
    requires Fits(AudioInHand, x)
    ensures x.code == Enc
  {
  }

  // The writer gives a SIP message's memo to the SIP pool and any other to the audio pool.
  lemma WriterFinishes(x: Item)
    requires Fits(WriterHand, x)
    ensures WriterPlace(x.code) == if x.code == SipSend then SipPool else AudioPool
  {
  }

  // ---------------------------------------------------------------- every run

  ghost function AllEntered(r: Route, s: System, steps: seq<Step>): seq<nat>
    requires Possible(s, steps)
    decreases |steps|
  {
    if steps == [] then [] else Entered(r, s, steps[0]) + AllEntered(r, Do(s, steps[0]), steps[1..])
  }

  ghost function AllFinished(r: Route, s: System, steps: seq<Step>): seq<nat>
    requires Possible(s, steps)
    decreases |steps|
  {
    if steps == [] then [] else Finished(r, s, steps[0]) + AllFinished(r, Do(s, steps[0]), steps[1..])
  }

  ghost function AllDrained(r: Route, s: System, steps: seq<Step>): nat
    requires Possible(s, steps)
    decreases |steps|
  {
    if steps == [] then 0 else Drained(r, s, steps[0]) + AllDrained(r, Do(s, steps[0]), steps[1..])
  }

  predicate NoDrain(steps: seq<Step>) {
    forall i :: 0 <= i < |steps| ==> !steps[i].DrainTake?
  }

  lemma {:induction false} RouteOfRun(r: Route, s: System, steps: seq<Step>)
    requires IsRoute(r) && Possible(s, steps) && Sorted(s) && OneEach(s)
    ensures |Line(r, s.at)| + |AllEntered(r, s, steps)|
         == |AllFinished(r, s, steps)| + |Line(r, After(s, steps).at)| + AllDrained(r, s, steps)
    ensures NoDrain(steps) ==>
      Line(r, s.at) + AllEntered(r, s, steps) == AllFinished(r, s, steps) + Line(r, After(s, steps).at)
    decreases |steps|
  {
    hide Sorted, OneEach, Do, May, Line, Entered, Finished, Drained;
    if steps == [] {
      assert Line(r, s.at) + [] == [] + Line(r, s.at);
    } else {
      var step, t := steps[0], Do(s, steps[0]);
      StepFollows(r, s, step);
      StepSorts(s, step);
      StepDrains(r, s, step);
      RouteOfRun(r, t, steps[1..]);
      if NoDrain(steps) {
        assert NoDrain(steps[1..]);
        InOrder(Line(r, s.at), Entered(r, s, step), AllEntered(r, t, steps[1..]),
                Finished(r, s, step), Line(r, t.at), AllFinished(r, t, steps[1..]), Line(r, After(s, steps).at));
      }
    }
  }

  lemma StepDrains(r: Route, s: System, step: Step)
    requires May(s, step)
    ensures step.DrainTake? ==> Entered(r, s, step) == [] && Finished(r, s, step) == []
    ensures !step.DrainTake? ==> Drained(r, s, step) == 0
  {
    hide Coded;
  }

  lemma InOrder(line: seq<nat>, entered: seq<nat>, later: seq<nat>,
                finished: seq<nat>, line': seq<nat>, afterwards: seq<nat>, last: seq<nat>)
    requires finished + line' == line + entered
    requires line' + later == afterwards + last
    ensures line + (entered + later) == (finished + afterwards) + last
  {
    assert line + (entered + later) == (line + entered) + later;
    assert (finished + line') + later == finished + (line' + later);
    assert finished + (afterwards + last) == (finished + afterwards) + last;
  }

  /** From the start of the threads, in every interleaving: every capture posted has been sent, is on
      its way to the network, or was drained when a call ended; every received packet has been
      played, is on its way to the loudspeaker, or was drained. And as long as nothing is drained,
      they are sent and played in the order they came. */
  lemma AudioArrives(r: Route, audio: nat, sip: nat, agent: UserAgent.Agent, steps: seq<Step>)
    requires IsRoute(r) && Possible(Start(audio, sip, agent), steps)
    ensures var s := Start(audio, sip, agent);
            var line := Line(r, After(s, steps).at);
            && |AllEntered(r, s, steps)| == |AllFinished(r, s, steps)| + |line| + AllDrained(r, s, steps)
            && (NoDrain(steps) ==> AllEntered(r, s, steps) == AllFinished(r, s, steps) + line)
  {
    hide Possible, After, AllEntered, AllFinished, AllDrained;
    var s := Start(audio, sip, agent);
    StartSorted(audio, sip, agent);
    RouteOfRun(r, s, steps);
    assert Line(r, s.at) == [] && OneEach(s);
    assert [] + AllEntered(r, s, steps) == AllEntered(r, s, steps);
  }

  // ---------------------------------------------------------------- the two sizes

  // The size of what each place holds while no SIP memo has been drained.
  predicate SizeFits(p: Place, x: Item) {
    match p
    case AudioPool => !x.sip
    case CodecQ => !x.sip
    case CodecHand => !x.sip
    case PlayQ => !x.sip
    case AudioOutHand => !x.sip
    case ConsoleAudio => !x.sip
    case AudioInHand => !x.sip
    case SendQ => x.sip <==> x.code == SipSend
    case WriterHand => x.sip <==> x.code == SipSend
    case ReaderHand => x.sip <==> x.code == SipRcvd
    case _ => true
  }

  predicate AllSized(p: Place, items: seq<Item>) {
    forall i :: 0 <= i < |items| ==> SizeFits(p, items[i])
  }

  ghost predicate Sized(s: System) {
    forall p: Place :: AllSized(p, At(s.at, p))
  }

  // The drain gives the audio pool a memo of the SIP size.
  predicate DrainsSip(s: System, step: Step)
    requires May(s, step)
  {
    step.DrainPut? && At(s.at, DrainHand)[0].sip
  }

  lemma MoveSized(s: System, p: Place, q: Place, code: MemoCode, t: System)
    requires Sized(s) && At(s.at, p) != [] && SizeFits(q, At(s.at, p)[0].(code := code))
    requires t.at == Move(s.at, p, q, code)
    ensures Sized(t)
  {
    hide SizeFits;
    forall r: Place
      ensures AllSized(r, At(t.at, r))
    {
      assert AllSized(r, At(s.at, r)) && AllSized(p, At(s.at, p));
      assert AllSized(r, At(s.at[p := At(s.at, p)[1..]], r));
    }
  }

  lemma KeepSized(s: System, p: Place, q: Place, t: System)
    requires Sized(s) && At(s.at, p) != [] && SizeFits(q, At(s.at, p)[0])
    requires t.at == Keep(s.at, p, q)
    ensures Sized(t)
  {
    hide Sized, SizeFits, Move;
    var x := At(s.at, p)[0];
    assert x.(code := x.code) == x;
    MoveSized(s, p, q, x.code, t);
  }

  lemma AllocSized(s: System, pool: Place, hand: Place, code: MemoCode, id: nat)
    requires Sized(s) && Sorted(s) && (pool.AudioPool? || pool.SipPool?)
    requires SizeFits(hand, Item(id, pool.SipPool?, code))
    ensures Sized(AllocIn(s, pool, hand, code, id))
  {
    hide Sorted;
    if At(s.at, pool) != [] {
      FrontFits(s, pool);
      FrontSized(s, pool);
      MoveSized(s, pool, hand, code, AllocIn(s, pool, hand, code, id));
    } else {
      hide SizeFits;
      var t := AllocIn(s, pool, hand, code, id);
      forall r: Place
        ensures AllSized(r, At(t.at, r))
      {
        assert AllSized(r, At(s.at, r));
      }
    }
  }

  lemma FrontSized(s: System, p: Place)
    requires Sized(s) && At(s.at, p) != []
    ensures SizeFits(p, At(s.at, p)[0])
  {
    assert AllSized(p, At(s.at, p));
  }

  // The front memo of a place is of the size and code the place may hold.
  lemma Front(s: System, p: Place)
    requires Sized(s) && Sorted(s) && At(s.at, p) != []
    ensures SizeFits(p, At(s.at, p)[0]) && Fits(p, At(s.at, p)[0])
  {
    hide Sized, Sorted;
    FrontSized(s, p);
    FrontFits(s, p);
  }

  lemma SameSized(s: System, t: System)
    requires Sized(s) && s.at == t.at
    ensures Sized(t)
  {
  }

  lemma TakeSized(s: System, pool: Place)
    requires Sized(s) && (pool.AudioPool? || pool.SipPool?) && At(s.at, pool) != []
    ensures Sized(DeleteFrom(s, pool))
  {
    hide SizeFits;
    var t := DeleteFrom(s, pool);
    forall r: Place
      ensures AllSized(r, At(t.at, r))
    {
      assert AllSized(r, At(s.at, r));
    }
  }

  lemma StepSized(s: System, step: Step)
    requires Sized(s) && Sorted(s) && May(s, step) && AgentReady(s) && !DrainsSip(s, step)
    ensures Sized(Do(s, step))
  {
    hide UserAgent.Step, Sized, Sorted, Move, Keep, AllocIn, DeleteFrom, AgentEffect;
    var t := Do(s, step);
    match step
    case ConsoleTakeSip(code, id) => AllocSized(s, SipPool, ConsoleSip, code, id);
    case ConsolePostSip => KeepSized(s, ConsoleSip, SignalQ, t);
    case ConsoleTakeAudio(id) => AllocSized(s, AudioPool, ConsoleAudio, Respond, id);
    case ConsolePostAudio(queue) =>
      Front(s, ConsoleAudio);
      KeepSized(s, ConsoleAudio, queue, t);
    case ReaderTakeSip(id) => AllocSized(s, SipPool, ReaderHand, SipRcvd, id);
    case ReaderPostSip => KeepSized(s, ReaderHand, SignalQ, t);
    case ReaderFailSip => KeepSized(s, ReaderHand, SipPool, t);
    case ReaderTakeRtp(id) => AllocSized(s, AudioPool, ReaderHand, Dec, id);
    case ReaderPostRtp =>
      Front(s, ReaderHand);
      KeepSized(s, ReaderHand, CodecQ, t);
    case WriterTake =>
      Front(s, SendQ);
      KeepSized(s, SendQ, WriterHand, t);
    case WriterDone =>
      Front(s, WriterHand);
      KeepSized(s, WriterHand, WriterPlace(At(s.at, WriterHand)[0].code), t);
    case WriterDownsize(pool) => TakeSized(s, pool);
    case AgentTake(e) => KeepSized(s, SignalQ, AgentHand, t);
    case AgentTimeout => SameSized(s, t);
    case AgentDo(id) => EffectSized(s, id);
    case DrainTake(queue) => KeepSized(s, queue, DrainHand, t);
    case DrainPut => KeepSized(s, DrainHand, AudioPool, t);
    case DrainDone => SameSized(s, t);
    case CodecTake =>
      Front(s, CodecQ);
      KeepSized(s, CodecQ, CodecHand, t);
    case CodecDone =>
      Front(s, CodecHand);
      var code := At(s.at, CodecHand)[0].code;
      MoveSized(s, CodecHand, CodecPlace(code), CodecCode(code), t);
    case AudioInTake(id) => AllocSized(s, AudioPool, AudioInHand, Enc, id);
    case AudioInPost =>
      Front(s, AudioInHand);
      KeepSized(s, AudioInHand, CodecQ, t);
    case AudioOutTake =>
      Front(s, PlayQ);
      KeepSized(s, PlayQ, AudioOutHand, t);
    case AudioOutDone =>
      Front(s, AudioOutHand);
      KeepSized(s, AudioOutHand, AudioPool, t);
  }

  lemma EffectSized(s: System, id: nat)
    requires Sized(s) && Sorted(s) && s.todo != [] && !s.todo[0].Drain? && (s.todo[0].Alloc? || Has(s, AgentHand))
    ensures Sized(AgentEffect(s, id))
  {
    hide Sized, Sorted, Move, Keep, AllocIn;
    var t := AgentEffect(s, id);
    if s.todo[0].Alloc? {
      AllocSized(s, SipPool, AgentHand, Other, id);
      SameSized(AllocIn(s, SipPool, AgentHand, Other, id), t);
    } else {
      Front(s, AgentHand);
      if s.todo[0].SendMemo? {
        MoveSized(s, AgentHand, SendQ, SipSend, t);
      } else {
        KeepSized(s, AgentHand, if s.todo[0].Release? then SipPool else Dropped, t);
      }
    }
  }

  ghost predicate NoSipDrained(s: System, steps: seq<Step>)
    requires Possible(s, steps)
    decreases |steps|
  {
    steps == [] || (!DrainsSip(s, steps[0]) && NoSipDrained(Do(s, steps[0]), steps[1..]))
  }

  lemma {:induction false} RunSized(s: System, steps: seq<Step>)
    requires Possible(s, steps) && Sized(s) && Sorted(s) && NoSipDrained(s, steps)
    ensures Sized(After(s, steps))
    decreases |steps|
  {
    hide Sized, Sorted, Do, May, DrainsSip;
    if steps != [] {
      StepSized(s, steps[0]);
      StepSorts(s, steps[0]);
      RunSized(Do(s, steps[0]), steps[1..]);
    }
  }

  /** In every run in which no drain has given away a memo of the SIP size, the audio pool holds only
      memos of the audio size and the SIP pool only its own. */
  lemma PoolsStayApart(audio: nat, sip: nat, agent: UserAgent.Agent, steps: seq<Step>)
    requires Possible(Start(audio, sip, agent), steps) && NoSipDrained(Start(audio, sip, agent), steps)
    ensures var s := After(Start(audio, sip, agent), steps);
            && (forall i :: 0 <= i < |At(s.at, AudioPool)| ==> !At(s.at, AudioPool)[i].sip)
            && (forall i :: 0 <= i < |At(s.at, SipPool)| ==> At(s.at, SipPool)[i].sip)
  {
    hide Possible, After, NoSipDrained, Sorted, Start;
    var start := Start(audio, sip, agent);
    StartSorted(audio, sip, agent);
    StartSized(audio, sip, agent);
    RunSized(start, steps);
    MemoConservation(audio, sip, agent, steps);
    var s := After(start, steps);
    assert AllSized(AudioPool, At(s.at, AudioPool));
    assert forall i :: 0 <= i < |At(s.at, AudioPool)| ==> SizeFits(AudioPool, At(s.at, AudioPool)[i]);
  }

  lemma StartSized(audio: nat, sip: nat, agent: UserAgent.Agent)
    ensures Sized(Start(audio, sip, agent))
  {
    forall p: Place
      ensures AllSized(p, At(Start(audio, sip, agent).at, p))
    {
    }
  }

  // The one step that mixes them does so at once.
  lemma DrainMixesPools(s: System, step: Step)
    requires May(s, step) && AgentReady(s) && DrainsSip(s, step)
    ensures exists x :: x in At(Do(s, step).at, AudioPool) && x.sip
  {
    var x := At(s.at, DrainHand)[0];
    assert At(Do(s, step).at, AudioPool) == At(s.at, AudioPool) + [x];
  }

  // ---------------------------------------------------------------- the agent goes on

  lemma {:induction false} SomeFresh(ids: set<nat>) returns (id: nat)
    ensures forall other :: other in ids ==> other < id
    decreases ids
  {
    if ids == {} {
      id := 0;
    } else {
      var one :| one in ids;
      var above := SomeFresh(ids - {one});
      id := if one < above then above else one + 1;
      forall other | other in ids
        ensures other < id
      {
        assert other == one || other in ids - {one};
      }
    }
  }

  // One step of the agent's own brings it nearer to the end of its event.
  function Left(s: System): nat {
    |s.todo| + |At(s.at, DrainHand)|
  }

  lemma AgentStep(s: System, id: nat) returns (step: Step)
    requires Handed(s) && Fresh(s, id) && s.todo != []
    ensures step.DrainPut? || step.DrainDone? || step.AgentDo?
    ensures May(s, step) && AgentReady(s) && Left(Do(s, step)) < Left(s)
  {
    hide Move;
    step := if Has(s, DrainHand) then DrainPut else if s.todo[0].Drain? then DrainDone else AgentDo(id);
    StepHands(s, step);
    DrainHandAfter(s, step);
  }

  lemma DrainHandAfter(s: System, step: Step)
    requires May(s, step) && AgentReady(s) && (step.DrainPut? || step.DrainDone? || step.AgentDo?)
    ensures At(Do(s, step).at, DrainHand) == if step.DrainPut? then At(s.at, DrainHand)[1..] else At(s.at, DrainHand)
  {
  }

  /** From any sound state, the agent can finish the event in progress by steps of its own alone. */
  lemma {:induction false} AgentFinishes(s: System) returns (steps: seq<Step>)
    requires Sound(s)
    ensures Possible(s, steps) && |steps| <= Left(s)
    ensures forall i :: 0 <= i < |steps| ==> steps[i].DrainPut? || steps[i].DrainDone? || steps[i].AgentDo?
    ensures After(s, steps).todo == []
    decreases Left(s)
  {
    hide Conserved, Sorted, Handed, Do, May, AgentReady;
    if s.todo == [] {
      steps := [];
    } else {
      var id := SomeFresh(s.live);
      var step := AgentStep(s, id);
      RunIsSound(s, [step]);
      var rest := AgentFinishes(Do(s, step));
      steps := [step] + rest;
      assert steps[1..] == rest;
    }
  }

  lemma CommandTaken(s: System, code: MemoCode, id: nat)
    requires !Has(s, ConsoleSip)
    ensures var t := AllocIn(s, SipPool, ConsoleSip, code, id);
            && |At(t.at, ConsoleSip)| == 1 && At(t.at, ConsoleSip)[0].code == code
            && At(t.at, SignalQ) == At(s.at, SignalQ)
  {
  }

  lemma CommandPosted(s: System)
    requires Has(s, ConsoleSip)
    ensures At(Keep(s.at, ConsoleSip, SignalQ), SignalQ) == At(s.at, SignalQ) + [At(s.at, ConsoleSip)[0]]
  {
  }

  // What the console lets through: it looks at the two flags first.
  predicate Offered(a: UserAgent.Agent, code: MemoCode) {
    match code
    case SipInvite => !a.ringing && !a.connected
    case SipAccept => a.ringing
    case SipReject => a.ringing
    case SipBye => a.connected
    case Respond => true
    case _ => false
  }

  /** A command the console lets through reaches the agent's queue, behind what lay there. */
  lemma CommandsAreHeard(s: System, code: MemoCode) returns (steps: seq<Step>)
    requires Sound(s) && !Has(s, ConsoleSip) && Offered(s.agent, code)
    ensures Possible(s, steps)
    ensures var q := At(After(s, steps).at, SignalQ);
            |q| == |At(s.at, SignalQ)| + 1 && q[..|q| - 1] == At(s.at, SignalQ) && q[|q| - 1].code == code
  {
    var id := SomeFresh(s.live);
    var take, t := ConsoleTakeSip(code, id), AllocIn(s, SipPool, ConsoleSip, code, id);
    hide Move, AllocIn, Sorted, Conserved, Handed, AgentReady;
    steps := [take, ConsolePostSip];
    CommandTaken(s, code, id);
    CommandPosted(t);
    StepHands(s, take);
    StepHands(t, ConsolePostSip);
    assert steps[1..] == [ConsolePostSip] && [ConsolePostSip][1..] == [];
    assert After(t, [ConsolePostSip]) == Do(t, ConsolePostSip);
  }

  /** What lies first in its queue the agent can take: a SIP datagram as any packet at all, or as one
      that does not parse. */
  lemma AgentCanTake(s: System)
    requires s.todo == [] && Has(s, SignalQ)
    ensures exists e :: May(s, AgentTake(e))
    ensures At(s.at, SignalQ)[0].code == SipRcvd ==>
      May(s, AgentTake(UserAgent.ParseError)) && forall p :: May(s, AgentTake(UserAgent.Received(p)))
  {
    var code := At(s.at, SignalQ)[0].code;
    var e := match code
      case SipInvite => UserAgent.InviteCommand(true, 0)
      case SipBye => UserAgent.ByeCommand
      case SipAccept => UserAgent.AcceptCommand
      case SipReject => UserAgent.RejectCommand
      case SipRcvd => UserAgent.ParseError
      case Respond => UserAgent.RespondCommand
      case _ => UserAgent.UnknownCommand;
    assert May(s, AgentTake(e));
  }
}
