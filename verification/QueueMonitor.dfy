/** Every interleaving of threads on one queue: the sections of src/SyncQueue.cpp between lock and
    unlock are the steps, with spurious wake-ups, time-outs and stealing in between. */
module QueueMonitor {
  import opened Options
  import opened SyncQueue

  // A thread inside waitForData: blocked on the condition variable, or released by a signal, a
  // time-out or nothing at all, and yet to take the mutex.
  datatype Phase = Blocked(timed: bool) | Woken(timed: bool)

  datatype Monitor<T> = Monitor(
    q: Guarded<T>,
    inside: map<nat, Phase>,
    inserted: seq<T>,      // everything ever put in, in order
    removed: seq<T>)       // everything ever handed out, in order

  function Start<T>(): Monitor<T> {
    Monitor(Guarded([], 0), map[], [], [])
  }

  function BlockedIn<T>(m: Monitor<T>): set<nat> {
    set t | t in m.inside && m.inside[t].Blocked?
  }

  function WokenIn<T>(m: Monitor<T>): set<nat> {
    set t | t in m.inside && m.inside[t].Woken?
  }

  // pthread_cond_signal frees at least one of the threads blocked, if there is any.
  predicate Frees<T>(m: Monitor<T>, freed: set<nat>) {
    freed <= BlockedIn(m) && (BlockedIn(m) != {} ==> freed != {})
  }

  datatype Action<T> =
    | EnQ(data: T)
    | DeQ
    | SignalData(data: T, freed: set<nat>)
    | Signal(freed: set<nat>)
    | Enter(t: nat, timed: bool)   // waitForData up to the wait
    | Wake(t: nat)                 // time-out or spurious
    | Leave(t: nat)                // waitForData from the wait on

  predicate May<T>(m: Monitor<T>, a: Action<T>) {
    match a
    case SignalData(_, freed) => if m.q.waiting != 0 then Frees(m, freed) else freed == {}
    case Signal(freed) => Frees(m, freed)
    case Enter(t, _) => t !in m.inside
    case Wake(t) => t in m.inside && m.inside[t].Blocked?
    case Leave(t) => t in m.inside && m.inside[t].Woken?
    case _ => true
  }

  function Free<T>(m: Monitor<T>, freed: set<nat>): Monitor<T> {
    m.(inside := map t | t in m.inside ::
         if t in freed && m.inside[t].Blocked? then Woken(m.inside[t].timed) else m.inside[t])
  }

  function HandOut<T>(m: Monitor<T>, data: Option<T>): Monitor<T> {
    m.(removed := m.removed + if data.Some? then [data.value] else [])
  }

  function Settle<T>(m: Monitor<T>, t: nat, timed: bool, r: (Guarded<T>, Wait<T>)): Monitor<T> {
    match r.1
    case Blocks => m.(q := r.0, inside := m.inside[t := Blocked(timed)])
    case Returns(data) => HandOut(m.(q := r.0, inside := m.inside - {t}), data)
  }

  function Act<T>(m: Monitor<T>, a: Action<T>): Monitor<T>
    requires May(m, a)
  {
    match a
    case EnQ(data) => m.(q := m.q.Push(data), inserted := m.inserted + [data])
    case DeQ => HandOut(m.(q := m.q.Pop()), m.q.Front())
    case SignalData(data, freed) => Free(m.(q := m.q.Push(data), inserted := m.inserted + [data]), freed)
    case Signal(freed) => Free(m, freed)
    case Enter(t, timed) => Settle(m, t, timed, BeginWait(m.q))
    case Wake(t) => Free(m, {t})
    case Leave(t) => Settle(m, t, m.inside[t].timed, EndWait(m.q, m.inside[t].timed))
  }

  predicate Possible<T>(m: Monitor<T>, actions: seq<Action<T>>)
    decreases |actions|
  {
    actions == [] || (May(m, actions[0]) && Possible(Act(m, actions[0]), actions[1..]))
  }

  function After<T>(m: Monitor<T>, actions: seq<Action<T>>): Monitor<T>
    requires Possible(m, actions)
    decreases |actions|
  {
    if actions == [] then m else After(Act(m, actions[0]), actions[1..])
  }

  // ---------------------------------------------------------------- history

  predicate InOrder<T(==)>(m: Monitor<T>) {
    m.inserted == m.removed + m.q.dataQ
  }

  lemma ActKeepsOrder<T>(m: Monitor<T>, a: Action<T>)
    requires InOrder(m) && May(m, a)
    ensures InOrder(Act(m, a))
  {
    if m.q.dataQ != [] {
      assert m.removed + m.q.dataQ == (m.removed + [m.q.dataQ[0]]) + m.q.dataQ[1..];
    }
  }

  /** In every interleaving, what was ever inserted is what was ever handed out followed by what
      is still queued: nothing is lost, doubled or reordered. */
  lemma {:induction false} QueueHistory<T>(m: Monitor<T>, actions: seq<Action<T>>)
    requires InOrder(m) && Possible(m, actions)
    ensures InOrder(After(m, actions))
    decreases |actions|
  {
    if actions != [] {
      ActKeepsOrder(m, actions[0]);
      QueueHistory(Act(m, actions[0]), actions[1..]);
    }
  }

  // ---------------------------------------------------------------- waiters

  lemma PartSizes<T>(m: Monitor<T>)
    ensures |BlockedIn(m)| + |WokenIn(m)| == |m.inside|
  {
    assert BlockedIn(m) + WokenIn(m) == m.inside.Keys;
    assert BlockedIn(m) !! WokenIn(m);
  }

  lemma FreeMoves<T>(m: Monitor<T>, freed: set<nat>)
    requires freed <= BlockedIn(m)
    ensures BlockedIn(Free(m, freed)) == BlockedIn(m) - freed
    ensures WokenIn(Free(m, freed)) == WokenIn(m) + freed
    ensures |WokenIn(Free(m, freed))| == |WokenIn(m)| + |freed|
    ensures Free(m, freed).inside.Keys == m.inside.Keys
  {
    assert WokenIn(m) !! freed;
  }

  predicate Counted<T>(m: Monitor<T>) {
    m.q.waiting == |m.inside|
  }

  lemma ActKeepsCount<T>(m: Monitor<T>, a: Action<T>)
    requires Counted(m) && May(m, a)
    ensures Counted(Act(m, a))
  {
    match a
    case SignalData(_, freed) => assert Act(m, a).inside.Keys == m.inside.Keys;
    case Signal(freed) => assert Act(m, a).inside.Keys == m.inside.Keys;
    case Wake(_) => assert Act(m, a).inside.Keys == m.inside.Keys;
    case Enter(t, timed) => SettleKeepsCount(m, t, timed, BeginWait(m.q));
    case Leave(t) => SettleKeepsCount(m.(inside := m.inside - {t}), t, m.inside[t].timed, EndWait(m.q, m.inside[t].timed));
    case _ =>
  }

  // A thread outside that blocks is one more inside.
  lemma SettleKeepsCount<T>(m: Monitor<T>, t: nat, timed: bool, r: (Guarded<T>, Wait<T>))
    requires t !in m.inside
    ensures |Settle(m, t, timed, r).inside| == |m.inside| + if r.1.Blocks? then 1 else 0
  {
    assert m.inside[t := Blocked(timed)].Keys == m.inside.Keys + {t};
    assert (m.inside - {t}).Keys == m.inside.Keys;
  }

  /** In every run the waiting count is the number of threads inside a wait. */
  lemma {:induction false} WaitingIsCounted<T>(m: Monitor<T>, actions: seq<Action<T>>)
    requires Counted(m) && Possible(m, actions)
    ensures Counted(After(m, actions))
    decreases |actions|
  {
    if actions != [] {
      ActKeepsCount(m, actions[0]);
      WaitingIsCounted(Act(m, actions[0]), actions[1..]);
    }
  }

  // ---------------------------------------------------------------- who returns, and with what

  /** A thread that comes to an empty queue waits. On waking it returns when there is an item or its
      wait was timed, else it waits again; and a thread that returns takes the front item if there
      is one. */
  lemma WhoReturns<T>(m: Monitor<T>, t: nat, a: Action<T>)
    requires May(m, a) && (a.Leave? || a.Enter?) && a.t == t
    ensures var m' := Act(m, a);
            var timed := if a.Enter? then a.timed else m.inside[t].timed;
            && (t in m'.inside <==> m.q.dataQ == [] && (a.Enter? || !timed))
            && (t in m'.inside ==> m'.inside[t] == Blocked(timed) && m'.removed == m.removed && m'.q.dataQ == [])
            && (t !in m'.inside ==>
                  if m.q.dataQ == [] then m'.q.dataQ == [] && m'.removed == m.removed
                  else m'.q.dataQ == m.q.dataQ[1..] && m'.removed == m.removed + [m.q.dataQ[0]])
            && (forall u :: u != t ==> (u in m'.inside <==> u in m.inside) && (u in m.inside ==> m'.inside[u] == m.inside[u]))
  {
  }

  // ---------------------------------------------------------------- no lost wake-up

  // While some thread is blocked, every queued item but `spare` has a woken thread coming for it.
  predicate Attended<T>(m: Monitor<T>, spare: nat) {
    BlockedIn(m) != {} ==> |m.q.dataQ| <= |WokenIn(m)| + spare
  }

  lemma SignalKeepsAttended<T>(m: Monitor<T>, a: Action<T>, spare: nat)
    requires Counted(m) && Attended(m, spare) && May(m, a) && (a.SignalData? || a.Signal? || a.Wake?)
    ensures Attended(Act(m, a), spare)
  {
    PartSizes(m);
    var freed := match a case SignalData(_, f) => f case Signal(f) => f case Wake(t) => {t};
    FreeMoves(if a.SignalData? then m.(q := m.q.Push(a.data)) else m, freed);
    assert BlockedIn(Act(m, a)) == BlockedIn(m) - freed;
    assert WokenIn(Act(m, a)) == WokenIn(m) + freed;
    assert BlockedIn(m) != {} && a.SignalData? ==> |freed| >= 1;
  }

  lemma WaitKeepsAttended<T>(m: Monitor<T>, a: Action<T>, spare: nat)
    requires Counted(m) && Attended(m, spare) && May(m, a) && (a.Enter? || a.Leave? || a.DeQ?)
    ensures Attended(Act(m, a), spare)
  {
    var m' := Act(m, a);
    match a
    case DeQ =>
      assert BlockedIn(m') == BlockedIn(m) && WokenIn(m') == WokenIn(m);
    case Enter(t, timed) =>
      if m.q.dataQ != [] {
        assert BlockedIn(m') == BlockedIn(m) && WokenIn(m') == WokenIn(m);
      }
    case Leave(t) =>
      assert WokenIn(m') == WokenIn(m) - {t};
      if m.q.dataQ != [] || m.inside[t].timed {
        assert BlockedIn(m') == BlockedIn(m);
      }
  }

  lemma EnQNeedsOneMore<T>(m: Monitor<T>, data: T, spare: nat)
    requires Attended(m, spare)
    ensures Attended(Act(m, EnQ(data)), spare + 1)
  {
    var m' := Act(m, EnQ(data));
    assert BlockedIn(m') == BlockedIn(m) && WokenIn(m') == WokenIn(m);
  }

  function EnQs<T>(actions: seq<Action<T>>): nat {
    if actions == [] then 0 else (if actions[0].EnQ? then 1 else 0) + EnQs(actions[1..])
  }

  /** In every run, with time-outs, spurious wake-ups, stealing and signal: as long as a thread is
      blocked, the queued items outnumber the woken threads by no more than the calls of enQ, which
      signals nobody. */
  lemma {:induction false} EveryRunIsAttended<T>(m: Monitor<T>, actions: seq<Action<T>>, spare: nat)
    requires Counted(m) && Attended(m, spare) && Possible(m, actions)
    ensures Attended(After(m, actions), spare + EnQs(actions))
    decreases |actions|
  {
    hide Attended, Counted, Act;
    if actions != [] {
      var a := actions[0];
      ActKeepsCount(m, a);
      if a.EnQ? {
        EnQNeedsOneMore(m, a.data, spare);
        EveryRunIsAttended(Act(m, a), actions[1..], spare + 1);
      } else {
        if a.SignalData? || a.Signal? || a.Wake? {
          SignalKeepsAttended(m, a, spare);
        } else {
          WaitKeepsAttended(m, a, spare);
        }
        EveryRunIsAttended(Act(m, a), actions[1..], spare);
      }
    }
  }

  lemma StartIsSound<T>()
    ensures var m := Start<T>(); InOrder(m) && Counted(m) && Attended(m, 0)
  {
  }

  /** No lost wake-up: from the start and without enQ, as long as a thread is blocked there are at
      least as many woken threads as queued items; no item waits while all waiters sleep. */
  lemma NoLostWakeUp<T>(actions: seq<Action<T>>)
    requires Possible(Start<T>(), actions) && EnQs(actions) == 0
    ensures var m := After(Start<T>(), actions);
            && (BlockedIn(m) != {} ==> |m.q.dataQ| <= |WokenIn(m)|)
            && (BlockedIn(m) != {} && m.q.dataQ != [] ==> WokenIn(m) != {})
  {
    hide Possible, After, EnQs;
    StartIsSound<T>();
    EveryRunIsAttended(Start<T>(), actions, 0);
  }

  function EnQAll<T>(data: seq<T>): seq<Action<T>> {
    if data == [] then [] else [EnQ(data[0])] + EnQAll(data[1..])
  }

  lemma {:induction false} AfterEnQAll<T>(m: Monitor<T>, data: seq<T>)
    ensures Possible(m, EnQAll(data)) && EnQs(EnQAll(data)) == |data|
    ensures var n := After(m, EnQAll(data));
            n.q.dataQ == m.q.dataQ + data && n.inside == m.inside
    decreases |data|
  {
    if data == [] {
      assert m.q.dataQ + data == m.q.dataQ;
    } else {
      var first, rest := EnQ(data[0]), EnQAll(data[1..]);
      Regroup(m.q.dataQ, data);
      AfterOneEnQ(m, data[0]);
      AfterEnQAll(Act(m, first), data[1..]);
      assert EnQAll(data)[0] == first && EnQAll(data)[1..] == rest;
      hide Act, May, EnQAll;
    }
  }

  lemma Regroup<T>(a: seq<T>, b: seq<T>)
    requires b != []
    ensures (a + [b[0]]) + b[1..] == a + b
  {
  }

  lemma AfterOneEnQ<T>(m: Monitor<T>, data: T)
    ensures May(m, EnQ(data))
    ensures var n := Act(m, EnQ(data));
            n.q.dataQ == m.q.dataQ + [data] && n.inside == m.inside
  {
  }

  /** The bound is reached, by every number of calls: a thread waits, any data are put in by enQ, and
      it is still blocked, all of them queued and nobody woken. */
  lemma EnQLosesWakeUps<T>(data: seq<T>)
    ensures var actions := [Enter(0, false)] + EnQAll(data);
            && Possible(Start<T>(), actions) && EnQs(actions) == |data|
            && var m := After(Start<T>(), actions);
               BlockedIn(m) == {0} && WokenIn(m) == {} && m.q.dataQ == data
  {
    var enter: Action<T> := Enter(0, false);
    var actions := [enter] + EnQAll(data);
    var m := Act(Start<T>(), enter);
    assert actions[1..] == EnQAll(data);
    assert m.inside == map[0 := Blocked(false)] && m.q.dataQ == [];
    AfterEnQAll(m, data);
    assert [] + data == data;
  }
}
