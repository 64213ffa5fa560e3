/** The thread-safe queue of src/SyncQueue.cpp, POSIX branch: a deque, a mutex, a condition variable
    and a count of waiters that decides whether signalData signals at all. */
module SyncQueue {
  import opened Options

  // What the mutex protects.
  datatype Guarded<T> = Guarded(dataQ: seq<T>, waiting: int) {
    function Push(data: T): Guarded<T> {
      this.(dataQ := dataQ + [data])
    }

    function Front(): Option<T> {
      if dataQ == [] then None else Some(dataQ[0])
    }

    function Pop(): Guarded<T> {
      if dataQ == [] then this else this.(dataQ := dataQ[1..])
    }
  }

  // What a section of waitForData ends with: blocked on the condition variable, or returned.
  datatype Wait<+T> = Blocks | Returns(data: Option<T>)

  // From the lock to the wait on the condition variable, or straight through.
  function BeginWait<T>(g: Guarded<T>): (Guarded<T>, Wait<T>) {
    if g.dataQ == [] then (g.(waiting := g.waiting + 1), Blocks) else (g.Pop(), Returns(g.Front()))
  }

  // From the return of the wait on the condition variable, the mutex held again. A timed wait
  // returns even when empty-handed; an untimed one waits again.
  function EndWait<T>(g: Guarded<T>, timed: bool): (Guarded<T>, Wait<T>) {
    var h := g.(waiting := g.waiting - 1);
    if timed then (h.Pop(), Returns(h.Front())) else BeginWait(h)
  }

  /** The queue object. Each method is what one thread does while it holds the mutex; SignalData
      says whether it signalled the condition variable. */
  class Queue<T> {
    var dataQ: seq<T>
    var waiting: int

    ghost function View(): Guarded<T>
      reads this
    {
      Guarded(dataQ, waiting)
    }

    constructor ()
      ensures View() == Guarded([], 0)
    {
      dataQ, waiting := [], 0;
    }

    method EnQ(data: T)
      modifies this
      ensures View() == old(View()).Push(data)
    {
      dataQ := dataQ + [data];
    }

    method DeQ() returns (data: Option<T>)
      modifies this
      ensures View() == old(View()).Pop() && data == old(View()).Front()
    {
      data := None;
      if |dataQ| > 0 {
        data := Some(dataQ[0]);
        dataQ := dataQ[1..];
      }
    }

    method Count() returns (count: nat)
      ensures count == |dataQ|
    {
      count := |dataQ|;
    }

    method SignalData(data: T) returns (signalled: bool)
      modifies this
      ensures View() == old(View()).Push(data) && (signalled <==> old(waiting) != 0)
    {
      dataQ := dataQ + [data];
      signalled := waiting != 0;
    }

    method EnterWait() returns (r: Wait<T>)
      modifies this
      ensures (View(), r) == BeginWait(old(View()))
    {
      if |dataQ| < 1 {
        waiting := waiting + 1;
        r := Blocks;
      } else {
        r := Returns(Some(dataQ[0]));
        dataQ := dataQ[1..];
      }
    }

    method LeaveWait(timed: bool) returns (r: Wait<T>)
      modifies this
      ensures (View(), r) == EndWait(old(View()), timed)
    {
      waiting := waiting - 1;
      if timed {
        r := Returns(None);
        if |dataQ| > 0 {
          r := Returns(Some(dataQ[0]));
          dataQ := dataQ[1..];
        }
      } else {
        r := EnterWait();
      }
    }
  }
}
