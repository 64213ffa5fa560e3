/** The memo pool of src/ResourceManager.cpp and the queue emptying of src/Common.cpp, one thread at
    a time. */
module ResourceManager {
  import opened MachineInts
  import opened Options
  import opened SyncQueue
  import opened Memos

  predicate Distinct<T(==)>(s: seq<T>) {
    forall i, j :: 0 <= i < j < |s| ==> s[i] != s[j]
  }

  class Pool {
    const memoQ: Queue<Memo>
    var total: int
    const initCount: nat
    const size: nat

    constructor (initCount: nat, size: nat)
      ensures fresh(memoQ) && memoQ.dataQ == [] && total == 0
      ensures this.initCount == initCount && this.size == size
    {
      memoQ := new Queue<Memo>();
      this.initCount, this.size, total := initCount, size, 0;
    }

    // Fills the pool with initCount new memos behind whatever it held; total restarts at zero.
    method Init() returns (ret: int)
      modifies this, memoQ
      ensures ret == total == initCount
      ensures |memoQ.dataQ| == |old(memoQ.dataQ)| + initCount
      ensures memoQ.dataQ[..|old(memoQ.dataQ)|] == old(memoQ.dataQ)
      ensures var added := memoQ.dataQ[|old(memoQ.dataQ)|..];
              && Distinct(added)
              && forall i :: 0 <= i < |added| ==>
                   fresh(added[i]) && added[i].id == ToShort(i) && added[i].bytes.Length == size
    {
      ghost var before := memoQ.dataQ;
      ghost var added: seq<Memo> := [];
      total := 0;
      while total < initCount
        invariant 0 <= total == |added| <= initCount
        invariant memoQ.dataQ == before + added && Distinct(added)
        invariant forall i :: 0 <= i < |added| ==>
          fresh(added[i]) && added[i].id == ToShort(i) && added[i].bytes.Length == size
      {
        var memo := new Memo(ToShort(total), size);
        memoQ.EnQ(memo);
        added := added + [memo];
        total := total + 1;
      }
      ret := total;
    }

    // The front memo, or a new one counted in total when the pool is empty.
    method AllocMemo() returns (memo: Memo)
      modifies this, memoQ
      ensures memoQ.View() == old(memoQ.View()).Pop()
      ensures if old(memoQ.dataQ) != [] then memo == old(memoQ.dataQ)[0] && total == old(total)
              else
                && fresh(memo) && memo.id == ToShort(old(total)) && memo.bytes.Length == size
                && total == old(total) + 1
    {
      var front := memoQ.DeQ();
      match front
      case Some(m) =>
        memo := m;
      case None =>
        memo := new Memo(ToShort(total), size);
        total := total + 1;
    }

    method ReleaseMemo(memo: Memo?)
      modifies memoQ
      ensures memoQ.View() == if memo == null then old(memoQ.View()) else old(memoQ.View()).Push(memo)
    {
      if memo != null {
        memoQ.EnQ(memo);
      }
    }

    // How many memos a pool of this size gives up: a twentieth, once it holds more than twice
    // its initial count.
    function Surplus(count: nat): (n: nat)
      ensures n <= count
      ensures n > 0 ==> count - n >= initCount
      ensures if count <= 2 * initCount then n == 0 else 20 * n <= count < 20 * n + 20
    {
      if count <= initCount * 2 then 0 else count / 20
    }

    method Downsize() returns (ret: int)
      modifies this, memoQ
      ensures var n := Surplus(|old(memoQ.dataQ)|);
              ret == n && memoQ.dataQ == old(memoQ.dataQ)[n..] && total == old(total) - n
    {
      if |memoQ.dataQ| <= initCount * 2 {
        return 0;
      }
      var emptied := |memoQ.dataQ| / 20;
      ret := emptied;
      while emptied > 0
        invariant 0 <= emptied <= ret <= |old(memoQ.dataQ)|
        invariant memoQ.dataQ == old(memoQ.dataQ)[ret - emptied..]
        invariant total == old(total) - (ret - emptied)
      {
        var memo := memoQ.DeQ();
        if memo.Some? {
          total := total - 1;
          emptied := emptied - 1;
        } else {
          break;
        }
      }
    }
  }

  // emptyQueue: everything queued goes to the pool, in order.
  method EmptyQueue(queue: Queue<Memo>, pool: Pool) returns (transferred: int)
    requires queue != pool.memoQ
    modifies queue, pool.memoQ
    ensures queue.dataQ == []
    ensures pool.memoQ.dataQ == old(pool.memoQ.dataQ) + old(queue.dataQ)
    ensures transferred == |old(queue.dataQ)|
  {
    transferred := 0;
    while |queue.dataQ| > 0
      invariant 0 <= transferred <= |old(queue.dataQ)|
      invariant queue.dataQ == old(queue.dataQ)[transferred..]
      invariant pool.memoQ.dataQ == old(pool.memoQ.dataQ) + old(queue.dataQ)[..transferred]
      decreases |queue.dataQ|
    {
      var memo := queue.DeQ();
      if memo.Some? {
        pool.ReleaseMemo(memo.value);
      }
      transferred := transferred + 1;
    }
  }
}
