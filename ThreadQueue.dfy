/**
 * ThreadQueue<T>: a FIFO over a deque guarded by a critical section, whose
 * pop_front sleeps on a condition variable until an item is available. With
 * one thread there is nothing to wait for, so the wait becomes the
 * precondition that the queue is non-empty.
 */
module Queues {
  import opened Wrappers

  class ThreadQueue<T> {
    /** The deque, head first. */
    var items: seq<T>

    constructor ()
      ensures items == []
    {
      items := [];
    }

    method PushBack(t: T)
      modifies this
      ensures items == old(items) + [t]
      ensures |items| == |old(items)| + 1
    {
      items := items + [t];
    }

    method PopFront() returns (t: T)
      requires items != []
      modifies this
      ensures t == old(items)[0]
      ensures items == old(items)[1..]
      ensures |items| == |old(items)| - 1
    {
      t := items[0];
      items := items[1..];
    }
  }

  /** A run of one thread against the queue, as a sequence of calls. */
  datatype Op<T> = Push(item: T) | Pop

  /**
   * The deque and the items popped so far after `ops`, starting from an
   * empty queue; None when some pop found the queue empty and would block.
   */
  function Replay<T>(ops: seq<Op<T>>): (r: Option<(seq<T>, seq<T>)>)
    decreases |ops|
  {
    if ops == [] then Some(([], []))
    else
      match Replay(ops[..|ops| - 1])
      case None => None
      case Some((items, popped)) =>
        match ops[|ops| - 1]
        case Push(t) => Some((items + [t], popped))
        case Pop => if items == [] then None else Some((items[1..], popped + [items[0]]))
  }

  function Pushed<T>(ops: seq<Op<T>>): (pushed: seq<T>)
    decreases |ops|
  {
    if ops == [] then []
    else
      var rest := Pushed(ops[..|ops| - 1]);
      match ops[|ops| - 1]
      case Push(t) => rest + [t]
      case Pop => rest
  }

  function Pops<T>(ops: seq<Op<T>>): (n: nat)
    decreases |ops|
  {
    if ops == [] then 0 else Pops(ops[..|ops| - 1]) + (if ops[|ops| - 1].Pop? then 1 else 0)
  }

  /**
   * FIFO: the items popped, followed by those still queued, are exactly the
   * items pushed, in push order: nothing is lost, duplicated or reordered.
   */
  lemma {:induction false} FifoOrder<T>(ops: seq<Op<T>>)
    requires Replay(ops).Some?
    ensures var (items, popped) := Replay(ops).value;
            popped + items == Pushed(ops) && |popped| == Pops(ops)
    decreases |ops|
  {
    if ops != [] {
      var init := ops[..|ops| - 1];
      FifoOrder(init);
      var (items, popped) := Replay(init).value;
      match ops[|ops| - 1]
      case Push(t) =>
        assert popped + (items + [t]) == (popped + items) + [t];
      case Pop =>
        assert (popped + [items[0]]) + items[1..] == popped + items;
    }
  }

  /** A pop succeeds exactly when more items have been pushed than popped. */
  lemma {:induction false} PopNeedsPush<T>(ops: seq<Op<T>>)
    requires Replay(ops).Some?
    ensures Replay(ops + [Pop]).Some? <==> Pops(ops) < |Pushed(ops)|
  {
    FifoOrder(ops);
    assert (ops + [Pop])[..|ops + [Pop]| - 1] == ops;
  }

  /** Once a pop would block, the run never gets further. */
  lemma {:induction false} BlockedStaysBlocked<T>(ops: seq<Op<T>>, j: nat)
    requires j <= |ops| && Replay(ops[..j]).None?
    ensures Replay(ops).None?
    decreases |ops| - j
  {
    if j < |ops| {
      assert ops[..j + 1][..j] == ops[..j];
      BlockedStaysBlocked(ops, j + 1);
    } else {
      assert ops[..j] == ops;
    }
  }

  /**
   * One thread making the calls `ops` on a new ThreadQueue: the queue ends
   * holding what `Replay` says, and the items handed out by pop_front are
   * those `Replay` lists, so `FifoOrder` holds of the class itself. None
   * when a pop finds the queue empty and would wait forever.
   */
  method Apply<T>(ops: seq<Op<T>>) returns (r: Option<(seq<T>, seq<T>)>)
    ensures r == Replay(ops)
  {
    var q := new ThreadQueue<T>();
    var popped: seq<T> := [];
    var i := 0;
    while i < |ops|
      invariant 0 <= i <= |ops|
      invariant Replay(ops[..i]) == Some((q.items, popped))
    {
      assert ops[..i + 1][..i] == ops[..i];
      if ops[i].Push? {
        q.PushBack(ops[i].item);
      } else if q.items == [] {
        BlockedStaysBlocked(ops, i + 1);
        return None;
      } else {
        var t := q.PopFront();
        popped := popped + [t];
      }
      i := i + 1;
    }
    assert ops[..i] == ops;
    return Some((q.items, popped));
  }
}
