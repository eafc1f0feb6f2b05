/** `ThreadSafeQueue` as one thread at a time sees it. Module Monitor models the lock and the
    condition variable and proves that the threads' calls take effect like these methods. */
module SafeQueue {
  import opened Types

  /** What a finished critical section did to the deque. */
  datatype Op<T> = Pushed(value: T) | PushedFront(value: T) | Popped(value: T) | Cleared

  /** None: the operation could not have happened on this deque. */
  function Do<T(==)>(que: seq<T>, op: Op<T>): Option<seq<T>> {
    match op
    case Pushed(v) => Some(que + [v])
    case PushedFront(v) => Some([v] + que)
    case Popped(v) => if que != [] && que[0] == v then Some(que[1..]) else None
    case Cleared => Some([])
  }

  /** A sequential run from the empty deque. */
  function Replay<T(==)>(ops: seq<Op<T>>): Option<seq<T>> {
    if ops == [] then Some([])
    else
      match Replay(ops[..|ops| - 1])
      case None => None
      case Some(que) => Do(que, ops[|ops| - 1])
  }

  class ThreadSafeQueue<T(==)> {
    var que: seq<T>

    constructor ()
      ensures que == []
    {
      que := [];
    }

    method Push(value: T)
      modifies this
      ensures que == old(que) + [value] && Some(que) == Do(old(que), Pushed(value))
    {
      que := que + [value];
    }

    method PushFront(value: T)
      modifies this
      ensures que == [value] + old(que) && Some(que) == Do(old(que), PushedFront(value))
    {
      que := [value] + que;
    }

    /** None stands for a caller that stays blocked on the empty queue. */
    method Pop() returns (res: Option<T>)
      modifies this
      ensures old(que) == [] ==> res == None && que == []
      ensures old(que) != [] ==> res.Some? && [res.value] + que == old(que) && Some(que) == Do(old(que), Popped(res.value))
    {
      if que == [] {
        return None;
      }
      res := Some(que[0]);
      que := que[1..];
    }

    method Clear()
      modifies this
      ensures que == [] && Some(que) == Do(old(que), Cleared)
    {
      que := [];
    }
  }

  // ----- Order -----

  function PushedValues<T>(ops: seq<Op<T>>): seq<T> {
    if ops == [] then []
    else PushedValues(ops[..|ops| - 1]) + (if ops[|ops| - 1].Pushed? then [ops[|ops| - 1].value] else [])
  }

  function PoppedValues<T>(ops: seq<Op<T>>): seq<T> {
    if ops == [] then []
    else PoppedValues(ops[..|ops| - 1]) + (if ops[|ops| - 1].Popped? then [ops[|ops| - 1].value] else [])
  }

  predicate Subsequence<T(==)>(a: seq<T>, b: seq<T>)
    decreases |b|
  {
    || a == []
    || (b != [] && Subsequence(a, b[..|b| - 1]))
    || (b != [] && a[|a| - 1] == b[|b| - 1] && Subsequence(a[..|a| - 1], b[..|b| - 1]))
  }

  lemma {:induction false} PrefixOfSubsequence<T>(a: seq<T>, c: seq<T>, b: seq<T>)
    requires Subsequence(a + c, b)
    ensures Subsequence(a, b)
    decreases |b|, |c|
  {
    if c == [] {
      assert a + c == a;
    } else if Subsequence(a + c, b[..|b| - 1]) {
      PrefixOfSubsequence(a, c, b[..|b| - 1]);
    } else {
      assert (a + c)[..|a + c| - 1] == a + c[..|c| - 1];
      PrefixOfSubsequence(a, c[..|c| - 1], b[..|b| - 1]);
    }
  }

  ghost predicate InOrder<T>(ops: seq<Op<T>>, que: seq<T>) {
    Subsequence(PoppedValues(ops) + que, PushedValues(ops))
  }

  ghost predicate Complete<T>(ops: seq<Op<T>>, que: seq<T>) {
    PoppedValues(ops) + que == PushedValues(ops)
  }

  lemma PushKeepsOrder<T>(popped: seq<T>, que: seq<T>, pushed: seq<T>, v: T)
    requires Subsequence(popped + que, pushed)
    ensures Subsequence(popped + (que + [v]), pushed + [v])
    ensures popped + que == pushed ==> popped + (que + [v]) == pushed + [v]
  {
    var a, b := popped + (que + [v]), pushed + [v];
    assert a == (popped + que) + [v];
    assert a[..|a| - 1] == popped + que && b[..|b| - 1] == pushed;
  }

  lemma LastOp<T>(ops: seq<Op<T>>, op: Op<T>)
    ensures PushedValues(ops + [op]) == PushedValues(ops) + (if op.Pushed? then [op.value] else [])
    ensures PoppedValues(ops + [op]) == PoppedValues(ops) + (if op.Popped? then [op.value] else [])
  {
    assert (ops + [op])[..|ops|] == ops;
  }

  lemma StepInOrder<T>(ops: seq<Op<T>>, que: seq<T>, op: Op<T>, que': seq<T>)
    requires InOrder(ops, que) && Do(que, op) == Some(que') && !op.PushedFront?
    ensures InOrder(ops + [op], que')
    ensures Complete(ops, que) && !op.Cleared? ==> Complete(ops + [op], que')
  {
    var popped, pushed := PoppedValues(ops), PushedValues(ops);
    LastOp(ops, op);
    if op.Pushed? {
      PushKeepsOrder(popped, que, pushed, op.value);
      assert PoppedValues(ops + [op]) + que' == popped + (que + [op.value]);
    } else if op.Popped? {
      assert PoppedValues(ops + [op]) + que' == popped + que && PushedValues(ops + [op]) == pushed;
    } else {
      PrefixOfSubsequence(popped, que, pushed);
      assert PoppedValues(ops + [op]) + que' == popped && PushedValues(ops + [op]) == pushed;
    }
  }

  /** Without `push_front` what is popped, followed by what is left, is a subsequence of what was
      pushed; without `clear` as well, nothing is missing from it. */
  lemma {:induction false} FirstInFirstOut<T>(ops: seq<Op<T>>)
    requires Replay(ops).Some?
    requires forall k :: 0 <= k < |ops| ==> !ops[k].PushedFront?
    ensures InOrder(ops, Replay(ops).value)
    ensures (forall k :: 0 <= k < |ops| ==> !ops[k].Cleared?) ==> Complete(ops, Replay(ops).value)
  {
    if ops != [] {
      var rest, last := ops[..|ops| - 1], ops[|ops| - 1];
      assert ops == rest + [last];
      FirstInFirstOut(rest);
      StepInOrder(rest, Replay(rest).value, last, Replay(ops).value);
    }
  }
}
