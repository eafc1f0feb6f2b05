/** `ThreadSafeQueue` under threads: the mutex, the condition variable and the deque as a
    transition system. Any number of threads call `push`, `push_front`, `pop` and `clear`; wakeups
    may be spurious and a caller that never slept may overtake one that was notified. Between any
    two operations on the deque or on the condition variable other threads may move; only the
    mutex keeps them out. */
module Monitor {
  import opened Types
  import opened SafeQueue

  datatype Call<T> = Push(value: T) | PushFront(value: T) | Pop | Clear

  /** `notified` tells whether a pop has come out of the wait set by `notify_one`. */
  datatype Phase<T> =
    | Outside
    | Entering(call: Call<T>)                   // blocked on the mutex
    | Inside(call: Call<T>)                     // holds the mutex
    | Notifying                                 // holds the mutex, has pushed, has not notified
    | Testing(notified: bool)                   // holds the mutex, about to test the queue
    | FoundEmpty                                // holds the mutex, the test failed, about to sleep
    | Asleep                                    // in the wait set, mutex released
    | Woken(notified: bool)                     // left the wait set, blocked on the mutex
    | FoundItem(notified: bool)                 // holds the mutex, the test passed, about to copy the front
    | Copied(notified: bool, value: T)          // holds the mutex, has the value, about to remove the front
    | Returning(result: Option<T>)              // holds the mutex, about to release it and return

  datatype Event<T> =
    | Invoked(thread: nat, call: Call<T>)
    | Effect(thread: nat, op: Op<T>)
    | Returned(thread: nat, result: Option<T>)

  /** `broken`: `front` or `pop_front` was called on an empty deque. */
  datatype State<T> = State(threads: seq<Phase<T>>, owner: Option<nat>, que: seq<T>, history: seq<Event<T>>, broken: bool)

  datatype Action<T> =
    | Invoke(thread: nat, call: Call<T>)
    | Acquire(thread: nat)
    | Work(thread: nat)
    | NotifyOne(thread: nat, sleeper: nat)
    | Spurious(thread: nat)
    | Release(thread: nat)

  function Initial<T>(n: nat): State<T> {
    State(seq(n, _ => Outside), None, [], [], false)
  }

  predicate Holds<T>(p: Phase<T>) {
    !p.Outside? && !p.Entering? && !p.Asleep? && !p.Woken?
  }

  ghost predicate AnyAsleep<T>(threads: seq<Phase<T>>) {
    exists t :: 0 <= t < |threads| && threads[t].Asleep?
  }

  ghost predicate Enabled<T>(s: State<T>, a: Action<T>) {
    && !s.broken && a.thread < |s.threads|
    && var p := s.threads[a.thread];
    match a
    case Invoke(_, _) => p.Outside?
    case Acquire(_) => s.owner == None && (p.Entering? || p.Woken?)
    case Work(_) => p.Inside? || p.Testing? || p.FoundEmpty? || p.FoundItem? || p.Copied?
    case NotifyOne(_, w) => p.Notifying? && (AnyAsleep(s.threads) ==> w < |s.threads| && s.threads[w].Asleep?)
    case Spurious(_) => p.Asleep?
    case Release(_) => p.Returning?
  }

  function To<T>(s: State<T>, t: nat, phase: Phase<T>): State<T>
    requires t < |s.threads|
  {
    s.(threads := s.threads[t := phase])
  }

  /** An operation that changes the deque. */
  function Finish<T>(s: State<T>, t: nat, phase: Phase<T>, que: seq<T>, op: Op<T>): State<T>
    requires t < |s.threads|
  {
    s.(threads := s.threads[t := phase], que := que, history := s.history + [Effect(t, op)])
  }

  /** What a thread does next, whoever holds the mutex. The test of the wait, the move into the
      wait set, `front` and `pop_front` are four steps. */
  function Worked<T>(s: State<T>, t: nat): State<T>
    requires t < |s.threads|
  {
    match s.threads[t]
    case Inside(Push(v)) => Finish(s, t, Notifying, s.que + [v], Pushed(v))
    case Inside(PushFront(v)) => Finish(s, t, Notifying, [v] + s.que, PushedFront(v))
    case Inside(Pop) => To(s, t, Testing(false))
    case Inside(Clear) => Finish(s, t, Returning(None), [], Cleared)
    case Testing(n) => To(s, t, if s.que == [] then FoundEmpty else FoundItem(n))
    case FoundEmpty => To(s, t, Asleep).(owner := None)
    case FoundItem(n) => if s.que == [] then s.(broken := true) else To(s, t, Copied(n, s.que[0]))
    case Copied(_, v) => if s.que == [] then s.(broken := true) else Finish(s, t, Returning(Some(v)), s.que[1..], Popped(v))
    case _ => s
  }

  ghost function Next<T>(s: State<T>, a: Action<T>): State<T>
    requires Enabled(s, a)
  {
    var t := a.thread;
    match a
    case Invoke(_, call) => To(s, t, Entering(call)).(history := s.history + [Invoked(t, call)])
    case Acquire(_) =>
      var p := s.threads[t];
      To(s, t, if p.Entering? then Inside(p.call) else Testing(p.notified)).(owner := Some(t))
    case Work(_) => Worked(s, t)
    case NotifyOne(_, w) =>
      var woken := if AnyAsleep(s.threads) then s.threads[w := Woken(true)] else s.threads;
      s.(threads := woken[t := Returning(None)])
    case Spurious(_) => To(s, t, Woken(false))
    case Release(_) =>
      To(s, t, Outside).(owner := None, history := s.history + [Returned(t, s.threads[t].result)])
  }

  /** `run` is a possible schedule from `s`. */
  ghost predicate Possible<T>(s: State<T>, run: seq<Action<T>>)
    decreases |run|
  {
    run == [] || (Enabled(s, run[0]) && Possible(Next(s, run[0]), run[1..]))
  }

  ghost function After<T>(s: State<T>, run: seq<Action<T>>): State<T>
    requires Possible(s, run)
    decreases |run|
  {
    if run == [] then s else After(Next(s, run[0]), run[1..])
  }

  // ----- Mutual exclusion and wakeups -----

  ghost predicate Exclusive<T>(s: State<T>) {
    && (s.owner.Some? ==> s.owner.value < |s.threads|)
    && forall t :: 0 <= t < |s.threads| ==> (Holds(s.threads[t]) <==> s.owner == Some(t))
  }

  /** What a thread has learned of the queue under the mutex still holds. */
  predicate Informed<T(==)>(p: Phase<T>, que: seq<T>) {
    && (p.FoundEmpty? ==> que == [])
    && (p.FoundItem? ==> que != [])
    && (p.Copied? ==> que != [] && que[0] == p.value)
  }

  ghost predicate AllInformed<T>(s: State<T>) {
    !s.broken && forall t :: 0 <= t < |s.threads| ==> Informed(s.threads[t], s.que)
  }

  /** A thread that is bound to look at the queue, or to take from it, because of a push. */
  predicate Bound<T>(p: Phase<T>) {
    match p
    case Notifying => true
    case Woken(n) => n
    case Testing(n) => n
    case FoundItem(n) => n
    case Copied(n, _) => n
    case _ => false
  }

  function BoundCount<T>(threads: seq<Phase<T>>): nat {
    if threads == [] then 0
    else BoundCount(threads[..|threads| - 1]) + (if Bound(threads[|threads| - 1]) then 1 else 0)
  }

  /** While somebody sleeps, there is a bound thread for every item. */
  ghost predicate Attended<T>(s: State<T>) {
    AnyAsleep(s.threads) ==> |s.que| <= BoundCount(s.threads)
  }

  lemma {:induction false} BoundCountUpdate<T>(threads: seq<Phase<T>>, t: nat, p: Phase<T>)
    requires t < |threads|
    ensures BoundCount(threads[t := p]) ==
            BoundCount(threads) + (if Bound(p) then 1 else 0) - (if Bound(threads[t]) then 1 else 0)
  {
    var n := |threads| - 1;
    if t == n {
      assert threads[t := p][..n] == threads[..n];
    } else {
      assert threads[t := p][..n] == threads[..n][t := p];
      BoundCountUpdate(threads[..n], t, p);
    }
  }

  lemma {:induction false} BoundCountPositive<T>(threads: seq<Phase<T>>)
    requires BoundCount(threads) > 0
    ensures exists t :: 0 <= t < |threads| && Bound(threads[t])
  {
    var n := |threads| - 1;
    if !Bound(threads[n]) {
      BoundCountPositive(threads[..n]);
      var t :| 0 <= t < n && Bound(threads[..n][t]);
      assert Bound(threads[t]);
    }
  }

  lemma StepExclusive<T>(s: State<T>, a: Action<T>)
    requires Exclusive(s) && Enabled(s, a)
    ensures Exclusive(Next(s, a))
  {
  }

  /** Nobody else changes the queue while a thread acts on what it has learned of it. */
  lemma StepInformed<T>(s: State<T>, a: Action<T>)
    requires Exclusive(s) && AllInformed(s) && Enabled(s, a)
    ensures AllInformed(Next(s, a))
  {
    var s' := Next(s, a);
    forall t | 0 <= t < |s'.threads| ensures Informed(s'.threads[t], s'.que) {
      assert Informed(s.threads[t], s.que);
      if s'.que != s.que && t != a.thread {
        assert Holds(s.threads[a.thread]) && !Holds(s.threads[t]);
      }
    }
  }

  lemma NotifyAttended<T>(s: State<T>, a: Action<T>)
    requires Attended(s) && Enabled(s, a) && a.NotifyOne?
    ensures Attended(Next(s, a))
  {
    if AnyAsleep(s.threads) {
      BoundCountUpdate(s.threads, a.sleeper, Woken(true));
      BoundCountUpdate(s.threads[a.sleeper := Woken(true)], a.thread, Returning(None));
    }
  }

  /** What one thread does to the queue it makes up for: an item more is a thread more that is bound
      to look, and it goes to sleep only on a queue that is still empty. */
  ghost predicate MakesUp<T>(s: State<T>, s': State<T>, t: nat) {
    && t < |s.threads| && t < |s'.threads| && s'.threads == s.threads[t := s'.threads[t]]
    && |s'.que| - |s.que| <= (if Bound(s'.threads[t]) then 1 else 0) - (if Bound(s.threads[t]) then 1 else 0)
    && (s'.threads[t].Asleep? ==> s.threads[t].Asleep? || s'.que == [])
  }

  lemma OwnStepMakesUp<T>(s: State<T>, a: Action<T>)
    requires Enabled(s, a) && !a.NotifyOne? && Informed(s.threads[a.thread], s.que)
    ensures MakesUp(s, Next(s, a), a.thread) || |Next(s, a).que| == 0
    ensures Next(s, a).threads == s.threads[a.thread := Next(s, a).threads[a.thread]]
  {
  }

  lemma ThreadAttended<T>(s: State<T>, s': State<T>, t: nat)
    requires Attended(s) && MakesUp(s, s', t)
    ensures Attended(s')
  {
    BoundCountUpdate(s.threads, t, s'.threads[t]);
  }

  lemma StepAttended<T>(s: State<T>, a: Action<T>)
    requires AllInformed(s) && Attended(s) && Enabled(s, a)
    ensures Attended(Next(s, a))
  {
    var s' := Next(s, a);
    if a.NotifyOne? {
      NotifyAttended(s, a);
    } else {
      assert Informed(s.threads[a.thread], s.que);
      OwnStepMakesUp(s, a);
      if |s'.que| > 0 {
        ThreadAttended(s, s', a.thread);
      }
    }
  }

  // ----- Linearization -----

  function Ops<T>(history: seq<Event<T>>): seq<Op<T>> {
    if history == [] then []
    else Ops(history[..|history| - 1]) + (if history[|history| - 1].Effect? then [history[|history| - 1].op] else [])
  }

  /** How far a thread's current call has come. */
  datatype Stage<T> = Idle | Called(call: Call<T>) | Done(result: Option<T>)

  predicate Answers<T(==)>(call: Call<T>, op: Op<T>) {
    match call
    case Push(v) => op == Pushed(v)
    case PushFront(v) => op == PushedFront(v)
    case Pop => op.Popped?
    case Clear => op == Cleared
  }

  function ResultOf<T>(op: Op<T>): Option<T> {
    if op.Popped? then Some(op.value) else None
  }

  function Advance<T(==)>(stage: Option<Stage<T>>, e: Event<T>): Option<Stage<T>> {
    match e
    case Invoked(_, call) => if stage == Some(Idle) then Some(Called(call)) else None
    case Effect(_, op) =>
      if stage.Some? && stage.value.Called? && Answers(stage.value.call, op) then Some(Done(ResultOf(op))) else None
    case Returned(_, result) => if stage == Some(Done(result)) then Some(Idle) else None
  }

  /** The stage after a thread's own events: each call is an invocation, then one effect that
      answers it, then a return with that effect's result. None: the events break this pattern. */
  function StageOf<T(==)>(history: seq<Event<T>>, t: nat): Option<Stage<T>> {
    if history == [] then Some(Idle)
    else
      var before := StageOf(history[..|history| - 1], t);
      var e := history[|history| - 1];
      if e.thread == t then Advance(before, e) else before
  }

  function StageIn<T>(p: Phase<T>): Stage<T> {
    match p
    case Outside => Idle
    case Entering(call) => Called(call)
    case Inside(call) => Called(call)
    case Notifying => Done(None)
    case Returning(result) => Done(result)
    case _ => Called(Pop)
  }

  /** The effects are a legal sequential run that leaves the deque as it is, and each one falls
      inside the call it belongs to. */
  ghost predicate Linearized<T>(s: State<T>) {
    && Replay(Ops(s.history)) == Some(s.que)
    && forall t :: 0 <= t < |s.threads| ==> StageOf(s.history, t) == Some(StageIn(s.threads[t]))
  }

  lemma HistoryGrows<T>(history: seq<Event<T>>, e: Event<T>)
    ensures var h := history + [e];
            && Ops(h) == (if e.Effect? then Ops(history) + [e.op] else Ops(history))
            && forall t :: StageOf(h, t) == if e.thread == t then Advance(StageOf(history, t), e) else StageOf(history, t)
  {
    var h := history + [e];
    assert h[..|h| - 1] == history;
  }

  lemma ReplayGrows<T>(ops: seq<Op<T>>, op: Op<T>, que: seq<T>)
    requires Replay(ops) == Some(que)
    ensures Replay(ops + [op]) == Do(que, op)
  {
    assert (ops + [op])[..|ops|] == ops;
  }

  /** One event of thread `t`, matched by its new phase and, if it is an effect, by the deque. */
  lemma EventLinearized<T>(s: State<T>, s': State<T>, t: nat, e: Event<T>)
    requires Linearized(s) && t < |s.threads| == |s'.threads| && e.thread == t
    requires s'.history == s.history + [e] && s'.threads == s.threads[t := s'.threads[t]]
    requires Advance(Some(StageIn(s.threads[t])), e) == Some(StageIn(s'.threads[t]))
    requires if e.Effect? then Do(s.que, e.op) == Some(s'.que) else s'.que == s.que
    ensures Linearized(s')
  {
    HistoryGrows(s.history, e);
    if e.Effect? {
      ReplayGrows(Ops(s.history), e.op, s.que);
    }
  }

  lemma QuietLinearized<T>(s: State<T>, s': State<T>)
    requires Linearized(s) && |s'.threads| == |s.threads| && s'.history == s.history && s'.que == s.que
    requires forall t :: 0 <= t < |s.threads| ==> StageIn(s'.threads[t]) == StageIn(s.threads[t])
    ensures Linearized(s')
  {
  }

  lemma FinishLinearized<T>(s: State<T>, t: nat, phase: Phase<T>, que: seq<T>, op: Op<T>)
    requires Linearized(s) && t < |s.threads| && Do(s.que, op) == Some(que)
    requires StageIn(s.threads[t]).Called? && Answers(StageIn(s.threads[t]).call, op)
    requires StageIn(phase) == Done(ResultOf(op))
    ensures Linearized(Finish(s, t, phase, que, op))
  {
    EventLinearized(s, Finish(s, t, phase, que, op), t, Effect(t, op));
  }

  lemma CallLinearized<T>(s: State<T>, t: nat)
    requires Linearized(s) && t < |s.threads| && s.threads[t].Inside?
    ensures Linearized(Worked(s, t))
  {
    match s.threads[t].call
    case Push(v) => FinishLinearized(s, t, Notifying, s.que + [v], Pushed(v));
    case PushFront(v) => FinishLinearized(s, t, Notifying, [v] + s.que, PushedFront(v));
    case Pop => QuietLinearized(s, Worked(s, t));
    case Clear => FinishLinearized(s, t, Returning(None), [], Cleared);
  }

  /** What `pop_front` removes is the value that `front` copied. */
  lemma WorkLinearized<T>(s: State<T>, t: nat)
    requires AllInformed(s) && Linearized(s) && Enabled(s, Work(t))
    ensures Linearized(Worked(s, t))
  {
    var p := s.threads[t];
    assert Informed(p, s.que);
    if p.Inside? {
      CallLinearized(s, t);
    } else if p.Copied? {
      FinishLinearized(s, t, Returning(Some(p.value)), s.que[1..], Popped(p.value));
    } else {
      QuietLinearized(s, Worked(s, t));
    }
  }

  lemma InvokeLinearized<T>(s: State<T>, t: nat, call: Call<T>)
    requires Linearized(s) && Enabled(s, Invoke(t, call))
    ensures Linearized(Next(s, Invoke(t, call)))
  {
    EventLinearized(s, Next(s, Invoke(t, call)), t, Invoked(t, call));
  }

  lemma ReleaseLinearized<T>(s: State<T>, t: nat)
    requires Linearized(s) && Enabled(s, Release(t))
    ensures Linearized(Next(s, Release(t)))
  {
    EventLinearized(s, Next(s, Release(t)), t, Returned(t, s.threads[t].result));
  }

  lemma LockLinearized<T>(s: State<T>, a: Action<T>)
    requires Linearized(s) && Enabled(s, a) && (a.Acquire? || a.Spurious?)
    ensures Linearized(Next(s, a))
  {
    var s' := Next(s, a);
    assert StageIn(s'.threads[a.thread]) == StageIn(s.threads[a.thread]);
    QuietLinearized(s, s');
  }

  lemma NotifyLinearized<T>(s: State<T>, t: nat, w: nat)
    requires Linearized(s) && Enabled(s, NotifyOne(t, w))
    ensures Linearized(Next(s, NotifyOne(t, w)))
  {
    var s' := Next(s, NotifyOne(t, w));
    forall k | 0 <= k < |s.threads| ensures StageIn(s'.threads[k]) == StageIn(s.threads[k]) {
    }
    QuietLinearized(s, s');
  }

  lemma StepLinearized<T>(s: State<T>, a: Action<T>)
    requires AllInformed(s) && Linearized(s) && Enabled(s, a)
    ensures Linearized(Next(s, a))
  {
    match a
    case Work(t) => WorkLinearized(s, t);
    case Invoke(t, call) => InvokeLinearized(s, t, call);
    case Release(t) => ReleaseLinearized(s, t);
    case NotifyOne(t, w) => NotifyLinearized(s, t, w);
    case _ => LockLinearized(s, a);
  }

  // ----- All runs -----

  ghost predicate Sound<T>(s: State<T>) {
    Exclusive(s) && AllInformed(s) && Attended(s) && Linearized(s)
  }

  lemma {:induction false} RunSound<T>(s: State<T>, run: seq<Action<T>>)
    requires Sound(s) && Possible(s, run)
    ensures Sound(After(s, run))
    decreases |run|
  {
    if run != [] {
      StepExclusive(s, run[0]);
      StepInformed(s, run[0]);
      StepAttended(s, run[0]);
      StepLinearized(s, run[0]);
      RunSound(Next(s, run[0]), run[1..]);
    }
  }

  lemma InitialSound<T>(n: nat)
    ensures Sound(Initial<T>(n))
  {
    assert Ops<T>([]) == [];
  }

  // ----- Progress -----

  /** How many steps of its own a thread is from giving up the mutex, at most. */
  function Rank<T>(p: Phase<T>): (r: nat)
    ensures r > 0 <==> Holds(p)
  {
    match p
    case Inside(Pop) => 5
    case Testing(_) => 4
    case Inside(Clear) => 2
    case Inside(_) => 3
    case FoundItem(_) => 3
    case Notifying => 2
    case Copied(_, _) => 2
    case FoundEmpty => 1
    case Returning(_) => 1
    case _ => 0
  }

  /** A step of a thread that holds the mutex. */
  predicate Inner<T>(a: Action<T>, t: nat) {
    a.thread == t && (a.Work? || a.NotifyOne? || a.Release?)
  }

  ghost predicate AllInner<T>(run: seq<Action<T>>, t: nat) {
    forall k :: 0 <= k < |run| ==> Inner(run[k], t)
  }

  /** Each such step brings the thread closer to giving up the mutex. */
  lemma InnerDescends<T>(s: State<T>, a: Action<T>)
    requires Exclusive(s) && AllInformed(s) && Enabled(s, a) && Inner(a, a.thread)
    ensures var s' := Next(s, a);
            && Rank(s'.threads[a.thread]) < Rank(s.threads[a.thread])
            && (Rank(s'.threads[a.thread]) == 0 ==> s'.owner == None)
  {
    assert Informed(s.threads[a.thread], s.que);
  }

  /** The thread that holds the mutex can always go on. */
  lemma InnerEnabled<T>(s: State<T>, t: nat) returns (a: Action<T>)
    requires !s.broken && t < |s.threads| && Holds(s.threads[t])
    ensures Enabled(s, a) && Inner(a, t)
  {
    match s.threads[t]
    case Returning(_) => a := Release(t);
    case Notifying =>
      if w: nat :| w < |s.threads| && s.threads[w].Asleep? {
        a := NotifyOne(t, w);
      } else {
        a := NotifyOne(t, 0);
      }
    case _ => a := Work(t);
  }

  lemma RunHead<T>(s: State<T>, a: Action<T>, rest: seq<Action<T>>)
    requires Enabled(s, a) && Possible(Next(s, a), rest)
    ensures Possible(s, [a] + rest) && After(s, [a] + rest) == After(Next(s, a), rest)
  {
    assert ([a] + rest)[1..] == rest;
  }

  /** No thread keeps the mutex: however it goes on by itself, it has no more steps than its rank. */
  lemma {:induction false} InnerRunsEnd<T>(s: State<T>, run: seq<Action<T>>, t: nat)
    requires Exclusive(s) && AllInformed(s) && t < |s.threads| && Possible(s, run) && AllInner(run, t)
    ensures |run| <= Rank(s.threads[t])
    decreases |run|
  {
    if run != [] {
      assert Inner(run[0], t);
      StepExclusive(s, run[0]);
      StepInformed(s, run[0]);
      InnerDescends(s, run[0]);
      InnerRunsEnd(Next(s, run[0]), run[1..], t);
    }
  }

  /** And it can go on until it has given it up. */
  lemma {:induction false} HolderLeaves<T>(s: State<T>, t: nat) returns (run: seq<Action<T>>)
    requires Exclusive(s) && AllInformed(s) && t < |s.threads| && Holds(s.threads[t])
    ensures Possible(s, run) && AllInner(run, t) && |run| <= Rank(s.threads[t]) && After(s, run).owner == None
    decreases Rank(s.threads[t])
  {
    var a := InnerEnabled(s, t);
    var s' := Next(s, a);
    StepExclusive(s, a);
    StepInformed(s, a);
    InnerDescends(s, a);
    var rest := [];
    if Holds(s'.threads[t]) {
      rest := HolderLeaves(s', t);
    }
    RunHead(s, a, rest);
    run := [a] + rest;
  }

  /** The thread is about to return this result and has left the deque like this. */
  ghost predicate Ends<T>(s: State<T>, t: nat, run: seq<Action<T>>, result: Option<T>, que: seq<T>) {
    && t < |s.threads| && Possible(s, run) && AllInner(run, t)
    && t < |After(s, run).threads| && After(s, run).threads[t] == Returning(result) && After(s, run).que == que
  }

  lemma EndsOnward<T>(s: State<T>, t: nat, a: Action<T>, rest: seq<Action<T>>, result: Option<T>, que: seq<T>)
    requires t < |s.threads| && Enabled(s, a) && Inner(a, t) && Ends(Next(s, a), t, rest, result, que)
    ensures Ends(s, t, [a] + rest, result, que)
  {
    RunHead(s, a, rest);
  }

  /** A pop that holds the mutex and tests a nonempty queue takes the front and nothing else. */
  lemma TestingTakes<T>(s: State<T>, t: nat) returns (run: seq<Action<T>>)
    requires !s.broken && t < |s.threads| && s.threads[t].Testing? && s.que != []
    ensures Ends(s, t, run, Some(s.que[0]), s.que[1..])
  {
    var work: Action<T> := Work(t);
    var s1 := Next(s, work);
    var s2 := Next(s1, work);
    EndsOnward(s2, t, work, [], Some(s.que[0]), s.que[1..]);
    EndsOnward(s1, t, work, [work] + [], Some(s.que[0]), s.que[1..]);
    EndsOnward(s, t, work, [work] + ([work] + []), Some(s.que[0]), s.que[1..]);
    run := [work] + ([work] + ([work] + []));
  }

  /** On an empty queue it goes to sleep, gives up the mutex and leaves the queue alone. */
  lemma TestingSleeps<T>(s: State<T>, t: nat) returns (run: seq<Action<T>>)
    requires !s.broken && t < |s.threads| && s.threads[t].Testing? && s.que == []
    ensures Possible(s, run) && AllInner(run, t)
    ensures var s' := After(s, run); t < |s'.threads| && s'.threads[t].Asleep? && s'.owner == None && s'.que == []
  {
    var work: Action<T> := Work(t);
    var s1 := Next(s, work);
    RunHead(s1, work, []);
    RunHead(s, work, [work] + []);
    run := [work] + ([work] + []);
  }

  /** Any call that has got the mutex, a pop beside a nonempty queue included, takes effect. */
  lemma CallTakesEffect<T>(s: State<T>, t: nat, call: Call<T>) returns (run: seq<Action<T>>)
    requires !s.broken && t < |s.threads| && s.threads[t] == Inside(call) && (call.Pop? ==> s.que != [])
    ensures match call
            case Push(v) => Ends(s, t, run, None, s.que + [v])
            case PushFront(v) => Ends(s, t, run, None, [v] + s.que)
            case Clear => Ends(s, t, run, None, [])
            case Pop => Ends(s, t, run, Some(s.que[0]), s.que[1..])
  {
    var work: Action<T> := Work(t);
    var s1 := Next(s, work);
    match call
    case Push(v) => run := NotifierEnds(s1, t); EndsOnward(s, t, work, run, None, s.que + [v]); run := [work] + run;
    case PushFront(v) => run := NotifierEnds(s1, t); EndsOnward(s, t, work, run, None, [v] + s.que); run := [work] + run;
    case Clear => EndsOnward(s, t, work, [], None, []); run := [work] + [];
    case Pop => run := TestingTakes(s1, t); EndsOnward(s, t, work, run, Some(s.que[0]), s.que[1..]); run := [work] + run;
  }

  /** A caller that finds the mutex free can take it, and then its call takes effect. */
  lemma EnteringTakesEffect<T>(s: State<T>, t: nat, call: Call<T>) returns (run: seq<Action<T>>)
    requires !s.broken && s.owner == None && t < |s.threads| && s.threads[t] == Entering(call) && (call.Pop? ==> s.que != [])
    ensures Enabled(s, Acquire(t))
    ensures match call
            case Push(v) => Ends(Next(s, Acquire(t)), t, run, None, s.que + [v])
            case PushFront(v) => Ends(Next(s, Acquire(t)), t, run, None, [v] + s.que)
            case Clear => Ends(Next(s, Acquire(t)), t, run, None, [])
            case Pop => Ends(Next(s, Acquire(t)), t, run, Some(s.que[0]), s.que[1..])
  {
    run := CallTakesEffect(Next(s, Acquire(t)), t, call);
  }

  lemma NotifierEnds<T>(s: State<T>, t: nat) returns (run: seq<Action<T>>)
    requires !s.broken && t < |s.threads| && s.threads[t].Notifying?
    ensures Ends(s, t, run, None, s.que)
  {
    var a := InnerEnabled(s, t);
    EndsOnward(s, t, a, [], None, s.que);
    run := [a] + [];
  }

  /** How a sleeper beside a nonempty queue comes to be served. Either somebody holds the mutex and
      its own steps give it up; or the mutex is free, and a bound thread's own steps take the front. */
  ghost predicate Serves<T>(s: State<T>, t: nat, run: seq<Action<T>>) {
    && t < |s.threads| && Possible(s, run)
    && if s.owner.Some? then
         s.owner == Some(t) && AllInner(run, t) && |run| <= 5 && After(s, run).owner == None
       else
         && Bound(s.threads[t]) && run != [] && run[0] == Acquire(t) && AllInner(run[1..], t) && s.que != []
         && t < |After(s, run).threads| && After(s, run).threads[t] == Returning(Some(s.que[0])) && After(s, run).que == s.que[1..]
  }

  lemma WokenTakes<T>(s: State<T>, t: nat) returns (run: seq<Action<T>>)
    requires !s.broken && s.owner == None && t < |s.threads| && s.threads[t] == Woken(true) && s.que != []
    ensures Serves(s, t, run)
  {
    var acquire: Action<T> := Acquire(t);
    var rest := TestingTakes(Next(s, acquire), t);
    RunHead(s, acquire, rest);
    run := [acquire] + rest;
    assert run[1..] == rest;
  }

  /** No lost wakeup, and no `front` or `pop_front` of an empty deque: in every reachable state, a
      sleeper next to a nonempty queue means as many bound threads as there are items, and a thread
      whose own steps, whatever the others do, get the queue served. */
  lemma NoLostWakeup<T>(n: nat, run: seq<Action<T>>)
    requires Possible(Initial(n), run)
    ensures var s := After(Initial(n), run);
            !s.broken &&
            (AnyAsleep(s.threads) && s.que != [] ==>
              && BoundCount(s.threads) >= |s.que|
              && (exists t :: 0 <= t < |s.threads| && Bound(s.threads[t]))
              && exists t, own :: Serves(s, t, own))
  {
    InitialSound<T>(n);
    RunSound(Initial(n), run);
    var s := After(Initial(n), run);
    if AnyAsleep(s.threads) && s.que != [] {
      BoundCountPositive(s.threads);
      var t :| 0 <= t < |s.threads| && Bound(s.threads[t]);
      if s.owner == None {
        var own := WokenTakes(s, t);
      } else {
        var own := HolderLeaves(s, s.owner.value);
        assert Serves(s, s.owner.value, own);
      }
    }
  }

  /** In every reachable state: the thread that holds the mutex has at most five steps left until it
      gives it up, and can take them; if its call is one that the deque allows, it takes effect. */
  lemma EveryCallEnds<T>(n: nat, run: seq<Action<T>>, t: nat)
    requires Possible(Initial(n), run) && t < |After(Initial(n), run).threads|
    requires Holds(After(Initial(n), run).threads[t])
    ensures var s := After(Initial(n), run);
            && (forall own :: Possible(s, own) && AllInner(own, t) ==> |own| <= 5)
            && (exists own :: Possible(s, own) && AllInner(own, t) && After(s, own).owner == None)
            && (s.threads[t].Testing? && s.que != [] ==> exists own :: Ends(s, t, own, Some(s.que[0]), s.que[1..]))
            && (s.threads[t] == Inside(Pop) && s.que != [] ==> exists own :: Ends(s, t, own, Some(s.que[0]), s.que[1..]))
            && (s.threads[t] == Inside(Clear) ==> exists own :: Ends(s, t, own, None, []))
            && (forall v :: s.threads[t] == Inside(Push(v)) ==> exists own :: Ends(s, t, own, None, s.que + [v]))
            && (forall v :: s.threads[t] == Inside(PushFront(v)) ==> exists own :: Ends(s, t, own, None, [v] + s.que))
  {
    InitialSound<T>(n);
    RunSound(Initial(n), run);
    var s := After(Initial(n), run);
    forall own | Possible(s, own) && AllInner(own, t) ensures |own| <= 5 {
      InnerRunsEnd(s, own, t);
    }
    var leave := HolderLeaves(s, t);
    if s.threads[t].Testing? && s.que != [] {
      var own := TestingTakes(s, t);
    } else if s.threads[t].Inside? && (s.threads[t].call.Pop? ==> s.que != []) {
      var own := CallTakesEffect(s, t, s.threads[t].call);
    }
  }

  /** Linearizability: in every reachable state the effects, in lock order, are a sequential deque
      run that ends in the deque's contents, and every thread's calls got the results of their
      own effects. Without `push_front` the pops follow the pushes. */
  lemma Linearizable<T>(n: nat, run: seq<Action<T>>)
    requires Possible(Initial(n), run)
    ensures var s := After(Initial(n), run);
            && Linearized(s)
            && ((forall k :: 0 <= k < |Ops(s.history)| ==> !Ops(s.history)[k].PushedFront?) ==>
                  InOrder(Ops(s.history), s.que))
  {
    InitialSound<T>(n);
    RunSound(Initial(n), run);
    var ops := Ops(After(Initial(n), run).history);
    if forall k :: 0 <= k < |ops| ==> !ops[k].PushedFront? {
      FirstInFirstOut(ops);
    }
  }
}
