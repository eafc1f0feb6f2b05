/** No command is lost, duplicated, reordered or changed on its way through the client: every
    command ever pushed has one place, and each peer works on the commands routed to it in the
    order in which they were pushed. */
module Conservation {
  import opened Types
  import opened Command
  import opened Waiter
  import opened Peers
  import opened Pipeline
  import Reading

  // ----- Which commands went to a peer -----

  function RoutedTo(fates: seq<Fate>, i: nat): seq<nat> {
    if fates == [] then []
    else RoutedTo(fates[..|fates| - 1], i) + (if fates[|fates| - 1] == Routed(i) then [|fates| - 1] else [])
  }

  function Ids(done: seq<Done>): seq<nat> {
    seq(|done|, k requires 0 <= k < |done| => done[k].id)
  }

  lemma RoutedToGrows(fates: seq<Fate>, f: Fate, i: nat)
    ensures RoutedTo(fates + [f], i) == RoutedTo(fates, i) + (if f == Routed(i) then [|fates|] else [])
  {
    assert (fates + [f])[..|fates|] == fates;
  }

  lemma RoutedToLast(fates: seq<Fate>, i: nat)
    requires fates != []
    ensures RoutedTo(fates, i) == RoutedTo(fates[..|fates| - 1], i) + (if fates[|fates| - 1] == Routed(i) then [|fates| - 1] else [])
  {
  }

  lemma {:induction false} RoutedToSound(fates: seq<Fate>, i: nat)
    ensures forall k :: 0 <= k < |RoutedTo(fates, i)| ==> RoutedTo(fates, i)[k] < |fates| && fates[RoutedTo(fates, i)[k]] == Routed(i)
    ensures forall j, k :: 0 <= j < k < |RoutedTo(fates, i)| ==> RoutedTo(fates, i)[j] < RoutedTo(fates, i)[k]
  {
    if fates != [] {
      RoutedToLast(fates, i);
      RoutedToSound(fates[..|fates| - 1], i);
    }
  }

  lemma {:induction false} RoutedToComplete(fates: seq<Fate>, i: nat, id: nat)
    requires id < |fates| && fates[id] == Routed(i)
    ensures id in RoutedTo(fates, i)
  {
    var n := |fates| - 1;
    RoutedToLast(fates, i);
    if id < n {
      RoutedToComplete(fates[..n], i, id);
    } else {
      assert RoutedTo(fates, i)[|RoutedTo(fates, i)| - 1] == id;
    }
  }

  lemma {:induction false} NoneRouted(fates: seq<Fate>, i: nat)
    requires forall k :: 0 <= k < |fates| ==> fates[k] != Routed(i)
    ensures RoutedTo(fates, i) == []
  {
    if fates != [] {
      NoneRouted(fates[..|fates| - 1], i);
    }
  }

  /** A peer's list holds exactly the numbers of the commands routed to it, in increasing order. */
  lemma RoutedToExactly(fates: seq<Fate>, i: nat)
    ensures forall id :: id in RoutedTo(fates, i) <==> 0 <= id < |fates| && fates[id] == Routed(i)
    ensures forall j, k :: 0 <= j < k < |RoutedTo(fates, i)| ==> RoutedTo(fates, i)[j] < RoutedTo(fates, i)[k]
  {
    RoutedToSound(fates, i);
    forall id | 0 <= id < |fates| && fates[id] == Routed(i) ensures id in RoutedTo(fates, i) {
      RoutedToComplete(fates, i, id);
    }
  }

  // ----- The invariants -----

  /** The commands not dispatched yet are in the dispatcher's hand and the queue, in push order. */
  ghost predicate Waiting(s: System) {
    && |s.fates| <= |s.pushed|
    && s.pushed[|s.fates|..] == (if s.hand.Some? then [s.hand.value] else []) + s.queue
  }

  /** A command carries what the parser says of its text; the parser alone rejects commands. */
  ghost predicate Parsed(s: System) {
    && |s.fates| <= |s.pushed|
    && (forall k :: 0 <= k < |s.pushed| ==> s.pushed[k].says == Parse(s.pushed[k].text))
    && forall k :: 0 <= k < |s.fates| ==>
         if s.fates[k] == Unparsed then s.pushed[k].says == Rejected else s.pushed[k].says.Accepted?
  }

  /** The commands routed to a peer are those it has finished with, then those in its queue. */
  ghost predicate Numbered(s: System) {
    && |s.peers| == |s.servants|
    && (forall k :: 0 <= k < |s.fates| && s.fates[k].Routed? ==> s.fates[k].peer < |s.peers|)
    && forall i :: 0 <= i < |s.peers| ==> RoutedTo(s.fates, i) == Ids(s.servants[i].done) + s.servants[i].tags
  }

  ghost predicate Names(s: System, id: nat, kind: Req, msg: string) {
    id < |s.fates| <= |s.pushed| && s.pushed[id].says.Accepted? && s.pushed[id].says.r.kind == kind && s.pushed[id].says.r.msg == msg
  }

  /** A queue entry is what its command asked for. */
  ghost predicate QueuedIn(s: System, i: nat)
    requires i < |s.peers| == |s.servants|
  {
    && |s.servants[i].tags| == |s.peers[i].que|
    && forall k :: 0 <= k < |s.servants[i].tags| ==> Names(s, s.servants[i].tags[k], s.peers[i].que[k].req, s.peers[i].que[k].msg)
  }

  ghost predicate QueuedAll(s: System) {
    |s.peers| == |s.servants| && forall i :: 0 <= i < |s.peers| ==> QueuedIn(s, i)
  }

  /** A written message is the message of a WRITE command that was routed to that peer. */
  ghost predicate Written(s: System) {
    forall i, k :: 0 <= i < |s.servants| && 0 <= k < |s.servants[i].trace| && s.servants[i].trace[k].WroteTo? ==>
      var e := s.servants[i].trace[k];
      Names(s, e.id, Write, e.msg) && s.fates[e.id] == Routed(i)
  }

  /** Without a descriptor a command reaches only the owner of the address it names. */
  ghost predicate RoutedByName(s: System) {
    && |s.fates| <= |s.pushed|
    && forall k :: 0 <= k < |s.fates| && s.fates[k].Routed? ==>
         && s.fates[k].peer < |s.peers| && Assigned(s.peers[s.fates[k].peer])
         && s.pushed[k].says.Accepted?
         && (s.pushed[k].says.r.fd == CLOSED ==> Owns(s.peers[s.fates[k].peer], s.pushed[k].says.r.ip, s.pushed[k].says.r.port))
  }

  /** The command that gave a peer its address. */
  ghost predicate NamedBy(s: System, i: nat, id: nat)
    requires i < |s.peers|
  {
    && id < |s.fates| <= |s.pushed| && s.pushed[id].says.Accepted?
    && Owns(s.peers[i], s.pushed[id].says.r.ip, s.pushed[id].says.r.port)
  }

  /** A peer's address is the one named by the first command routed to it. */
  ghost predicate Claimed(s: System) {
    forall i :: 0 <= i < |s.peers| && Assigned(s.peers[i]) ==>
      RoutedTo(s.fates, i) != [] && NamedBy(s, i, RoutedTo(s.fates, i)[0])
  }

  /** A servant dials only its peer's address, which is then set. */
  ghost predicate DialsOwn(s: System) {
    && |s.peers| == |s.servants|
    && forall i, k :: 0 <= i < |s.peers| && 0 <= k < |s.servants[i].trace| && s.servants[i].trace[k].Dialled? ==>
         Owns(s.peers[i], s.servants[i].trace[k].ip, s.servants[i].trace[k].port)
  }

  function PoppedIds(trace: seq<Trace>): seq<nat> {
    if trace == [] then []
    else PoppedIds(trace[..|trace| - 1]) + (if trace[|trace| - 1].Popped? then [trace[|trace| - 1].id] else [])
  }

  function NotErased(done: seq<Done>): seq<nat> {
    if done == [] then []
    else NotErased(done[..|done| - 1]) + (if done[|done| - 1].end.Erased? then [] else [done[|done| - 1].id])
  }

  /** What a servant has popped is what it has finished with, less what a clear erased. */
  ghost predicate PoppedOnce(s: System) {
    forall i :: 0 <= i < |s.servants| ==> PoppedIds(s.servants[i].trace) == NotErased(s.servants[i].done)
  }

  function WrittenIds(trace: seq<Trace>): seq<nat> {
    if trace == [] then []
    else WrittenIds(trace[..|trace| - 1]) + (if trace[|trace| - 1].WroteTo? then [trace[|trace| - 1].id] else [])
  }

  predicate IsWrite(pushed: seq<Line>, id: nat) {
    id < |pushed| && pushed[id].says.Accepted? && pushed[id].says.r.kind == Write
  }

  /** The WRITE commands that a servant has acted on rather than dropped or erased. */
  function StartedWrites(pushed: seq<Line>, done: seq<Done>): seq<nat> {
    if done == [] then []
    else
      var d := done[|done| - 1];
      StartedWrites(pushed, done[..|done| - 1]) + (if d.end.Started? && IsWrite(pushed, d.id) then [d.id] else [])
  }

  /** Each WRITE acted on has been written once, in order, and nothing else has been written. */
  ghost predicate WrittenOnce(s: System) {
    && |s.peers| == |s.servants|
    && forall i :: 0 <= i < |s.servants| ==> WrittenIds(s.servants[i].trace) == StartedWrites(s.pushed, s.servants[i].done)
  }

  /** The command that a servant between two pops is still working on: the last that it popped. */
  predicate Current(v: Servant, at: nat) {
    v.pc != Idle && at < |v.done| && v.done[at].end.Started? && forall k :: at < k < |v.done| ==> v.done[k].end.Erased?
  }

  predicate PcServes(pc: Pc, kind: Req) {
    match pc
    case Idle => false
    case Connecting => kind == Connect
    case Obtained(_) => kind == Connect
    case Registering => kind == Connect
    case Closing => kind == Read || kind == Close
    case _ => kind == Read
  }

  ghost predicate WorksOn(s: System, i: nat, at: nat)
    requires i < |s.servants|
  {
    && Current(s.servants[i], at)
    && var id := s.servants[i].done[at].id;
    id < |s.pushed| && s.pushed[id].says.Accepted? && PcServes(s.servants[i].pc, s.pushed[id].says.r.kind)
  }

  /** A servant that is not idle is at work on a command of the kind that its place belongs to. */
  ghost predicate AtWork(s: System) {
    forall i :: 0 <= i < |s.servants| && s.servants[i].pc != Idle ==> exists at :: WorksOn(s, i, at)
  }

  ghost predicate Conserved(s: System) {
    && Waiting(s) && Parsed(s) && Numbered(s) && QueuedAll(s) && Written(s)
    && RoutedByName(s) && Claimed(s) && DialsOwn(s) && PoppedOnce(s) && WrittenOnce(s)
    && AtWork(s)
  }

  // ----- One step -----

  lemma PushedWaiting(s: System, s': System, line: Line)
    requires Waiting(s) && s'.fates == s.fates && s'.hand == s.hand
    requires s'.pushed == s.pushed + [line] && s'.queue == s.queue + [line]
    ensures Waiting(s')
  {
    var n := |s.fates|;
    assert s'.pushed[n..] == s.pushed[n..] + [line];
  }

  lemma TakenWaiting(s: System, s': System)
    requires Waiting(s) && s'.fates == s.fates && s'.pushed == s.pushed
    requires s.hand == None && s.queue != [] && s'.hand == Some(s.queue[0]) && s'.queue == s.queue[1..]
    ensures Waiting(s')
  {
    assert s'.pushed[|s.fates|..] == [s.queue[0]] + s.queue[1..];
  }

  lemma MovedWaiting(s: System, s': System, f: Fate)
    requires Waiting(s) && Moved(s, s', f)
    ensures Waiting(s')
  {
    var n := |s.fates|;
    assert s.pushed[n..] == [s.hand.value] + s.queue;
    assert s.pushed[n + 1..] == s.pushed[n..][1..];
  }

  predicate Commands(a: Action) {
    a.Push? || a.Print? || a.Take? || a.Scan?
  }

  lemma OthersKeepCommands(s: System, a: Action)
    requires Enabled(s, a) && !Commands(a)
    ensures var s' := Next(s, a); s'.fates == s.fates && s'.pushed == s.pushed && s'.queue == s.queue && s'.hand == s.hand
  {
  }

  lemma AddsLine(s: System, a: Action)
    requires Enabled(s, a) && (a.Push? || a.Print?)
    ensures var s', line := Next(s, a), LineOf(s, a);
            s'.pushed == s.pushed + [line] && s'.queue == s.queue + [line] && s'.fates == s.fates && s'.hand == s.hand
  {
  }

  function LineOf(s: System, a: Action): Line
    requires Enabled(s, a) && (a.Push? || a.Print?)
  {
    var text := if a.Push? then a.text else CommandFor(s.batch[0]);
    Line(text, Parse(text))
  }

  lemma StepWaiting(s: System, a: Action)
    requires Shape(s) && Waiting(s) && Enabled(s, a)
    ensures Waiting(Next(s, a))
  {
    var s' := Next(s, a);
    if a.Push? || a.Print? {
      AddsLine(s, a);
      PushedWaiting(s, s', LineOf(s, a));
    } else if a.Take? {
      TakenWaiting(s, s');
    } else if a.Scan? {
      ScanMoves(s, a.junk);
      if !s'.halted {
        MovedWaiting(s, s', s'.fates[|s.fates|]);
      }
    } else {
      OthersKeepCommands(s, a);
    }
  }

  lemma HandIsNext(s: System)
    requires Waiting(s) && s.hand.Some?
    ensures |s.fates| < |s.pushed| && s.pushed[|s.fates|] == s.hand.value
  {
    assert s.pushed[|s.fates|..][0] == s.hand.value;
  }

  lemma PushedParsed(s: System, s': System, line: Line)
    requires Parsed(s) && s'.fates == s.fates && s'.pushed == s.pushed + [line] && line.says == Parse(line.text)
    ensures Parsed(s')
  {
  }

  lemma MovedParsed(s: System, s': System, f: Fate)
    requires Waiting(s) && Parsed(s) && Moved(s, s', f)
    ensures Parsed(s')
  {
    HandIsNext(s);
  }

  lemma StepParsed(s: System, a: Action)
    requires Shape(s) && Waiting(s) && Parsed(s) && Enabled(s, a)
    ensures Parsed(Next(s, a))
  {
    var s' := Next(s, a);
    if a.Push? || a.Print? {
      AddsLine(s, a);
      PushedParsed(s, s', LineOf(s, a));
    } else if a.Scan? {
      ScanMoves(s, a.junk);
      if !s'.halted {
        MovedParsed(s, s', s'.fates[|s.fates|]);
      }
    } else if !a.Take? {
      OthersKeepCommands(s, a);
    }
  }

  lemma MovedNumbered(s: System, s': System, f: Fate)
    requires Numbered(s) && Moved(s, s', f)
    ensures Numbered(s')
  {
    forall i | 0 <= i < |s'.peers|
      ensures RoutedTo(s'.fates, i) == Ids(s'.servants[i].done) + s'.servants[i].tags
    {
      RoutedToGrows(s.fates, f, i);
      if i >= |s.peers| {
        NoneRouted(s.fates, i);
      } else {
        var v, more := s.servants[i], if f == Routed(i) then [|s.fates|] else [];
        assert Ids(v.done) + (v.tags + more) == (Ids(v.done) + v.tags) + more;
      }
    }
  }

  /** What a servant ends leaves its queue from the front. */
  lemma EndedFromFront(s: System, a: Action, i: nat)
    requires Shape(s) && Enabled(s, a) && !a.Scan? && i < |s.peers|
    ensures |Next(s, a).servants| == |s.peers|
    ensures Ids(Ended(s, a, i)) + Next(s, a).servants[i].tags == s.servants[i].tags
  {
    if a == Serve(i) {
      ServedFromFront(s, i);
    } else {
      if a != ClearQueue(i) {
        QueueStays(s, a, i);
      }
    }
  }

  lemma ServedFromFront(s: System, i: nat)
    requires Shape(s) && Enabled(s, Serve(i))
    ensures |Next(s, Serve(i)).servants| == |s.peers|
    ensures Ids(Ended(s, Serve(i), i)) + Next(s, Serve(i)).servants[i].tags == s.servants[i].tags
  {
  }

  lemma FatesStay(s: System, a: Action)
    requires Enabled(s, a) && !a.Scan?
    ensures Next(s, a).fates == s.fates && |Next(s, a).peers| == |s.peers|
  {
  }

  lemma MoveAcross(done: seq<Done>, ended: seq<Done>, tags: seq<nat>)
    ensures Ids(done) + (Ids(ended) + tags) == Ids(done + ended) + tags
  {
    assert Ids(done + ended) == Ids(done) + Ids(ended);
  }

  lemma OtherNumbered(s: System, a: Action, s': System)
    requires Shape(s) && Enabled(s, a) && !a.Scan? && s' == Next(s, a) && Recorded(s, a, s') && Numbered(s)
    ensures Numbered(s')
  {
    FatesStay(s, a);
    forall i | 0 <= i < |s.peers|
      ensures RoutedTo(s.fates, i) == Ids(s'.servants[i].done) + s'.servants[i].tags
    {
      EndedFromFront(s, a, i);
      MoveAcross(s.servants[i].done, Ended(s, a, i), s'.servants[i].tags);
    }
  }

  lemma StepNumbered(s: System, a: Action, s': System)
    requires Shape(s) && Enabled(s, a) && s' == Next(s, a) && Recorded(s, a, s') && Numbered(s)
    ensures Numbered(s')
  {
    if a.Scan? {
      ScanMoves(s, a.junk);
      if !s'.halted {
        MovedNumbered(s, s', s'.fates[|s.fates|]);
      }
    } else {
      OtherNumbered(s, a, s');
    }
  }

  lemma NamesStays(s: System, s': System, id: nat, kind: Req, msg: string)
    requires Names(s, id, kind, msg) && s.fates <= s'.fates && s.pushed <= s'.pushed && |s'.fates| <= |s'.pushed|
    ensures Names(s', id, kind, msg)
  {
  }

  /** Commands and their fates are only ever added. */
  lemma RecordsGrow(s: System, a: Action)
    requires Enabled(s, a)
    ensures s.fates <= Next(s, a).fates && s.pushed <= Next(s, a).pushed
  {
  }

  /** Records have grown; the queue of peer `i` has lost its first `d` entries or is as it was. */
  lemma QueueShrinks(s: System, s': System, i: nat, d: nat)
    requires i < |s.peers| == |s.servants| && i < |s'.peers| == |s'.servants| && QueuedIn(s, i)
    requires s.fates <= s'.fates && s.pushed <= s'.pushed && |s'.fates| <= |s'.pushed|
    requires d <= |s.servants[i].tags|
    requires s'.servants[i].tags == s.servants[i].tags[d..] && s'.peers[i].que == s.peers[i].que[d..]
    ensures QueuedIn(s', i)
  {
    var v, v', p, p' := s.servants[i], s'.servants[i], s.peers[i], s'.peers[i];
    forall k | 0 <= k < |v'.tags| ensures Names(s', v'.tags[k], p'.que[k].req, p'.que[k].msg) {
      assert v'.tags[k] == v.tags[k + d];
      assert p'.que[k] == p.que[k + d];
      NamesStays(s, s', v.tags[k + d], p.que[k + d].req, p.que[k + d].msg);
    }
  }

  lemma MovedQueued(s: System, s': System, f: Fate, i: nat)
    requires Waiting(s) && QueuedAll(s) && Moved(s, s', f) && i < |s'.peers|
    ensures QueuedIn(s', i)
  {
    HandIsNext(s);
    if i < |s.peers| {
      assert QueuedIn(s, i);
      forall k | 0 <= k < |s'.servants[i].tags|
        ensures Names(s', s'.servants[i].tags[k], s'.peers[i].que[k].req, s'.peers[i].que[k].msg)
      {
        if k < |s.servants[i].tags| {
          assert s'.servants[i].tags[k] == s.servants[i].tags[k] && s'.peers[i].que[k] == s.peers[i].que[k];
          NamesStays(s, s', s.servants[i].tags[k], s.peers[i].que[k].req, s.peers[i].que[k].msg);
        } else {
          assert s'.servants[i].tags[k] == |s.fates|;
        }
      }
    }
  }

  lemma ScanQueued(s: System, junk: nat, i: nat)
    requires Shape(s) && Waiting(s) && QueuedAll(s) && Enabled(s, Scan(junk)) && i < |Next(s, Scan(junk)).peers|
    ensures |Next(s, Scan(junk)).peers| == |Next(s, Scan(junk)).servants| && QueuedIn(Next(s, Scan(junk)), i)
  {
    var s' := Next(s, Scan(junk));
    ScanMoves(s, junk);
    if s'.halted {
      assert QueuedIn(s, i);
    } else {
      MovedQueued(s, s', s'.fates[|s.fates|], i);
    }
  }

  lemma OtherQueued(s: System, a: Action, i: nat)
    requires Shape(s) && Waiting(s) && QueuedAll(s) && Enabled(s, a) && !a.Scan? && i < |s.peers|
    ensures |Next(s, a).peers| == |Next(s, a).servants| == |s.peers| && QueuedIn(Next(s, a), i)
  {
    var s' := Next(s, a);
    StepWaiting(s, a);
    RecordsGrow(s, a);
    assert QueuedIn(s, i);
    if a.Serve? && a.i == i {
      QueueShrinks(s, s', i, 1);
    } else if !(a.ClearQueue? && a.i == i) {
      QueueStays(s, a, i);
      QueueShrinks(s, s', i, 0);
    }
  }

  lemma QueueStays(s: System, a: Action, i: nat)
    requires Enabled(s, a) && !a.Scan? && i < |s.peers| == |s.servants|
    requires !((a.Serve? || a.ClearQueue?) && a.i == i)
    ensures |Next(s, a).peers| == |Next(s, a).servants| == |s.peers|
    ensures Next(s, a).peers[i].que == s.peers[i].que && Next(s, a).servants[i].tags == s.servants[i].tags
  {
  }

  lemma StepQueued(s: System, a: Action)
    requires Shape(s) && Waiting(s) && QueuedAll(s) && Enabled(s, a)
    ensures QueuedAll(Next(s, a))
  {
    var s' := Next(s, a);
    StepShape(s, a);
    forall i | 0 <= i < |s'.peers| ensures QueuedIn(s', i) {
      if a.Scan? {
        ScanQueued(s, a.junk, i);
      } else {
        SamePeers(s, a);
        OtherQueued(s, a, i);
      }
    }
  }

  lemma SamePeers(s: System, a: Action)
    requires Enabled(s, a) && !a.Scan?
    ensures |Next(s, a).peers| == |s.peers|
  {
  }

  lemma StepWritten(s: System, a: Action, s': System)
    requires Shape(s) && Enabled(s, a) && Recorded(s, a, s') && Waiting(s')
    requires Numbered(s) && QueuedAll(s) && Written(s)
    ensures Written(s')
  {
    forall i, k | 0 <= i < |s'.servants| && 0 <= k < |s'.servants[i].trace| && s'.servants[i].trace[k].WroteTo?
      ensures var e := s'.servants[i].trace[k]; Names(s', e.id, Write, e.msg) && s'.fates[e.id] == Routed(i)
    {
      var e := s'.servants[i].trace[k];
      assert i < |s.peers|;
      if k < |s.servants[i].trace| {
        assert s.servants[i].trace[k] == e;
      } else {
        assert Did(s, a, i)[k - |s.servants[i].trace|] == e;
        WroteNow(s, a, i, e);
      }
      NamesStays(s, s', e.id, Write, e.msg);
    }
  }

  lemma WroteNow(s: System, a: Action, i: nat, e: Trace)
    requires Shape(s) && Numbered(s) && QueuedAll(s) && Enabled(s, a)
    requires i < |s.peers| && e.WroteTo? && e in Did(s, a, i)
    ensures Names(s, e.id, Write, e.msg) && s.fates[e.id] == Routed(i)
  {
    var v := s.servants[i];
    assert a.Serve? && a.i == i && e.id == v.tags[0];
    assert QueuedIn(s, i) && Names(s, e.id, s.peers[i].que[0].req, s.peers[i].que[0].msg);
    RoutedToSound(s.fates, i);
    assert RoutedTo(s.fates, i)[|v.done|] == e.id;
  }

  /** An address once set is never changed, and no peer ever goes away. */
  lemma AddressStays(s: System, a: Action, i: nat)
    requires Shape(s) && Enabled(s, a) && i < |s.peers|
    ensures |Next(s, a).peers| >= |s.peers|
    ensures Assigned(s.peers[i]) ==> Next(s, a).peers[i].ip == s.peers[i].ip && Next(s, a).peers[i].port == s.peers[i].port
  {
    var s' := Next(s, a);
    if a.Scan? {
      ScanMoves(s, a.junk);
      if !s'.halted {
        MovedAddresses(s, s', s'.fates[|s.fates|]);
      }
    } else {
      OnlyScanAssigns(s, a, i);
    }
  }

  lemma MovedRoutedByName(s: System, s': System, f: Fate)
    requires Routable(s.peers) && Waiting(s) && RoutedByName(s) && Moved(s, s', f)
    ensures RoutedByName(s')
  {
    HandIsNext(s);
    MovedAddresses(s, s', f);
    forall k | 0 <= k < |s'.fates| && s'.fates[k].Routed?
      ensures s'.fates[k].peer < |s'.peers| && s'.pushed[k].says.Accepted? && Assigned(s'.peers[s'.fates[k].peer])
      ensures s'.pushed[k].says.r.fd == CLOSED ==> Owns(s'.peers[s'.fates[k].peer], s'.pushed[k].says.r.ip, s'.pushed[k].says.r.port)
    {
      if k < |s.fates| {
        assert s'.fates[k] == s.fates[k];
      }
    }
  }

  lemma StepRoutedByName(s: System, a: Action)
    requires Shape(s) && Waiting(s) && RoutedByName(s) && Enabled(s, a)
    ensures RoutedByName(Next(s, a))
  {
    var s' := Next(s, a);
    if a.Scan? {
      ScanMoves(s, a.junk);
      if !s'.halted {
        MovedRoutedByName(s, s', s'.fates[|s.fates|]);
      }
    } else {
      OtherRoutedByName(s, a, s');
    }
  }

  lemma OtherRoutedByName(s: System, a: Action, s': System)
    requires Shape(s) && Waiting(s) && RoutedByName(s) && Enabled(s, a) && !a.Scan? && s' == Next(s, a)
    ensures RoutedByName(s')
  {
    FatesStay(s, a);
    RecordsGrow(s, a);
    forall i | 0 <= i < |s.peers| ensures s'.peers[i].ip == s.peers[i].ip && s'.peers[i].port == s.peers[i].port {
      OnlyScanAssigns(s, a, i);
    }
  }

  lemma {:induction false} FirstRoutedStays(fates: seq<Fate>, fates': seq<Fate>, i: nat)
    requires fates <= fates' && RoutedTo(fates, i) != []
    ensures RoutedTo(fates', i) != [] && RoutedTo(fates', i)[0] == RoutedTo(fates, i)[0]
    decreases |fates'|
  {
    if |fates'| == |fates| {
      assert fates' == fates;
    } else {
      FirstRoutedStays(fates, fates'[..|fates'| - 1], i);
      RoutedToLast(fates', i);
    }
  }

  lemma ScanClaimed(s: System, junk: nat, i: nat)
    requires Shape(s) && Waiting(s) && Numbered(s) && RoutedByName(s) && Claimed(s) && Enabled(s, Scan(junk))
    requires i < |Next(s, Scan(junk)).peers| && Assigned(Next(s, Scan(junk)).peers[i])
    ensures var s' := Next(s, Scan(junk)); RoutedTo(s'.fates, i) != [] && NamedBy(s', i, RoutedTo(s'.fates, i)[0])
  {
    var s' := Next(s, Scan(junk));
    if i < |s.peers| && Assigned(s.peers[i]) {
      ClaimStays(s, Scan(junk), i);
    } else {
      ScanMoves(s, junk);
      if !s'.halted {
        MovedClaimed(s, s', s'.fates[|s.fates|], i);
      }
    }
  }

  lemma MovedAssigns(s: System, s': System, f: Fate, i: nat)
    requires Moved(s, s', f) && i < |s'.peers| && Assigned(s'.peers[i]) && (i < |s.peers| ==> !Assigned(s.peers[i]))
    requires Routable(s.peers)
    ensures i < |s.peers| && f == Routed(i) && s.hand.value.says.Accepted?
    ensures Owns(s'.peers[i], s.hand.value.says.r.ip, s.hand.value.says.r.port)
  {
  }

  lemma MovedClaimed(s: System, s': System, f: Fate, i: nat)
    requires Shape(s) && Waiting(s) && Numbered(s) && RoutedByName(s) && Moved(s, s', f)
    requires i < |s'.peers| && Assigned(s'.peers[i]) && (i < |s.peers| ==> !Assigned(s.peers[i]))
    ensures RoutedTo(s'.fates, i) != [] && NamedBy(s', i, RoutedTo(s'.fates, i)[0])
  {
    HandIsNext(s);
    MovedAssigns(s, s', f, i);
    RoutedToGrows(s.fates, f, i);
    NothingRouted(s, i);
    assert RoutedTo(s'.fates, i) == [|s.fates|];
  }

  lemma ClaimStays(s: System, a: Action, i: nat)
    requires Shape(s) && Waiting(s) && Claimed(s) && Enabled(s, a) && i < |s.peers| && Assigned(s.peers[i])
    ensures |Next(s, a).peers| >= |s.peers|
    ensures var s' := Next(s, a); RoutedTo(s'.fates, i) != [] && NamedBy(s', i, RoutedTo(s'.fates, i)[0])
  {
    StepWaiting(s, a);
    RecordsGrow(s, a);
    AddressStays(s, a, i);
    FirstRoutedStays(s.fates, Next(s, a).fates, i);
  }

  /** Whoever owns no address has never been sent anything. */
  lemma NothingRouted(s: System, i: nat)
    requires Shape(s) && Numbered(s) && RoutedByName(s) && i < |s.peers| && !Assigned(s.peers[i])
    ensures RoutedTo(s.fates, i) == []
  {
    NoneRouted(s.fates, i);
  }

  lemma StepClaimed(s: System, a: Action)
    requires Shape(s) && Waiting(s) && Numbered(s) && RoutedByName(s) && Claimed(s) && Enabled(s, a)
    ensures Claimed(Next(s, a))
  {
    var s' := Next(s, a);
    forall i | 0 <= i < |s'.peers| && Assigned(s'.peers[i])
      ensures RoutedTo(s'.fates, i) != [] && NamedBy(s', i, RoutedTo(s'.fates, i)[0])
    {
      if a.Scan? {
        ScanClaimed(s, a.junk, i);
      } else {
        OnlyScanAssigns(s, a, i);
        ClaimStays(s, a, i);
      }
    }
  }

  lemma OnlyScanAssigns(s: System, a: Action, i: nat)
    requires Enabled(s, a) && !a.Scan?
    ensures |Next(s, a).peers| == |s.peers|
    ensures i < |s.peers| ==> Next(s, a).peers[i].ip == s.peers[i].ip && Next(s, a).peers[i].port == s.peers[i].port
  {
  }

  lemma StepDialsOwn(s: System, a: Action, s': System)
    requires Shape(s) && Enabled(s, a) && Recorded(s, a, s') && DialsOwn(s)
    ensures DialsOwn(s')
  {
    forall i, k | 0 <= i < |s'.peers| && 0 <= k < |s'.servants[i].trace| && s'.servants[i].trace[k].Dialled?
      ensures Owns(s'.peers[i], s'.servants[i].trace[k].ip, s'.servants[i].trace[k].port)
    {
      var e := s'.servants[i].trace[k];
      if k < |s.servants[i].trace| {
        assert s.servants[i].trace[k] == e;
      } else {
        assert Did(s, a, i)[k - |s.servants[i].trace|] == e;
        DialledNow(s, a, i, e);
      }
    }
  }

  lemma DialledNow(s: System, a: Action, i: nat, e: Trace)
    requires Shape(s) && Enabled(s, a) && i < |s.peers| && e.Dialled? && e in Did(s, a, i)
    ensures Owns(s.peers[i], e.ip, e.port)
  {
    assert a.Dial? && a.i == i;
  }

  lemma {:induction false} TracesJoin(x: seq<Trace>, y: seq<Trace>)
    ensures PoppedIds(x + y) == PoppedIds(x) + PoppedIds(y)
    ensures WrittenIds(x + y) == WrittenIds(x) + WrittenIds(y)
    decreases |y|
  {
    if y == [] {
      assert x + y == x;
    } else {
      assert (x + y)[..|x + y| - 1] == x + y[..|y| - 1];
      TracesJoin(x, y[..|y| - 1]);
    }
  }

  lemma {:induction false} EndsJoin(pushed: seq<Line>, x: seq<Done>, y: seq<Done>)
    ensures NotErased(x + y) == NotErased(x) + NotErased(y)
    ensures StartedWrites(pushed, x + y) == StartedWrites(pushed, x) + StartedWrites(pushed, y)
    decreases |y|
  {
    if y == [] {
      assert x + y == x;
    } else {
      assert (x + y)[..|x + y| - 1] == x + y[..|y| - 1];
      EndsJoin(pushed, x, y[..|y| - 1]);
    }
  }

  lemma {:induction false} ErasedDoNotCount(pushed: seq<Line>, tags: seq<nat>)
    ensures NotErased(Erase(tags)) == [] && StartedWrites(pushed, Erase(tags)) == []
    decreases |tags|
  {
    if tags != [] {
      var n := |tags| - 1;
      assert Erase(tags)[..n] == Erase(tags[..n]);
      ErasedDoNotCount(pushed, tags[..n]);
    }
  }

  /** In one step a servant pops what it ends without erasing it, and writes the WRITEs among them
      that it does not drop. */
  lemma DidWhatEnded(s: System, a: Action, i: nat)
    requires Shape(s) && Enabled(s, a) && QueuedAll(s) && i < |s.peers|
    ensures PoppedIds(Did(s, a, i)) == NotErased(Ended(s, a, i))
    ensures WrittenIds(Did(s, a, i)) == StartedWrites(s.pushed, Ended(s, a, i))
  {
    if a.Serve? && a.i == i {
      ServedWhatEnded(s, a, i);
    } else if a.ClearQueue? && a.i == i {
      ErasedDoNotCount(s.pushed, s.servants[i].tags);
    } else {
      OthersPopNothing(s, a, i);
    }
  }

  lemma ServedWhatEnded(s: System, a: Action, i: nat)
    requires Shape(s) && Enabled(s, a) && QueuedAll(s) && i < |s.peers| && a == Serve(i)
    ensures PoppedIds(Did(s, a, i)) == NotErased(Ended(s, a, i))
    ensures WrittenIds(Did(s, a, i)) == StartedWrites(s.pushed, Ended(s, a, i))
  {
    var p, v := s.peers[i], s.servants[i];
    assert QueuedIn(s, i) && Names(s, v.tags[0], p.que[0].req, p.que[0].msg);
    var popped := Popped(v.tags[0], p.que[0].req);
    TracesJoin([popped], [WroteTo(p.fd, v.tags[0], p.que[0].msg)]);
    assert [popped][..0] == [] && [WroteTo(p.fd, v.tags[0], p.que[0].msg)][..0] == [];
    assert Ended(s, a, i)[..0] == [];
  }

  lemma OthersPopNothing(s: System, a: Action, i: nat)
    requires Shape(s) && Enabled(s, a) && i < |s.peers| && !((a.Serve? || a.ClearQueue?) && a.i == i)
    ensures PoppedIds(Did(s, a, i)) == [] == NotErased(Ended(s, a, i))
    ensures WrittenIds(Did(s, a, i)) == [] == StartedWrites(s.pushed, Ended(s, a, i))
  {
    assert Ended(s, a, i) == [];
    NothingPopped(Did(s, a, i));
  }

  lemma {:induction false} NothingPopped(trace: seq<Trace>)
    requires forall k :: 0 <= k < |trace| ==> !trace[k].Popped? && !trace[k].WroteTo?
    ensures PoppedIds(trace) == [] && WrittenIds(trace) == []
  {
    if trace != [] {
      NothingPopped(trace[..|trace| - 1]);
    }
  }

  lemma {:induction false} LaterPushesDoNotMatter(pushed: seq<Line>, pushed': seq<Line>, done: seq<Done>)
    requires pushed <= pushed' && forall k :: 0 <= k < |done| ==> done[k].id < |pushed|
    ensures StartedWrites(pushed', done) == StartedWrites(pushed, done)
  {
    if done != [] {
      LaterPushesDoNotMatter(pushed, pushed', done[..|done| - 1]);
    }
  }

  lemma DoneWerePushed(s: System, a: Action, i: nat)
    requires Shape(s) && Numbered(s) && Waiting(s) && Enabled(s, a) && i < |s.peers|
    ensures forall k :: 0 <= k < |s.servants[i].done + Ended(s, a, i)| ==> (s.servants[i].done + Ended(s, a, i))[k].id < |s.pushed|
  {
    var v := s.servants[i];
    ListedWereRouted(s.fates, i, v.done, v.tags);
    assert |s.fates| <= |s.pushed|;
    assert forall k :: 0 <= k < |Ended(s, a, i)| ==> Ended(s, a, i)[k].id in v.tags;
  }

  lemma ListedWereRouted(fates: seq<Fate>, i: nat, done: seq<Done>, tags: seq<nat>)
    requires RoutedTo(fates, i) == Ids(done) + tags
    ensures forall k :: 0 <= k < |done| ==> done[k].id < |fates|
    ensures forall id :: id in tags ==> id < |fates|
  {
    RoutedToSound(fates, i);
    assert forall k :: 0 <= k < |done| ==> RoutedTo(fates, i)[k] == done[k].id;
    assert forall k :: 0 <= k < |tags| ==> RoutedTo(fates, i)[|done| + k] == tags[k];
  }

  lemma StepWrittenOnce(s: System, a: Action, s': System)
    requires Shape(s) && Enabled(s, a) && Recorded(s, a, s')
    requires Numbered(s) && Waiting(s) && QueuedAll(s) && PoppedOnce(s) && WrittenOnce(s)
    ensures PoppedOnce(s') && WrittenOnce(s')
  {
    forall i | 0 <= i < |s'.servants|
      ensures PoppedIds(s'.servants[i].trace) == NotErased(s'.servants[i].done)
      ensures WrittenIds(s'.servants[i].trace) == StartedWrites(s'.pushed, s'.servants[i].done)
    {
      if i < |s.peers| {
        var v := s.servants[i];
        DidWhatEnded(s, a, i);
        TracesJoin(v.trace, Did(s, a, i));
        EndsJoin(s.pushed, v.done, Ended(s, a, i));
        DoneWerePushed(s, a, i);
        LaterPushesDoNotMatter(s.pushed, s'.pushed, v.done + Ended(s, a, i));
      }
    }
  }

  lemma ServeAtWork(s: System, i: nat)
    requires Shape(s) && QueuedAll(s) && Enabled(s, Serve(i))
    ensures Next(s, Serve(i)).servants[i].pc != Idle ==> WorksOn(Next(s, Serve(i)), i, |s.servants[i].done|)
  {
    assert QueuedIn(s, i) && Names(s, s.servants[i].tags[0], s.peers[i].que[0].req, s.peers[i].que[0].msg);
  }

  lemma StaysAtWork(s: System, a: Action, i: nat)
    requires Shape(s) && Enabled(s, a) && a != Serve(i) && i < |s.peers|
    ensures i < |Next(s, a).servants|
    ensures var pc, pc' := s.servants[i].pc, Next(s, a).servants[i].pc;
            pc' != Idle ==> pc != Idle && forall kind :: PcServes(pc, kind) ==> PcServes(pc', kind)
    ensures forall k :: 0 <= k < |Ended(s, a, i)| ==> Ended(s, a, i)[k].end.Erased?
  {
    if !OwnStep(a, i) {
      OthersKeepServant(s, a, i);
    }
  }

  lemma StepAtWork(s: System, a: Action, s': System)
    requires Shape(s) && Enabled(s, a) && s' == Next(s, a) && Recorded(s, a, s') && QueuedAll(s) && AtWork(s)
    ensures AtWork(s')
  {
    forall i | 0 <= i < |s'.servants| && s'.servants[i].pc != Idle ensures exists at :: WorksOn(s', i, at) {
      assert i < |s.peers|;
      if a == Serve(i) {
        ServeAtWork(s, i);
      } else {
        StaysAtWork(s, a, i);
        var at :| WorksOn(s, i, at);
        StillWorksOn(s, s', i, at, Ended(s, a, i));
      }
    }
  }

  lemma StillWorksOn(s: System, s': System, i: nat, at: nat, ended: seq<Done>)
    requires i < |s.servants| && i < |s'.servants| && WorksOn(s, i, at) && s.pushed <= s'.pushed
    requires s'.servants[i].done == s.servants[i].done + ended && forall k :: 0 <= k < |ended| ==> ended[k].end.Erased?
    requires s'.servants[i].pc != Idle && forall kind :: PcServes(s.servants[i].pc, kind) ==> PcServes(s'.servants[i].pc, kind)
    ensures WorksOn(s', i, at)
  {
  }

  // ----- All runs -----

  lemma StepConserved(s: System, a: Action)
    requires Shape(s) && Conserved(s) && Enabled(s, a)
    ensures Conserved(Next(s, a))
  {
    var s' := Next(s, a);
    StepRecorded(s, a);
    StepWaiting(s, a);
    StepParsed(s, a);
    StepNumbered(s, a, s');
    StepQueued(s, a);
    StepWritten(s, a, s');
    StepRoutedByName(s, a);
    StepClaimed(s, a);
    StepDialsOwn(s, a, s');
    StepWrittenOnce(s, a, s');
    StepAtWork(s, a, s');
  }

  lemma {:induction false} RunConserved(s: System, run: seq<Action>)
    requires Shape(s) && Conserved(s) && Possible(s, run)
    ensures Shape(After(s, run)) && Conserved(After(s, run))
    decreases |run|
  {
    if run != [] {
      StepShape(s, run[0]);
      StepConserved(s, run[0]);
      RunConserved(Next(s, run[0]), run[1..]);
    }
  }

  lemma InitialRouted(code: Reading.Code, ip: string, port: nat, junk: nat)
    ensures var s := Initial(code, ip, port, junk); Waiting(s) && Parsed(s) && Numbered(s) && QueuedAll(s) && RoutedByName(s) && Claimed(s)
  {
  }

  lemma InitialConserved(code: Reading.Code, ip: string, port: nat, junk: nat)
    ensures Conserved(Initial(code, ip, port, junk))
  {
    InitialRouted(code, ip, port, junk);
  }

  // ----- One place each -----

  /** Where the command with number `id` is. A servant's commands are in its queue, or it is
      working on them, or it is through with them: executed, dropped or erased. */
  datatype Place =
    | InQueue(at: nat)
    | InHand
    | Refused
    | OpenedPeer
    | AtPeer(i: nat, at: nat)
    | InProgress(i: nat, at: nat)
    | Finished(i: nat, at: nat)

  ghost predicate IsAt(s: System, id: nat, place: Place)
    requires id < |s.pushed|
  {
    match place
    case InQueue(at) => at < |s.queue| && id == |s.pushed| - |s.queue| + at && s.queue[at] == s.pushed[id]
    case InHand => s.hand == Some(s.pushed[id]) && id == |s.fates|
    case Refused => id < |s.fates| && s.fates[id] == Unparsed
    case OpenedPeer => id < |s.fates| && s.fates[id] == Appended
    case AtPeer(i, at) => i < |s.servants| && at < |s.servants[i].tags| && s.servants[i].tags[at] == id
    case InProgress(i, at) => IsDone(s, id, i, at) && Current(s.servants[i], at)
    case Finished(i, at) => IsDone(s, id, i, at) && !Current(s.servants[i], at)
  }

  predicate IsDone(s: System, id: nat, i: nat, at: nat) {
    i < |s.servants| && at < |s.servants[i].done| && s.servants[i].done[at].id == id
  }

  /** The command has gone to a peer. */
  predicate AtServant(place: Place) {
    place.AtPeer? || place.InProgress? || place.Finished?
  }

  lemma AtPeerIsRouted(s: System, id: nat, i: nat, k: nat)
    requires Numbered(s) && i < |s.servants|
    requires var all := Ids(s.servants[i].done) + s.servants[i].tags; k < |all| && all[k] == id
    ensures id < |s.fates| && s.fates[id] == Routed(i)
    ensures var all := Ids(s.servants[i].done) + s.servants[i].tags;
            forall l :: 0 <= l < |all| && all[l] == id ==> l == k
  {
    RoutedToExactly(s.fates, i);
    assert RoutedTo(s.fates, i)[k] == id && RoutedTo(s.fates, i)[k] in RoutedTo(s.fates, i);
  }

  lemma ServantPlaceImplies(s: System, id: nat, place: Place)
    requires Numbered(s) && id < |s.pushed| && AtServant(place) && IsAt(s, id, place)
    ensures id < |s.fates| && s.fates[id] == Routed(place.i)
  {
    AtPeerIsRouted(s, id, place.i, if place.AtPeer? then |s.servants[place.i].done| + place.at else place.at);
  }

  lemma PlaceImplies(s: System, id: nat, place: Place)
    requires Waiting(s) && Numbered(s) && id < |s.pushed| && IsAt(s, id, place)
    ensures place.InQueue? || place.InHand? <==> id >= |s.fates|
    ensures place.Refused? ==> s.fates[id] == Unparsed
    ensures place.OpenedPeer? ==> s.fates[id] == Appended
    ensures AtServant(place) ==> s.fates[id] == Routed(place.i)
    ensures place.InQueue? ==> id >= |s.fates| + (if s.hand.Some? then 1 else 0)
  {
    if AtServant(place) {
      ServantPlaceImplies(s, id, place);
    } else if place.InQueue? {
      assert |s.pushed[|s.fates|..]| == (if s.hand.Some? then 1 else 0) + |s.queue|;
    }
  }

  ghost predicate HasOnePlace(s: System, id: nat) {
    && id < |s.pushed|
    && (exists place :: IsAt(s, id, place))
    && forall p, q :: IsAt(s, id, p) && IsAt(s, id, q) ==> p == q
  }

  /** Every command ever pushed is in exactly one place. */
  lemma ExactlyOnePlace(s: System, id: nat)
    requires Conserved(s) && id < |s.pushed|
    ensures HasOnePlace(s, id)
  {
    SomePlace(s, id);
    forall p, q | IsAt(s, id, p) && IsAt(s, id, q) ensures p == q {
      PlacesAgree(s, id, p, q);
    }
  }

  lemma PlacesAgree(s: System, id: nat, p: Place, q: Place)
    requires Conserved(s) && id < |s.pushed| && IsAt(s, id, p) && IsAt(s, id, q)
    ensures p == q
  {
    PlaceImplies(s, id, p);
    PlaceImplies(s, id, q);
    if AtServant(p) {
      SameSlot(s, id, p, q);
    }
  }

  lemma SameSlot(s: System, id: nat, p: Place, q: Place)
    requires Numbered(s) && id < |s.pushed| && IsAt(s, id, p) && IsAt(s, id, q)
    requires AtServant(p) && AtServant(q) && p.i == q.i
    ensures p == q
  {
    var v := s.servants[p.i];
    var all := Ids(v.done) + v.tags;
    var k := if p.AtPeer? then |v.done| + p.at else p.at;
    var l := if q.AtPeer? then |v.done| + q.at else q.at;
    assert all[k] == id && all[l] == id;
    AtPeerIsRouted(s, id, p.i, k);
  }

  lemma SomePlace(s: System, id: nat)
    requires Conserved(s) && id < |s.pushed|
    ensures exists place :: IsAt(s, id, place)
  {
    if id >= |s.fates| {
      WaitingPlace(s, id);
    } else if s.fates[id] == Unparsed {
      assert IsAt(s, id, Refused);
    } else if s.fates[id] == Appended {
      assert IsAt(s, id, OpenedPeer);
    } else {
      RoutedPlace(s, id, s.fates[id].peer);
    }
  }

  lemma WaitingPlace(s: System, id: nat)
    requires Waiting(s) && |s.fates| <= id < |s.pushed|
    ensures exists place :: IsAt(s, id, place)
  {
    var n := |s.fates|;
    var h := if s.hand.Some? then 1 else 0;
    assert s.pushed[n..][id - n] == s.pushed[id];
    if id - n < h {
      assert IsAt(s, id, InHand);
    } else {
      assert IsAt(s, id, InQueue(id - n - h));
    }
  }

  lemma RoutedPlace(s: System, id: nat, i: nat)
    requires Numbered(s) && id < |s.fates| && id < |s.pushed| && s.fates[id] == Routed(i)
    ensures exists place :: IsAt(s, id, place)
  {
    var v := s.servants[i];
    RoutedToComplete(s.fates, i, id);
    var k :| 0 <= k < |RoutedTo(s.fates, i)| && RoutedTo(s.fates, i)[k] == id;
    if k < |v.done| {
      assert IsAt(s, id, if Current(v, k) then InProgress(i, k) else Finished(i, k));
    } else {
      assert IsAt(s, id, AtPeer(i, k - |v.done|));
    }
  }

  /** A servant pops commands routed to it, in push order and each at most once. */
  lemma {:induction false} PoppedInOrder(fates: seq<Fate>, i: nat, done: seq<Done>, tags: seq<nat>)
    requires RoutedTo(fates, i) == Ids(done) + tags
    ensures forall j, k :: 0 <= j < k < |NotErased(done)| ==> NotErased(done)[j] < NotErased(done)[k]
    ensures forall k :: 0 <= k < |NotErased(done)| ==> NotErased(done)[k] in RoutedTo(fates, i)
    decreases |done|
  {
    RoutedToExactly(fates, i);
    if done != [] {
      var n := |done| - 1;
      assert Ids(done) == Ids(done[..n]) + [done[n].id];
      assert Ids(done) + tags == Ids(done[..n]) + ([done[n].id] + tags);
      PoppedInOrder(fates, i, done[..n], [done[n].id] + tags);
      NotErasedBelow(done[..n]);
      assert RoutedTo(fates, i)[n] == done[n].id;
      forall k | 0 <= k < |NotErased(done[..n])| ensures NotErased(done[..n])[k] < done[n].id {
        var j :| 0 <= j < n && Ids(done[..n])[j] == NotErased(done[..n])[k];
        assert RoutedTo(fates, i)[j] == done[j].id;
      }
    }
  }

  lemma {:induction false} NotErasedBelow(done: seq<Done>)
    ensures forall k :: 0 <= k < |NotErased(done)| ==> NotErased(done)[k] in Ids(done)
  {
    if done != [] {
      var n := |done| - 1;
      NotErasedBelow(done[..n]);
      assert Ids(done) == Ids(done[..n]) + [done[n].id];
    }
  }
}
