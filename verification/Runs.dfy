/** The theorems about whole runs of the client, from its start. */
module Runs {
  import opened Types
  import opened Command
  import opened Waiter
  import opened Peers
  import opened Pipeline
  import opened Discipline
  import opened Conservation
  import opened Stranded
  import opened Kernel
  import Reading
  import Connector
  import Tokens

  /** A state that some schedule of a freshly started client leads to. */
  ghost predicate Reached(s: System, code: Reading.Code, ip: string, port: nat, junk: nat, run: seq<Action>) {
    Possible(Initial(code, ip, port, junk), run) && After(Initial(code, ip, port, junk), run) == s
  }

  /** In every reachable state each servant has kept the discipline, each command has exactly one
      place, each servant has popped commands routed to it in push order, each at most once, each
      message it wrote is that of such a WRITE, and the address it dialled is the one named by the
      first command it got. */
  lemma EveryRun(s: System, code: Reading.Code, ip: string, port: nat, junk: nat, run: seq<Action>)
    requires Reached(s, code, ip, port, junk, run)
    ensures Shape(s) && AllDisciplined(s) && Conserved(s)
    ensures forall id :: 0 <= id < |s.pushed| ==> HasOnePlace(s, id)
    ensures forall i :: 0 <= i < |s.servants| ==>
              var ids := PoppedIds(s.servants[i].trace);
              && (forall j, k :: 0 <= j < k < |ids| ==> ids[j] < ids[k])
              && forall k :: 0 <= k < |ids| ==> ids[k] in RoutedTo(s.fates, i)
  {
    var start := Initial(code, ip, port, junk);
    InitialSteady(code, ip, port, junk);
    RunDisciplined(start, run);
    InitialConserved(code, ip, port, junk);
    RunConserved(start, run);
    forall id | 0 <= id < |s.pushed| ensures HasOnePlace(s, id) {
      ExactlyOnePlace(s, id);
    }
    forall i | 0 <= i < |s.servants|
      ensures var ids := PoppedIds(s.servants[i].trace);
              && (forall j, k :: 0 <= j < k < |ids| ==> ids[j] < ids[k])
              && forall k :: 0 <= k < |ids| ==> ids[k] in RoutedTo(s.fates, i)
    {
      PoppedInOrder(s.fates, i, s.servants[i].done, s.servants[i].tags);
    }
  }

  /** Received data is never stranded, whatever connectTCP hands back and whatever number the kernel
      reuses: over every run, the unread data of a descriptor is accounted for in every state exactly
      when no step forgets it, which as the code is intended no step does. Then, if the client comes
      to rest, the descriptor has nothing unread. */
  lemma NoStrandedData(s: System, code: Reading.Code, ip: string, port: nat, junk: nat, run: seq<Action>, fd: int)
    requires Reached(s, code, ip, port, junk, run)
    ensures var start := Initial(code, ip, port, junk);
            && (AlwaysAccounted(start, run, fd) <==> NeverForgets(start, run, fd))
            && (code.AsIntended? ==> NeverForgets(start, run, fd))
            && (NeverForgets(start, run, fd) ==>
                  && Accounted(s, fd)
                  && (!s.halted && (forall a :: OwnMove(a) ==> !Enabled(s, a)) ==> !Unread(s, fd)))
    ensures HasHolder(s, fd)
  {
    var start := Initial(code, ip, port, junk);
    RunHasHolder(start, run, fd);
    RunAccounted(start, run, fd);
    if code.AsIntended? {
      IntendedNeverLetsGo(start, run, fd, 0);
    }
    if NeverForgets(start, run, fd) && !s.halted && forall a :: OwnMove(a) ==> !Enabled(s, a) {
      RestHasNothingUnread(s, fd);
    }
  }

  /** Which peer comes to the data is another matter. Over every run, a peer attends to its own in
      every state exactly when no step misses it. Without a collision at that peer only a failed read
      does; and after collisions too, a peer that is alone with its number attends to what is
      accounted for. */
  lemma OwnDataAttended(s: System, code: Reading.Code, ip: string, port: nat, junk: nat, run: seq<Action>, i: nat)
    requires Reached(s, code, ip, port, junk, run)
    ensures var start := Initial(code, ip, port, junk);
            && (AlwaysAttended(start, run, i) <==> NeverMisses(start, run, i))
            && (NeverMisses(start, run, i) ==> Attended(s, i))
            && (NeverCollides(start, run, i) ==> (NeverMisses(start, run, i) <==> NeverStrands(start, run, i)))
            && (code.AsIntended? ==> NeverStrands(start, run, i))
            && (i < |s.peers| && Loose(s, i) && NeverForgets(start, run, s.peers[i].fd) ==> Attended(s, i))
  {
    var start := Initial(code, ip, port, junk);
    RunAttended(start, run, i);
    if NeverCollides(start, run, i) {
      RunAlone(start, run, i);
    }
    if code.AsIntended? {
      IntendedNeverLetsGo(start, run, 0, i);
    }
    if i < |s.peers| && Loose(s, i) {
      RunAccounted(start, run, s.peers[i].fd);
      AloneIsAccounted(s, i);
    }
  }

  /** Unless connectTCP hands back a closed socket, every descriptor variable names an open socket
      of its own, and nothing collides. */
  lemma DescriptorsInOrder(s: System, code: Reading.Code, ip: string, port: nat, junk: nat, run: seq<Action>)
    requires Reached(s, code, ip, port, junk, run)
    requires NeverDialsClosed(Initial(code, ip, port, junk), run)
    ensures Steady(s) && forall i: nat :: Loose(s, i) && NeverCollides(Initial(code, ip, port, junk), run, i)
  {
    var start := Initial(code, ip, port, junk);
    InitialSteady(code, ip, port, junk);
    RunSteady(start, run);
    forall i: nat ensures Loose(s, i) && NeverCollides(start, run, i) {
      SteadyIsLoose(s, i);
      ClosedBeforeReused(start, run, i);
    }
  }

  /** In every reachable state: after a servant's close, its next read, write or close of any kind
      comes after a CONNECT popped later and after connectTCP handed back that descriptor; and
      that descriptor was open unless some attempt of the run handed back a closed socket. */
  lemma ReopenedAfterClose(s: System, code: Reading.Code, ip: string, port: nat, junk: nat, run: seq<Action>,
                           i: nat, x: nat, y: nat)
    requires Reached(s, code, ip, port, junk, run) && i < |s.servants| && x < y < |s.servants[i].trace|
    requires s.servants[i].trace[x].Shut? && (Uses(s.servants[i].trace[y]) || s.servants[i].trace[y].Shut?)
    ensures var trace := s.servants[i].trace;
            exists k, l :: x < k < l < y && trace[k].Popped? && trace[k].kind == Connect && Opens(trace[l], trace[y].fd)
                           && (NeverDialsClosed(Initial(code, ip, port, junk), run) ==> trace[l].live)
  {
    var start, trace := Initial(code, ip, port, junk), s.servants[i].trace;
    EveryRun(s, code, ip, port, junk, run);
    assert Disciplined(s.peers[i], s.servants[i]);
    NothingAfterClose(trace, x, y);
    var k, l :| x < k < l < y && trace[k].Popped? && trace[k].kind == Connect && Opens(trace[l], trace[y].fd);
    if NeverDialsClosed(start, run) {
      InitialSteady(code, ip, port, junk);
      RunLive(start, run);
    }
  }

  /** From the typed line to the wire: in every reachable state, whatever a servant has written is
      the message of a line that was pushed, with its words joined by single spaces; the line has
      a "-m"; and if the line named no descriptor, its last address is the peer's own. */
  lemma WrittenAsTyped(s: System, code: Reading.Code, ip: string, port: nat, junk: nat, run: seq<Action>, i: nat, k: nat)
    requires Reached(s, code, ip, port, junk, run)
    requires i < |s.servants| && k < |s.servants[i].trace| && s.servants[i].trace[k].WroteTo?
    ensures var e := s.servants[i].trace[k];
            && e.id < |s.pushed| && i < |s.peers|
            && var items := Items(Tokens.Words(s.pushed[e.id].text));
            var where := LastAddress(Addresses(items), "", 0);
            && "-m" in Plains(items)
            && e.msg == Tokens.Join(MessageWords(Plains(items)))
            && (LastDescriptor(Descriptors(items), CLOSED) == CLOSED ==> where.Addr? && Owns(s.peers[i], where.ip, where.port))
  {
    EveryRun(s, code, ip, port, junk, run);
    var e := s.servants[i].trace[k];
    assert Names(s, e.id, Write, e.msg) && s.fates[e.id] == Routed(i);
    OptionMeaning(s.pushed[e.id].text);
    WriteHasMark(Plains(Items(Tokens.Words(s.pushed[e.id].text))));
  }

  lemma WriteHasMark(plains: seq<string>)
    requires KindOf(plains) == Write
    ensures "-m" in plains
  {
  }

  // ----- When the client ends -----

  /** A dispatch ends the client exactly when the line in hand is fatal. */
  lemma ScanHalts(s: System, junk: nat)
    requires Shape(s) && Waiting(s) && Parsed(s) && Enabled(s, Scan(junk))
    ensures Next(s, Scan(junk)).halted <==> Fatal(s.hand.value.text)
    ensures Parse(s.hand.value.text) == Rejected ==>
              Next(s, Scan(junk)) == s.(hand := None, fates := s.fates + [Unparsed])
  {
    HandIsNext(s);
    FatalExactly(s.hand.value.text);
    ScanMoves(s, junk);
    if s.hand.value.says == Rejected {
      RejectedScan(s, junk);
    }
  }

  /** How many lines the dispatcher has looked at. */
  function ScanCount(run: seq<Action>): nat {
    if run == [] then 0 else ScanCount(run[1..]) + if run[0].Scan? then 1 else 0
  }

  /** The line that ended the client is still in the dispatcher's hand. */
  ghost predicate EndedByHand(s: System) {
    s.halted ==> s.hand.Some? && (s.hand.value.says == Thrown || s.hand.value.says == Undefined)
  }

  lemma StepScans(s: System, a: Action)
    requires Shape(s) && Enabled(s, a)
    ensures var s' := Next(s, a);
            && |s'.fates| + (if s'.halted then 1 else 0) == |s.fates| + (if a.Scan? then 1 else 0)
            && EndedByHand(s')
  {
    if a.Scan? {
      ScanMoves(s, a.junk);
    } else {
      FatesStay(s, a);
    }
  }

  lemma {:induction false} RunScans(s: System, run: seq<Action>)
    requires Shape(s) && !s.halted && Possible(s, run)
    ensures |After(s, run).fates| + (if After(s, run).halted then 1 else 0) == |s.fates| + ScanCount(run)
    ensures EndedByHand(After(s, run))
    decreases |run|
  {
    if run != [] {
      var s1 := Next(s, run[0]);
      StepShape(s, run[0]);
      StepScans(s, run[0]);
      if run[1..] == [] {
        assert After(s1, run[1..]) == s1;
      } else {
        assert Enabled(s1, run[1..][0]);
        RunScans(s1, run[1..]);
      }
    }
  }

  /** In every reachable state the dispatcher has looked at the lines pushed first, in order, and the
      client has ended exactly if one of those is fatal; then it is the last of them. */
  lemma EndsExactly(s: System, code: Reading.Code, ip: string, port: nat, junk: nat, run: seq<Action>)
    requires Reached(s, code, ip, port, junk, run)
    ensures ScanCount(run) <= |s.pushed|
    ensures s.halted <==> exists k :: 0 <= k < ScanCount(run) && Fatal(s.pushed[k].text)
    ensures forall k :: 0 <= k < ScanCount(run) && Fatal(s.pushed[k].text) ==> k == ScanCount(run) - 1
  {
    EveryRun(s, code, ip, port, junk, run);
    InitialSteady(code, ip, port, junk);
    RunScans(Initial(code, ip, port, junk), run);
    forall k | 0 <= k < |s.fates| ensures !Fatal(s.pushed[k].text) {
      FatalExactly(s.pushed[k].text);
    }
    if s.halted {
      HandIsNext(s);
      FatalExactly(s.hand.value.text);
      assert Fatal(s.pushed[|s.fates|].text);
    }
  }

  // ----- Nobody is stuck -----

  /** Whoever has something to do can do it: a servant with a request or in the middle of one, the
      dispatcher with a command, the waiter with an event. */
  lemma NobodyIsStuck(s: System, i: nat)
    requires Shape(s) && !s.halted
    ensures i < |s.peers| && (s.servants[i].pc != Idle || s.peers[i].que != []) ==> exists a :: OwnStep(a, i) && Enabled(s, a)
    ensures s.hand.Some? ==> forall junk: nat :: Enabled(s, Scan(junk))
    ensures s.hand == None && s.queue != [] ==> Enabled(s, Take)
    ensures s.batch != [] ==> Enabled(s, Print)
    ensures forall text: string :: Enabled(s, Push(text))
  {
    if i < |s.peers| && (s.servants[i].pc != Idle || s.peers[i].que != []) {
      var a := match s.servants[i].pc
        case Idle => Serve(i)
        case Connecting => Dial(i, false, [])
        case Obtained(_) => Assign(i)
        case Registering => Register(i, false)
        case Draining(_) => ReadSocket(i, Reading.Failed)
        case Clearing => ClearQueue(i)
        case Closing => ShutSocket(i);
      assert OwnStep(a, i) && Enabled(s, a);
    }
  }

  /** This step brings a request to peer `i`. */
  predicate Routes(s: System, a: Action, i: nat) {
    a.Scan? && s.hand.Some? && s.hand.value.says.Accepted? && FirstMatch(s.peers, s.hand.value.says.r) == i
  }

  /** What becomes of a peer's queue: the dispatcher appends, its servant takes from the front, and
      the end of a READ clears it. */
  lemma StepQueue(s: System, a: Action, i: nat)
    requires Shape(s) && Enabled(s, a) && i < |s.peers|
    ensures i < |Next(s, a).peers|
    ensures var que, que' := s.peers[i].que, Next(s, a).peers[i].que;
            if a == Serve(i) then que == [que[0]] + que'
            else if a == ClearQueue(i) then que' == []
            else if Routes(s, a, i) then que' == que + [Query(s.hand.value.says.r.kind, s.hand.value.says.r.msg)]
            else que' == que
  {
    if a.Scan? {
      ScanMoves(s, a.junk);
      if !Next(s, a).halted {
        MovedQueue(s, Next(s, a), Next(s, a).fates[|s.fates|], i);
      }
    } else if a != Serve(i) && a != ClearQueue(i) {
      QueueStays(s, a, i);
    }
  }

  // ----- Which commands are dropped -----

  /** For each command a servant has popped, whether it was disconnected then, by its own record, and
      the command no CONNECT. */
  function EndsByRecord(trace: seq<Trace>): seq<End> {
    if trace == [] then []
    else
      var n := |trace| - 1;
      EndsByRecord(trace[..n]) +
      if !trace[n].Popped? then []
      else if trace[n].kind != Connect && Conform(trace[..n]) == Some(Down) then [Dropped] else [Started]
  }

  function KeptEnds(done: seq<Done>): seq<End> {
    if done == [] then []
    else KeptEnds(done[..|done| - 1]) + (if done[|done| - 1].end.Erased? then [] else [done[|done| - 1].end])
  }

  /** A servant drops exactly those; what a clear erased it has never popped. */
  ghost predicate DropsRight(v: Servant) {
    KeptEnds(v.done) == EndsByRecord(v.trace)
  }

  lemma EndsGrow(trace: seq<Trace>, e: Trace)
    ensures EndsByRecord(trace + [e]) == EndsByRecord(trace) +
            if !e.Popped? then [] else if e.kind != Connect && Conform(trace) == Some(Down) then [Dropped] else [Started]
  {
    assert (trace + [e])[..|trace|] == trace;
  }

  lemma {:induction false} NothingPoppedEnds(trace: seq<Trace>, more: seq<Trace>)
    requires forall k :: 0 <= k < |more| ==> !more[k].Popped?
    ensures EndsByRecord(trace + more) == EndsByRecord(trace)
    decreases |more|
  {
    if more == [] {
      assert trace + more == trace;
    } else {
      var n := |more| - 1;
      NothingPoppedEnds(trace, more[..n]);
      assert trace + more == (trace + more[..n]) + [more[n]];
      EndsGrow(trace + more[..n], more[n]);
    }
  }

  lemma {:induction false} ErasedEnds(done: seq<Done>, tags: seq<nat>)
    ensures KeptEnds(done + Erase(tags)) == KeptEnds(done)
    decreases |tags|
  {
    if tags == [] {
      assert done + Erase(tags) == done;
    } else {
      var n := |tags| - 1;
      assert (done + Erase(tags))[..|done| + n] == done + Erase(tags[..n]);
      ErasedEnds(done, tags[..n]);
    }
  }

  lemma ServeDrops(s: System, i: nat)
    requires Shape(s) && Enabled(s, Serve(i)) && Disciplined(s.peers[i], s.servants[i]) && DropsRight(s.servants[i])
    ensures EndsByRecord(s.servants[i].trace + Did(s, Serve(i), i)) == KeptEnds(s.servants[i].done + Ended(s, Serve(i), i))
  {
    var p, v := s.peers[i], s.servants[i];
    var id, q := v.tags[0], p.que[0];
    var drop := p.fd == CLOSED && q.req != Connect;
    IdleMode(p, v);
    ServeRecords(s, i);
    KeptGrow(v.done, Ended(s, Serve(i), i), Done(id, if drop then Dropped else Started));
    PopEnds(v.trace, Did(s, Serve(i), i), id, q.req,
            if q.req == Write && p.fd != CLOSED then [WroteTo(p.fd, id, q.msg)] else []);
  }

  lemma IdleMode(p: Peer, v: Servant)
    requires Disciplined(p, v) && v.pc == Idle
    ensures Conform(v.trace) == Some(Down) <==> p.fd == CLOSED
  {
  }

  lemma KeptGrow(done: seq<Done>, ended: seq<Done>, d: Done)
    requires ended == [d]
    ensures KeptEnds(done + ended) == KeptEnds(done) + if d.end.Erased? then [] else [d.end]
  {
    assert (done + [d])[..|done|] == done;
  }

  lemma PopEnds(trace: seq<Trace>, did: seq<Trace>, id: nat, kind: Req, more: seq<Trace>)
    requires did == [Popped(id, kind)] + more && forall k :: 0 <= k < |more| ==> !more[k].Popped?
    ensures EndsByRecord(trace + did) ==
            EndsByRecord(trace) + if kind != Connect && Conform(trace) == Some(Down) then [Dropped] else [Started]
  {
    EndsGrow(trace, Popped(id, kind));
    NothingPoppedEnds(trace + [Popped(id, kind)], more);
    assert trace + did == (trace + [Popped(id, kind)]) + more;
  }

  lemma ServeRecords(s: System, i: nat)
    requires Shape(s) && Enabled(s, Serve(i))
    ensures var p, v := s.peers[i], s.servants[i];
            var id, q := v.tags[0], p.que[0];
            && Did(s, Serve(i), i) == [Popped(id, q.req)] + (if q.req == Write && p.fd != CLOSED then [WroteTo(p.fd, id, q.msg)] else [])
            && Ended(s, Serve(i), i) == [Done(id, if p.fd == CLOSED && q.req != Connect then Dropped else Started)]
  {
  }

  lemma DidNotPop(s: System, a: Action, i: nat)
    requires Shape(s) && Enabled(s, a) && i < |s.peers| && a != Serve(i)
    ensures forall k :: 0 <= k < |Did(s, a, i)| ==> !Did(s, a, i)[k].Popped?
    ensures Ended(s, a, i) == if a == ClearQueue(i) then Erase(s.servants[i].tags) else []
  {
  }

  lemma StepDrops(s: System, a: Action, s': System)
    requires Shape(s) && AllDisciplined(s) && Enabled(s, a) && Recorded(s, a, s')
    requires forall i :: 0 <= i < |s.servants| ==> DropsRight(s.servants[i])
    ensures forall i :: 0 <= i < |s'.servants| ==> DropsRight(s'.servants[i])
  {
    forall i | 0 <= i < |s'.servants| ensures DropsRight(s'.servants[i]) {
      if i < |s.servants| {
        var v := s.servants[i];
        if a == Serve(i) {
          ServeDrops(s, i);
        } else {
          DidNotPop(s, a, i);
          NothingPoppedEnds(v.trace, Did(s, a, i));
          ErasedEnds(v.done, if a == ClearQueue(i) then v.tags else []);
          assert Erase([]) == [];
        }
      }
    }
  }

  lemma {:induction false} RunDrops(s: System, run: seq<Action>)
    requires Shape(s) && AllDisciplined(s) && Possible(s, run)
    requires forall i :: 0 <= i < |s.servants| ==> DropsRight(s.servants[i])
    ensures forall i :: 0 <= i < |After(s, run).servants| ==> DropsRight(After(s, run).servants[i])
    decreases |run|
  {
    if run != [] {
      StepShape(s, run[0]);
      StepDisciplined(s, run[0]);
      StepRecorded(s, run[0]);
      StepDrops(s, run[0], Next(s, run[0]));
      RunDrops(Next(s, run[0]), run[1..]);
    }
  }

  /** In every reachable state: of the commands that a servant has popped it has dropped exactly those
      that were no CONNECT and that it popped while disconnected. */
  lemma DroppedExactly(s: System, code: Reading.Code, ip: string, port: nat, junk: nat, run: seq<Action>, i: nat)
    requires Reached(s, code, ip, port, junk, run) && i < |s.servants|
    ensures KeptEnds(s.servants[i].done) == EndsByRecord(s.servants[i].trace)
  {
    InitialSteady(code, ip, port, junk);
    RunDrops(Initial(code, ip, port, junk), run);
    assert DropsRight(s.servants[i]);
  }

  // ----- The local address of a peer -----

  /** The commands that appended a peer, in order. */
  function AppendedIds(fates: seq<Fate>): seq<nat> {
    if fates == [] then []
    else AppendedIds(fates[..|fates| - 1]) + (if fates[|fates| - 1] == Appended then [|fates| - 1] else [])
  }

  /** The first peer binds to the client's own address, each later one to the address that the
      command which appended it asked for. */
  ghost predicate BoundBy(s: System, ip: string, port: nat) {
    var ids := AppendedIds(s.fates);
    && |s.peers| == 1 + |ids| && |s.fates| <= |s.pushed|
    && s.peers[0].locIp == ip && s.peers[0].locPort == port
    && forall k :: 0 <= k < |ids| ==>
         && ids[k] < |s.fates| && s.pushed[ids[k]].says.Accepted?
         && s.peers[k + 1].locIp == s.pushed[ids[k]].says.r.ip && s.peers[k + 1].locPort == s.pushed[ids[k]].says.r.port
  }

  lemma OthersKeepLocal(s: System, a: Action, i: nat)
    requires Enabled(s, a) && !a.Scan? && i < |s.peers|
    ensures i < |Next(s, a).peers|
    ensures Next(s, a).peers[i].locIp == s.peers[i].locIp && Next(s, a).peers[i].locPort == s.peers[i].locPort
  {
  }

  lemma MovedBoundBy(s: System, s': System, f: Fate, ip: string, port: nat)
    requires Waiting(s) && BoundBy(s, ip, port) && Moved(s, s', f)
    ensures BoundBy(s', ip, port)
  {
    HandIsNext(s);
    assert s'.fates[..|s'.fates| - 1] == s.fates;
    forall i | 0 <= i < |s.peers| ensures s'.peers[i].locIp == s.peers[i].locIp && s'.peers[i].locPort == s.peers[i].locPort {
      if f.Appended? {
        assert s'.peers[i] == s'.peers[..|s.peers|][i];
      }
    }
  }

  lemma StepBoundBy(s: System, a: Action, ip: string, port: nat)
    requires Shape(s) && Waiting(s) && BoundBy(s, ip, port) && Enabled(s, a)
    ensures BoundBy(Next(s, a), ip, port)
  {
    var s' := Next(s, a);
    if a.Scan? {
      ScanMoves(s, a.junk);
      if !s'.halted {
        MovedBoundBy(s, s', s'.fates[|s.fates|], ip, port);
      }
    } else {
      FatesStay(s, a);
      RecordsGrow(s, a);
      forall i | 0 <= i < |s.peers| ensures s'.peers[i].locIp == s.peers[i].locIp && s'.peers[i].locPort == s.peers[i].locPort {
        OthersKeepLocal(s, a, i);
      }
    }
  }

  lemma {:induction false} RunBoundBy(s: System, run: seq<Action>, ip: string, port: nat)
    requires Shape(s) && Conserved(s) && BoundBy(s, ip, port) && Possible(s, run)
    ensures BoundBy(After(s, run), ip, port)
    decreases |run|
  {
    if run != [] {
      StepShape(s, run[0]);
      StepConserved(s, run[0]);
      StepBoundBy(s, run[0], ip, port);
      RunBoundBy(Next(s, run[0]), run[1..], ip, port);
    }
  }

  /** In every reachable state. */
  lemma LocalAddresses(s: System, code: Reading.Code, ip: string, port: nat, junk: nat, run: seq<Action>)
    requires Reached(s, code, ip, port, junk, run)
    ensures BoundBy(s, ip, port)
  {
    InitialSteady(code, ip, port, junk);
    InitialConserved(code, ip, port, junk);
    RunBoundBy(Initial(code, ip, port, junk), run, ip, port);
  }

  // ----- Registered sockets and bytes -----

  /** Once its registration has succeeded a peer's socket stays registered until its number is closed,
      and from then on its unread data is accounted for, whatever it held at the registration. */
  lemma RegisteredDataAccounted(s: System, code: Reading.Code, ip: string, port: nat, junk: nat, before: seq<Action>,
                                i: nat, run: seq<Action>)
    requires Reached(s, code, ip, port, junk, before) && Enabled(s, Register(i, true))
    requires Possible(Next(s, Register(i, true)), run) && NeverCloses(Next(s, Register(i, true)), run, s.peers[i].fd)
    requires code.AsIntended? ||
             (NeverForgets(Initial(code, ip, port, junk), before, s.peers[i].fd)
              && NeverForgets(Next(s, Register(i, true)), run, s.peers[i].fd))
    ensures var s', fd := After(Next(s, Register(i, true)), run), s.peers[i].fd;
            && Registered(s', fd)
            && (Readable(s'.sockets[fd]) ==> Underway(s', fd) || exists j :: Attends(s', j, fd))
  {
    var start, fd, s1 := Initial(code, ip, port, junk), s.peers[i].fd, Next(s, Register(i, true));
    RunCode(start, before);
    if code.AsIntended? {
      IntendedNeverLetsGo(start, before, fd, 0);
      IntendedNeverLetsGo(s1, run, fd, 0);
    }
    RunHasHolder(start, before, fd);
    RunAccounted(start, before, fd);
    AccountedFromRegister(s, i, run);
  }

  lemma AccountedFromRegister(s: System, i: nat, run: seq<Action>)
    requires Shape(s) && SocketsAreInts(s) && Enabled(s, Register(i, true))
    requires HasHolder(s, s.peers[i].fd) && Accounted(s, s.peers[i].fd)
    requires Possible(Next(s, Register(i, true)), run) && NeverCloses(Next(s, Register(i, true)), run, s.peers[i].fd)
    requires NeverForgets(Next(s, Register(i, true)), run, s.peers[i].fd)
    ensures var s', fd := After(Next(s, Register(i, true)), run), s.peers[i].fd;
            Registered(s', fd) && Accounted(s', fd)
  {
    var a, fd := Register(i, true), s.peers[i].fd;
    RegisterRegisters(s, i);
    RunRegistered(Next(s, a), run, fd);
    StepShape(s, a);
    StepInts(s, a);
    StepHasHolder(s, a, fd);
    StepAccounted(s, a, fd);
    RunAccounted(Next(s, a), run, fd);
  }

  lemma {:induction false} RunCode(s: System, run: seq<Action>)
    requires Possible(s, run)
    ensures After(s, run).code == s.code
    decreases |run|
  {
    if run != [] {
      RunCode(Next(s, run[0]), run[1..]);
    }
  }

  /** From the start: every byte that has arrived under a number has been read by a servant that has
      recorded it, or lies in the open socket of that number, or was thrown away by a close. */
  lemma EveryByte(s: System, code: Reading.Code, ip: string, port: nat, junk: nat, run: seq<Action>, fd: int)
    requires Reached(s, code, ip, port, junk, run)
    ensures BroughtBy(run, fd) ==
            BytesOfAll(s.servants, fd) + Buffered(s, fd) + DiscardedBy(Initial(code, ip, port, junk), run, fd)
  {
    InitialSteady(code, ip, port, junk);
    RunBytes(Initial(code, ip, port, junk), run, fd);
    assert [NEWSERVANT][..0] == [];
  }

  // ----- Addresses -----

  /** An address once owned is owned by the same peer for ever, and every later request that names
      it and no descriptor goes there. */
  lemma {:induction false} OwnerForEver(s: System, run: seq<Action>, i: nat, r: Request)
    requires Shape(s) && Possible(s, run) && i < |s.peers| && ByAddress(r) && Owns(s.peers[i], r.ip, r.port)
    ensures var s' := After(s, run); i < |s'.peers| && Owns(s'.peers[i], r.ip, r.port) && FirstMatch(s'.peers, r) == i
    decreases |run|
  {
    if run == [] {
      OwnerReceives(s.peers, i, r);
    } else {
      StepShape(s, run[0]);
      AddressStays(s, run[0], i);
      OwnerForEver(Next(s, run[0]), run[1..], i, r);
    }
  }

  ghost predicate NoScan(run: seq<Action>) {
    forall k :: 0 <= k < |run| ==> !run[k].Scan?
  }

  lemma ServedStep(s: System, a: Action)
    requires Shape(s) && Enabled(s, a) && !a.Scan?
    ensures Peers.Served(s.peers, Next(s, a).peers)
  {
    SizesGrow(s, a);
    forall i | 0 <= i < |s.peers|
      ensures Next(s, a).peers[i].ip == s.peers[i].ip && Next(s, a).peers[i].port == s.peers[i].port
      ensures !Assigned(s.peers[i]) ==> Next(s, a).peers[i].fd == s.peers[i].fd
    {
      OnlyScanAssigns(s, a, i);
      if !OwnStep(a, i) {
        OthersKeepServant(s, a, i);
      }
    }
  }

  lemma {:induction false} ServedRun(s: System, run: seq<Action>)
    requires Shape(s) && Possible(s, run) && NoScan(run)
    ensures Peers.Served(s.peers, After(s, run).peers)
    decreases |run|
  {
    if run != [] {
      StepShape(s, run[0]);
      ServedStep(s, run[0]);
      ServedRun(Next(s, run[0]), run[1..]);
    }
  }

  /** Of two commands that name the same address and no descriptor, dispatched one after the other
      whatever the other threads do in between, the second finds its peer exactly when the first
      did or the new peer's uninitialised port happens to be zero. */
  lemma SecondCommand(s: System, r: Request, junk: nat, between: seq<Action>)
    requires Shape(s) && ByAddress(r) && Enabled(s, Scan(junk)) && s.hand.value.says == Accepted(r)
    requires Possible(Next(s, Scan(junk)), between) && NoScan(between)
    ensures var later := After(Next(s, Scan(junk)), between);
            && (FirstMatch(later.peers, r) < |later.peers| <==> FirstMatch(s.peers, r) < |s.peers| || junk == 0)
            && |later.peers| == |s.peers| + if FirstMatch(s.peers, r) < |s.peers| then 0 else 1
  {
    var next := Next(s, Scan(junk));
    StepShape(s, Scan(junk));
    ServedRun(next, between);
    SecondRequest(s.peers, r, junk, After(next, between).peers);
  }

  function CountAppended(fates: seq<Fate>): nat {
    if fates == [] then 0
    else CountAppended(fates[..|fates| - 1]) + (if fates[|fates| - 1] == Appended then 1 else 0)
  }

  /** The vector grows by one for every unmatched request and never shrinks. */
  lemma {:induction false} PeersCounted(s: System, run: seq<Action>)
    requires Shape(s) && Possible(s, run)
    ensures var s' := After(s, run);
            s.fates <= s'.fates && |s'.peers| - |s.peers| == CountAppended(s'.fates) - CountAppended(s.fates)
    decreases |run|
  {
    if run != [] {
      StepShape(s, run[0]);
      PeersCountedOnce(s, run[0]);
      PeersCounted(Next(s, run[0]), run[1..]);
    }
  }

  lemma PeersCountedOnce(s: System, a: Action)
    requires Shape(s) && Enabled(s, a)
    ensures s.fates <= Next(s, a).fates
    ensures |Next(s, a).peers| - |s.peers| == CountAppended(Next(s, a).fates) - CountAppended(s.fates)
  {
    var fates' := Next(s, a).fates;
    if a.Scan? {
      ScanMoves(s, a.junk);
      assert |fates'| > |s.fates| ==> fates'[..|fates'| - 1] == s.fates;
    } else {
      FatesStay(s, a);
    }
  }

  /** This step dispatches a request that claims a peer behind a dead one. */
  ghost predicate PassesDead(s: System, a: Action) {
    a.Scan? && s.hand.Some? && s.hand.value.says.Accepted? && ClaimsPast(s.peers, s.hand.value.says.r)
  }

  ghost predicate NeverPassesDead(s: System, run: seq<Action>)
    requires Possible(s, run)
    decreases |run|
  {
    run == [] || (!PassesDead(s, run[0]) && NeverPassesDead(Next(s, run[0]), run[1..]))
  }

  /** Only the dispatcher changes who owns what. */
  lemma SameOwners(s: System, a: Action)
    requires Shape(s) && Enabled(s, a) && !(a.Scan? && s.hand.value.says.Accepted?)
    ensures OwnersFirst(Next(s, a).peers) <==> OwnersFirst(s.peers)
  {
    var peers, peers' := s.peers, Next(s, a).peers;
    assert |peers| == |peers'|;
    forall i | 0 <= i < |peers| ensures Assigned(peers'[i]) <==> Assigned(peers[i]) {
    }
  }

  lemma StepOwnersFirst(s: System, a: Action)
    requires Shape(s) && Enabled(s, a)
    ensures OwnersFirst(Next(s, a).peers) <==> OwnersFirst(s.peers) && !PassesDead(s, a)
  {
    if a.Scan? && s.hand.value.says.Accepted? {
      var r := s.hand.value.says.r;
      if OwnersFirst(s.peers) {
        DispatchOwnersFirst(s.peers, r, a.junk);
      } else {
        NeverFirstAgain(s.peers, r, a.junk);
      }
    } else {
      SameOwners(s, a);
    }
  }

  lemma {:induction false} RunOwnersFirst(s: System, run: seq<Action>)
    requires Shape(s) && Possible(s, run)
    ensures Shape(After(s, run))
    ensures OwnersFirst(After(s, run).peers) <==> OwnersFirst(s.peers) && NeverPassesDead(s, run)
    decreases |run|
  {
    if run != [] {
      StepShape(s, run[0]);
      StepOwnersFirst(s, run[0]);
      RunOwnersFirst(Next(s, run[0]), run[1..]);
    }
  }

  ghost predicate ZeroJunk(run: seq<Action>) {
    forall k :: 0 <= k < |run| && run[k].Scan? ==> run[k].junk == 0
  }

  lemma StepNoneDead(s: System, a: Action)
    requires Shape(s) && NoneDead(s.peers) && Enabled(s, a) && (a.Scan? ==> a.junk == 0)
    ensures NoneDead(Next(s, a).peers)
  {
    if a.Scan? {
      if s.hand.value.says.Accepted? {
        NoneDies(s.peers, s.hand.value.says.r);
      }
    } else {
      forall i | 0 <= i < |Next(s, a).peers| ensures !Dead(Next(s, a).peers[i]) {
        OnlyScanAssigns(s, a, i);
      }
    }
  }

  /** Where every port starts at zero nobody is dead, so nobody is passed. */
  lemma {:induction false} ZeroJunkPassesNone(s: System, run: seq<Action>)
    requires Shape(s) && NoneDead(s.peers) && Possible(s, run) && ZeroJunk(run)
    ensures NeverPassesDead(s, run)
    decreases |run|
  {
    if run != [] {
      StepShape(s, run[0]);
      assert run[0].Scan? ==> run[0].junk == 0;
      StepNoneDead(s, run[0]);
      ZeroJunkPassesNone(Next(s, run[0]), run[1..]);
    }
  }

  /** In every reachable state the owners' addresses are distinct and whoever owns none is idle,
      disconnected and has nothing queued. The owners are a prefix of the vector exactly when no
      request has claimed a peer behind a dead one; so they are when all ports start at zero. */
  lemma AssignedPrefix(s: System, code: Reading.Code, ip: string, port: nat, junk: nat, run: seq<Action>)
    requires Reached(s, code, ip, port, junk, run)
    ensures |s.peers| == |s.servants|
    ensures forall i, j :: 0 <= i < j < |s.peers| && Assigned(s.peers[i]) && Assigned(s.peers[j]) ==>
              s.peers[i].ip != s.peers[j].ip || s.peers[i].port != s.peers[j].port
    ensures forall i :: 0 <= i < |s.peers| ==>
              if Assigned(s.peers[i]) then s.peers[i].port != 0
              else s.peers[i].fd == CLOSED && s.peers[i].que == [] && s.servants[i].pc == Idle
    ensures OwnersFirst(s.peers) <==> NeverPassesDead(Initial(code, ip, port, junk), run)
    ensures junk == 0 && ZeroJunk(run) ==> OwnersFirst(s.peers)
  {
    RunOwnersFirst(Initial(code, ip, port, junk), run);
    if junk == 0 && ZeroJunk(run) {
      ZeroJunkPassesNone(Initial(code, ip, port, junk), run);
    }
  }

  /** Without that luck the dispatcher may go on appending: each new peer that starts with another
      port is never claimed, so the same request is unmatched again. */
  lemma NeverClaimed(s: System, r: Request, junk: nat, between: seq<Action>)
    requires Shape(s) && ByAddress(r) && Enabled(s, Scan(junk)) && s.hand.value.says == Accepted(r)
    requires FirstMatch(s.peers, r) == |s.peers| && junk != 0
    requires Possible(Next(s, Scan(junk)), between) && NoScan(between)
    ensures FirstMatch(After(Next(s, Scan(junk)), between).peers, r) == |s.peers| + 1
  {
    SecondCommand(s, r, junk, between);
  }

  // ----- The read loop -----

  /** In its read loop. */
  predicate Spins(s: System, i: nat) {
    i < |s.servants| && (s.servants[i].pc.Draining? || s.servants[i].pc == Clearing)
  }

  /** Nothing but reads has been added. */
  ghost predicate OnlyReads(before: seq<Trace>, after: seq<Trace>) {
    before <= after && forall k :: |before| <= k < |after| ==> after[k].ReadFrom?
  }

  lemma OnlyReadsOn(x: seq<Trace>, y: seq<Trace>, z: seq<Trace>)
    requires OnlyReads(x, y) && OnlyReads(y, z)
    ensures OnlyReads(x, z)
  {
    assert forall k :: |x| <= k < |y| ==> z[k] == y[k];
  }

  /** As the code is written a servant that starts a READ never pops another request, and only
      reads, until a read fails. */
  lemma {:induction false} SpinsUntilFailure(s: System, run: seq<Action>, i: nat)
    requires Shape(s) && Possible(s, run) && s.code.AsWritten? && Spins(s, i)
    requires ReadSocket(i, Reading.Failed) !in run
    ensures Spins(After(s, run), i) && OnlyReads(s.servants[i].trace, After(s, run).servants[i].trace)
    decreases |run|
  {
    if run != [] {
      var next := Next(s, run[0]);
      StepShape(s, run[0]);
      assert run[0] in run;
      SpinsOnce(s, run[0], i);
      SpinsUntilFailure(next, run[1..], i);
      OnlyReadsOn(s.servants[i].trace, next.servants[i].trace, After(s, run).servants[i].trace);
    }
  }

  lemma SpinsOnce(s: System, a: Action, i: nat)
    requires Shape(s) && Enabled(s, a) && s.code.AsWritten? && Spins(s, i)
    ensures i < |Next(s, a).servants| && Next(s, a).code == s.code
    ensures Spins(Next(s, a), i) <==> a != ReadSocket(i, Reading.Failed)
    ensures OnlyReads(s.servants[i].trace, Next(s, a).servants[i].trace)
  {
    if OwnStep(a, i) {
      OwnStepSpins(s, a, i);
    } else {
      OthersKeepServant(s, a, i);
    }
  }

  lemma OwnStepSpins(s: System, a: Action, i: nat)
    requires Shape(s) && Enabled(s, a) && s.code.AsWritten? && OwnStep(a, i) && Spins(s, i)
    ensures i < |Next(s, a).servants| && Next(s, a).code == s.code
    ensures Spins(Next(s, a), i) <==> a != ReadSocket(i, Reading.Failed)
    ensures OnlyReads(s.servants[i].trace, Next(s, a).servants[i].trace)
  {
    assert a.ReadSocket? || a.ClearQueue?;
  }

  /** The servant's part of a drain, as actions of the whole client. */
  function DrainSchedule(code: Reading.Code, i: nat, outcomes: seq<Reading.Outcome>): seq<Action> {
    if outcomes == [] then []
    else
      var res := Reading.ReadResult(code, outcomes[0]);
      [ReadSocket(i, outcomes[0])] +
      if res == -1 then []
      else if res != 0 then DrainSchedule(code, i, outcomes[1..])
      else [ClearQueue(i)] + if code.AsIntended? then [] else DrainSchedule(code, i, outcomes[1..])
  }

  ghost predicate DrainedTo(s: System, i: nat, d: Reading.Drained, s': System, end: Reading.Drained) {
    && IsServant(s, i) && IsServant(s', i)
    && s'.servants[i].pc == (if !end.left then Draining(end.zero) else if end.zero then Closing else Idle)
    && s'.peers[i] == s.peers[i].(que := if end.zero then [] else s.peers[i].que)
    && end.total - d.total == Buffered(s, s.peers[i].fd) - Buffered(s', s.peers[i].fd)
  }

  lemma RunHead(s: System, a: Action, rest: seq<Action>)
    requires Possible(s, [a] + rest)
    ensures Enabled(s, a) && Possible(Next(s, a), rest) && After(s, [a] + rest) == After(Next(s, a), rest)
  {
    assert ([a] + rest)[1..] == rest;
  }

  lemma DrainOnward(s: System, i: nat, d: Reading.Drained, s1: System, d1: Reading.Drained, s2: System, end: Reading.Drained)
    requires DrainedTo(s1, i, d1, s2, end) && IsServant(s, i)
    requires s1.peers[i] == s.peers[i].(que := s1.peers[i].que)
    requires s1.peers[i].que == s.peers[i].que || end.zero
    requires d1.total - d.total == Buffered(s, s.peers[i].fd) - Buffered(s1, s.peers[i].fd)
    ensures DrainedTo(s, i, d, s2, end)
  {
  }

  /** A servant in its read loop, with a schedule for these answers. */
  ghost predicate Drains(s: System, i: nat, outcomes: seq<Reading.Outcome>, zero: bool) {
    && IsServant(s, i) && s.servants[i].pc == Draining(zero) && (zero ==> s.peers[i].que == [])
    && Possible(s, DrainSchedule(s.code, i, outcomes))
  }

  /** `s1` is a stage of the drain: these bytes have been read, and the queue is as said. */
  ghost predicate Stage(s: System, i: nat, s1: System, n: int, que: seq<Query>) {
    && IsServant(s, i) && IsServant(s1, i) && s1.code == s.code && s1.peers[i] == s.peers[i].(que := que)
    && Buffered(s1, s.peers[i].fd) == Buffered(s, s.peers[i].fd) - n
  }

  lemma ScheduleHead(s: System, i: nat, outcomes: seq<Reading.Outcome>)
    requires outcomes != [] && Possible(s, DrainSchedule(s.code, i, outcomes))
    ensures var o, rest := outcomes[0], DrainSchedule(s.code, i, outcomes[1..]);
            var res := Reading.ReadResult(s.code, o);
            && Enabled(s, ReadSocket(i, o))
            && var s1 := Next(s, ReadSocket(i, o));
            && (res == -1 ==> After(s, DrainSchedule(s.code, i, outcomes)) == s1)
            && (res > 0 ==> Possible(s1, rest) && After(s, DrainSchedule(s.code, i, outcomes)) == After(s1, rest))
            && (res == 0 ==>
                  && Enabled(s1, ClearQueue(i))
                  && var s2, tail := Next(s1, ClearQueue(i)), if s.code.AsIntended? then [] else rest;
                  Possible(s2, tail) && After(s, DrainSchedule(s.code, i, outcomes)) == After(s2, tail))
  {
    var o, rest := outcomes[0], DrainSchedule(s.code, i, outcomes[1..]);
    var res := Reading.ReadResult(s.code, o);
    var tail := if s.code.AsIntended? then [] else rest;
    RunHead(s, ReadSocket(i, o), if res == -1 then [] else if res != 0 then rest else [ClearQueue(i)] + tail);
    if res == 0 {
      RunHead(Next(s, ReadSocket(i, o)), ClearQueue(i), tail);
    }
  }

  lemma DataStage(s: System, i: nat, o: Reading.Outcome)
    requires IsServant(s, i) && Enabled(s, ReadSocket(i, o)) && Reading.ReadResult(s.code, o) > 0
    ensures o.Data? && Stage(s, i, Next(s, ReadSocket(i, o)), o.n, s.peers[i].que)
    ensures Next(s, ReadSocket(i, o)).servants[i].pc == s.servants[i].pc
  {
  }

  lemma ZeroStage(s: System, i: nat, o: Reading.Outcome)
    requires IsServant(s, i) && Enabled(s, ReadSocket(i, o)) && Reading.ReadResult(s.code, o) == 0
    requires Enabled(Next(s, ReadSocket(i, o)), ClearQueue(i))
    ensures var s2 := Next(Next(s, ReadSocket(i, o)), ClearQueue(i));
            Stage(s, i, s2, 0, []) && s2.servants[i].pc == if s.code.AsWritten? then Draining(true) else Closing
  {
    assert !o.Data?;
  }

  lemma LastStage(s: System, i: nat, o: Reading.Outcome, zero: bool)
    requires IsServant(s, i) && s.servants[i].pc == Draining(zero)
    requires Enabled(s, ReadSocket(i, o)) && Reading.ReadResult(s.code, o) == -1
    ensures Stage(s, i, Next(s, ReadSocket(i, o)), 0, s.peers[i].que)
    ensures Next(s, ReadSocket(i, o)).servants[i].pc == if zero then Closing else Idle
  {
  }

  /** The drain loop of module Reading is what the client's servant does in its own steps: the same
      end, the same queue, and the bytes it counts are the bytes that leave the socket. */
  lemma {:induction false} DrainRefines(s: System, i: nat, outcomes: seq<Reading.Outcome>, d: Reading.Drained)
    requires !d.left && Drains(s, i, outcomes, d.zero)
    ensures DrainedTo(s, i, d, After(s, DrainSchedule(s.code, i, outcomes)), Reading.Drain(s.code, outcomes, d))
    decreases |outcomes|
  {
    if outcomes != [] {
      var o := outcomes[0];
      var res := Reading.ReadResult(s.code, o);
      ScheduleHead(s, i, outcomes);
      if res > 0 {
        DataStage(s, i, o);
        DataRefines(s, i, outcomes, d, Next(s, ReadSocket(i, o)));
      } else if res == 0 {
        ZeroStage(s, i, o);
        ZeroRefines(s, i, outcomes, d, Next(Next(s, ReadSocket(i, o)), ClearQueue(i)));
      } else {
        LastStage(s, i, o, d.zero);
      }
    }
  }

  lemma {:induction false} DataRefines(s: System, i: nat, outcomes: seq<Reading.Outcome>, d: Reading.Drained, s1: System)
    requires !d.left && Drains(s, i, outcomes, d.zero) && outcomes != [] && outcomes[0].Data?
    requires Stage(s, i, s1, outcomes[0].n, s.peers[i].que) && s1.servants[i].pc == Draining(d.zero)
    requires Reading.ReadResult(s.code, outcomes[0]) > 0
    requires Possible(s1, DrainSchedule(s.code, i, outcomes[1..]))
    ensures DrainedTo(s, i, d, After(s1, DrainSchedule(s.code, i, outcomes[1..])), Reading.Drain(s.code, outcomes, d))
    decreases |outcomes|, 0
  {
    var d1 := d.(used := d.used + 1, total := d.total + outcomes[0].n);
    assert Reading.Drain(s.code, outcomes, d) == Reading.Drain(s.code, outcomes[1..], d1);
    DrainRefines(s1, i, outcomes[1..], d1);
    DrainOnward(s, i, d, s1, d1, After(s1, DrainSchedule(s.code, i, outcomes[1..])), Reading.Drain(s.code, outcomes[1..], d1));
  }

  lemma {:induction false} ZeroRefines(s: System, i: nat, outcomes: seq<Reading.Outcome>, d: Reading.Drained, s2: System)
    requires !d.left && Drains(s, i, outcomes, d.zero) && outcomes != [] && Reading.ReadResult(s.code, outcomes[0]) == 0
    requires Stage(s, i, s2, 0, []) && s2.servants[i].pc == if s.code.AsWritten? then Draining(true) else Closing
    requires Possible(s2, if s.code.AsIntended? then [] else DrainSchedule(s.code, i, outcomes[1..]))
    ensures DrainedTo(s, i, d, After(s2, if s.code.AsIntended? then [] else DrainSchedule(s.code, i, outcomes[1..])),
                      Reading.Drain(s.code, outcomes, d))
    decreases |outcomes|, 0
  {
    if s.code.AsWritten? {
      var d1 := d.(used := d.used + 1, zero := true);
      DrainRefines(s2, i, outcomes[1..], d1);
      Reading.WrittenStaysClosing(outcomes[1..], d1);
      DrainOnward(s, i, d, s2, d1, After(s2, DrainSchedule(s.code, i, outcomes[1..])), Reading.Drain(s.code, outcomes[1..], d1));
    }
  }
}
