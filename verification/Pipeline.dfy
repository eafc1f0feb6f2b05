/** The whole client as one transition system: the command queue, the dispatcher, the peers with a
    servant thread each, the epoll waiter, and the kernel's sockets. A schedule is a sequence of
    actions; every interleaving of the threads and every kernel answer is some schedule. */
module Pipeline {
  import opened Types
  import opened Command
  import opened Waiter
  import opened Peers
  import Connector
  import Reading

  /** A command line and what the parser makes of it. */
  datatype Line = Line(text: string, says: Outcome)

  /** A kernel socket: bytes received, end of file received, registered with epoll, and an edge
      that `epoll_wait` has not reported yet. */
  datatype Socket = Socket(buffered: nat, eof: bool, registered: bool, edge: bool)

  /** Where a servant stands between two steps. */
  datatype Pc =
    | Idle
    | Connecting
    | Obtained(got: int)      // connectTCP has returned, `_fd` is not assigned yet
    | Registering             // `_fd` is assigned, epoll does not know it yet
    | Draining(zero: bool)    // in the read loop; `zero`: the request has become CLOSE
    | Clearing                // read returned 0, the queue is about to be cleared
    | Closing

  /** Popped and acted on, popped while disconnected, or cleared away. */
  datatype End = Started | Dropped | Erased

  /** What became of the command with this number. */
  datatype Done = Done(id: nat, end: End)

  /** What a servant does, in order. `live`: the descriptor that connectTCP handed back is open. */
  datatype Trace =
    | Popped(id: nat, kind: Req)
    | Dialled(ip: string, port: nat)
    | Opened(fd: int, live: bool)
    | ReadFrom(fd: int, outcome: Reading.Outcome)
    | WroteTo(fd: int, id: nat, msg: string)
    | Shut(fd: int)

  /** `tags` numbers the entries of the peer's queue by the commands they come from. */
  datatype Servant = Servant(pc: Pc, tags: seq<nat>, done: seq<Done>, trace: seq<Trace>)

  const NEWSERVANT: Servant := Servant(Idle, [], [], [])

  /** What the dispatcher did with a command. */
  datatype Fate = Unparsed | Appended | Routed(peer: nat)

  datatype System = System(
    code: Reading.Code,
    sockets: map<int, Socket>,
    leaked: set<int>,          // open sockets that no variable holds
    batch: seq<Event>,         // reported by epoll_wait, not yet pushed
    queue: seq<Line>,          // the global command queue
    hand: Option<Line>,        // popped by the dispatcher, not yet dispatched
    peers: seq<Peer>,
    servants: seq<Servant>,
    pushed: seq<Line>,         // every command ever pushed
    fates: seq<Fate>,          // of every command dispatched so far
    halted: bool)              // an exception or undefined behaviour has ended the model

  function Initial(code: Reading.Code, ip: string, port: nat, junk: nat): System {
    System(code, map[], {}, [], [], None, [NewPeer(ip, port, junk)], [NEWSERVANT], [], [], false)
  }

  datatype Action =
    | Push(text: string)
    | Take
    | Scan(junk: nat)
    | Serve(i: nat)
    | Dial(i: nat, resolved: bool, candidates: seq<Connector.Candidate>)
    | Assign(i: nat)
    | Register(i: nat, ok: bool)
    | ReadSocket(i: nat, outcome: Reading.Outcome)
    | ClearQueue(i: nat)
    | ShutSocket(i: nat)
    | Arrive(fd: int, n: nat)
    | HangUp(fd: int)
    | Wait(events: seq<Event>)
    | Print

  predicate Binds(p: Peer) {
    p.locIp != "" || p.locPort != 0
  }

  function Resolved(a: Action): seq<Connector.Candidate>
    requires a.Dial?
  {
    if a.resolved then a.candidates else []
  }

  predicate Readable(k: Socket) {
    k.buffered > 0 || k.eof
  }

  /** The kernel's answers to a read. A descriptor that is not open can only fail. */
  predicate MayRead(sockets: map<int, Socket>, fd: int, o: Reading.Outcome) {
    match o
    case Data(n) => fd in sockets && 1 <= n <= Reading.MAX_READ && n <= sockets[fd].buffered
    case Eof => fd in sockets && sockets[fd].buffered == 0 && sockets[fd].eof
    case Again => fd in sockets && sockets[fd].buffered == 0 && !sockets[fd].eof
    case Failed => true
  }

  predicate IsServant(s: System, i: nat) {
    i < |s.peers| && i < |s.servants|
  }

  predicate Reported(sockets: map<int, Socket>, events: seq<Event>) {
    && 1 <= |events| <= MAXEVENTS
    && (forall j, k :: 0 <= j < k < |events| ==> events[j].fd != events[k].fd)
    && forall k :: 0 <= k < |events| ==> events[k].fd in sockets && sockets[events[k].fd].edge
  }

  predicate Enabled(s: System, a: Action) {
    && !s.halted
    && match a
       case Push(_) => true
       case Take => s.hand == None && s.queue != []
       case Scan(_) => s.hand.Some?
       case Serve(i) => IsServant(s, i) && s.servants[i].pc == Idle && s.peers[i].que != [] && s.servants[i].tags != []
       case Dial(i, _, _) =>
         && IsServant(s, i) && s.servants[i].pc == Connecting
         && Connector.FreshSockets(Binds(s.peers[i]), Resolved(a), s.sockets.Keys)
         && forall k :: 0 <= k < |Resolved(a)| ==> IsInt(Resolved(a)[k].sock)
       case Assign(i) => IsServant(s, i) && s.servants[i].pc.Obtained?
       case Register(i, ok) => IsServant(s, i) && s.servants[i].pc == Registering && (ok ==> s.peers[i].fd in s.sockets)
       case ReadSocket(i, o) => IsServant(s, i) && s.servants[i].pc.Draining? && MayRead(s.sockets, s.peers[i].fd, o)
       case ClearQueue(i) => IsServant(s, i) && s.servants[i].pc == Clearing
       case ShutSocket(i) => IsServant(s, i) && s.servants[i].pc == Closing
       case Arrive(fd, n) => fd in s.sockets && !s.sockets[fd].eof && n > 0
       case HangUp(fd) => fd in s.sockets
       case Wait(events) => s.batch == [] && Reported(s.sockets, events)
       case Print => s.batch != []
  }

  function AddLine(s: System, text: string): System {
    var line := Line(text, Parse(text));
    s.(queue := s.queue + [line], pushed := s.pushed + [line])
  }

  /** `interpretRequest` on the popped command. A missing argument throws in the dispatcher's
      thread, which ends the process. */
  function Dispatched(s: System, junk: nat): System
    requires s.hand.Some?
  {
    match s.hand.value.says
    case Accepted(r) =>
      var i := FirstMatch(s.peers, r);
      var next := s.(hand := None, peers := Dispatch(s.peers, r, junk));
      if i < |s.peers| && i < |s.servants| then
        next.(servants := s.servants[i := s.servants[i].(tags := s.servants[i].tags + [|s.fates|])], fates := s.fates + [Routed(i)])
      else
        next.(servants := s.servants + [NEWSERVANT], fates := s.fates + [Appended])
    case Rejected => s.(hand := None, fates := s.fates + [Unparsed])
    case _ => s.(halted := true)
  }

  /** One pop of the servant, up to the point where the request has its own steps. */
  function ServedOnce(s: System, i: nat): System
    requires IsServant(s, i) && s.peers[i].que != [] && s.servants[i].tags != []
  {
    var p, v := s.peers[i], s.servants[i];
    var q, id := p.que[0], v.tags[0];
    var drop := p.fd == CLOSED && q.req != Connect;
    var pc := match q.req
      case Connect => if p.fd == CLOSED then Connecting else Idle
      case Read => Draining(false)
      case Write => Idle
      case Close => Closing;
    var wrote := if q.req == Write && !drop then [WroteTo(p.fd, id, q.msg)] else [];
    s.(peers := s.peers[i := p.(que := p.que[1..])],
       servants := s.servants[i := Servant(if drop then Idle else pc, v.tags[1..],
                                           v.done + [Done(id, if drop then Dropped else Started)],
                                           v.trace + [Popped(id, q.req)] + wrote)])
  }

  /** One call of connectTCP. */
  function DialledUp(s: System, a: Action): System
    requires a.Dial? && IsServant(s, a.i)
  {
    var p, v := s.peers[a.i], s.servants[a.i];
    var ledger := Connector.Attempt(Binds(p), Resolved(a), CLOSED, s.sockets.Keys);
    var newly := ledger.open - s.sockets.Keys;
    var up := ledger.fd != CLOSED;
    s.(sockets := s.sockets + map fd | fd in newly :: Socket(0, false, false, false),
       leaked := s.leaked + (newly - {ledger.fd}),
       servants := s.servants[a.i := v.(pc := if up then Obtained(ledger.fd) else Connecting,
                                        trace := v.trace + [Dialled(p.ip, p.port)] +
                                                 if up then [Opened(ledger.fd, ledger.fd in ledger.open)] else [])])
  }

  function ReadOnce(s: System, i: nat, o: Reading.Outcome): System
    requires IsServant(s, i) && s.servants[i].pc.Draining? && MayRead(s.sockets, s.peers[i].fd, o)
  {
    var fd, v := s.peers[i].fd, s.servants[i];
    var res := Reading.ReadResult(s.code, o);
    var next := if o.Data? then
        s.(sockets := s.sockets[fd := s.sockets[fd].(buffered := s.sockets[fd].buffered - o.n)])
      else s;
    var pc := if res == -1 then (if v.pc.zero then Closing else Idle) else if res == 0 then Clearing else v.pc;
    next.(servants := s.servants[i := v.(pc := pc, trace := v.trace + [ReadFrom(fd, o)])])
  }

  function Erase(tags: seq<nat>): seq<Done> {
    seq(|tags|, k requires 0 <= k < |tags| => Done(tags[k], Erased))
  }

  /** Data or an end of file arriving on a registered descriptor is an edge. */
  function Received(k: Socket, n: nat, eof: bool): Socket {
    Socket(k.buffered + n, k.eof || eof, k.registered, k.edge || k.registered)
  }

  function Silence(sockets: map<int, Socket>, events: seq<Event>): map<int, Socket> {
    map fd | fd in sockets :: sockets[fd].(edge := sockets[fd].edge && forall k :: 0 <= k < |events| ==> events[k].fd != fd)
  }

  function Next(s: System, a: Action): System
    requires Enabled(s, a)
  {
    match a
    case Push(text) => AddLine(s, text)
    case Take => s.(hand := Some(s.queue[0]), queue := s.queue[1..])
    case Scan(junk) => Dispatched(s, junk)
    case Serve(i) => ServedOnce(s, i)
    case Dial(_, _, _) => DialledUp(s, a)
    case Assign(i) =>
      s.(peers := s.peers[i := s.peers[i].(fd := s.servants[i].pc.got)],
         servants := s.servants[i := s.servants[i].(pc := Registering)])
    case Register(i, ok) =>
      var fd := s.peers[i].fd;
      var next := if ok then
          s.(sockets := s.sockets[fd := s.sockets[fd].(registered := true, edge := s.sockets[fd].edge || Readable(s.sockets[fd]))])
        else s;
      next.(servants := s.servants[i := s.servants[i].(pc := Idle)])
    case ReadSocket(i, o) => ReadOnce(s, i, o)
    case ClearQueue(i) =>
      var v := s.servants[i];
      s.(peers := s.peers[i := s.peers[i].(que := [])],
         servants := s.servants[i := Servant(if s.code.AsWritten? then Draining(true) else Closing, [], v.done + Erase(v.tags), v.trace)])
    case ShutSocket(i) =>
      var fd, v := s.peers[i].fd, s.servants[i];
      s.(sockets := s.sockets - {fd},
         peers := s.peers[i := s.peers[i].(fd := CLOSED)],
         servants := s.servants[i := v.(pc := Idle, trace := v.trace + [Shut(fd)])])
    case Arrive(fd, n) => s.(sockets := s.sockets[fd := Received(s.sockets[fd], n, false)])
    case HangUp(fd) => s.(sockets := s.sockets[fd := Received(s.sockets[fd], 0, true)])
    case Wait(events) => s.(batch := events, sockets := Silence(s.sockets, events))
    case Print => AddLine(s.(batch := s.batch[1..]), CommandFor(s.batch[0]))
  }

  /** The bytes to be read; there are none in a socket that is not open. */
  function Buffered(s: System, fd: int): nat {
    if fd in s.sockets then s.sockets[fd].buffered else 0
  }

  /** `run` is a possible schedule from `s`. */
  predicate Possible(s: System, run: seq<Action>)
    decreases |run|
  {
    run == [] || (Enabled(s, run[0]) && Possible(Next(s, run[0]), run[1..]))
  }

  function After(s: System, run: seq<Action>): System
    requires Possible(s, run)
    decreases |run|
  {
    if run == [] then s else After(Next(s, run[0]), run[1..])
  }

  // ----- Who holds which descriptor -----

  /** The descriptor in a servant's hands. */
  function Held(p: Peer, v: Servant): int {
    if v.pc.Obtained? then v.pc.got else p.fd
  }

  predicate PcFits(p: Peer, v: Servant) {
    match v.pc
    case Idle => true
    case Connecting => Assigned(p) && p.fd == CLOSED
    case Obtained(got) => Assigned(p) && p.fd == CLOSED && got != CLOSED
    case _ => p.fd != CLOSED
  }

  ghost predicate Shape(s: System) {
    && |s.peers| == |s.servants|
    && Routable(s.peers)
    && forall i :: 0 <= i < |s.peers| ==> |s.servants[i].tags| == |s.peers[i].que| && PcFits(s.peers[i], s.servants[i])
  }

  /** Every descriptor held is open, no two servants hold the same one, and an open socket is held
      by a servant or is one of the leaked ones. */
  ghost predicate HeldOnce(s: System)
    requires |s.peers| == |s.servants|
  {
    && (forall i :: 0 <= i < |s.peers| && Held(s.peers[i], s.servants[i]) != CLOSED ==>
          Held(s.peers[i], s.servants[i]) in s.sockets && Held(s.peers[i], s.servants[i]) !in s.leaked)
    && (forall i, j :: 0 <= i < j < |s.peers| && Held(s.peers[i], s.servants[i]) != CLOSED ==>
          Held(s.peers[i], s.servants[i]) != Held(s.peers[j], s.servants[j]))
    && s.leaked <= s.sockets.Keys
    && (forall fd :: fd in s.sockets ==> fd >= 0 && IsInt(fd))
    && forall fd :: fd in s.sockets && fd !in s.leaked ==>
         exists i :: 0 <= i < |s.peers| && Held(s.peers[i], s.servants[i]) == fd
  }

  ghost predicate Steady(s: System) {
    Shape(s) && HeldOnce(s)
  }

  /** The call of connectTCP that this action makes hands back a closed socket. */
  predicate DialsClosed(s: System, a: Action) {
    a.Dial? && IsServant(s, a.i) && Connector.ReturnsClosedSocket(Binds(s.peers[a.i]), Resolved(a))
  }

  lemma UpdateRoutable(peers: seq<Peer>, i: nat, p: Peer)
    requires Routable(peers) && i < |peers|
    requires p.ip == peers[i].ip && p.port == peers[i].port
    requires Assigned(p) || (p.fd == CLOSED && p.que == [])
    ensures Routable(peers[i := p])
  {
  }

  /** What becomes of the peers when a command meets its fate. */
  ghost predicate PeersMoved(peers: seq<Peer>, says: Outcome, f: Fate, peers': seq<Peer>) {
    match f
    case Unparsed => says == Rejected && peers' == peers
    case Appended =>
      && says.Accepted? && FirstMatch(peers, says.r) == |peers| && |peers'| == |peers| + 1 && peers'[..|peers|] == peers
      && !Assigned(peers'[|peers|]) && peers'[|peers|].fd == CLOSED && peers'[|peers|].que == []
      && peers'[|peers|].locIp == says.r.ip && peers'[|peers|].locPort == says.r.port
    case Routed(i) =>
      says.Accepted? && i == FirstMatch(peers, says.r) < |peers| && peers' == peers[i := Taken(peers[i], says.r)]
  }

  /** The dispatcher's command moves on: its fate is recorded, and if it went to a peer its number
      stands behind the others in that peer's queue. */
  ghost predicate Moved(s: System, s': System, f: Fate) {
    && s.hand.Some? && s'.hand == None && s'.queue == s.queue && s'.pushed == s.pushed && s'.fates == s.fates + [f]
    && s'.code == s.code && s'.sockets == s.sockets && s'.leaked == s.leaked && s'.batch == s.batch
    && PeersMoved(s.peers, s.hand.value.says, f, s'.peers)
    && |s.peers| == |s.servants| && |s'.peers| == |s'.servants|
    && (forall i :: 0 <= i < |s.peers| ==>
          s'.servants[i] == s.servants[i].(tags := s.servants[i].tags + if f == Routed(i) then [|s.fates|] else []))
    && forall i :: |s.peers| <= i < |s'.peers| ==> s'.servants[i] == NEWSERVANT
  }

  lemma ScanMoves(s: System, junk: nat)
    requires |s.peers| == |s.servants| && Enabled(s, Scan(junk))
    ensures var s' := Next(s, Scan(junk));
            && (s'.halted <==> s.hand.value.says == Thrown || s.hand.value.says == Undefined)
            && if s'.halted then s' == s.(halted := true) else |s'.fates| > |s.fates| && Moved(s, s', s'.fates[|s.fates|])
  {
    var s' := Next(s, Scan(junk));
    if s.hand.value.says.Accepted? {
      if FirstMatch(s.peers, s.hand.value.says.r) < |s.peers| {
        ScanRoutes(s, junk);
      } else {
        ScanAppends(s, junk);
      }
    }
  }

  /** A line that the parser rejects changes nothing but its fate. */
  lemma RejectedScan(s: System, junk: nat)
    requires Enabled(s, Scan(junk)) && s.hand.value.says == Rejected
    ensures Next(s, Scan(junk)) == s.(hand := None, fates := s.fates + [Unparsed])
  {
  }

  lemma ScanRoutes(s: System, junk: nat)
    requires |s.peers| == |s.servants| && s.hand.Some? && s.hand.value.says.Accepted?
    requires FirstMatch(s.peers, s.hand.value.says.r) < |s.peers|
    ensures Moved(s, Dispatched(s, junk), Routed(FirstMatch(s.peers, s.hand.value.says.r)))
  {
  }

  lemma ScanAppends(s: System, junk: nat)
    requires |s.peers| == |s.servants| && s.hand.Some? && s.hand.value.says.Accepted?
    requires FirstMatch(s.peers, s.hand.value.says.r) == |s.peers|
    ensures Moved(s, Dispatched(s, junk), Appended)
  {
  }

  /** Addresses once set are as they were, and no peer has gone away. */
  ghost predicate AddressesStay(peers: seq<Peer>, peers': seq<Peer>) {
    && |peers'| >= |peers|
    && forall i :: 0 <= i < |peers| && Assigned(peers[i]) ==> peers'[i].ip == peers[i].ip && peers'[i].port == peers[i].port
  }

  lemma MovedAddresses(s: System, s': System, f: Fate)
    requires Moved(s, s', f)
    ensures AddressesStay(s.peers, s'.peers)
  {
    if f.Appended? {
      assert forall i :: 0 <= i < |s.peers| ==> s'.peers[i] == s'.peers[..|s.peers|][i];
    }
  }

  lemma ScanShape(s: System, junk: nat)
    requires Shape(s) && Enabled(s, Scan(junk))
    ensures Shape(Next(s, Scan(junk)))
  {
    var s', says := Next(s, Scan(junk)), s.hand.value.says;
    ScanMoves(s, junk);
    if says.Accepted? {
      DispatchRoutable(s.peers, says.r, junk);
      MovedShape(s, s', s'.fates[|s.fates|]);
    }
  }

  lemma MovedShape(s: System, s': System, f: Fate)
    requires Shape(s) && Moved(s, s', f) && Routable(s'.peers)
    ensures Shape(s')
  {
    forall i | 0 <= i < |s'.peers|
      ensures |s'.servants[i].tags| == |s'.peers[i].que| && PcFits(s'.peers[i], s'.servants[i])
    {
      if f.Appended? && i < |s.peers| {
        assert s'.peers[i] == s'.peers[..|s.peers|][i];
      }
    }
  }

  lemma ServantShape(s: System, a: Action)
    requires Shape(s) && Enabled(s, a) && (a.Serve? || a.Assign? || a.ClearQueue? || a.ShutSocket?)
    ensures Shape(Next(s, a))
  {
    UpdateRoutable(s.peers, a.i, Next(s, a).peers[a.i]);
  }

  lemma OtherShape(s: System, a: Action)
    requires Shape(s) && Enabled(s, a) && !a.Scan? && !a.Serve? && !a.Assign? && !a.ClearQueue? && !a.ShutSocket?
    ensures Shape(Next(s, a))
  {
    assert Next(s, a).peers == s.peers;
  }

  lemma StepShape(s: System, a: Action)
    requires Shape(s) && Enabled(s, a)
    ensures Shape(Next(s, a))
  {
    if a.Scan? {
      ScanShape(s, a.junk);
    } else if a.Serve? || a.Assign? || a.ClearQueue? || a.ShutSocket? {
      ServantShape(s, a);
    } else {
      OtherShape(s, a);
    }
  }

  lemma SizesGrow(s: System, a: Action)
    requires |s.peers| == |s.servants| && Enabled(s, a)
    ensures |Next(s, a).peers| == |Next(s, a).servants| >= |s.peers|
    ensures !a.Scan? ==> |Next(s, a).peers| == |s.peers|
  {
    if a.Scan? {
      ScanMoves(s, a.junk);
    }
  }

  /** Hands are as they were, and new peers have none. */
  ghost predicate SameHands(s: System, s': System) {
    && |s.peers| == |s.servants| && |s'.peers| == |s'.servants| >= |s.peers|
    && (forall i :: 0 <= i < |s.peers| ==> Held(s'.peers[i], s'.servants[i]) == Held(s.peers[i], s.servants[i]))
    && forall i :: |s.peers| <= i < |s'.peers| ==> Held(s'.peers[i], s'.servants[i]) == CLOSED
  }

  lemma MovedHands(s: System, s': System, f: Fate)
    requires Moved(s, s', f)
    ensures SameHands(s, s')
  {
    forall i | 0 <= i < |s.peers| ensures s'.peers[i].fd == s.peers[i].fd && s'.servants[i].pc == s.servants[i].pc {
      if f.Appended? {
        assert s'.peers[i] == s'.peers[..|s.peers|][i];
      }
    }
  }

  lemma ScanHands(s: System, junk: nat)
    requires |s.peers| == |s.servants| && Enabled(s, Scan(junk))
    ensures var s' := Next(s, Scan(junk)); SameHands(s, s') && s'.sockets == s.sockets && s'.leaked == s.leaked
  {
    var s' := Next(s, Scan(junk));
    ScanMoves(s, junk);
    if !s'.halted {
      MovedHands(s, s', s'.fates[|s.fates|]);
    }
  }

  lemma OtherHands(s: System, a: Action)
    requires |s.peers| == |s.servants| && Enabled(s, a) && !a.Scan? && !a.Dial? && !a.ShutSocket?
    ensures var s' := Next(s, a); SameHands(s, s') && s'.sockets.Keys == s.sockets.Keys && s'.leaked == s.leaked
  {
    if a.Serve? || a.Assign? || a.Register? || a.ReadSocket? || a.ClearQueue? {
      OwnHands(s, a);
    }
  }

  lemma OwnHands(s: System, a: Action)
    requires |s.peers| == |s.servants| && Enabled(s, a)
    requires a.Serve? || a.Assign? || a.Register? || a.ReadSocket? || a.ClearQueue?
    ensures var s' := Next(s, a); SameHands(s, s') && s'.sockets.Keys == s.sockets.Keys && s'.leaked == s.leaked
  {
    var p, v := Next(s, a).peers[a.i], Next(s, a).servants[a.i];
    assert Held(p, v) == Held(s.peers[a.i], s.servants[a.i]);
    assert Next(s, a).peers == s.peers[a.i := p] && Next(s, a).servants == s.servants[a.i := v];
  }

  /** A step that changes no descriptor variable and opens and closes nothing. */
  lemma SameDescriptors(s: System, s': System)
    requires SameHands(s, s') && HeldOnce(s) && s'.sockets.Keys == s.sockets.Keys && s'.leaked == s.leaked
    ensures HeldOnce(s')
  {
    forall fd | fd in s'.sockets && fd !in s'.leaked
      ensures exists i :: 0 <= i < |s'.peers| && Held(s'.peers[i], s'.servants[i]) == fd
    {
      var i :| 0 <= i < |s.peers| && Held(s.peers[i], s.servants[i]) == fd;
      assert Held(s'.peers[i], s'.servants[i]) == fd;
    }
  }

  lemma SocketsInRange(binds: bool, cs: seq<Connector.Candidate>, open: set<int>)
    requires Connector.FreshSockets(binds, cs, open)
    requires forall k :: 0 <= k < |cs| ==> IsInt(cs[k].sock)
    ensures forall fd :: fd in Connector.Attempt(binds, cs, CLOSED, open).open - open ==> IsInt(fd)
  {
    Connector.AttemptExactly(binds, cs, CLOSED, open);
  }

  /** A call of connectTCP keeps the descriptors in order exactly when it does not hand back a
      closed socket. */
  lemma DialDescriptors(s: System, a: Action)
    requires Steady(s) && Enabled(s, a) && a.Dial?
    ensures Steady(Next(s, a)) <==> !DialsClosed(s, a)
  {
    var s' := Next(s, a);
    var binds, cs, keys := Binds(s.peers[a.i]), Resolved(a), s.sockets.Keys;
    var ledger := Connector.Attempt(binds, cs, CLOSED, keys);
    Connector.ReturnsOpenOrNothing(binds, cs, keys);
    SocketsInRange(binds, cs, keys);
    StepShape(s, a);
    assert s'.sockets.Keys == ledger.open;
    assert Held(s'.peers[a.i], s'.servants[a.i]) == ledger.fd;
    if !DialsClosed(s, a) {
      OpenedDescriptors(s, s', a.i, ledger);
    }
  }

  /** One servant without a descriptor opens sockets and holds at most one of them. */
  lemma OpenedDescriptors(s: System, s': System, j: nat, ledger: Connector.Ledger)
    requires |s.peers| == |s.servants| == |s'.peers| == |s'.servants| && HeldOnce(s) && j < |s.peers|
    requires Held(s.peers[j], s.servants[j]) == CLOSED && Held(s'.peers[j], s'.servants[j]) == ledger.fd
    requires forall i :: 0 <= i < |s.peers| && i != j ==> Held(s'.peers[i], s'.servants[i]) == Held(s.peers[i], s.servants[i])
    requires s'.sockets.Keys == ledger.open >= s.sockets.Keys
    requires s'.leaked == s.leaked + (ledger.open - s.sockets.Keys - {ledger.fd})
    requires ledger.fd != CLOSED ==> ledger.fd in ledger.open && ledger.fd !in s.sockets
    requires forall fd :: fd in ledger.open - s.sockets.Keys ==> fd >= 0 && IsInt(fd)
    ensures HeldOnce(s')
  {
    forall fd | fd in s'.sockets && fd !in s'.leaked
      ensures exists i :: 0 <= i < |s'.peers| && Held(s'.peers[i], s'.servants[i]) == fd
    {
      if fd in s.sockets {
        var i :| 0 <= i < |s.peers| && Held(s.peers[i], s.servants[i]) == fd;
        assert Held(s'.peers[i], s'.servants[i]) == fd;
      } else {
        assert Held(s'.peers[j], s'.servants[j]) == fd;
      }
    }
  }

  /** Servant `j` has closed what it held. */
  ghost predicate EmptyHand(s: System, s': System, j: nat) {
    && |s.peers| == |s.servants| == |s'.peers| == |s'.servants| && j < |s.peers|
    && s'.sockets.Keys == s.sockets.Keys - {Held(s.peers[j], s.servants[j])} && s'.leaked == s.leaked
    && forall k :: 0 <= k < |s.peers| ==>
         Held(s'.peers[k], s'.servants[k]) == if k == j then CLOSED else Held(s.peers[k], s.servants[k])
  }

  lemma ShutHand(s: System, j: nat)
    requires Shape(s) && Enabled(s, ShutSocket(j))
    ensures EmptyHand(s, Next(s, ShutSocket(j)), j) && Held(s.peers[j], s.servants[j]) != CLOSED
  {
  }

  lemma ShutDescriptors(s: System, s': System, j: nat)
    requires EmptyHand(s, s', j) && HeldOnce(s) && Held(s.peers[j], s.servants[j]) != CLOSED
    ensures HeldOnce(s')
  {
    forall f | f in s'.sockets && f !in s'.leaked
      ensures exists i :: 0 <= i < |s'.peers| && Held(s'.peers[i], s'.servants[i]) == f
    {
      var i :| 0 <= i < |s.peers| && Held(s.peers[i], s.servants[i]) == f;
      assert i != j && Held(s'.peers[i], s'.servants[i]) == f;
    }
  }

  /** Every step keeps the descriptors in order, except exactly a connection attempt that hands
      back a closed socket. */
  lemma StepSteady(s: System, a: Action)
    requires Steady(s) && Enabled(s, a)
    ensures Steady(Next(s, a)) <==> !DialsClosed(s, a)
  {
    if a.Dial? {
      DialDescriptors(s, a);
    } else if a.ShutSocket? {
      StepShape(s, a);
      ShutHand(s, a.i);
      ShutDescriptors(s, Next(s, a), a.i);
    } else {
      StepShape(s, a);
      if a.Scan? {
        ScanHands(s, a.junk);
      } else {
        OtherHands(s, a);
      }
      SameDescriptors(s, Next(s, a));
    }
  }

  // ----- When a closed socket is in somebody's hands -----

  ghost predicate SocketsAreInts(s: System) {
    forall fd :: fd in s.sockets ==> fd >= 0 && IsInt(fd)
  }

  /** Nobody else holds the number that servant `i` holds, if that is an open socket. */
  ghost predicate Alone(s: System, i: nat)
    requires |s.peers| == |s.servants|
  {
    i < |s.peers| && Held(s.peers[i], s.servants[i]) in s.sockets ==>
      forall j :: 0 <= j < |s.peers| && j != i ==> Held(s.peers[j], s.servants[j]) != Held(s.peers[i], s.servants[i])
  }

  /** The weaker order that survives a closed socket handed back, for one servant. */
  ghost predicate Loose(s: System, i: nat) {
    Shape(s) && SocketsAreInts(s) && Alone(s, i)
  }

  /** What servant `j` holds once servant `i` has been handed `fd`. */
  function HandAfter(s: System, i: nat, fd: int, j: nat): int
    requires j < |s.peers| == |s.servants|
  {
    if j == i then fd else Held(s.peers[j], s.servants[j])
  }

  /** What the call of connectTCP that this action makes returns and leaves open. */
  function Handed(s: System, a: Action): Connector.Ledger
    requires a.Dial? && a.i < |s.peers|
  {
    Connector.Attempt(Binds(s.peers[a.i]), Resolved(a), CLOSED, s.sockets.Keys)
  }

  /** The call of connectTCP that this action makes opens a number that servant `i` and another one
      then hold: the kernel has reused the number of a closed socket that one of them was handed
      earlier. */
  ghost predicate Collides(s: System, a: Action, i: nat)
    requires |s.peers| == |s.servants|
  {
    && a.Dial? && a.i < |s.peers| && i < |s.peers|
    && var l := Handed(s, a);
    && HandAfter(s, a.i, l.fd, i) in l.open - s.sockets.Keys
    && exists j :: 0 <= j < |s.peers| && j != i && HandAfter(s, a.i, l.fd, j) == HandAfter(s, a.i, l.fd, i)
  }

  lemma SteadyIsLoose(s: System, i: nat)
    requires Steady(s)
    ensures Loose(s, i)
  {
    if i < |s.peers| && Held(s.peers[i], s.servants[i]) in s.sockets {
      forall j | 0 <= j < |s.peers| && j != i ensures Held(s.peers[j], s.servants[j]) != Held(s.peers[i], s.servants[i]) {
        assert j < i || i < j;
      }
    }
  }

  /** Nothing collides while every descriptor in hand is open. */
  lemma SteadyDoesNotCollide(s: System, a: Action, i: nat)
    requires Steady(s) && Enabled(s, a)
    ensures !Collides(s, a, i)
  {
    if a.Dial? {
      var l, keys := Handed(s, a), s.sockets.Keys;
      Connector.ReturnsOpenOrNothing(Binds(s.peers[a.i]), Resolved(a), keys);
      forall j | 0 <= j < |s.peers| && j != a.i ensures HandAfter(s, a.i, l.fd, j) !in l.open - keys {
        assert Held(s.peers[j], s.servants[j]) != CLOSED ==> Held(s.peers[j], s.servants[j]) in keys;
      }
    }
  }

  lemma SameAlone(s: System, s': System, i: nat)
    requires SameHands(s, s') && SocketsAreInts(s) && Alone(s, i) && s'.sockets.Keys == s.sockets.Keys
    ensures Alone(s', i)
  {
  }

  lemma ShutAlone(s: System, j: nat, i: nat)
    requires Loose(s, i) && Enabled(s, ShutSocket(j))
    ensures |Next(s, ShutSocket(j)).peers| == |Next(s, ShutSocket(j)).servants|
    ensures SocketsAreInts(Next(s, ShutSocket(j))) && Alone(Next(s, ShutSocket(j)), i)
  {
    ShutHand(s, j);
  }

  /** Servant `j` has got what a call of connectTCP returned. */
  ghost predicate NewHand(s: System, s': System, j: nat, l: Connector.Ledger) {
    && |s.peers| == |s.servants| == |s'.peers| == |s'.servants| && j < |s.peers|
    && s'.sockets.Keys == l.open >= s.sockets.Keys
    && l.fd !in s.sockets
    && forall k :: 0 <= k < |s.peers| ==> Held(s'.peers[k], s'.servants[k]) == HandAfter(s, j, l.fd, k)
  }

  lemma DialHands(s: System, a: Action)
    requires Shape(s) && SocketsAreInts(s) && Enabled(s, a) && a.Dial?
    ensures NewHand(s, Next(s, a), a.i, Handed(s, a)) && SocketsAreInts(Next(s, a))
  {
    Connector.ReturnsOpenOrNothing(Binds(s.peers[a.i]), Resolved(a), s.sockets.Keys);
    SocketsInRange(Binds(s.peers[a.i]), Resolved(a), s.sockets.Keys);
  }

  lemma DialAlone(s: System, s': System, j: nat, l: Connector.Ledger, i: nat)
    requires NewHand(s, s', j, l) && Alone(s, i) && i < |s.peers|
    ensures Alone(s', i) <==>
            !(HandAfter(s, j, l.fd, i) in l.open - s.sockets.Keys
              && exists k :: 0 <= k < |s.peers| && k != i && HandAfter(s, j, l.fd, k) == HandAfter(s, j, l.fd, i))
  {
    var hand := HandAfter(s, j, l.fd, i);
    assert hand == Held(s'.peers[i], s'.servants[i]);
    forall k | 0 <= k < |s.peers| && k != i && HandAfter(s, j, l.fd, k) == hand
      ensures hand !in s.sockets && Held(s'.peers[k], s'.servants[k]) == hand
    {
    }
  }

  lemma DialLoose(s: System, a: Action, i: nat)
    requires Loose(s, i) && Enabled(s, a) && a.Dial?
    ensures Loose(Next(s, a), i) <==> !Collides(s, a, i)
  {
    StepShape(s, a);
    DialHands(s, a);
    if i < |s.peers| {
      DialAlone(s, Next(s, a), a.i, Handed(s, a), i);
    }
  }

  /** Every step of every thread leaves a servant alone with its open socket, closed sockets handed
      back or not, except exactly a call of connectTCP that collides with it. */
  lemma StepLoose(s: System, a: Action, i: nat)
    requires Loose(s, i) && Enabled(s, a)
    ensures Loose(Next(s, a), i) <==> !Collides(s, a, i)
  {
    if a.Dial? {
      DialLoose(s, a, i);
    } else {
      StepShape(s, a);
      if a.ShutSocket? {
        ShutAlone(s, a.i, i);
      } else {
        if a.Scan? {
          ScanHands(s, a.junk);
        } else {
          OtherHands(s, a);
        }
        SameAlone(s, Next(s, a), i);
      }
    }
  }

  // ----- Whose step it is -----

  predicate IsServantStep(a: Action) {
    a.Serve? || a.Dial? || a.Assign? || a.Register? || a.ReadSocket? || a.ClearQueue? || a.ShutSocket?
  }

  predicate OwnStep(a: Action, i: nat) {
    IsServantStep(a) && a.i == i
  }

  /** A servant stays where it is while others move, and its descriptor stays too. */
  lemma OthersKeepServant(s: System, a: Action, i: nat)
    requires Shape(s) && Enabled(s, a) && !OwnStep(a, i) && i < |s.peers|
    ensures i < |Next(s, a).servants| && i < |Next(s, a).peers|
    ensures var v, v' := s.servants[i], Next(s, a).servants[i];
            v'.pc == v.pc && v'.trace == v.trace && v'.done == v.done && Next(s, a).peers[i].fd == s.peers[i].fd
    ensures !a.Scan? ==> Next(s, a).peers[i].que == s.peers[i].que
  {
    if a.Scan? {
      ScanKeepsServant(s, a.junk, i);
    }
  }

  lemma ScanKeepsServant(s: System, junk: nat, i: nat)
    requires Shape(s) && Enabled(s, Scan(junk)) && i < |s.peers|
    ensures i < |Next(s, Scan(junk)).servants| && i < |Next(s, Scan(junk)).peers|
    ensures var v, v' := s.servants[i], Next(s, Scan(junk)).servants[i];
            v'.pc == v.pc && v'.trace == v.trace && v'.done == v.done && Next(s, Scan(junk)).peers[i].fd == s.peers[i].fd
  {
    var s' := Next(s, Scan(junk));
    ScanMoves(s, junk);
    if !s'.halted {
      MovedHands(s, s', s'.fates[|s.fates|]);
      assert s'.servants[i].pc == s.servants[i].pc;
    }
  }

  // ----- What a step adds to the records -----

  /** The trace entries that an action adds for servant `i`. */
  function Did(s: System, a: Action, i: nat): seq<Trace>
    requires Shape(s) && Enabled(s, a) && i < |s.peers|
  {
    var p, v := s.peers[i], s.servants[i];
    match a
    case Serve(j) =>
      if j != i then []
      else if p.que[0].req == Write && p.fd != CLOSED
      then [Popped(v.tags[0], Write), WroteTo(p.fd, v.tags[0], p.que[0].msg)]
      else [Popped(v.tags[0], p.que[0].req)]
    case Dial(j, _, _) =>
      if j != i then []
      else
        var l := Connector.Attempt(Binds(p), Resolved(a), CLOSED, s.sockets.Keys);
        if l.fd == CLOSED then [Dialled(p.ip, p.port)] else [Dialled(p.ip, p.port), Opened(l.fd, l.fd in l.open)]
    case ReadSocket(j, o) => if j == i then [ReadFrom(p.fd, o)] else []
    case ShutSocket(j) => if j == i then [Shut(p.fd)] else []
    case _ => []
  }

  /** The commands that an action brings to their end at servant `i`. */
  function Ended(s: System, a: Action, i: nat): seq<Done>
    requires Shape(s) && Enabled(s, a) && i < |s.peers|
  {
    var p, v := s.peers[i], s.servants[i];
    match a
    case Serve(j) =>
      if j != i then [] else [Done(v.tags[0], if p.fd == CLOSED && p.que[0].req != Connect then Dropped else Started)]
    case ClearQueue(j) => if j == i then Erase(v.tags) else []
    case _ => []
  }

  /** `s'` has the records of `s` and, for each servant, what `a` added to them; addresses stay. */
  ghost predicate Recorded(s: System, a: Action, s': System)
    requires Shape(s) && Enabled(s, a)
  {
    && s.fates <= s'.fates && s.pushed <= s'.pushed
    && |s'.peers| == |s'.servants| >= |s.peers|
    && (forall i :: 0 <= i < |s.peers| ==>
          && s'.servants[i].trace == s.servants[i].trace + Did(s, a, i)
          && s'.servants[i].done == s.servants[i].done + Ended(s, a, i)
          && (Assigned(s.peers[i]) ==> s'.peers[i].ip == s.peers[i].ip && s'.peers[i].port == s.peers[i].port))
    && forall i :: |s.peers| <= i < |s'.peers| ==> s'.servants[i] == NEWSERVANT
  }

  lemma ScanRecorded(s: System, a: Action)
    requires Shape(s) && Enabled(s, a) && a.Scan?
    ensures Recorded(s, a, Next(s, a))
  {
    var s' := Next(s, a);
    ScanMoves(s, a.junk);
    if !s'.halted {
      MovedRecorded(s, a, s', s'.fates[|s.fates|]);
    }
  }

  lemma MovedRecorded(s: System, a: Action, s': System, f: Fate)
    requires Shape(s) && Enabled(s, a) && a.Scan? && Moved(s, s', f)
    ensures Recorded(s, a, s')
  {
    MovedAddresses(s, s', f);
  }

  lemma ServeRecorded(s: System, a: Action)
    requires Shape(s) && Enabled(s, a) && a.Serve?
    ensures Recorded(s, a, Next(s, a))
  {
    ServeTrace(s, a);
    assert Next(s, a).servants == s.servants[a.i := Next(s, a).servants[a.i]];
  }

  lemma ServeTrace(s: System, a: Action)
    requires Shape(s) && Enabled(s, a) && a.Serve?
    ensures Next(s, a).servants[a.i].trace == s.servants[a.i].trace + Did(s, a, a.i)
  {
    var v := s.servants[a.i];
    var popped := Popped(v.tags[0], s.peers[a.i].que[0].req);
    assert v.trace + [popped] + [] == v.trace + [popped];
  }

  lemma DialRecorded(s: System, a: Action)
    requires Shape(s) && Enabled(s, a) && a.Dial?
    ensures Recorded(s, a, Next(s, a))
  {
    DialTrace(s, a);
    assert Next(s, a).peers == s.peers && Next(s, a).servants == s.servants[a.i := Next(s, a).servants[a.i]];
  }

  lemma DialTrace(s: System, a: Action)
    requires Shape(s) && Enabled(s, a) && a.Dial?
    ensures Next(s, a).servants[a.i].trace == s.servants[a.i].trace + Did(s, a, a.i) && Next(s, a).servants[a.i].done == s.servants[a.i].done
  {
    var p, v := s.peers[a.i], s.servants[a.i];
    assert v.trace + [Dialled(p.ip, p.port)] + [] == v.trace + [Dialled(p.ip, p.port)];
  }

  lemma StepRecorded(s: System, a: Action)
    requires Shape(s) && Enabled(s, a)
    ensures Recorded(s, a, Next(s, a))
  {
    if a.Scan? {
      ScanRecorded(s, a);
    } else if a.Serve? {
      ServeRecorded(s, a);
    } else if a.Dial? {
      DialRecorded(s, a);
    } else if a.ReadSocket? {
      ReadRecorded(s, a);
    } else if a.Assign? || a.Register? {
      ConnectRecorded(s, a);
    } else if a.ClearQueue? {
      ClearRecorded(s, a);
    } else if a.ShutSocket? {
      ShutRecorded(s, a);
    } else {
      OtherRecorded(s, a);
    }
  }

  lemma ReadRecorded(s: System, a: Action)
    requires Shape(s) && Enabled(s, a) && a.ReadSocket?
    ensures Recorded(s, a, Next(s, a))
  {
  }

  lemma ConnectRecorded(s: System, a: Action)
    requires Shape(s) && Enabled(s, a) && (a.Assign? || a.Register?)
    ensures Recorded(s, a, Next(s, a))
  {
  }

  lemma ClearRecorded(s: System, a: Action)
    requires Shape(s) && Enabled(s, a) && a.ClearQueue?
    ensures Recorded(s, a, Next(s, a))
  {
  }

  lemma ShutRecorded(s: System, a: Action)
    requires Shape(s) && Enabled(s, a) && a.ShutSocket?
    ensures Recorded(s, a, Next(s, a))
  {
  }

  lemma OtherRecorded(s: System, a: Action)
    requires Shape(s) && Enabled(s, a) && !a.Scan? && !IsServantStep(a)
    ensures Recorded(s, a, Next(s, a))
  {
  }

  // ----- Runs -----

  /** No connection attempt of the schedule hands back a closed socket. */
  ghost predicate NeverDialsClosed(s: System, run: seq<Action>)
    requires Possible(s, run)
    decreases |run|
  {
    run == [] || (!DialsClosed(s, run[0]) && NeverDialsClosed(Next(s, run[0]), run[1..]))
  }

  /** No connection attempt of the schedule collides with servant `i`. */
  ghost predicate NeverCollides(s: System, run: seq<Action>, i: nat)
    requires Shape(s) && Possible(s, run)
    decreases |run|
  {
    run != [] ==>
      && !Collides(s, run[0], i)
      && (StepShape(s, run[0]); NeverCollides(Next(s, run[0]), run[1..], i))
  }

  lemma InitialSteady(code: Reading.Code, ip: string, port: nat, junk: nat)
    ensures Steady(Initial(code, ip, port, junk))
  {
  }

  /** Descriptors are in order in every state of the run. */
  ghost predicate AlwaysSteady(s: System, run: seq<Action>)
    requires Possible(s, run)
    decreases |run|
  {
    Steady(s) && (run == [] || AlwaysSteady(Next(s, run[0]), run[1..]))
  }

  lemma {:induction false} RunSteady(s: System, run: seq<Action>)
    requires Steady(s) && Possible(s, run)
    ensures AlwaysSteady(s, run) <==> NeverDialsClosed(s, run)
    ensures AlwaysSteady(s, run) ==> Steady(After(s, run))
    decreases |run|
  {
    if run != [] {
      StepSteady(s, run[0]);
      if Steady(Next(s, run[0])) {
        RunSteady(Next(s, run[0]), run[1..]);
      }
    }
  }

  /** Servant `i` is alone with its open socket in every state of the run. */
  ghost predicate AlwaysLoose(s: System, run: seq<Action>, i: nat)
    requires Possible(s, run)
    decreases |run|
  {
    Loose(s, i) && (run == [] || AlwaysLoose(Next(s, run[0]), run[1..], i))
  }

  lemma {:induction false} RunLoose(s: System, run: seq<Action>, i: nat)
    requires Loose(s, i) && Possible(s, run)
    ensures AlwaysLoose(s, run, i) <==> NeverCollides(s, run, i)
    ensures AlwaysLoose(s, run, i) ==> Loose(After(s, run), i)
    decreases |run|
  {
    if run != [] {
      StepLoose(s, run[0], i);
      if Loose(Next(s, run[0]), i) {
        RunLoose(Next(s, run[0]), run[1..], i);
      }
    }
  }

  /** A schedule that never hands back a closed socket collides with nobody. */
  lemma {:induction false} ClosedBeforeReused(s: System, run: seq<Action>, i: nat)
    requires Steady(s) && Possible(s, run) && NeverDialsClosed(s, run)
    ensures NeverCollides(s, run, i)
    decreases |run|
  {
    if run != [] {
      SteadyDoesNotCollide(s, run[0], i);
      StepSteady(s, run[0]);
      ClosedBeforeReused(Next(s, run[0]), run[1..], i);
    }
  }
}
