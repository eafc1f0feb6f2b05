/** Received data is never forgotten: whatever a registered socket holds unread, something on the
    way to a servant accounts for it. Epoll is edge-triggered, so nothing would report it a second
    time. Stated twice: for each descriptor, and for each peer, whose data another peer may take. */
module Stranded {
  import opened Types
  import opened Command
  import opened Waiter
  import opened Peers
  import opened Pipeline
  import Reading
  import Connector

  /** A command that makes the holder of `fd` read or close. */
  predicate Wakes(line: Line, fd: int) {
    line.says == Accepted(Request("", 0, fd, Read, "")) || line.says == Accepted(Request("", 0, fd, Close, ""))
  }

  predicate Unread(s: System, fd: int) {
    fd in s.sockets && s.sockets[fd].registered && Readable(s.sockets[fd])
  }

  /** An edge, an event or a command that has not come to any peer yet. */
  predicate Underway(s: System, fd: int) {
    || (fd in s.sockets && s.sockets[fd].edge)
    || (exists e :: e in s.batch && e.fd == fd)
    || (exists line :: line in s.queue && Wakes(line, fd))
    || (s.hand.Some? && Wakes(s.hand.value, fd))
  }

  predicate Busy(v: Servant) {
    v.pc.Draining? || v.pc.Clearing? || v.pc.Closing?
  }

  predicate Wants(que: seq<Query>) {
    exists q :: q in que && (q.req == Read || q.req == Close)
  }

  /** Peer `j` has this descriptor and is reading or closing it, or will. */
  predicate Attends(s: System, j: nat, fd: int) {
    IsServant(s, j) && s.peers[j].fd == fd && (Busy(s.servants[j]) || Wants(s.peers[j].que))
  }

  /** Unread data that somebody will come to: whoever has the descriptor. */
  ghost predicate Accounted(s: System, fd: int) {
    Unread(s, fd) ==> Underway(s, fd) || exists j :: Attends(s, j, fd)
  }

  /** The same for the data that peer `i` can read, if this peer is to come to it. */
  predicate Attended(s: System, i: nat) {
    i < |s.peers| && Unread(s, s.peers[i].fd) ==> Underway(s, s.peers[i].fd) || Attends(s, i, s.peers[i].fd)
  }

  /** A registered socket is some peer's. */
  ghost predicate HasHolder(s: System, fd: int) {
    fd in s.sockets && s.sockets[fd].registered ==> exists j :: 0 <= j < |s.peers| && s.peers[j].fd == fd
  }

  // ----- The exceptions -----

  /** Servant `j` leaves the read loop because a read failed, with nothing queued that would bring
      it back. As the code is written this is how -1 is handled. */
  predicate LetsGo(s: System, a: Action, j: nat) {
    && a == ReadSocket(j, Reading.Failed) && s.code.AsWritten?
    && IsServant(s, j) && s.servants[j].pc == Draining(false) && !Wants(s.peers[j].que)
  }

  /** It was the last to account for unread data. */
  ghost predicate Forgets(s: System, a: Action, fd: int) {
    && a.ReadSocket? && LetsGo(s, a, a.i) && s.peers[a.i].fd == fd
    && Unread(s, fd) && !Underway(s, fd) && forall k :: Attends(s, k, fd) ==> k == a.i
  }

  /** It leaves behind unread data that nothing else will bring it to. */
  predicate Strands(s: System, a: Action, i: nat) {
    LetsGo(s, a, i) && Unread(s, s.peers[i].fd) && !Underway(s, s.peers[i].fd)
  }

  /** The dispatcher gives the only command that would bring peer `i` to its unread data to another
      holder of the same number. */
  predicate Diverts(s: System, a: Action, i: nat) {
    && a.Scan? && i < |s.peers| && Unread(s, s.peers[i].fd)
    && s.hand.Some? && Wakes(s.hand.value, s.peers[i].fd) && FirstMatch(s.peers, s.hand.value.says.r) != i
    && !Underway(s.(hand := None), s.peers[i].fd) && !Attends(s, i, s.peers[i].fd)
  }

  /** Peer `i` is assigned a number under which unread data already waits, all of it reported. */
  predicate Inherits(s: System, a: Action, i: nat) {
    && a == Assign(i) && IsServant(s, i) && s.servants[i].pc.Obtained?
    && Unread(s, s.servants[i].pc.got) && !Underway(s, s.servants[i].pc.got) && !Wants(s.peers[i].que)
  }

  predicate Misses(s: System, a: Action, i: nat) {
    Strands(s, a, i) || Diverts(s, a, i) || Inherits(s, a, i)
  }

  // ----- What is under way -----

  lemma PushUnderway(s: System, text: string, fd: int)
    requires Underway(s, fd)
    ensures Underway(AddLine(s, text), fd)
  {
    var s' := AddLine(s, text);
    if line :| line in s.queue && Wakes(line, fd) {
      assert line in s'.queue;
    }
  }

  lemma TakeUnderway(s: System, fd: int)
    requires Underway(s, fd) && Enabled(s, Take)
    ensures Underway(Next(s, Take), fd)
  {
    var s' := Next(s, Take);
    if line :| line in s.queue && Wakes(line, fd) {
      assert line == s.queue[0] || line in s'.queue;
    }
  }

  lemma PrintUnderway(s: System, fd: int)
    requires Underway(s, fd) && Enabled(s, Print) && IsInt(fd)
    ensures Underway(Next(s, Print), fd)
  {
    var s' := Next(s, Print);
    if line :| line in s.queue && Wakes(line, fd) {
      assert line in s'.queue;
    } else if e :| e in s.batch && e.fd == fd {
      if e == s.batch[0] {
        CommandRoundTrip(e);
        var line := s'.queue[|s.queue|];
        assert line in s'.queue && Wakes(line, fd);
      } else {
        assert e in s'.batch;
      }
    }
  }

  lemma WaitUnderway(s: System, events: seq<Event>, fd: int)
    requires Underway(s, fd) && Enabled(s, Wait(events))
    ensures Underway(Next(s, Wait(events)), fd)
  {
    var s' := Next(s, Wait(events));
    if fd in s.sockets && s.sockets[fd].edge && !s'.sockets[fd].edge {
      var k :| 0 <= k < |events| && events[k].fd == fd;
      assert events[k] in s'.batch;
    }
  }

  lemma CommandUnderway(s: System, a: Action, fd: int)
    requires SocketsAreInts(s) && Enabled(s, a) && (a.Push? || a.Take? || a.Print? || a.Wait?)
    ensures Unread(Next(s, a), fd) <==> Unread(s, fd)
    ensures Unread(s, fd) && Underway(s, fd) ==> Underway(Next(s, a), fd)
  {
    if Unread(s, fd) && Underway(s, fd) {
      match a
      case Push(text) => PushUnderway(s, text, fd);
      case Take => TakeUnderway(s, fd);
      case Print => PrintUnderway(s, fd);
      case Wait(events) => WaitUnderway(s, events, fd);
    }
  }

  /** Data that has just come to be unread has raised an edge. */
  lemma KernelUnderway(s: System, a: Action, fd: int)
    requires Enabled(s, a) && (a.Arrive? || a.HangUp?)
    ensures Unread(Next(s, a), fd) && (Unread(s, fd) ==> Underway(s, fd)) ==> Underway(Next(s, a), fd)
    ensures Unread(s, fd) ==> Unread(Next(s, a), fd)
  {
  }

  /** A servant raises the edge of a readable socket when it registers it and takes none away. */
  lemma ServantUnderway(s: System, a: Action, fd: int)
    requires Enabled(s, a) && IsServantStep(a)
    ensures Unread(Next(s, a), fd) ==> fd in s.sockets
    ensures Unread(Next(s, a), fd) && !Unread(s, fd) ==> Underway(Next(s, a), fd)
    ensures Unread(Next(s, a), fd) && Underway(s, fd) ==> Underway(Next(s, a), fd)
  {
    var s' := Next(s, a);
    assert s'.batch == s.batch && s'.queue == s.queue && s'.hand == s.hand;
    ServantEdges(s, a, fd);
  }

  lemma ServantEdges(s: System, a: Action, fd: int)
    requires Enabled(s, a) && IsServantStep(a)
    ensures Unread(Next(s, a), fd) ==> fd in s.sockets && (s.sockets[fd].edge || !Unread(s, fd) ==> Next(s, a).sockets[fd].edge)
  {
  }

  /** Whatever is under way stays under way until the dispatcher delivers it, and newly unread data
      is under way. */
  lemma UnderwayStays(s: System, a: Action, fd: int)
    requires SocketsAreInts(s) && Enabled(s, a) && !a.Scan?
    ensures Unread(Next(s, a), fd) ==> fd in s.sockets
    ensures Unread(Next(s, a), fd) && (Unread(s, fd) ==> Underway(s, fd)) ==> Underway(Next(s, a), fd)
  {
    if IsServantStep(a) {
      ServantUnderway(s, a, fd);
    } else if a.Arrive? || a.HangUp? {
      KernelUnderway(s, a, fd);
    } else {
      CommandUnderway(s, a, fd);
    }
  }

  // ----- Who attends to a descriptor -----

  lemma ServeAttends(s: System, j: nat, fd: int)
    requires Enabled(s, Serve(j)) && Attends(s, j, fd) && fd != CLOSED
    ensures Attends(Next(s, Serve(j)), j, fd)
  {
    var s' := Next(s, Serve(j));
    var q :| q in s.peers[j].que && (q.req == Read || q.req == Close);
    assert q == s.peers[j].que[0] || q in s'.peers[j].que;
  }

  lemma ReadAttends(s: System, j: nat, o: Reading.Outcome, fd: int)
    requires Enabled(s, ReadSocket(j, o)) && Attends(s, j, fd) && Unread(Next(s, ReadSocket(j, o)), fd)
    ensures Attends(Next(s, ReadSocket(j, o)), j, fd) <==> !LetsGo(s, ReadSocket(j, o), j)
  {
  }

  lemma OwnAttends(s: System, a: Action, j: nat, fd: int)
    requires Shape(s) && SocketsAreInts(s) && Enabled(s, a) && OwnStep(a, j) && !a.Serve? && !a.ReadSocket?
    requires Attends(s, j, fd) && fd in s.sockets && Unread(Next(s, a), fd)
    ensures Attends(Next(s, a), j, fd)
  {
    assert PcFits(s.peers[j], s.servants[j]);
  }

  lemma AttendsStays(s: System, a: Action, j: nat, fd: int)
    requires Shape(s) && SocketsAreInts(s) && Enabled(s, a) && !a.Scan?
    requires Attends(s, j, fd) && fd in s.sockets && Unread(Next(s, a), fd) && !LetsGo(s, a, j)
    ensures Attends(Next(s, a), j, fd)
  {
    if !OwnStep(a, j) {
      OthersKeepServant(s, a, j);
      SizesGrow(s, a);
    } else if a.Serve? {
      ServeAttends(s, j, fd);
    } else if a.ReadSocket? {
      ReadAttends(s, j, a.outcome, fd);
    } else {
      OwnAttends(s, a, j, fd);
    }
  }

  // ----- The dispatcher -----

  lemma MovedUnderway(s: System, s': System, f: Fate, fd: int)
    requires Moved(s, s', f)
    ensures Unread(s', fd) <==> Unread(s, fd)
    ensures Underway(s', fd) <==> Underway(s.(hand := None), fd)
    ensures Underway(s, fd) <==> Underway(s.(hand := None), fd) || Wakes(s.hand.value, fd)
  {
  }

  lemma MovedQueue(s: System, s': System, f: Fate, j: nat)
    requires Moved(s, s', f) && j < |s.peers|
    ensures s'.peers[j].fd == s.peers[j].fd && s'.servants[j].pc == s.servants[j].pc
    ensures s'.peers[j].que == s.peers[j].que + if f == Routed(j) then [Query(s.hand.value.says.r.kind, s.hand.value.says.r.msg)] else []
  {
    if f.Appended? {
      assert s'.peers[j] == s'.peers[..|s.peers|][j];
    }
  }

  lemma WantsGrows(que: seq<Query>, more: seq<Query>)
    ensures Wants(que + more) <==> Wants(que) || Wants(more)
  {
    if q :| q in que && (q.req == Read || q.req == Close) {
      assert q in que + more;
    }
    if q :| q in more && (q.req == Read || q.req == Close) {
      assert q in que + more;
    }
  }

  lemma MovedAttends(s: System, s': System, f: Fate, j: nat, fd: int)
    requires Moved(s, s', f) && j < |s.peers|
    ensures Attends(s, j, fd) ==> Attends(s', j, fd)
    ensures f != Routed(j) ==> (Attends(s', j, fd) <==> Attends(s, j, fd))
    ensures f == Routed(j) && Wakes(s.hand.value, fd) ==> Attends(s', j, fd)
  {
    var more := if f == Routed(j) then [Query(s.hand.value.says.r.kind, s.hand.value.says.r.msg)] else [];
    MovedQueue(s, s', f, j);
    WantsGrows(s.peers[j].que, more);
    assert f == Routed(j) ==> more[0] in more;
    if f == Routed(j) && Wakes(s.hand.value, fd) {
      assert Accepts(s.peers[j], s.hand.value.says.r);
    }
  }

  /** A waiter's command is taken by the first peer that has the descriptor. */
  lemma WakesFirstHolder(s: System, s': System, f: Fate, j: nat, fd: int)
    requires Moved(s, s', f) && Wakes(s.hand.value, fd) && fd != CLOSED && j < |s.peers| && s.peers[j].fd == fd
    ensures f.Routed? && f.peer <= j && s.peers[f.peer].fd == fd && f.peer == FirstMatch(s.peers, s.hand.value.says.r)
  {
    assert MatchesFd(s.peers[j], s.hand.value.says.r);
  }

  /** The one peer that holds the descriptor, where there is only one. */
  lemma WakesItsHolder(s: System, line: Line, i: nat)
    requires Loose(s, i) && i < |s.peers| && s.peers[i].fd in s.sockets && Wakes(line, s.peers[i].fd)
    ensures FirstMatch(s.peers, line.says.r) == i
  {
    var fd := s.peers[i].fd;
    assert Held(s.peers[i], s.servants[i]) == fd;
    forall j | 0 <= j < i ensures !Accepts(s.peers[j], line.says.r) {
      assert Held(s.peers[j], s.servants[j]) != fd;
      assert s.servants[j].pc.Obtained? ==> s.peers[j].fd == CLOSED;
    }
    FirstMatchIs(s.peers, line.says.r, i);
  }

  // ----- Every descriptor -----

  lemma StepInts(s: System, a: Action)
    requires Shape(s) && SocketsAreInts(s) && Enabled(s, a)
    ensures SocketsAreInts(Next(s, a))
  {
    if a.Dial? {
      DialHands(s, a);
    } else if a.Scan? {
      ScanHands(s, a.junk);
    }
  }

  lemma OwnStepKeepsHolder(s: System, a: Action, j: nat, fd: int)
    requires Shape(s) && SocketsAreInts(s) && Enabled(s, a) && OwnStep(a, j) && fd in s.sockets && fd in Next(s, a).sockets
    requires j < |s.peers| && s.peers[j].fd == fd
    ensures j < |Next(s, a).peers| && Next(s, a).peers[j].fd == fd
  {
    assert PcFits(s.peers[j], s.servants[j]);
  }

  lemma KeepsHolder(s: System, a: Action, j: nat, fd: int)
    requires Shape(s) && SocketsAreInts(s) && Enabled(s, a) && fd in s.sockets && fd in Next(s, a).sockets
    requires j < |s.peers| && s.peers[j].fd == fd
    ensures j < |Next(s, a).peers| && Next(s, a).peers[j].fd == fd
  {
    if OwnStep(a, j) {
      OwnStepKeepsHolder(s, a, j, fd);
    } else {
      OthersKeepServant(s, a, j);
    }
  }

  lemma RegistersNothing(s: System, a: Action)
    requires Enabled(s, a) && !a.Register?
    ensures forall fd :: fd in Next(s, a).sockets && Next(s, a).sockets[fd].registered ==> fd in s.sockets && s.sockets[fd].registered
  {
  }

  lemma StepHasHolder(s: System, a: Action, fd: int)
    requires Shape(s) && SocketsAreInts(s) && HasHolder(s, fd) && Enabled(s, a)
    ensures HasHolder(Next(s, a), fd)
  {
    var s' := Next(s, a);
    if fd in s'.sockets && s'.sockets[fd].registered {
      if a.Register? && s.peers[a.i].fd == fd {
        assert s'.peers[a.i].fd == fd;
      } else {
        StillRegistered(s, a, fd);
        var j :| 0 <= j < |s.peers| && s.peers[j].fd == fd;
        KeepsHolder(s, a, j, fd);
      }
    }
  }

  lemma StillRegistered(s: System, a: Action, fd: int)
    requires Enabled(s, a) && fd in Next(s, a).sockets && Next(s, a).sockets[fd].registered
    requires a.Register? ==> s.peers[a.i].fd != fd
    ensures fd in s.sockets && s.sockets[fd].registered
  {
    if !a.Register? {
      RegistersNothing(s, a);
    }
  }

  lemma ScanAccounted(s: System, junk: nat, fd: int)
    requires Shape(s) && SocketsAreInts(s) && HasHolder(s, fd) && Accounted(s, fd) && Enabled(s, Scan(junk))
    ensures Accounted(Next(s, Scan(junk)), fd)
  {
    var s' := Next(s, Scan(junk));
    ScanMoves(s, junk);
    if s'.halted {
      assert forall j :: Attends(s', j, fd) <==> Attends(s, j, fd);
    } else {
      MovedAccounted(s, s', s'.fates[|s.fates|], fd);
    }
  }

  lemma MovedAccounted(s: System, s': System, f: Fate, fd: int)
    requires SocketsAreInts(s) && HasHolder(s, fd) && Accounted(s, fd) && Moved(s, s', f)
    ensures Accounted(s', fd)
  {
    MovedUnderway(s, s', f, fd);
    if Unread(s, fd) {
      if j :| Attends(s, j, fd) {
        MovedAttends(s, s', f, j, fd);
      } else if Wakes(s.hand.value, fd) {
        var j :| 0 <= j < |s.peers| && s.peers[j].fd == fd;
        WakesFirstHolder(s, s', f, j, fd);
        MovedAttends(s, s', f, f.peer, fd);
      }
    }
  }

  /** After such a failed read nothing accounts for the data. */
  lemma Forgotten(s: System, a: Action, fd: int)
    requires Enabled(s, a) && Forgets(s, a, fd)
    ensures !Accounted(Next(s, a), fd)
  {
    var s' := Next(s, a);
    assert Unread(s', fd) && !Underway(s', fd);
    forall k: nat | Attends(s', k, fd) ensures false {
      FailedReadAttends(s, a.i, k, fd);
    }
  }

  lemma FailedReadAttends(s: System, j: nat, k: nat, fd: int)
    requires Enabled(s, ReadSocket(j, Reading.Failed)) && LetsGo(s, ReadSocket(j, Reading.Failed), j)
    ensures Attends(Next(s, ReadSocket(j, Reading.Failed)), k, fd) <==> Attends(s, k, fd) && k != j
  {
  }

  /** For every step of every servant, the dispatcher, the waiter and the kernel, and whatever
      connectTCP has handed back before: unread data stays accounted for, except exactly when the
      last servant to attend to it gives up after a failed read. */
  lemma StepAccounted(s: System, a: Action, fd: int)
    requires Shape(s) && SocketsAreInts(s) && HasHolder(s, fd) && Accounted(s, fd) && Enabled(s, a)
    ensures Accounted(Next(s, a), fd) <==> !Forgets(s, a, fd)
  {
    if a.Scan? {
      ScanAccounted(s, a.junk, fd);
    } else if Forgets(s, a, fd) {
      Forgotten(s, a, fd);
    } else {
      NotForgotten(s, a, fd);
    }
  }

  lemma NotForgotten(s: System, a: Action, fd: int)
    requires Shape(s) && SocketsAreInts(s) && Accounted(s, fd) && Enabled(s, a) && !a.Scan? && !Forgets(s, a, fd)
    ensures Accounted(Next(s, a), fd)
  {
    UnderwayStays(s, a, fd);
    if Unread(Next(s, a), fd) && Unread(s, fd) && !Underway(s, fd) {
      var j :| Attends(s, j, fd);
      if LetsGo(s, a, j) {
        var k :| Attends(s, k, fd) && k != j;
        AttendsStays(s, a, k, fd);
      } else {
        AttendsStays(s, a, j, fd);
      }
    }
  }

  // ----- Every peer -----

  /** An assignment gives a peer a new number, a close takes it away; nothing else changes it. */
  lemma SameNumber(s: System, a: Action, i: nat)
    requires Shape(s) && Enabled(s, a) && i < |s.peers| && !a.Scan? && a != Assign(i)
    ensures i < |Next(s, a).peers| && (Next(s, a).peers[i].fd == s.peers[i].fd || Next(s, a).peers[i].fd == CLOSED)
  {
    if !OwnStep(a, i) {
      OthersKeepServant(s, a, i);
    }
  }

  lemma AssignAttended(s: System, i: nat)
    requires Enabled(s, Assign(i))
    ensures Attended(Next(s, Assign(i)), i) <==> !Inherits(s, Assign(i), i)
  {
  }

  lemma OtherAttended(s: System, a: Action, i: nat)
    requires Shape(s) && SocketsAreInts(s) && i < |s.peers| && Attended(s, i) && Enabled(s, a) && !a.Scan? && a != Assign(i)
    ensures Attended(Next(s, a), i) <==> !Strands(s, a, i)
  {
    var s', fd := Next(s, a), s.peers[i].fd;
    StepInts(s, a);
    SameNumber(s, a, i);
    UnderwayStays(s, a, fd);
    if Strands(s, a, i) {
      FailedReadAttends(s, i, i, fd);
    } else if Unread(s', fd) && s'.peers[i].fd == fd && Unread(s, fd) && !Underway(s, fd) {
      AttendsStays(s, a, i, fd);
    }
  }

  lemma ScanAttended(s: System, junk: nat, i: nat)
    requires Shape(s) && SocketsAreInts(s) && i < |s.peers| && Attended(s, i) && Enabled(s, Scan(junk))
    ensures Attended(Next(s, Scan(junk)), i) <==> !Diverts(s, Scan(junk), i)
  {
    var s' := Next(s, Scan(junk));
    ScanMoves(s, junk);
    if !s'.halted {
      MovedAttended(s, s', s'.fates[|s.fates|], i, junk);
    }
  }

  lemma MovedAttended(s: System, s': System, f: Fate, i: nat, junk: nat)
    requires SocketsAreInts(s) && i < |s.peers| && Attended(s, i) && Moved(s, s', f)
    ensures Attended(s', i) <==> !Diverts(s, Scan(junk), i)
  {
    var fd := s.peers[i].fd;
    MovedUnderway(s, s', f, fd);
    MovedQueue(s, s', f, i);
    MovedAttends(s, s', f, i, fd);
    if Unread(s, fd) && Wakes(s.hand.value, fd) {
      WakesFirstHolder(s, s', f, i, fd);
    }
  }

  lemma OneWayToMiss(s: System, a: Action, i: nat)
    requires |s.peers| == |s.servants|
    ensures i >= |s.peers| ==> !Misses(s, a, i)
    ensures a.Scan? ==> (Misses(s, a, i) <==> Diverts(s, a, i))
    ensures a == Assign(i) ==> (Misses(s, a, i) <==> Inherits(s, a, i))
    ensures !a.Scan? && a != Assign(i) ==> (Misses(s, a, i) <==> Strands(s, a, i))
  {
  }

  /** For every step, and whatever connectTCP has handed back before: a peer's unread data stays
      attended to by that peer, except exactly by the steps that `Misses` names. */
  lemma StepAttended(s: System, a: Action, i: nat)
    requires Shape(s) && SocketsAreInts(s) && Attended(s, i) && Enabled(s, a)
    ensures Attended(Next(s, a), i) <==> !Misses(s, a, i)
  {
    OneWayToMiss(s, a, i);
    if i >= |s.peers| {
      NewPeerAttended(s, a, i);
    } else if a.Scan? {
      ScanAttended(s, a.junk, i);
    } else if a == Assign(i) {
      AssignAttended(s, i);
    } else {
      OtherAttended(s, a, i);
    }
  }

  lemma NewPeerAttended(s: System, a: Action, i: nat)
    requires Shape(s) && SocketsAreInts(s) && Enabled(s, a) && i >= |s.peers|
    ensures Attended(Next(s, a), i)
  {
    StepInts(s, a);
    SizesGrow(s, a);
    if a.Scan? {
      ScanHands(s, a.junk);
    }
  }

  ghost predicate NoneStranded(s: System) {
    forall i: nat :: Attended(s, i)
  }

  lemma StepNoneStranded(s: System, a: Action)
    requires Shape(s) && SocketsAreInts(s) && NoneStranded(s) && Enabled(s, a)
    ensures NoneStranded(Next(s, a)) <==> forall i: nat :: !Misses(s, a, i)
  {
    forall i: nat ensures Attended(Next(s, a), i) <==> !Misses(s, a, i) {
      StepAttended(s, a, i);
    }
  }

  // ----- Where nobody shares a number -----

  /** A descriptor that its servant has not registered yet is not registered. */
  predicate NotYetRegistered(s: System, i: nat) {
    IsServant(s, i) && (s.servants[i].pc.Obtained? || s.servants[i].pc == Registering) ==>
      var fd := Held(s.peers[i], s.servants[i]);
      fd in s.sockets ==> !s.sockets[fd].registered
  }

  /** Then only a failed read can leave a peer's data behind. */
  lemma AloneMissesOnlyByFailedRead(s: System, a: Action, i: nat)
    requires Loose(s, i) && NotYetRegistered(s, i)
    ensures Misses(s, a, i) <==> Strands(s, a, i)
  {
    if Diverts(s, a, i) {
      WakesItsHolder(s, s.hand.value, i);
      assert false;
    }
  }

  /** And the two ways of looking at unread data are one. */
  lemma AloneIsAccounted(s: System, i: nat)
    requires Loose(s, i) && i < |s.peers|
    ensures Attended(s, i) <==> Accounted(s, s.peers[i].fd)
  {
    var fd := s.peers[i].fd;
    if Unread(s, fd) {
      assert Held(s.peers[i], s.servants[i]) == fd;
      forall j: nat | Attends(s, j, fd) ensures j == i {
        assert PcFits(s.peers[j], s.servants[j]);
        assert Held(s.peers[j], s.servants[j]) == fd;
      }
    }
  }

  lemma DialNotYetRegistered(s: System, a: Action, i: nat)
    requires Loose(s, i) && i < |s.peers| && NotYetRegistered(s, i) && Enabled(s, a) && a.Dial?
    ensures NotYetRegistered(Next(s, a), i)
  {
    Connector.ReturnsOpenOrNothing(Binds(s.peers[a.i]), Resolved(a), s.sockets.Keys);
  }

  lemma RegisterNotYetRegistered(s: System, a: Action, i: nat)
    requires Loose(s, i) && i < |s.peers| && NotYetRegistered(s, i) && Enabled(s, a) && a.Register?
    ensures NotYetRegistered(Next(s, a), i)
  {
    var fd := Held(s.peers[i], s.servants[i]);
    if a.i != i && fd in s.sockets {
      assert fd != Held(s.peers[a.i], s.servants[a.i]) == s.peers[a.i].fd;
    }
  }

  lemma StepNotYetRegistered(s: System, a: Action, i: nat)
    requires Loose(s, i) && NotYetRegistered(s, i) && Enabled(s, a)
    ensures NotYetRegistered(Next(s, a), i)
  {
    SizesGrow(s, a);
    if i >= |s.peers| {
      if a.Scan? && i < |Next(s, a).servants| {
        NewPeerIsIdle(s, a.junk, i);
      }
    } else if a.Dial? {
      DialNotYetRegistered(s, a, i);
    } else if a.Register? {
      RegisterNotYetRegistered(s, a, i);
    } else {
      RegistersNothing(s, a);
      KeepsHolding(s, a, i);
    }
  }

  lemma NewPeerIsIdle(s: System, junk: nat, i: nat)
    requires Shape(s) && Enabled(s, Scan(junk)) && |s.peers| <= i < |Next(s, Scan(junk)).servants|
    ensures Next(s, Scan(junk)).servants[i].pc == Idle
  {
    ScanMoves(s, junk);
  }

  lemma KeepsHolding(s: System, a: Action, i: nat)
    requires Shape(s) && Enabled(s, a) && !a.Dial? && !a.Register? && i < |s.peers|
    ensures i < |Next(s, a).peers| && i < |Next(s, a).servants|
    ensures var v' := Next(s, a).servants[i];
            v'.pc.Obtained? || v'.pc == Registering ==>
              (s.servants[i].pc.Obtained? || s.servants[i].pc == Registering) && Held(Next(s, a).peers[i], v') == Held(s.peers[i], s.servants[i])
  {
    if OwnStep(a, i) {
      OwnStepKeepsHolding(s, a, i);
    } else {
      OthersKeepServant(s, a, i);
    }
  }

  lemma OwnStepKeepsHolding(s: System, a: Action, i: nat)
    requires Shape(s) && Enabled(s, a) && !a.Dial? && !a.Register? && i < |s.peers| && OwnStep(a, i)
    ensures |Next(s, a).peers| == |Next(s, a).servants| == |s.peers|
    ensures var v' := Next(s, a).servants[i];
            v'.pc.Obtained? || v'.pc == Registering ==>
              (s.servants[i].pc.Obtained? || s.servants[i].pc == Registering) && Held(Next(s, a).peers[i], v') == Held(s.peers[i], s.servants[i])
  {
  }

  // ----- What it buys -----

  /** A step that the client takes by itself, without a failure. */
  predicate OwnMove(a: Action) {
    || a.Take? || a.Scan? || a.Wait? || a.Print?
    || (IsServantStep(a) && (a.ReadSocket? ==> !a.outcome.Failed?) && (a.Register? ==> a.ok))
  }

  lemma UnderwayMoves(s: System, fd: int)
    requires !s.halted && Underway(s, fd)
    ensures exists a :: Enabled(s, a) && OwnMove(a)
  {
    if s.batch != [] {
      assert Enabled(s, Print) && OwnMove(Print);
    } else if s.hand.Some? {
      assert Enabled(s, Scan(0)) && OwnMove(Scan(0));
    } else if s.queue != [] {
      assert Enabled(s, Take) && OwnMove(Take);
    } else {
      var events := [Event(fd, EPOLLIN)];
      assert Reported(s.sockets, events);
      assert Enabled(s, Wait(events)) && OwnMove(Wait(events));
    }
  }

  lemma AttendingMoves(s: System, j: nat, fd: int)
    requires Shape(s) && SocketsAreInts(s) && !s.halted && Attends(s, j, fd) && fd in s.sockets
    ensures exists a :: Enabled(s, a) && OwnMove(a)
  {
    assert PcFits(s.peers[j], s.servants[j]);
    var k := s.sockets[fd];
    var o := if k.buffered > 0 then Reading.Data(1) else if k.eof then Reading.Eof else Reading.Again;
    var a := match s.servants[j].pc
      case Idle => Serve(j)
      case Registering => Register(j, true)
      case Draining(_) => ReadSocket(j, o)
      case Clearing => ClearQueue(j)
      case _ => ShutSocket(j);
    assert Enabled(s, a) && OwnMove(a);
  }

  /** While accounted data is unread, the client can move by itself: when it has come to rest, with
      no step of its own left to take, nothing that is accounted for is unread. */
  lemma RestHasNothingUnread(s: System, fd: int)
    requires Shape(s) && SocketsAreInts(s) && !s.halted && Accounted(s, fd)
    requires forall a :: OwnMove(a) ==> !Enabled(s, a)
    ensures !Unread(s, fd)
  {
    if Unread(s, fd) {
      if Underway(s, fd) {
        UnderwayMoves(s, fd);
      } else {
        var j :| Attends(s, j, fd);
        AttendingMoves(s, j, fd);
      }
    }
  }

  /** The same for what is attended to. */
  lemma AttendedMoves(s: System, i: nat)
    requires Shape(s) && SocketsAreInts(s) && !s.halted && i < |s.peers| && Attended(s, i) && Unread(s, s.peers[i].fd)
    ensures exists a :: Enabled(s, a) && OwnMove(a)
  {
    if Underway(s, s.peers[i].fd) {
      UnderwayMoves(s, s.peers[i].fd);
    } else {
      AttendingMoves(s, i, s.peers[i].fd);
    }
  }

  // ----- Runs -----

  /** Accounted for in every state of the run. */
  ghost predicate AlwaysAccounted(s: System, run: seq<Action>, fd: int)
    requires Possible(s, run)
    decreases |run|
  {
    Accounted(s, fd) && (run == [] || AlwaysAccounted(Next(s, run[0]), run[1..], fd))
  }

  ghost predicate NeverForgets(s: System, run: seq<Action>, fd: int)
    requires Possible(s, run)
    decreases |run|
  {
    run == [] || (!Forgets(s, run[0], fd) && NeverForgets(Next(s, run[0]), run[1..], fd))
  }

  lemma {:induction false} RunHasHolder(s: System, run: seq<Action>, fd: int)
    requires Shape(s) && SocketsAreInts(s) && HasHolder(s, fd) && Possible(s, run)
    ensures Shape(After(s, run)) && SocketsAreInts(After(s, run)) && HasHolder(After(s, run), fd)
    decreases |run|
  {
    if run != [] {
      StepShape(s, run[0]);
      StepInts(s, run[0]);
      StepHasHolder(s, run[0], fd);
      RunHasHolder(Next(s, run[0]), run[1..], fd);
    }
  }

  lemma {:induction false} RunAccounted(s: System, run: seq<Action>, fd: int)
    requires Shape(s) && SocketsAreInts(s) && HasHolder(s, fd) && Accounted(s, fd) && Possible(s, run)
    ensures AlwaysAccounted(s, run, fd) <==> NeverForgets(s, run, fd)
    ensures AlwaysAccounted(s, run, fd) ==> Accounted(After(s, run), fd)
    decreases |run|
  {
    if run != [] {
      StepAccounted(s, run[0], fd);
      if Accounted(Next(s, run[0]), fd) {
        StepShape(s, run[0]);
        StepInts(s, run[0]);
        StepHasHolder(s, run[0], fd);
        RunAccounted(Next(s, run[0]), run[1..], fd);
      }
    }
  }

  /** Attended to in every state of the run. */
  ghost predicate AlwaysAttended(s: System, run: seq<Action>, i: nat)
    requires Possible(s, run)
    decreases |run|
  {
    Attended(s, i) && (run == [] || AlwaysAttended(Next(s, run[0]), run[1..], i))
  }

  ghost predicate NeverMisses(s: System, run: seq<Action>, i: nat)
    requires Possible(s, run)
    decreases |run|
  {
    run == [] || (!Misses(s, run[0], i) && NeverMisses(Next(s, run[0]), run[1..], i))
  }

  lemma {:induction false} RunAttended(s: System, run: seq<Action>, i: nat)
    requires Shape(s) && SocketsAreInts(s) && Attended(s, i) && Possible(s, run)
    ensures AlwaysAttended(s, run, i) <==> NeverMisses(s, run, i)
    ensures AlwaysAttended(s, run, i) ==> Attended(After(s, run), i)
    decreases |run|
  {
    if run != [] {
      StepAttended(s, run[0], i);
      if Attended(Next(s, run[0]), i) {
        StepShape(s, run[0]);
        StepInts(s, run[0]);
        RunAttended(Next(s, run[0]), run[1..], i);
      }
    }
  }

  /** No step of the schedule is such a failed read at servant `i`. */
  ghost predicate NeverStrands(s: System, run: seq<Action>, i: nat)
    requires Possible(s, run)
    decreases |run|
  {
    run == [] || (!Strands(s, run[0], i) && NeverStrands(Next(s, run[0]), run[1..], i))
  }

  /** Without a collision at this peer nothing else can go wrong. */
  lemma {:induction false} RunAlone(s: System, run: seq<Action>, i: nat)
    requires Loose(s, i) && NotYetRegistered(s, i) && Possible(s, run) && NeverCollides(s, run, i)
    ensures NeverMisses(s, run, i) <==> NeverStrands(s, run, i)
    decreases |run|
  {
    if run != [] {
      AloneMissesOnlyByFailedRead(s, run[0], i);
      StepLoose(s, run[0], i);
      StepNotYetRegistered(s, run[0], i);
      RunAlone(Next(s, run[0]), run[1..], i);
    }
  }

  /** The repairs that the comments ask for remove the failed read from the exceptions. */
  lemma {:induction false} IntendedNeverLetsGo(s: System, run: seq<Action>, fd: int, i: nat)
    requires Possible(s, run) && s.code.AsIntended?
    ensures NeverForgets(s, run, fd) && NeverStrands(s, run, i)
    decreases |run|
  {
    if run != [] {
      IntendedNeverLetsGo(Next(s, run[0]), run[1..], fd, i);
    }
  }
}
