/** The kernel's side of the client: what each step does to a socket, that a registration lasts until
    the close, and that no byte is lost or invented between its arrival and a servant's read. */
module Kernel {
  import opened Types
  import opened Peers
  import opened Waiter
  import opened Pipeline
  import Connector
  import Reading

  predicate Registered(s: System, fd: int) {
    fd in s.sockets && s.sockets[fd].registered
  }

  // ----- What the kernel may do -----

  /** Bytes and the end of file may come at any time, a read may answer with any part of what is
      there or fail, a wait may report any choice of the sockets with an edge, each once, and a
      connection attempt may go in any way with numbers that are not open. */
  lemma KernelIsFree(s: System, fd: int, n: nat, i: nat, o: Reading.Outcome, events: seq<Event>, cs: seq<Connector.Candidate>)
    requires !s.halted
    ensures Enabled(s, Arrive(fd, n)) <==> fd in s.sockets && !s.sockets[fd].eof && n > 0
    ensures Enabled(s, HangUp(fd)) <==> fd in s.sockets
    ensures IsServant(s, i) && s.servants[i].pc.Draining? && s.peers[i].fd == fd ==>
              (Enabled(s, ReadSocket(i, o)) <==>
                 || o.Failed?
                 || (fd in s.sockets &&
                     var k := s.sockets[fd];
                     if o.Data? then 1 <= o.n <= 2048 && o.n <= k.buffered else k.buffered == 0 && (k.eof <==> o.Eof?)))
    ensures Enabled(s, Wait(events)) <==>
              && s.batch == [] && 1 <= |events| <= 64
              && (forall e :: e in events ==> e.fd in s.sockets && s.sockets[e.fd].edge)
              && forall j, k :: 0 <= j < |events| && 0 <= k < |events| && j != k ==> events[j].fd != events[k].fd
    ensures IsServant(s, i) && s.servants[i].pc == Connecting ==>
              (Enabled(s, Dial(i, true, cs)) <==>
                 && Connector.AllNew(Binds(s.peers[i]), cs, s.sockets.Keys)
                 && forall k :: 0 <= k < |cs| ==> IsInt(cs[k].sock))
  {
    if IsServant(s, i) {
      Connector.FreshExactly(Binds(s.peers[i]), cs, s.sockets.Keys);
    }
    if Enabled(s, Wait(events)) {
      forall j, k | 0 <= j < |events| && 0 <= k < |events| && j != k ensures events[j].fd != events[k].fd {
        assert j < k || k < j;
      }
    } else {
      assert forall k :: 0 <= k < |events| ==> events[k] in events;
    }
  }

  // ----- What a step does to a socket -----

  /** This step closes the number. */
  predicate Closes(s: System, a: Action, fd: int) {
    a.ShutSocket? && IsServant(s, a.i) && s.peers[a.i].fd == fd
  }

  /** This step's call of connectTCP leaves a new socket with this number open. */
  predicate Creates(s: System, a: Action, fd: int) {
    a.Dial? && a.i < |s.peers| && fd in Handed(s, a).open && fd !in s.sockets
  }

  /** This step registers the number with epoll. */
  predicate Registers(s: System, a: Action, fd: int) {
    a.Register? && a.ok && IsServant(s, a.i) && s.peers[a.i].fd == fd
  }

  predicate Reports(a: Action, fd: int) {
    a.Wait? && exists e :: e in a.events && e.fd == fd
  }

  /** Bytes that this step brings to the socket. */
  function Brought(a: Action, fd: int): nat {
    if a.Arrive? && a.fd == fd then a.n else 0
  }

  /** Bytes that this step reads from it. */
  function ReadOff(s: System, a: Action, fd: int): nat {
    if a.ReadSocket? && IsServant(s, a.i) && s.peers[a.i].fd == fd && a.outcome.Data? then a.outcome.n else 0
  }

  /** Bytes that this step throws away unread, with the socket. */
  function Discarded(s: System, a: Action, fd: int): nat {
    if Closes(s, a, fd) then Buffered(s, fd) else 0
  }

  /** A successful registration registers the socket, whatever it holds, and reports what it holds. */
  lemma RegisterRegisters(s: System, i: nat)
    requires Enabled(s, Register(i, true))
    ensures var fd, s' := s.peers[i].fd, Next(s, Register(i, true));
            && Registered(s', fd) && (Readable(s.sockets[fd]) ==> s'.sockets[fd].edge)
            && s'.sockets[fd].buffered == s.sockets[fd].buffered && s'.sockets[fd].eof == s.sockets[fd].eof
  {
  }

  /** Sockets come by connectTCP, empty, and go by a close of their number. */
  lemma StepOpen(s: System, a: Action, fd: int)
    requires Enabled(s, a)
    ensures fd in Next(s, a).sockets <==> (fd in s.sockets && !Closes(s, a, fd)) || Creates(s, a, fd)
    ensures Creates(s, a, fd) ==> Next(s, a).sockets[fd] == Socket(0, false, false, false)
  {
    if a.Dial? {
      Connector.ReturnsOpenOrNothing(Binds(s.peers[a.i]), Resolved(a), s.sockets.Keys);
    } else if a.Scan? {
      ScanSockets(s, a.junk);
    }
  }

  lemma ScanSockets(s: System, junk: nat)
    requires Enabled(s, Scan(junk))
    ensures Next(s, Scan(junk)).sockets == s.sockets
  {
  }

  /** Bytes come by arrival and go by a read; the end of file stays once it has come; a registration
      stays; and the edge is raised by what arrives and by a registration of a readable socket, and
      taken away by a report alone. */
  lemma StepSocket(s: System, a: Action, fd: int)
    requires Enabled(s, a) && fd in s.sockets && fd in Next(s, a).sockets
    ensures var k, k' := s.sockets[fd], Next(s, a).sockets[fd];
            && k'.buffered == k.buffered + Brought(a, fd) - ReadOff(s, a, fd)
            && (k'.eof <==> k.eof || a == HangUp(fd))
            && (k'.registered <==> k.registered || Registers(s, a, fd))
            && (k'.edge <==>
                  if Reports(a, fd) then false
                  else k.edge || (k.registered && (Brought(a, fd) > 0 || a == HangUp(fd))) || (Registers(s, a, fd) && Readable(k)))
  {
    if a.Scan? {
      ScanSockets(s, a.junk);
    } else if a.Wait? {
      WaitSocket(s, a.events, fd);
    } else if a.Dial? {
      assert Next(s, a).sockets[fd] == s.sockets[fd];
    }
  }

  lemma WaitSocket(s: System, events: seq<Event>, fd: int)
    requires Enabled(s, Wait(events)) && fd in s.sockets
    ensures Next(s, Wait(events)).sockets[fd] ==
            if Reports(Wait(events), fd) then s.sockets[fd].(edge := false) else s.sockets[fd]
  {
    if Reports(Wait(events), fd) {
      var e :| e in events && e.fd == fd;
      var k :| 0 <= k < |events| && events[k] == e;
    }
  }

  // ----- Registration lasts -----

  ghost predicate NeverCloses(s: System, run: seq<Action>, fd: int)
    requires Possible(s, run)
    decreases |run|
  {
    run == [] || (!Closes(s, run[0], fd) && NeverCloses(Next(s, run[0]), run[1..], fd))
  }

  ghost predicate AlwaysRegistered(s: System, run: seq<Action>, fd: int)
    requires Possible(s, run)
    decreases |run|
  {
    Registered(s, fd) && (run == [] || AlwaysRegistered(Next(s, run[0]), run[1..], fd))
  }

  lemma StepRegistered(s: System, a: Action, fd: int)
    requires Registered(s, fd) && Enabled(s, a)
    ensures Registered(Next(s, a), fd) <==> !Closes(s, a, fd)
  {
    StepOpen(s, a, fd);
    if fd in Next(s, a).sockets {
      StepSocket(s, a, fd);
    }
  }

  /** A registered socket stays registered in every state of a run iff nobody closes its number. */
  lemma {:induction false} RunRegistered(s: System, run: seq<Action>, fd: int)
    requires Registered(s, fd) && Possible(s, run)
    ensures AlwaysRegistered(s, run, fd) <==> NeverCloses(s, run, fd)
    ensures AlwaysRegistered(s, run, fd) ==> Registered(After(s, run), fd)
    decreases |run|
  {
    if run != [] {
      StepRegistered(s, run[0], fd);
      if Registered(Next(s, run[0]), fd) {
        RunRegistered(Next(s, run[0]), run[1..], fd);
      }
    }
  }

  // ----- Where the bytes go -----

  /** Bytes that a servant has read from this number, by its own record. */
  function BytesRead(trace: seq<Trace>, fd: int): nat {
    if trace == [] then 0
    else
      var e := trace[|trace| - 1];
      BytesRead(trace[..|trace| - 1], fd) + if e.ReadFrom? && e.fd == fd && e.outcome.Data? then e.outcome.n else 0
  }

  function BytesOfAll(servants: seq<Servant>, fd: int): nat {
    if servants == [] then 0
    else BytesOfAll(servants[..|servants| - 1], fd) + BytesRead(servants[|servants| - 1].trace, fd)
  }

  lemma {:induction false} BytesReadJoin(x: seq<Trace>, y: seq<Trace>, fd: int)
    ensures BytesRead(x + y, fd) == BytesRead(x, fd) + BytesRead(y, fd)
    decreases |y|
  {
    if y == [] {
      assert x + y == x;
    } else {
      assert (x + y)[..|x + y| - 1] == x + y[..|y| - 1];
      BytesReadJoin(x, y[..|y| - 1], fd);
    }
  }

  lemma {:induction false} NothingRead(trace: seq<Trace>, fd: int)
    requires forall k :: 0 <= k < |trace| ==> !trace[k].ReadFrom?
    ensures BytesRead(trace, fd) == 0
  {
    if trace != [] {
      NothingRead(trace[..|trace| - 1], fd);
    }
  }

  lemma DidRead(s: System, a: Action, i: nat, fd: int)
    requires Shape(s) && Enabled(s, a) && i < |s.peers|
    ensures BytesRead(Did(s, a, i), fd) == if OwnStep(a, i) then ReadOff(s, a, fd) else 0
  {
    var did := Did(s, a, i);
    if a.ReadSocket? && a.i == i {
      assert did == [ReadFrom(s.peers[i].fd, a.outcome)] && did[..0] == [];
    } else {
      NothingRead(did, fd);
    }
  }

  /** One servant has read `n` bytes more, the others what they had, newcomers nothing. */
  lemma {:induction false} OneReads(servants: seq<Servant>, servants': seq<Servant>, fd: int, j: nat, n: nat)
    requires |servants| <= |servants'|
    requires forall i :: 0 <= i < |servants| ==>
               BytesRead(servants'[i].trace, fd) == BytesRead(servants[i].trace, fd) + if i == j then n else 0
    requires forall i :: |servants| <= i < |servants'| ==> BytesRead(servants'[i].trace, fd) == 0
    ensures BytesOfAll(servants', fd) == BytesOfAll(servants, fd) + if j < |servants| then n else 0
    decreases |servants'|
  {
    if servants' != [] {
      var m := |servants'| - 1;
      if |servants| <= m {
        OneReads(servants, servants'[..m], fd, j, n);
      } else {
        OneReads(servants[..m], servants'[..m], fd, j, n);
      }
    }
  }

  /** What leaves a socket by a read is in the reader's record. */
  lemma StepRead(s: System, a: Action, s': System, fd: int)
    requires Shape(s) && Enabled(s, a) && Recorded(s, a, s')
    ensures BytesOfAll(s'.servants, fd) == BytesOfAll(s.servants, fd) + ReadOff(s, a, fd)
  {
    var j := if IsServantStep(a) then a.i else 0;
    forall i | 0 <= i < |s.servants|
      ensures BytesRead(s'.servants[i].trace, fd) == BytesRead(s.servants[i].trace, fd) + if i == j then ReadOff(s, a, fd) else 0
    {
      DidRead(s, a, i, fd);
      BytesReadJoin(s.servants[i].trace, Did(s, a, i), fd);
    }
    OneReads(s.servants, s'.servants, fd, j, ReadOff(s, a, fd));
  }

  lemma StepBuffered(s: System, a: Action, fd: int)
    requires Enabled(s, a)
    ensures Buffered(Next(s, a), fd) == Buffered(s, fd) + Brought(a, fd) - ReadOff(s, a, fd) - Discarded(s, a, fd)
  {
    StepOpen(s, a, fd);
    if fd in s.sockets && fd in Next(s, a).sockets {
      StepSocket(s, a, fd);
    }
  }

  function BroughtBy(run: seq<Action>, fd: int): nat {
    if run == [] then 0 else Brought(run[0], fd) + BroughtBy(run[1..], fd)
  }

  ghost function DiscardedBy(s: System, run: seq<Action>, fd: int): nat
    requires Possible(s, run)
    decreases |run|
  {
    if run == [] then 0 else Discarded(s, run[0], fd) + DiscardedBy(Next(s, run[0]), run[1..], fd)
  }

  /** Over every run: what arrives under a number is read by a servant, which has recorded it, or lies
      in the socket still, or is thrown away by a close; nothing else is read. */
  lemma {:induction false} RunBytes(s: System, run: seq<Action>, fd: int)
    requires Shape(s) && Possible(s, run)
    ensures var s' := After(s, run);
            BytesOfAll(s'.servants, fd) + Buffered(s', fd) + DiscardedBy(s, run, fd)
            == BytesOfAll(s.servants, fd) + Buffered(s, fd) + BroughtBy(run, fd)
    decreases |run|
  {
    if run != [] {
      var s1 := Next(s, run[0]);
      StepShape(s, run[0]);
      StepRecorded(s, run[0]);
      StepRead(s, run[0], s1, fd);
      StepBuffered(s, run[0], fd);
      RunBytes(s1, run[1..], fd);
    }
  }
}
