/** The loop body of `threadFunc` as a method and as steps of the whole client are the same: a turn of
    module Dispatcher is a schedule of module Pipeline in which only that servant moves. */
module Turns {
  import opened Types
  import opened Peers
  import opened Pipeline
  import opened Runs
  import Waiter
  import Command
  import Dispatcher
  import Reading
  import Connector

  function Messages(trace: seq<Trace>): seq<string> {
    if trace == [] then []
    else Messages(trace[..|trace| - 1]) + (if trace[|trace| - 1].WroteTo? then [trace[|trace| - 1].msg] else [])
  }

  lemma MessagesGrow(trace: seq<Trace>, e: Trace)
    ensures Messages(trace + [e]) == Messages(trace) + (if e.WroteTo? then [e.msg] else [])
  {
    assert (trace + [e])[..|trace|] == trace;
  }

  /** The connection attempts until one hands back a descriptor. */
  function DialSchedule(i: nat, binds: bool, attempts: seq<Dispatcher.Attempt>, open: set<int>): seq<Action> {
    if attempts == [] then []
    else
      var l := Connector.Attempt(binds, Dispatcher.Candidates(attempts[0]), CLOSED, open);
      [Dial(i, attempts[0].resolved, attempts[0].candidates)] +
      if l.fd != CLOSED then [] else DialSchedule(i, binds, attempts[1..], l.open)
  }

  function TurnSchedule(s: System, i: nat, attempts: seq<Dispatcher.Attempt>, answers: seq<Reading.Outcome>, ok: bool): seq<Action>
    requires IsServant(s, i) && s.peers[i].que != []
  {
    var p := s.peers[i];
    var after :=
      match p.que[0].req
      case Connect =>
        if p.fd != CLOSED then []
        else
          DialSchedule(i, Binds(p), attempts, s.sockets.Keys) +
          if Dispatcher.Retry(Binds(p), attempts, CLOSED, s.sockets.Keys).fd != CLOSED then [Assign(i), Register(i, ok)] else []
      case Read =>
        if p.fd == CLOSED then []
        else
          var d := Reading.Drain(s.code, answers, Reading.START);
          DrainSchedule(s.code, i, answers) + if d.left && d.zero then [ShutSocket(i)] else []
      case Write => []
      case Close => if p.fd == CLOSED then [] else [ShutSocket(i)];
    [Serve(i)] + after
  }

  /** What a turn and the servant in the client agree on. */
  ghost predicate Agrees(s: System, i: nat, t: Dispatcher.Turn, s': System) {
    && IsServant(s, i) && IsServant(s', i)
    && s'.peers[i] == t.peer && s'.sockets.Keys == t.open
    && (t.ended <==> s'.servants[i].pc == Idle)
    && Messages(s'.servants[i].trace) == Messages(s.servants[i].trace) + t.written
  }

  lemma PossibleHead(s: System, a: Action, rest: seq<Action>)
    requires Enabled(s, a) && Possible(Next(s, a), rest)
    ensures Possible(s, [a] + rest) && After(s, [a] + rest) == After(Next(s, a), rest)
  {
    assert ([a] + rest)[1..] == rest;
  }

  lemma Associates<T>(x: seq<T>, y: seq<T>)
    ensures if x == [] then x + y == y else x + y == [x[0]] + (x[1..] + y)
  {
  }

  lemma {:induction false} PossibleTwice(s: System, first: seq<Action>, rest: seq<Action>)
    requires Possible(s, first) && Possible(After(s, first), rest)
    ensures Possible(s, first + rest)
    decreases |first|, 1
  {
    var all := first + rest;
    Associates(first, rest);
    if first != [] {
      PossibleOnward(s, first[0], first[1..], rest);
      assert Possible(s, all);
    }
  }

  lemma {:induction false} PossibleOnward(s: System, a: Action, tail: seq<Action>, rest: seq<Action>)
    requires Enabled(s, a) && Possible(Next(s, a), tail) && Possible(After(Next(s, a), tail), rest)
    ensures Possible(s, [a] + (tail + rest))
    decreases |tail| + 1, 0
  {
    PossibleTwice(Next(s, a), tail, rest);
    PossibleHead(s, a, tail + rest);
  }

  lemma {:induction false} RunTwice(s: System, first: seq<Action>, rest: seq<Action>)
    requires Possible(s, first + rest)
    ensures Possible(s, first) && Possible(After(s, first), rest) && After(s, first + rest) == After(After(s, first), rest)
    decreases |first|, 1
  {
    Associates(first, rest);
    if first != [] {
      assert first == [first[0]] + first[1..];
      RunOnward(s, first[0], first[1..], rest);
    }
  }

  lemma {:induction false} RunOnward(s: System, a: Action, tail: seq<Action>, rest: seq<Action>)
    requires Possible(s, [a] + (tail + rest))
    ensures Possible(s, [a] + tail) && Possible(After(s, [a] + tail), rest)
    ensures After(s, [a] + (tail + rest)) == After(After(s, [a] + tail), rest)
    decreases |tail| + 1, 0
  {
    RunHead(s, a, tail + rest);
    RunTwice(Next(s, a), tail, rest);
    PossibleHead(s, a, tail);
  }

  lemma DialOnce(s: System, i: nat, a: Action, attempt: Dispatcher.Attempt)
    requires IsServant(s, i) && s.servants[i].pc == Connecting && Enabled(s, a)
    requires a == Dial(i, attempt.resolved, attempt.candidates)
    ensures var s', l := Next(s, a), Connector.Attempt(Binds(s.peers[i]), Dispatcher.Candidates(attempt), CLOSED, s.sockets.Keys);
            && s'.peers == s.peers && s'.sockets.Keys == l.open && IsServant(s', i) && !s'.halted
            && s'.servants[i].pc == (if l.fd != CLOSED then Obtained(l.fd) else Connecting)
            && Messages(s'.servants[i].trace) == Messages(s.servants[i].trace)
  {
    var p, v, v' := s.peers[i], s.servants[i], Next(s, a).servants[i];
    Connector.ReturnsOpenOrNothing(Binds(p), Resolved(a), s.sockets.Keys);
    MessagesGrow(v.trace, Dialled(p.ip, p.port));
    if v'.pc.Obtained? {
      MessagesGrow(v.trace + [Dialled(p.ip, p.port)], v'.trace[|v.trace| + 1]);
    } else {
      assert v'.trace == v.trace + [Dialled(p.ip, p.port)];
    }
  }

  /** The attempts one after the other end where the retry loop does. */
  lemma {:induction false} DialsAgree(s: System, i: nat, attempts: seq<Dispatcher.Attempt>)
    requires IsServant(s, i) && s.servants[i].pc == Connecting
    requires Possible(s, DialSchedule(i, Binds(s.peers[i]), attempts, s.sockets.Keys))
    ensures var s' := After(s, DialSchedule(i, Binds(s.peers[i]), attempts, s.sockets.Keys));
            var l := Dispatcher.Retry(Binds(s.peers[i]), attempts, CLOSED, s.sockets.Keys);
            && s'.peers == s.peers && s'.sockets.Keys == l.open && IsServant(s', i)
            && s'.servants[i].pc == (if l.fd != CLOSED then Obtained(l.fd) else Connecting)
            && Messages(s'.servants[i].trace) == Messages(s.servants[i].trace)
    decreases |attempts|
  {
    if attempts != [] {
      var binds, open := Binds(s.peers[i]), s.sockets.Keys;
      var a := Dial(i, attempts[0].resolved, attempts[0].candidates);
      var l := Connector.Attempt(binds, Dispatcher.Candidates(attempts[0]), CLOSED, open);
      var rest := if l.fd != CLOSED then [] else DialSchedule(i, binds, attempts[1..], l.open);
      RunHead(s, a, rest);
      DialOnce(s, i, a, attempts[0]);
      if l.fd == CLOSED {
        DialsAgree(Next(s, a), i, attempts[1..]);
      }
    }
  }

  predicate InRange(attempts: seq<Dispatcher.Attempt>) {
    forall k :: 0 <= k < |attempts| ==> IntSockets(Dispatcher.Candidates(attempts[k]))
  }

  predicate IntSockets(cs: seq<Connector.Candidate>) {
    forall k :: 0 <= k < |cs| ==> Waiter.IsInt(cs[k].sock)
  }

  /** Attempts with fresh sockets are possible one after the other. */
  lemma {:induction false} DialsPossible(s: System, i: nat, attempts: seq<Dispatcher.Attempt>)
    requires IsServant(s, i) && s.servants[i].pc == Connecting && !s.halted
    requires Dispatcher.FreshAttempts(Binds(s.peers[i]), attempts, s.sockets.Keys) && InRange(attempts)
    ensures var dials := DialSchedule(i, Binds(s.peers[i]), attempts, s.sockets.Keys);
            Possible(s, dials) && !After(s, dials).halted
    decreases |attempts|
  {
    if attempts != [] {
      var binds, open := Binds(s.peers[i]), s.sockets.Keys;
      var a := Dial(i, attempts[0].resolved, attempts[0].candidates);
      var l := Connector.Attempt(binds, Dispatcher.Candidates(attempts[0]), CLOSED, open);
      assert Resolved(a) == Dispatcher.Candidates(attempts[0]) && IntSockets(Resolved(a));
      assert Enabled(s, a);
      DialOnce(s, i, a, attempts[0]);
      if l.fd == CLOSED {
        DialsPossible(Next(s, a), i, attempts[1..]);
        PossibleHead(s, a, DialSchedule(i, binds, attempts[1..], l.open));
      } else {
        PossibleHead(s, a, []);
      }
    }
  }

  /** The retry loop is attempts of the client one after the other: with fresh sockets they are
      possible, and they end where the loop ends. */
  lemma DialsRefine(s: System, i: nat, attempts: seq<Dispatcher.Attempt>)
    requires IsServant(s, i) && s.servants[i].pc == Connecting && !s.halted
    requires Dispatcher.FreshAttempts(Binds(s.peers[i]), attempts, s.sockets.Keys) && InRange(attempts)
    ensures var dials := DialSchedule(i, Binds(s.peers[i]), attempts, s.sockets.Keys);
            var l := Dispatcher.Retry(Binds(s.peers[i]), attempts, CLOSED, s.sockets.Keys);
            && Possible(s, dials)
            && var s' := After(s, dials);
            && !s'.halted && s'.peers == s.peers && s'.sockets.Keys == l.open && IsServant(s', i)
            && s'.servants[i].pc == (if l.fd != CLOSED then Obtained(l.fd) else Connecting)
            && Messages(s'.servants[i].trace) == Messages(s.servants[i].trace)
  {
    DialsPossible(s, i, attempts);
    DialsAgree(s, i, attempts);
  }

  /** The answers that reads on this descriptor can get. On a closed one every read fails. */
  predicate CanAnswer(s: System, fd: int, answers: seq<Reading.Outcome>) {
    if fd in s.sockets then Reading.Admissible(s.sockets[fd].buffered, s.sockets[fd].eof, answers)
    else forall k :: 0 <= k < |answers| ==> answers[k] == Reading.Failed
  }

  /** A servant in its read loop, on a descriptor that can give these answers. */
  ghost predicate Reads(s: System, i: nat, answers: seq<Reading.Outcome>) {
    IsServant(s, i) && !s.halted && s.servants[i].pc.Draining? && CanAnswer(s, s.peers[i].fd, answers)
  }

  lemma ReadPossible(s: System, i: nat, answers: seq<Reading.Outcome>)
    requires Reads(s, i, answers) && answers != []
    ensures var read, res := ReadSocket(i, answers[0]), Reading.ReadResult(s.code, answers[0]);
            && Enabled(s, read)
            && Next(s, read).code == s.code && !Next(s, read).halted
            && (res > 0 ==> Reads(Next(s, read), i, answers[1..]))
            && (res == 0 ==> Enabled(Next(s, read), ClearQueue(i)))
  {
  }

  lemma ReadAndClearPossible(s: System, i: nat, answers: seq<Reading.Outcome>)
    requires Reads(s, i, answers) && answers != [] && Reading.ReadResult(s.code, answers[0]) == 0
    requires Enabled(s, ReadSocket(i, answers[0])) && Enabled(Next(s, ReadSocket(i, answers[0])), ClearQueue(i))
    ensures var s2 := Next(Next(s, ReadSocket(i, answers[0])), ClearQueue(i));
            s2.code == s.code && !s2.halted && (s.code.AsWritten? ==> Reads(s2, i, answers[1..]))
  {
  }

  /** Any answers that a socket can give make the drain possible. */
  lemma {:induction false} DrainPossible(s: System, i: nat, answers: seq<Reading.Outcome>)
    requires Reads(s, i, answers)
    ensures Possible(s, DrainSchedule(s.code, i, answers)) && !After(s, DrainSchedule(s.code, i, answers)).halted
    decreases |answers|
  {
    if answers != [] {
      var read, rest := ReadSocket(i, answers[0]), DrainSchedule(s.code, i, answers[1..]);
      var res := Reading.ReadResult(s.code, answers[0]);
      ReadPossible(s, i, answers);
      var s1 := Next(s, read);
      if res == 0 {
        var tail := if s.code.AsIntended? then [] else rest;
        ReadAndClearPossible(s, i, answers);
        if s.code.AsWritten? {
          DrainPossible(Next(s1, ClearQueue(i)), i, answers[1..]);
        }
        PossibleHead(s1, ClearQueue(i), tail);
        PossibleHead(s, read, [ClearQueue(i)] + tail);
      } else if res == -1 {
        PossibleHead(s, read, []);
      } else {
        DrainPossible(s1, i, answers[1..]);
        PossibleHead(s, read, rest);
      }
    }
  }

  lemma ServeFirst(s: System, i: nat)
    requires Shape(s) && Enabled(s, Serve(i))
    ensures var s1, p := Next(s, Serve(i)), s.peers[i];
            && IsServant(s1, i) && s1.sockets == s.sockets && s1.code == s.code
            && s1.peers[i] == p.(que := p.que[1..])
            && Messages(s1.servants[i].trace) ==
               Messages(s.servants[i].trace) + (if p.que[0].req == Write && p.fd != CLOSED then [p.que[0].msg] else [])
  {
    var p, v, v' := s.peers[i], s.servants[i], Next(s, Serve(i)).servants[i];
    var popped := Popped(v.tags[0], p.que[0].req);
    MessagesGrow(v.trace, popped);
    if p.que[0].req == Write && p.fd != CLOSED {
      MessagesGrow(v.trace + [popped], WroteTo(p.fd, v.tags[0], p.que[0].msg));
    } else {
      assert v'.trace == v.trace + [popped];
    }
  }

  lemma ShutLast(s: System, i: nat)
    requires IsServant(s, i) && Enabled(s, ShutSocket(i))
    ensures var s', fd := Next(s, ShutSocket(i)), s.peers[i].fd;
            && IsServant(s', i) && s'.peers[i] == s.peers[i].(fd := CLOSED) && s'.sockets.Keys == s.sockets.Keys - {fd}
            && s'.servants[i].pc == Idle && Messages(s'.servants[i].trace) == Messages(s.servants[i].trace)
  {
    MessagesGrow(s.servants[i].trace, Shut(s.peers[i].fd));
  }

  lemma ConnectTurn(s: System, i: nat, attempts: seq<Dispatcher.Attempt>, answers: seq<Reading.Outcome>, ok: bool)
    requires Shape(s) && IsServant(s, i) && s.peers[i].que != [] && s.peers[i].que[0].req == Connect && s.peers[i].fd == CLOSED
    requires Possible(s, TurnSchedule(s, i, attempts, answers, ok))
    ensures Agrees(s, i, Dispatcher.TakeTurn(s.code, s.peers[i], s.sockets.Keys, attempts, answers),
                   After(s, TurnSchedule(s, i, attempts, answers, ok)))
  {
    var p := s.peers[i];
    var dials := DialSchedule(i, Binds(p), attempts, s.sockets.Keys);
    var l := Dispatcher.Retry(Binds(p), attempts, CLOSED, s.sockets.Keys);
    var last := if l.fd != CLOSED then [Assign(i), Register(i, ok)] else [];
    RunHead(s, Serve(i), dials + last);
    ServeFirst(s, i);
    var s1 := Next(s, Serve(i));
    RunTwice(s1, dials, last);
    DialsAgree(s1, i, attempts);
    var s2 := After(s1, dials);
    if l.fd != CLOSED {
      Connects(s2, i, ok, l.fd);
    }
  }

  lemma Connects(s: System, i: nat, ok: bool, fd: int)
    requires IsServant(s, i) && s.servants[i].pc == Obtained(fd) && Possible(s, [Assign(i), Register(i, ok)])
    ensures var s' := After(s, [Assign(i), Register(i, ok)]);
            && IsServant(s', i) && s'.peers[i] == s.peers[i].(fd := fd) && s'.sockets.Keys == s.sockets.Keys
            && s'.servants[i] == s.servants[i].(pc := Idle)
  {
    var assign, register := Assign(i), Register(i, ok);
    assert [assign, register] == [assign] + [register];
    RunHead(s, assign, [register]);
    assert [register] == [register] + [];
    RunHead(Next(s, assign), register, []);
  }

  lemma ReadTurn(s: System, i: nat, attempts: seq<Dispatcher.Attempt>, answers: seq<Reading.Outcome>, ok: bool)
    requires Shape(s) && IsServant(s, i) && s.peers[i].que != [] && s.peers[i].que[0].req == Read && s.peers[i].fd != CLOSED
    requires Possible(s, TurnSchedule(s, i, attempts, answers, ok))
    ensures Agrees(s, i, Dispatcher.TakeTurn(s.code, s.peers[i], s.sockets.Keys, attempts, answers),
                   After(s, TurnSchedule(s, i, attempts, answers, ok)))
  {
    var drain := DrainSchedule(s.code, i, answers);
    var d := Reading.Drain(s.code, answers, Reading.START);
    var last := if d.left && d.zero then [ShutSocket(i)] else [];
    RunHead(s, Serve(i), drain + last);
    ServeFirst(s, i);
    var s1 := Next(s, Serve(i));
    RunTwice(s1, drain, last);
    DrainRefines(s1, i, answers, Reading.START);
    DrainWritesNothing(s1, i, answers);
    ReadTurnEnds(s, i, attempts, answers, After(s1, drain), last);
  }

  /** After the drain the servant closes if the request has become CLOSE and the loop has ended. */
  lemma ReadTurnEnds(s: System, i: nat, attempts: seq<Dispatcher.Attempt>, answers: seq<Reading.Outcome>, s2: System, last: seq<Action>)
    requires IsServant(s, i) && IsServant(s2, i)
    requires s.peers[i].que != [] && s.peers[i].que[0].req == Read && s.peers[i].fd != CLOSED
    requires var d := Reading.Drain(s.code, answers, Reading.START);
             && last == (if d.left && d.zero then [ShutSocket(i)] else [])
             && s2.peers[i] == s.peers[i].(que := if d.zero then [] else s.peers[i].que[1..])
             && s2.servants[i].pc == (if !d.left then Draining(d.zero) else if d.zero then Closing else Idle)
    requires s2.sockets.Keys == s.sockets.Keys && Messages(s2.servants[i].trace) == Messages(s.servants[i].trace)
    requires Possible(s2, last)
    ensures Agrees(s, i, Dispatcher.TakeTurn(s.code, s.peers[i], s.sockets.Keys, attempts, answers), After(s2, last))
  {
    if last != [] {
      assert last == last + [];
      RunHead(s2, ShutSocket(i), []);
      ShutLast(s2, i);
    }
  }

  lemma {:induction false} DrainWritesNothing(s: System, i: nat, answers: seq<Reading.Outcome>)
    requires IsServant(s, i) && Possible(s, DrainSchedule(s.code, i, answers))
    ensures var s' := After(s, DrainSchedule(s.code, i, answers));
            IsServant(s', i) && Messages(s'.servants[i].trace) == Messages(s.servants[i].trace) && s'.sockets.Keys == s.sockets.Keys
    decreases |answers|
  {
    if answers != [] {
      var res := Reading.ReadResult(s.code, answers[0]);
      var rest := DrainSchedule(s.code, i, answers[1..]);
      var tail := if res == -1 then [] else if res != 0 then rest else [ClearQueue(i)] + if s.code.AsIntended? then [] else rest;
      RunHead(s, ReadSocket(i, answers[0]), tail);
      ReadWritesNothing(s, i, answers[0]);
      var s1 := Next(s, ReadSocket(i, answers[0]));
      if res == 0 {
        RunHead(s1, ClearQueue(i), if s.code.AsIntended? then [] else rest);
        if s.code.AsWritten? {
          DrainWritesNothing(Next(s1, ClearQueue(i)), i, answers[1..]);
        }
      } else if res != -1 {
        DrainWritesNothing(s1, i, answers[1..]);
      }
    }
  }

  lemma ReadWritesNothing(s: System, i: nat, o: Reading.Outcome)
    requires IsServant(s, i) && Enabled(s, ReadSocket(i, o))
    ensures var s' := Next(s, ReadSocket(i, o));
            && IsServant(s', i) && s'.code == s.code && s'.sockets.Keys == s.sockets.Keys
            && Messages(s'.servants[i].trace) == Messages(s.servants[i].trace)
  {
    MessagesGrow(s.servants[i].trace, ReadFrom(s.peers[i].fd, o));
  }

  lemma TurnAgrees(s: System, i: nat, attempts: seq<Dispatcher.Attempt>, answers: seq<Reading.Outcome>, ok: bool)
    requires Shape(s) && IsServant(s, i) && s.peers[i].que != []
    requires Possible(s, TurnSchedule(s, i, attempts, answers, ok))
    ensures Agrees(s, i, Dispatcher.TakeTurn(s.code, s.peers[i], s.sockets.Keys, attempts, answers),
                   After(s, TurnSchedule(s, i, attempts, answers, ok)))
  {
    var p := s.peers[i];
    if p.que[0].req == Connect && p.fd == CLOSED {
      ConnectTurn(s, i, attempts, answers, ok);
    } else if p.que[0].req == Read && p.fd != CLOSED {
      ReadTurn(s, i, attempts, answers, ok);
    } else {
      ShortTurn(s, i, attempts, answers, ok);
    }
  }

  lemma ShortTurn(s: System, i: nat, attempts: seq<Dispatcher.Attempt>, answers: seq<Reading.Outcome>, ok: bool)
    requires Shape(s) && IsServant(s, i) && s.peers[i].que != []
    requires !(s.peers[i].que[0].req == Connect && s.peers[i].fd == CLOSED) && !(s.peers[i].que[0].req == Read && s.peers[i].fd != CLOSED)
    requires Possible(s, TurnSchedule(s, i, attempts, answers, ok))
    ensures Agrees(s, i, Dispatcher.TakeTurn(s.code, s.peers[i], s.sockets.Keys, attempts, answers),
                   After(s, TurnSchedule(s, i, attempts, answers, ok)))
  {
    var p := s.peers[i];
    var last := if p.que[0].req == Close && p.fd != CLOSED then [ShutSocket(i)] else [];
    RunHead(s, Serve(i), last);
    ServeFirst(s, i);
    ShortTurnEnds(s, i, attempts, answers, Next(s, Serve(i)), last);
  }

  lemma ShortTurnEnds(s: System, i: nat, attempts: seq<Dispatcher.Attempt>, answers: seq<Reading.Outcome>, s1: System, last: seq<Action>)
    requires IsServant(s, i) && IsServant(s1, i) && s.peers[i].que != []
    requires !(s.peers[i].que[0].req == Connect && s.peers[i].fd == CLOSED) && !(s.peers[i].que[0].req == Read && s.peers[i].fd != CLOSED)
    requires last == if s.peers[i].que[0].req == Close && s.peers[i].fd != CLOSED then [ShutSocket(i)] else []
    requires s1.peers[i] == s.peers[i].(que := s.peers[i].que[1..]) && s1.sockets.Keys == s.sockets.Keys
    requires last == [] ==> s1.servants[i].pc == Idle
    requires Messages(s1.servants[i].trace) ==
             Messages(s.servants[i].trace) + (if s.peers[i].que[0].req == Write && s.peers[i].fd != CLOSED then [s.peers[i].que[0].msg] else [])
    requires Possible(s1, last)
    ensures Agrees(s, i, Dispatcher.TakeTurn(s.code, s.peers[i], s.sockets.Keys, attempts, answers), After(s1, last))
  {
    if last != [] {
      assert last == last + [];
      RunHead(s1, ShutSocket(i), []);
      ShutLast(s1, i);
    }
  }

  // ----- Every turn is a schedule -----

  /** What the method asks of the attempts and the answers. Registration can succeed only on an
      open socket. */
  ghost predicate TurnInputs(s: System, i: nat, attempts: seq<Dispatcher.Attempt>, answers: seq<Reading.Outcome>, ok: bool)
    requires IsServant(s, i) && s.peers[i].que != []
  {
    var p := s.peers[i];
    match p.que[0].req
    case Connect =>
      p.fd == CLOSED ==>
        var l := Dispatcher.Retry(Binds(p), attempts, CLOSED, s.sockets.Keys);
        Dispatcher.FreshAttempts(Binds(p), attempts, s.sockets.Keys) && InRange(attempts) && (ok ==> l.fd in l.open)
    case Read => p.fd != CLOSED ==> CanAnswer(s, p.fd, answers)
    case _ => true
  }

  lemma ConnectTurnPossible(s: System, i: nat, attempts: seq<Dispatcher.Attempt>, answers: seq<Reading.Outcome>, ok: bool)
    requires Shape(s) && IsServant(s, i) && !s.halted && s.servants[i].pc == Idle
    requires s.peers[i].que != [] && s.peers[i].que[0].req == Connect && s.peers[i].fd == CLOSED && TurnInputs(s, i, attempts, answers, ok)
    ensures Possible(s, TurnSchedule(s, i, attempts, answers, ok))
  {
    var p := s.peers[i];
    var dials := DialSchedule(i, Binds(p), attempts, s.sockets.Keys);
    var l := Dispatcher.Retry(Binds(p), attempts, CLOSED, s.sockets.Keys);
    var last := if l.fd != CLOSED then [Assign(i), Register(i, ok)] else [];
    ServeFirst(s, i);
    var s1 := Next(s, Serve(i));
    assert s1.servants[i].pc == Connecting && !s1.halted;
    DialsRefine(s1, i, attempts);
    if l.fd != CLOSED {
      ConnectsPossible(After(s1, dials), i, ok, l.fd);
    }
    PossibleTwice(s1, dials, last);
    PossibleHead(s, Serve(i), dials + last);
  }

  lemma ConnectsPossible(s: System, i: nat, ok: bool, fd: int)
    requires IsServant(s, i) && !s.halted && s.servants[i].pc == Obtained(fd) && (ok ==> fd in s.sockets)
    ensures Possible(s, [Assign(i), Register(i, ok)])
  {
    var assign, register := Assign(i), Register(i, ok);
    var s1 := Next(s, assign);
    assert Enabled(s1, register);
    PossibleHead(s1, register, []);
    assert [register] + [] == [register];
    PossibleHead(s, assign, [register]);
    assert [assign] + [register] == [assign, register];
  }

  lemma ReadTurnPossible(s: System, i: nat, attempts: seq<Dispatcher.Attempt>, answers: seq<Reading.Outcome>, ok: bool)
    requires Shape(s) && IsServant(s, i) && !s.halted && s.servants[i].pc == Idle
    requires s.peers[i].que != [] && s.peers[i].que[0].req == Read && s.peers[i].fd != CLOSED && TurnInputs(s, i, attempts, answers, ok)
    ensures Possible(s, TurnSchedule(s, i, attempts, answers, ok))
  {
    var drain := DrainSchedule(s.code, i, answers);
    var d := Reading.Drain(s.code, answers, Reading.START);
    var last := if d.left && d.zero then [ShutSocket(i)] else [];
    ServeFirst(s, i);
    var s1 := Next(s, Serve(i));
    assert s1.servants[i].pc == Draining(false) && !s1.halted;
    DrainPossible(s1, i, answers);
    DrainRefines(s1, i, answers, Reading.START);
    if d.left && d.zero {
      ShutPossible(After(s1, drain), i);
    }
    PossibleTwice(s1, drain, last);
    PossibleHead(s, Serve(i), drain + last);
  }

  lemma ShutPossible(s: System, i: nat)
    requires IsServant(s, i) && !s.halted && s.servants[i].pc == Closing
    ensures Possible(s, [ShutSocket(i)])
  {
    PossibleHead(s, ShutSocket(i), []);
    assert [ShutSocket(i)] + [] == [ShutSocket(i)];
  }

  lemma ShortTurnPossible(s: System, i: nat, attempts: seq<Dispatcher.Attempt>, answers: seq<Reading.Outcome>, ok: bool)
    requires Shape(s) && IsServant(s, i) && !s.halted && s.servants[i].pc == Idle && s.peers[i].que != []
    requires !(s.peers[i].que[0].req == Connect && s.peers[i].fd == CLOSED) && !(s.peers[i].que[0].req == Read && s.peers[i].fd != CLOSED)
    ensures Possible(s, TurnSchedule(s, i, attempts, answers, ok))
  {
    var p := s.peers[i];
    var last := if p.que[0].req == Close && p.fd != CLOSED then [ShutSocket(i)] else [];
    ServeFirst(s, i);
    if last != [] {
      ShutPossible(Next(s, Serve(i)), i);
    }
    PossibleHead(s, Serve(i), last);
  }

  /** One turn of the servant's loop, as a method, is a schedule of the client in which nobody else
      moves: with fresh sockets and any answers that the descriptor can give, open or closed, it is
      possible, and it ends with the method's peer, open descriptors and written messages. */
  lemma TurnRefines(s: System, i: nat, attempts: seq<Dispatcher.Attempt>, answers: seq<Reading.Outcome>, ok: bool)
    requires Shape(s) && IsServant(s, i) && !s.halted && s.servants[i].pc == Idle && s.peers[i].que != []
    requires TurnInputs(s, i, attempts, answers, ok)
    ensures Possible(s, TurnSchedule(s, i, attempts, answers, ok))
    ensures Agrees(s, i, Dispatcher.TakeTurn(s.code, s.peers[i], s.sockets.Keys, attempts, answers),
                   After(s, TurnSchedule(s, i, attempts, answers, ok)))
  {
    var p := s.peers[i];
    if p.que[0].req == Connect && p.fd == CLOSED {
      ConnectTurnPossible(s, i, attempts, answers, ok);
    } else if p.que[0].req == Read && p.fd != CLOSED {
      ReadTurnPossible(s, i, attempts, answers, ok);
    } else {
      ShortTurnPossible(s, i, attempts, answers, ok);
    }
    TurnAgrees(s, i, attempts, answers, ok);
  }

  // ----- The dispatcher -----

  /** One dispatch in the client does to the peers what the method does with the same line, and ends
      the client exactly where the method's thread dies: at a fatal line. */
  lemma ScanRefines(s: System, junk: nat)
    requires Shape(s) && Enabled(s, Scan(junk)) && s.hand.value.says == Command.Parse(s.hand.value.text)
    ensures var s' := Next(s, Scan(junk));
            && Dispatcher.Interpretation(s'.peers, !s'.halted) == Dispatcher.Interpret(s.peers, s.hand.value.text, junk)
            && (s'.halted <==> Command.Fatal(s.hand.value.text))
  {
    Command.FatalExactly(s.hand.value.text);
    ScanMoves(s, junk);
  }
}
