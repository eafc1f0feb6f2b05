/** What a servant may do with its descriptor, as an automaton over its trace, and the proof that
    every servant keeps to it under every schedule. */
module Discipline {
  import opened Types
  import opened Peers
  import opened Pipeline
  import Reading
  import Connector

  /** Disconnected; popped a CONNECT that has not succeeded yet; connected on `fd`, having popped
      `last` most recently. */
  datatype Mode = Down | Asked | Up(fd: int, last: Req)

  function Advance(m: Mode, e: Trace): Option<Mode> {
    match e
    case Popped(_, kind) =>
      (match m
       case Down => Some(if kind == Connect then Asked else Down)
       case Asked => None
       case Up(fd, _) => Some(Up(fd, kind)))
    case Dialled(_, _) => if m == Asked then Some(Asked) else None
    case Opened(fd, _) => if m == Asked && fd != CLOSED then Some(Up(fd, Connect)) else None
    case ReadFrom(fd, _) => if m == Up(fd, Read) then Some(m) else None
    case WroteTo(fd, _, _) => if m == Up(fd, Write) then Some(m) else None
    case Shut(fd) => if m == Up(fd, Read) || m == Up(fd, Close) then Some(Down) else None
  }

  /** None: the trace breaks the discipline. */
  function Conform(trace: seq<Trace>): Option<Mode> {
    if trace == [] then Some(Down)
    else
      match Conform(trace[..|trace| - 1])
      case None => None
      case Some(m) => Advance(m, trace[|trace| - 1])
  }

  predicate ModeFits(m: Mode, p: Peer, v: Servant) {
    match m
    case Down => v.pc == Idle && p.fd == CLOSED
    case Asked => v.pc == Connecting
    case Up(fd, last) =>
      && fd == Held(p, v) != CLOSED
      && !v.pc.Connecting?
      && (v.pc.Draining? || v.pc.Clearing? ==> last == Read)
      && (v.pc.Closing? ==> last == Read || last == Close)
  }

  ghost predicate Disciplined(p: Peer, v: Servant) {
    Conform(v.trace).Some? && ModeFits(Conform(v.trace).value, p, v)
  }

  ghost predicate AllDisciplined(s: System) {
    && |s.peers| == |s.servants|
    && forall i :: 0 <= i < |s.peers| ==> Disciplined(s.peers[i], s.servants[i])
  }

  lemma ConformGrows(trace: seq<Trace>, e: Trace)
    requires Conform(trace).Some?
    ensures Conform(trace + [e]) == Advance(Conform(trace).value, e)
  {
    assert (trace + [e])[..|trace|] == trace;
  }

  lemma ServeDisciplined(s: System, i: nat)
    requires Shape(s) && Enabled(s, Serve(i)) && Disciplined(s.peers[i], s.servants[i])
    ensures Disciplined(Next(s, Serve(i)).peers[i], Next(s, Serve(i)).servants[i])
  {
    var p, v, v' := s.peers[i], s.servants[i], Next(s, Serve(i)).servants[i];
    var popped := Popped(v.tags[0], p.que[0].req);
    ConformGrows(v.trace, popped);
    if p.que[0].req == Write && p.fd != CLOSED {
      ConformGrows(v.trace + [popped], WroteTo(p.fd, v.tags[0], p.que[0].msg));
    } else {
      assert v'.trace == v.trace + [popped];
    }
  }

  lemma DialDisciplined(s: System, a: Action)
    requires Shape(s) && Enabled(s, a) && a.Dial? && Disciplined(s.peers[a.i], s.servants[a.i])
    ensures Disciplined(Next(s, a).peers[a.i], Next(s, a).servants[a.i])
  {
    var p, v, v' := s.peers[a.i], s.servants[a.i], Next(s, a).servants[a.i];
    var dialled := Dialled(p.ip, p.port);
    ConformGrows(v.trace, dialled);
    if v'.pc.Obtained? {
      ConformGrows(v.trace + [dialled], v'.trace[|v.trace| + 1]);
    } else {
      assert v'.trace == v.trace + [dialled];
    }
  }

  lemma ReadDisciplined(s: System, i: nat, o: Reading.Outcome)
    requires Shape(s) && Enabled(s, ReadSocket(i, o)) && Disciplined(s.peers[i], s.servants[i])
    ensures Disciplined(Next(s, ReadSocket(i, o)).peers[i], Next(s, ReadSocket(i, o)).servants[i])
  {
    ConformGrows(s.servants[i].trace, ReadFrom(s.peers[i].fd, o));
  }

  lemma ShutDisciplined(s: System, i: nat)
    requires Shape(s) && Enabled(s, ShutSocket(i)) && Disciplined(s.peers[i], s.servants[i])
    ensures Disciplined(Next(s, ShutSocket(i)).peers[i], Next(s, ShutSocket(i)).servants[i])
  {
    ConformGrows(s.servants[i].trace, Shut(s.peers[i].fd));
  }

  lemma OwnStepDisciplined(s: System, a: Action)
    requires Shape(s) && Enabled(s, a) && IsServantStep(a) && Disciplined(s.peers[a.i], s.servants[a.i])
    ensures Disciplined(Next(s, a).peers[a.i], Next(s, a).servants[a.i])
  {
    match a
    case Serve(i) => ServeDisciplined(s, i);
    case Dial(_, _, _) => DialDisciplined(s, a);
    case ReadSocket(i, o) => ReadDisciplined(s, i, o);
    case ShutSocket(i) => ShutDisciplined(s, i);
    case _ =>
  }

  /** Nobody else touches a servant's trace, its place in the loop or its descriptor. */
  lemma OtherStepDisciplined(s: System, a: Action, i: nat)
    requires Shape(s) && Enabled(s, a) && !(IsServantStep(a) && a.i == i)
    requires i < |Next(s, a).peers| == |Next(s, a).servants|
    requires i < |s.peers| ==> Disciplined(s.peers[i], s.servants[i])
    ensures Disciplined(Next(s, a).peers[i], Next(s, a).servants[i])
  {
    if i < |s.peers| {
      OthersKeepServant(s, a, i);
    } else {
      NewDisciplined(s, a, i);
    }
  }

  lemma NewDisciplined(s: System, a: Action, i: nat)
    requires Shape(s) && Enabled(s, a) && |s.peers| <= i < |Next(s, a).peers| == |Next(s, a).servants|
    ensures Disciplined(Next(s, a).peers[i], Next(s, a).servants[i])
  {
    SizesGrow(s, a);
    ScanMoves(s, a.junk);
    ScanHands(s, a.junk);
    assert Next(s, a).servants[i] == NEWSERVANT;
  }

  lemma StepDisciplined(s: System, a: Action)
    requires Shape(s) && AllDisciplined(s) && Enabled(s, a)
    ensures AllDisciplined(Next(s, a))
  {
    var s' := Next(s, a);
    StepShape(s, a);
    forall i | 0 <= i < |s'.peers| ensures Disciplined(s'.peers[i], s'.servants[i]) {
      if IsServantStep(a) && a.i == i {
        OwnStepDisciplined(s, a);
      } else {
        OtherStepDisciplined(s, a, i);
      }
    }
  }

  /** Under every schedule, with any number of peers, whatever the kernel answers. */
  lemma {:induction false} RunDisciplined(s: System, run: seq<Action>)
    requires Shape(s) && AllDisciplined(s) && Possible(s, run)
    ensures Shape(After(s, run)) && AllDisciplined(After(s, run))
    decreases |run|
  {
    if run != [] {
      StepShape(s, run[0]);
      StepDisciplined(s, run[0]);
      RunDisciplined(Next(s, run[0]), run[1..]);
    }
  }

  // ----- What the discipline rules out -----

  predicate Opens(e: Trace, fd: int) {
    e.Opened? && e.fd == fd
  }

  predicate Uses(e: Trace) {
    e.ReadFrom? || e.WroteTo?
  }

  lemma {:induction false} ConformPrefix(trace: seq<Trace>, k: nat)
    requires Conform(trace).Some? && k <= |trace|
    ensures Conform(trace[..k]).Some?
    ensures k < |trace| ==> Advance(Conform(trace[..k]).value, trace[k]) == Conform(trace[..k + 1])
    decreases |trace|
  {
    var n := |trace| - 1;
    if k == |trace| {
      assert trace[..k] == trace;
    } else if k == n {
      assert trace[..k + 1] == trace;
    } else {
      ConformPrefix(trace[..n], k);
      assert trace[..n][..k] == trace[..k] && trace[..n][..k + 1] == trace[..k + 1];
    }
  }

  /** A CONNECT has been popped between `i` and `j`. */
  ghost predicate PopsConnect(trace: seq<Trace>, i: nat, j: nat) {
    exists k :: i <= k < j <= |trace| && trace[k].Popped? && trace[k].kind == Connect
  }

  /** A CONNECT has been popped and then `fd` been opened between `i` and `j`. */
  ghost predicate Reopens(trace: seq<Trace>, i: nat, j: nat, fd: int) {
    exists k, l :: i <= k < l < j <= |trace| && trace[k].Popped? && trace[k].kind == Connect && Opens(trace[l], fd)
  }

  /** How a servant that was disconnected at `i` has come to be in this mode at `j`. */
  ghost predicate SinceDown(m: Mode, trace: seq<Trace>, i: nat, j: nat) {
    match m
    case Down => true
    case Asked => PopsConnect(trace, i, j)
    case Up(fd, _) => Reopens(trace, i, j, fd)
  }

  lemma SinceDownOn(m: Mode, trace: seq<Trace>, i: nat, j: nat)
    requires i <= j < |trace| && SinceDown(m, trace, i, j) && Advance(m, trace[j]).Some?
    ensures SinceDown(Advance(m, trace[j]).value, trace, i, j + 1)
  {
  }

  /** Once disconnected, a servant is connected again only after popping a CONNECT and then
      opening a descriptor. */
  lemma {:induction false} UpAfterDown(trace: seq<Trace>, i: nat, j: nat)
    requires Conform(trace).Some? && i <= j <= |trace|
    requires Conform(trace[..i]) == Some(Down)
    ensures Conform(trace[..j]).Some? && SinceDown(Conform(trace[..j]).value, trace, i, j)
    decreases j
  {
    if i < j {
      UpAfterDown(trace, i, j - 1);
      ConformPrefix(trace, j);
      ConformPrefix(trace, j - 1);
      SinceDownOn(Conform(trace[..j - 1]).value, trace, i, j - 1);
    }
  }

  /** After a close no read, write or close happens until a CONNECT popped after that close has
      opened a new descriptor; and it then happens on such a descriptor. */
  lemma NothingAfterClose(trace: seq<Trace>, i: nat, j: nat)
    requires Conform(trace).Some? && i < j < |trace|
    requires trace[i].Shut? && (Uses(trace[j]) || trace[j].Shut?)
    ensures exists k, l :: i < k < l < j && trace[k].Popped? && trace[k].kind == Connect && Opens(trace[l], trace[j].fd)
  {
    ConformPrefix(trace, i);
    ConformPrefix(trace, i + 1);
    ConformPrefix(trace, j);
    UpAfterDown(trace, i + 1, j);
  }

  /** A connection stays the servant's only one until it is closed. */
  lemma {:induction false} UpUntilShut(trace: seq<Trace>, i: nat, j: nat, fd: int)
    requires Conform(trace).Some? && i <= j <= |trace|
    requires Conform(trace[..i]).Some? && Conform(trace[..i]).value.Up? && Conform(trace[..i]).value.fd == fd
    ensures Conform(trace[..j]).Some?
    ensures (exists k :: i <= k < j && trace[k] == Shut(fd)) || (Conform(trace[..j]).value.Up? && Conform(trace[..j]).value.fd == fd)
    decreases j
  {
    ConformPrefix(trace, j);
    if i < j {
      UpUntilShut(trace, i, j - 1, fd);
      ConformPrefix(trace, j - 1);
    }
  }

  /** No second connection is opened over a live one. */
  lemma ClosedBetweenOpenings(trace: seq<Trace>, i: nat, j: nat)
    requires Conform(trace).Some? && i < j < |trace| && trace[i].Opened? && trace[j].Opened?
    ensures exists k :: i < k < j && trace[k] == Shut(trace[i].fd)
  {
    ConformPrefix(trace, i);
    ConformPrefix(trace, i + 1);
    ConformPrefix(trace, j);
    UpUntilShut(trace, i + 1, j, trace[i].fd);
  }

  // ----- The sockets behind the trace -----

  /** Where descriptors are in order, a servant reads, writes and closes only a socket that is open
      and that nobody else holds; and a close closes that socket and no other. */
  lemma TouchesOwnSocket(s: System, a: Action, i: nat, e: Trace)
    requires Steady(s) && Enabled(s, a) && i < |s.peers| && e in Did(s, a, i) && (Uses(e) || e.Shut?)
    ensures e.fd == Held(s.peers[i], s.servants[i]) && e.fd in s.sockets && e.fd !in s.leaked
    ensures forall j :: 0 <= j < |s.peers| && j != i ==> Held(s.peers[j], s.servants[j]) != e.fd
    ensures Next(s, a).sockets.Keys == if e.Shut? then s.sockets.Keys - {e.fd} else s.sockets.Keys
  {
    assert Held(s.peers[i], s.servants[i]) == s.peers[i].fd == e.fd != CLOSED;
  }

  /** Whatever a servant has opened was open. */
  ghost predicate AllLive(s: System) {
    forall i, k :: 0 <= i < |s.servants| && 0 <= k < |s.servants[i].trace| && s.servants[i].trace[k].Opened? ==>
      s.servants[i].trace[k].live
  }

  lemma OpenedLive(s: System, a: Action, i: nat, e: Trace)
    requires Shape(s) && Enabled(s, a) && !DialsClosed(s, a) && i < |s.peers| && e in Did(s, a, i) && e.Opened?
    ensures e.live
  {
    Connector.ReturnsOpenOrNothing(Binds(s.peers[i]), Resolved(a), s.sockets.Keys);
  }

  lemma StepLive(s: System, a: Action, s': System)
    requires Shape(s) && Enabled(s, a) && Recorded(s, a, s') && AllLive(s) && !DialsClosed(s, a)
    ensures AllLive(s')
  {
    forall i, k | 0 <= i < |s'.servants| && 0 <= k < |s'.servants[i].trace| && s'.servants[i].trace[k].Opened?
      ensures s'.servants[i].trace[k].live
    {
      var e := s'.servants[i].trace[k];
      if k < |s.servants[i].trace| {
        assert s.servants[i].trace[k] == e;
      } else {
        assert Did(s, a, i)[k - |s.servants[i].trace|] == e;
        OpenedLive(s, a, i, e);
      }
    }
  }

  lemma {:induction false} RunLive(s: System, run: seq<Action>)
    requires Shape(s) && AllLive(s) && Possible(s, run) && NeverDialsClosed(s, run)
    ensures AllLive(After(s, run))
    decreases |run|
  {
    if run != [] {
      StepShape(s, run[0]);
      StepRecorded(s, run[0]);
      StepLive(s, run[0], Next(s, run[0]));
      RunLive(Next(s, run[0]), run[1..]);
    }
  }
}
