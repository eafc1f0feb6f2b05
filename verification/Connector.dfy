/** `IO::connectTCP`: the loop over the resolved addresses and the sockets it opens and closes.
    Each system call is an outcome that the kernel picks. */
module Connector {
  import opened Types

  /** What `select` and the checks after it report for a connection in progress. */
  datatype Progress = SelectFailed | TimedOut | NotWritable | OptionFailed | OptionError | Ready

  datatype Dial = Connected | Refused | InProgress(progress: Progress)

  /** One resolved address. `sock` is what `socket` returns; `nonblock` is the answer of the second
      `fcntl`, the only one that counts. */
  datatype Candidate = Candidate(sock: int, sockopt: bool, localText: bool, bound: bool, nonblock: bool, dial: Dial)

  /** How an attempt on a candidate ends, in terms of its socket and of the variable `fd`:
      no socket; socket closed and `fd` left standing; socket left open; socket closed and
      `fd` reset; connected. */
  datatype Verdict = NoSocket | Dangles | Leaks | Resets | Passes

  /** `binds`: a local address or port was given. */
  function Judge(binds: bool, c: Candidate): Verdict {
    if c.sock == CLOSED then NoSocket
    else if !c.sockopt then Dangles
    else if binds && (!c.localText || !c.bound) then Dangles
    else if !c.nonblock then Leaks
    else
      match c.dial
      case Connected => Passes
      case Refused => Dangles
      case InProgress(SelectFailed) => Dangles
      case InProgress(TimedOut) => Dangles
      case InProgress(NotWritable) => Resets
      case InProgress(OptionFailed) => Resets
      case InProgress(OptionError) => Resets
      case InProgress(Ready) => Passes
  }

  /** The returned descriptor and the open descriptors afterwards. */
  datatype Ledger = Ledger(fd: int, open: set<int>)

  function Attempt(binds: bool, cs: seq<Candidate>, fd: int, open: set<int>): Ledger {
    if cs == [] then Ledger(fd, open)
    else
      match Judge(binds, cs[0])
      case NoSocket => Attempt(binds, cs[1..], CLOSED, open)
      case Dangles => Attempt(binds, cs[1..], cs[0].sock, open)
      case Leaks => Attempt(binds, cs[1..], cs[0].sock, open + {cs[0].sock})
      case Resets => Attempt(binds, cs[1..], CLOSED, open)
      case Passes => Ledger(cs[0].sock, open + {cs[0].sock})
  }

  /** `socket` returns a number that is not open at that moment. */
  predicate FreshSockets(binds: bool, cs: seq<Candidate>, open: set<int>) {
    cs != [] ==>
      && (cs[0].sock == CLOSED || (cs[0].sock >= 0 && cs[0].sock !in open))
      && (Judge(binds, cs[0]) != Passes ==>
            FreshSockets(binds, cs[1..], if Judge(binds, cs[0]) == Leaks then open + {cs[0].sock} else open))
  }

  class Descriptors {
    var open: set<int>

    method Socket(fd: int)
      requires fd != CLOSED ==> fd >= 0 && fd !in open
      modifies this
      ensures open == if fd == CLOSED then old(open) else old(open) + {fd}
    {
      if fd != CLOSED {
        open := open + {fd};
      }
    }

    method CloseFd(fd: int)
      modifies this
      ensures open == old(open) - {fd}
    {
      open := open - {fd};
    }
  }

  /** `resolved`: `getaddrinfo` succeeded; after a failure the list of candidates is empty. */
  method ConnectTCP(kernel: Descriptors, locIp: string, locPort: nat, resolved: bool, candidates: seq<Candidate>) returns (fd: int)
    requires FreshSockets(locIp != "" || locPort != 0, if resolved then candidates else [], kernel.open)
    modifies kernel
    ensures Ledger(fd, kernel.open) ==
            Attempt(locIp != "" || locPort != 0, if resolved then candidates else [], CLOSED, old(kernel.open))
  {
    var servinfo := if resolved then candidates else [];
    ghost var binds := locIp != "" || locPort != 0;
    ghost var before := kernel.open;
    fd := CLOSED;
    var i := 0;
    while i < |servinfo|
      invariant 0 <= i <= |servinfo|
      invariant FreshSockets(binds, servinfo[i..], kernel.open)
      invariant Attempt(binds, servinfo[i..], fd, kernel.open) == Attempt(binds, servinfo, CLOSED, before)
    {
      var c := servinfo[i];
      assert servinfo[i..][0] == c && servinfo[i..][1..] == servinfo[i + 1..];
      ghost var earlier := kernel.open;
      i := i + 1;
      kernel.Socket(c.sock);
      fd := c.sock;
      if fd == CLOSED {
        continue;
      }
      assert kernel.open - {fd} == earlier;
      if !c.sockopt {
        kernel.CloseFd(fd);
        continue;
      }
      if locIp != "" || locPort != 0 {
        if !c.localText {
          kernel.CloseFd(fd);
          continue;
        }
        if !c.bound {
          kernel.CloseFd(fd);
          continue;
        }
      }
      if !c.nonblock {
        continue;
      }
      if c.dial == Refused {
        kernel.CloseFd(fd);
        continue;
      } else if c.dial.InProgress? {
        if c.dial.progress == SelectFailed || c.dial.progress == TimedOut {
          kernel.CloseFd(fd);
          continue;
        } else if c.dial.progress != Ready {
          kernel.CloseFd(fd);
          fd := CLOSED;
          continue;
        }
      }
      return;
    }
  }

  // ----- The ledger, by what the system calls report -----

  /** The socket exists and its options and its local address are set. */
  predicate SetUp(binds: bool, c: Candidate) {
    c.sock != CLOSED && c.sockopt && (binds ==> c.localText && c.bound)
  }

  /** A connection is established, at once or after a wait. */
  predicate Connects(binds: bool, c: Candidate) {
    SetUp(binds, c) && c.nonblock && (c.dial == Connected || c.dial == InProgress(Ready))
  }

  /** The attempt ends in `setNonBlock`, which leaves the socket open. */
  predicate LeavesOpen(binds: bool, c: Candidate) {
    SetUp(binds, c) && !c.nonblock
  }

  /** The attempt fails in one of the three checks after `select`, which reset the variable. */
  predicate FailsCheck(binds: bool, c: Candidate) {
    SetUp(binds, c) && c.nonblock && c.dial.InProgress? && c.dial.progress in {NotWritable, OptionFailed, OptionError}
  }

  /** What the variable holds after a failed attempt. */
  function Remains(binds: bool, c: Candidate): int {
    if FailsCheck(binds, c) then CLOSED else c.sock
  }

  lemma JudgeByReports(binds: bool, c: Candidate)
    ensures Judge(binds, c) == Passes <==> Connects(binds, c)
    ensures Judge(binds, c) == Leaks <==> LeavesOpen(binds, c)
    ensures Judge(binds, c) == Resets <==> FailsCheck(binds, c)
    ensures Judge(binds, c) == NoSocket <==> c.sock == CLOSED
  {
  }

  /** Index of the first candidate that connects, or the number of candidates. */
  function FirstPass(binds: bool, cs: seq<Candidate>): (p: nat)
    ensures p <= |cs|
    ensures p < |cs| ==> Connects(binds, cs[p])
    ensures forall k :: 0 <= k < p ==> !Connects(binds, cs[k])
  {
    if cs == [] || Connects(binds, cs[0]) then 0 else 1 + FirstPass(binds, cs[1..])
  }

  /** Sockets that the attempts before the first success left open. */
  function Leaked(binds: bool, cs: seq<Candidate>): set<int> {
    set k | 0 <= k < FirstPass(binds, cs) && LeavesOpen(binds, cs[k]) :: cs[k].sock
  }

  /** The value of `fd` when the last attempt failed. */
  function LeftOver(binds: bool, cs: seq<Candidate>, fd: int): int {
    if cs == [] then fd else Remains(binds, cs[|cs| - 1])
  }

  lemma FirstPassFromFront(binds: bool, cs: seq<Candidate>)
    requires cs != [] && !Connects(binds, cs[0])
    ensures FirstPass(binds, cs) == 1 + FirstPass(binds, cs[1..])
    ensures Leaked(binds, cs) == Leaked(binds, cs[1..]) + (if LeavesOpen(binds, cs[0]) then {cs[0].sock} else {})
  {
    var p := FirstPass(binds, cs[1..]);
    assert forall k :: 0 <= k < p ==> cs[1..][k] == cs[k + 1];
    forall x | x in Leaked(binds, cs[1..]) ensures x in Leaked(binds, cs) {
      var k :| 0 <= k < p && LeavesOpen(binds, cs[1..][k]) && cs[1..][k].sock == x;
      assert cs[k + 1].sock == x;
    }
    forall x | x in Leaked(binds, cs)
      ensures x in Leaked(binds, cs[1..]) || (LeavesOpen(binds, cs[0]) && x == cs[0].sock)
    {
      var k :| 0 <= k < p + 1 && LeavesOpen(binds, cs[k]) && cs[k].sock == x;
      if k > 0 {
        assert cs[1..][k - 1].sock == x;
      }
    }
  }

  /** Every list of candidates and every pattern of failures: the first candidate that connects is
      returned, open; if none does, the variable is whatever the last attempt left in it; and
      of all the other sockets exactly those whose `setNonBlock` failed stay open. */
  lemma {:induction false} AttemptExactly(binds: bool, cs: seq<Candidate>, fd: int, open: set<int>)
    ensures var p := FirstPass(binds, cs);
            var after := Attempt(binds, cs, fd, open);
            if p < |cs|
            then after.fd == cs[p].sock && after.open == open + Leaked(binds, cs) + {cs[p].sock}
            else after.fd == LeftOver(binds, cs, fd) && after.open == open + Leaked(binds, cs)
  {
    if cs != [] {
      JudgeByReports(binds, cs[0]);
      if !Connects(binds, cs[0]) {
        var fd' := Remains(binds, cs[0]);
        var open' := if LeavesOpen(binds, cs[0]) then open + {cs[0].sock} else open;
        FirstPassFromFront(binds, cs);
        LeftOverFromFront(binds, cs, fd);
        AttemptExactly(binds, cs[1..], fd', open');
        assert open' + Leaked(binds, cs[1..]) == open + Leaked(binds, cs);
      }
    }
  }

  lemma LeftOverFromFront(binds: bool, cs: seq<Candidate>, fd: int)
    requires cs != []
    ensures LeftOver(binds, cs, fd) == LeftOver(binds, cs[1..], Remains(binds, cs[0]))
  {
    assert |cs| > 1 ==> cs[1..][|cs| - 2] == cs[|cs| - 1];
  }

  /** The same of one call, for any position: `p` is where the first connection is established. */
  lemma ConnectedSocketReturned(binds: bool, cs: seq<Candidate>, open: set<int>, p: nat)
    requires p < |cs| && Connects(binds, cs[p]) && forall k :: 0 <= k < p ==> !Connects(binds, cs[k])
    ensures var after := Attempt(binds, cs, CLOSED, open);
            && after.fd == cs[p].sock && cs[p].sock in after.open
            && forall x :: x in after.open <==>
                 x in open || x == cs[p].sock || exists k :: 0 <= k < p && LeavesOpen(binds, cs[k]) && cs[k].sock == x
  {
    AttemptExactly(binds, cs, CLOSED, open);
    assert FirstPass(binds, cs) == p;
  }

  /** And if no connection is established: the number that comes back is the last candidate's,
      unless it failed in a check after `select`. */
  lemma NothingConnects(binds: bool, cs: seq<Candidate>, open: set<int>)
    requires cs != [] && forall k :: 0 <= k < |cs| ==> !Connects(binds, cs[k])
    ensures var after, last := Attempt(binds, cs, CLOSED, open), cs[|cs| - 1];
            && (after.fd != CLOSED <==> last.sock != CLOSED && !FailsCheck(binds, last))
            && (after.fd != CLOSED ==> after.fd == last.sock)
            && forall x :: x in after.open <==>
                 x in open || exists k :: 0 <= k < |cs| && LeavesOpen(binds, cs[k]) && cs[k].sock == x
  {
    AttemptExactly(binds, cs, CLOSED, open);
    assert FirstPass(binds, cs) == |cs|;
  }

  lemma {:induction false} LeaksAreNew(binds: bool, cs: seq<Candidate>, open: set<int>)
    requires FreshSockets(binds, cs, open)
    ensures Leaked(binds, cs) !! open
    ensures forall fd :: fd in Leaked(binds, cs) ==> fd >= 0
    ensures var p := FirstPass(binds, cs); p < |cs| ==> cs[p].sock >= 0 && cs[p].sock !in open + Leaked(binds, cs)
    ensures forall k :: 0 <= k < FirstPass(binds, cs) && cs[k].sock != CLOSED ==> cs[k].sock >= 0 && cs[k].sock !in open
    ensures FirstPass(binds, cs) == |cs| > 0 && !LeavesOpen(binds, cs[|cs| - 1]) ==> cs[|cs| - 1].sock !in Leaked(binds, cs)
  {
    if cs != [] {
      JudgeByReports(binds, cs[0]);
      if !Connects(binds, cs[0]) {
        FirstPassFromFront(binds, cs);
        LeaksAreNew(binds, cs[1..], if LeavesOpen(binds, cs[0]) then open + {cs[0].sock} else open);
        assert forall k :: 0 <= k < |cs| - 1 ==> cs[1..][k] == cs[k + 1];
      }
    }
  }

  /** When the socket of candidate `k` is created its number is not open. */
  predicate NewNumber(binds: bool, cs: seq<Candidate>, open: set<int>, k: nat)
    requires k < |cs|
  {
    cs[k].sock != CLOSED ==>
      && cs[k].sock >= 0 && cs[k].sock !in open
      && forall j :: 0 <= j < k && LeavesOpen(binds, cs[j]) ==> cs[j].sock != cs[k].sock
  }

  lemma NewNumberFromFront(binds: bool, cs: seq<Candidate>, open: set<int>, k: nat)
    requires 0 < k < |cs|
    ensures NewNumber(binds, cs, open, k) <==>
            NewNumber(binds, cs[1..], if LeavesOpen(binds, cs[0]) then open + {cs[0].sock} else open, k - 1)
  {
    var rest := cs[1..];
    assert rest[k - 1] == cs[k] && forall j :: 0 <= j < k - 1 ==> rest[j] == cs[j + 1];
    assert forall j :: 0 < j < k ==> cs[j] == rest[j - 1];
  }

  ghost predicate AllNew(binds: bool, cs: seq<Candidate>, open: set<int>) {
    forall k :: 0 <= k < |cs| && k <= FirstPass(binds, cs) ==> NewNumber(binds, cs, open, k)
  }

  /** The kernel's promise without the loop: every socket up to the first connection has a number that
      is not open when it is created. */
  lemma {:induction false} FreshExactly(binds: bool, cs: seq<Candidate>, open: set<int>)
    ensures FreshSockets(binds, cs, open) <==> AllNew(binds, cs, open)
    decreases |cs|
  {
    if cs != [] {
      JudgeByReports(binds, cs[0]);
      assert (cs[0].sock == CLOSED || (cs[0].sock >= 0 && cs[0].sock !in open)) <==> NewNumber(binds, cs, open, 0);
      if !Connects(binds, cs[0]) {
        var rest, open' := cs[1..], if LeavesOpen(binds, cs[0]) then open + {cs[0].sock} else open;
        FirstPassFromFront(binds, cs);
        FreshExactly(binds, rest, open');
        if AllNew(binds, cs, open) {
          forall k | 0 <= k < |rest| && k <= FirstPass(binds, rest) ensures NewNumber(binds, rest, open', k) {
            NewNumberFromFront(binds, cs, open, k + 1);
          }
        }
        if FreshSockets(binds, cs, open) {
          forall k | 0 <= k < |cs| && k <= FirstPass(binds, cs) ensures NewNumber(binds, cs, open, k) {
            if k > 0 {
              NewNumberFromFront(binds, cs, open, k);
            }
          }
        }
      }
    }
  }

  /** What the loop is for: the first candidate that passes, or CLOSED, and nothing else open. */
  predicate Tidy(binds: bool, cs: seq<Candidate>, open: set<int>, after: Ledger) {
    var p := FirstPass(binds, cs);
    if p < |cs| then after == Ledger(cs[p].sock, open + {cs[p].sock}) else after == Ledger(CLOSED, open)
  }

  /** No attempt before the first success fails in `setNonBlock`; and if none succeeds, the last one
      has no socket or fails in one of the three checks after `select`. */
  predicate CleanFailures(binds: bool, cs: seq<Candidate>) {
    var p := FirstPass(binds, cs);
    && (forall k :: 0 <= k < p ==> !LeavesOpen(binds, cs[k]))
    && (p == |cs| && cs != [] ==> Remains(binds, cs[p - 1]) == CLOSED)
  }

  /** The loop keeps its ledger exactly for the clean failure patterns. */
  lemma TidyExactly(binds: bool, cs: seq<Candidate>, open: set<int>)
    requires FreshSockets(binds, cs, open)
    ensures Tidy(binds, cs, open, Attempt(binds, cs, CLOSED, open)) <==> CleanFailures(binds, cs)
  {
    AttemptExactly(binds, cs, CLOSED, open);
    LeaksAreNew(binds, cs, open);
    var p := FirstPass(binds, cs);
    if k :| 0 <= k < p && LeavesOpen(binds, cs[k]) {
      assert cs[k].sock in Leaked(binds, cs);
    } else {
      assert Leaked(binds, cs) == {};
    }
  }

  /** It returns a descriptor that is not open exactly when no candidate connects and the last one's
      socket was closed without resetting the variable. */
  predicate ReturnsClosedSocket(binds: bool, cs: seq<Candidate>) {
    && FirstPass(binds, cs) == |cs| && cs != []
    && Remains(binds, cs[|cs| - 1]) != CLOSED && !LeavesOpen(binds, cs[|cs| - 1])
  }

  lemma ReturnsOpenOrNothing(binds: bool, cs: seq<Candidate>, open: set<int>)
    requires FreshSockets(binds, cs, open)
    ensures var after := Attempt(binds, cs, CLOSED, open);
            && (after.fd != CLOSED && after.fd !in after.open <==> ReturnsClosedSocket(binds, cs))
            && (after.fd != CLOSED ==> after.fd >= 0 && after.fd !in open)
            && after.open >= open
            && forall fd :: fd in after.open - open ==> fd >= 0
  {
    AttemptExactly(binds, cs, CLOSED, open);
    LeaksAreNew(binds, cs, open);
    var p := FirstPass(binds, cs);
    if p == |cs| && cs != [] && LeavesOpen(binds, cs[p - 1]) {
      assert cs[p - 1].sock in Leaked(binds, cs);
    }
  }

  /** One refused candidate is enough: the closed socket's number is returned as if connected. */
  lemma RefusedIsReturned(fd: nat, open: set<int>)
    requires fd !in open
    ensures var refused := Candidate(fd, true, true, true, true, Refused);
            && FreshSockets(false, [refused], open)
            && Attempt(false, [refused], CLOSED, open) == Ledger(fd, open)
  {
    var cs := [Candidate(fd, true, true, true, true, Refused)];
    assert cs[1..] == [];
  }
}
