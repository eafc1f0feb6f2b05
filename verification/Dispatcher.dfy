/** The peers and the dispatcher as objects: `IO` with its fields and its servant's loop body, and
    `EndPoint` with its growing vector of peers. */
module Dispatcher {
  import opened Types
  import opened Peers
  import Command
  import Connector
  import Reading

  /** How one call of connectTCP goes. */
  datatype Attempt = Attempt(resolved: bool, candidates: seq<Connector.Candidate>)

  function Candidates(a: Attempt): seq<Connector.Candidate> {
    if a.resolved then a.candidates else []
  }

  /** The attempts of a CONNECT, one after the other until one returns a descriptor. */
  function Retry(binds: bool, attempts: seq<Attempt>, fd: int, open: set<int>): Connector.Ledger {
    if fd != CLOSED || attempts == [] then Connector.Ledger(fd, open)
    else
      var l := Connector.Attempt(binds, Candidates(attempts[0]), CLOSED, open);
      Retry(binds, attempts[1..], l.fd, l.open)
  }

  predicate FreshAttempts(binds: bool, attempts: seq<Attempt>, open: set<int>) {
    attempts != [] ==>
      && Connector.FreshSockets(binds, Candidates(attempts[0]), open)
      && FreshAttempts(binds, attempts[1..], Connector.Attempt(binds, Candidates(attempts[0]), CLOSED, open).open)
  }

  /** A peer, the open descriptors and the messages written, after one turn of its servant; `ended`
      is false if the turn waits for more attempts or answers than there are. */
  datatype Turn = Turn(peer: Peer, open: set<int>, written: seq<string>, ended: bool)

  function Closed(t: Turn): Turn {
    t.(peer := t.peer.(fd := CLOSED), open := t.open - {t.peer.fd})
  }

  /** One turn of `threadFunc` when nobody interferes. */
  function TakeTurn(code: Reading.Code, p: Peer, open: set<int>, attempts: seq<Attempt>, answers: seq<Reading.Outcome>): Turn
    requires p.que != []
  {
    var t := Turn(p.(que := p.que[1..]), open, [], true);
    if p.fd == CLOSED && p.que[0].req != Connect then t
    else
      match p.que[0].req
      case Connect =>
        var l := Retry(p.locIp != "" || p.locPort != 0, attempts, p.fd, open);
        Turn(t.peer.(fd := l.fd), l.open, [], l.fd != CLOSED)
      case Read =>
        var d := Reading.Drain(code, answers, Reading.START);
        var read := t.(peer := if d.zero then t.peer.(que := []) else t.peer, ended := d.left);
        if d.left && d.zero then Closed(read) else read
      case Write => t.(written := [p.que[0].msg])
      case Close => Closed(t)
  }

  /** What a turn comes to, request by request. Disconnected, anything but a CONNECT is lost. */
  lemma TurnMeans(code: Reading.Code, p: Peer, open: set<int>, attempts: seq<Attempt>, answers: seq<Reading.Outcome>)
    requires p.que != []
    ensures var t, q, rest := TakeTurn(code, p, open, attempts, answers), p.que[0], p.(que := p.que[1..]);
            && (q.req == Write ==> t == Turn(rest, open, if p.fd == CLOSED then [] else [q.msg], true))
            && (q.req == Close && p.fd != CLOSED ==> t == Turn(rest.(fd := CLOSED), open - {p.fd}, [], true))
            && ((q.req == Close || q.req == Read) && p.fd == CLOSED ==> t == Turn(rest, open, [], true))
            && (q.req == Connect && p.fd != CLOSED ==> t == Turn(rest, open, [], true))
  {
    var binds := p.locIp != "" || p.locPort != 0;
    if p.que[0].req == Connect && p.fd != CLOSED {
      assert Retry(binds, attempts, p.fd, open) == Connector.Ledger(p.fd, open);
    }
  }

  /** A CONNECT whose first attempt establishes a connection ends with that socket. */
  lemma ConnectTurnMeans(code: Reading.Code, p: Peer, open: set<int>, attempts: seq<Attempt>, answers: seq<Reading.Outcome>, k: nat)
    requires p.que != [] && p.que[0].req == Connect && p.fd == CLOSED && attempts != []
    requires var binds, cs := p.locIp != "" || p.locPort != 0, Candidates(attempts[0]);
             k < |cs| && Connector.Connects(binds, cs[k]) && forall j :: 0 <= j < k ==> !Connector.Connects(binds, cs[j])
    ensures var t, fd := TakeTurn(code, p, open, attempts, answers), Candidates(attempts[0])[k].sock;
            t.peer == p.(que := p.que[1..], fd := fd) && fd in t.open && t.ended && t.written == []
  {
    var binds := p.locIp != "" || p.locPort != 0;
    var l := Connector.Attempt(binds, Candidates(attempts[0]), CLOSED, open);
    Connector.ConnectedSocketReturned(binds, Candidates(attempts[0]), open, k);
    assert Retry(binds, attempts[1..], l.fd, l.open) == Connector.Ledger(l.fd, l.open);
  }

  /** As intended, a READ on a healthy connection leaves the peer connected with the rest of its queue,
      or, at the end of file, closes it and clears the queue. */
  lemma IntendedReadTurnMeans(p: Peer, open: set<int>, attempts: seq<Attempt>, answers: seq<Reading.Outcome>, buffered: nat, eof: bool)
    requires p.que != [] && p.que[0].req == Read && p.fd != CLOSED
    requires Reading.Honest(buffered, eof, answers) && |answers| > buffered
    ensures TakeTurn(Reading.AsIntended, p, open, attempts, answers) ==
            if eof then Turn(p.(que := [], fd := CLOSED), open - {p.fd}, [], true) else Turn(p.(que := p.que[1..]), open, [], true)
  {
    Reading.IntendedDrainCompletes(buffered, eof, answers, Reading.START);
  }

  /** The peers after a command line, and whether the dispatcher's thread is still there. */
  datatype Interpretation = Interpretation(peers: seq<Peer>, alive: bool)

  function Interpret(peers: seq<Peer>, text: string, junk: nat): Interpretation {
    match Command.Parse(text)
    case Accepted(r) => Interpretation(Dispatch(peers, r, junk), true)
    case Rejected => Interpretation(peers, true)
    case _ => Interpretation(peers, false)
  }

  class IO {
    var ip: string
    var port: nat
    var fd: int
    var que: seq<Query>
    const locIp: string
    const locPort: nat

    function State(): Peer
      reads this
    {
      Peer(ip, port, fd, que, locIp, locPort)
    }

    constructor (ip: string, port: nat, junk: nat)
      ensures State() == NewPeer(ip, port, junk)
    {
      this.ip, this.port, this.fd, this.que := "", junk, CLOSED, [];
      this.locIp, this.locPort := ip, port;
    }

    method Request(r: Request) returns (taken: bool)
      modifies this
      ensures taken <==> Accepts(old(State()), r)
      ensures State() == if taken then Taken(old(State()), r) else old(State())
    {
      if (r.ip != "" && r.ip == ip && r.port != 0 && r.port == port) || (r.fd != CLOSED && r.fd == fd)
         || (r.ip != "" && ip == "" && r.port != 0 && port == 0 && fd == CLOSED && r.fd == fd)
      {
        if ip == "" && port == 0 {
          ip := r.ip;
          port := r.port;
        }
        que := que + [Query(r.kind, r.msg)];
        return true;
      }
      return false;
    }

    /** The body of `threadFunc`'s loop. */
    method ServeOne(code: Reading.Code, kernel: Connector.Descriptors, attempts: seq<Attempt>, answers: seq<Reading.Outcome>)
      returns (written: seq<string>, ended: bool)
      requires que != [] && FreshAttempts(locIp != "" || locPort != 0, attempts, kernel.open)
      modifies this, kernel
      ensures Turn(State(), kernel.open, written, ended) == TakeTurn(code, old(State()), old(kernel.open), attempts, answers)
    {
      ghost var p, open := State(), kernel.open;
      var request, message := que[0].req, que[0].msg;
      que := que[1..];
      written, ended := [], true;
      if fd == CLOSED && request != Connect {
        return;
      }
      if request == Connect {
        var i := 0;
        while fd == CLOSED && i < |attempts|
          invariant 0 <= i <= |attempts|
          invariant State() == p.(que := p.que[1..], fd := fd)
          invariant fd == CLOSED ==> FreshAttempts(locIp != "" || locPort != 0, attempts[i..], kernel.open)
          invariant Retry(locIp != "" || locPort != 0, attempts[i..], fd, kernel.open)
                    == Retry(locIp != "" || locPort != 0, attempts, p.fd, open)
        {
          assert attempts[i..][1..] == attempts[i + 1..];
          fd := Connector.ConnectTCP(kernel, locIp, locPort, attempts[i].resolved, attempts[i].candidates);
          i := i + 1;
        }
        ended := fd != CLOSED;
      } else if request == Read {
        var d;
        d, request, que := Reading.DrainLoop(code, answers, que);
        ended := d.left;
      } else if request == Write {
        written := [message];
      }
      if ended && request == Close {
        kernel.CloseFd(fd);
        fd := CLOSED;
      }
    }
  }

  class EndPoint {
    var peer: seq<IO>

    /** The peers are distinct objects. */
    ghost predicate Valid()
      reads this
    {
      forall i, j :: 0 <= i < j < |peer| ==> peer[i] != peer[j]
    }

    ghost function View(): (v: seq<Peer>)
      reads this, peer
      ensures |v| == |peer|
    {
      seq(|peer|, i requires 0 <= i < |peer| reads this, peer => peer[i].State())
    }

    constructor (ip: string, port: nat, junk: nat)
      ensures Valid() && View() == [NewPeer(ip, port, junk)] && fresh(peer)
    {
      var first := new IO(ip, port, junk);
      peer := [first];
    }

    /** One command line: the option loop, then the scan. False: the process dies here. */
    method InterpretRequest(text: string, junk: nat) returns (alive: bool)
      requires Valid()
      modifies this, peer
      ensures Valid() && old(peer) <= peer && fresh(peer[|old(peer)|..])
      ensures Interpretation(View(), alive) == Interpret(old(View()), text, junk)
    {
      var result := Command.InterpretRequest(text);
      if !result.Accepted? {
        return result.Rejected?;
      }
      var taken := Offer(result.r);
      if !taken {
        Append(result.r.ip, result.r.port, junk);
      }
      alive := true;
    }

    method Append(ip: string, port: nat, junk: nat)
      requires Valid()
      modifies this
      ensures Valid() && |peer| == |old(peer)| + 1 && peer[..|old(peer)|] == old(peer) && fresh(peer[|old(peer)|])
      ensures View() == old(View()) + [NewPeer(ip, port, junk)]
    {
      var io := new IO(ip, port, junk);
      peer := peer + [io];
    }

    /** The scan: the first peer that accepts takes the request. */
    method Offer(r: Request) returns (res: bool)
      requires Valid()
      modifies peer
      ensures res <==> FirstMatch(old(View()), r) < |peer|
      ensures View() == if res then Dispatch(old(View()), r, 0) else old(View())
    {
      ghost var before := View();
      var i := 0;
      res := false;
      while i < |peer| && !res
        invariant 0 <= i <= |peer| && !res
        invariant View() == before && forall j :: 0 <= j < i ==> !Accepts(before[j], r)
      {
        assert before[i] == peer[i].State();
        res := peer[i].Request(r);
        if res {
          FirstMatchIs(before, r, i);
          return;
        }
        i := i + 1;
      }
    }
  }
}
