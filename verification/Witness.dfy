/** Runs of a freshly started client that show the exceptions of the main theorems to be real. */
module Witness {
  import opened Types
  import opened Command
  import opened Waiter
  import opened Peers
  import opened Pipeline
  import opened Stranded
  import Tokens
  import Address
  import Decimal
  import Reading
  import Connector

  const IP: string := Address.Quad("1", "2", "3", "4")

  function AddressOf(port: nat): string {
    IP + ":" + Decimal.Print(port)
  }

  /** The line that asks for a connection to this port. */
  function CommandTo(port: nat): string {
    "-i" + [' '] + AddressOf(port)
  }

  function RequestTo(port: nat): Request {
    Request(IP, port, CLOSED, Connect, "")
  }

  lemma AddressIsWord(port: nat)
    requires 10 <= port <= 99
    ensures Tokens.IsWord(AddressOf(port))
  {
    assert IP == "1.2.3.4";
    assert Decimal.Digits(port) == Decimal.Digits(port / 10) + [Decimal.Digit(port % 10)];
    assert Decimal.Digits(port / 10) == [Decimal.Digit(port / 10)];
  }

  lemma WordsOfOption(addr: string)
    requires Tokens.IsWord(addr)
    ensures Tokens.Words("-i" + [' '] + addr) == ["-i", addr]
  {
    Tokens.WordsOfWord("-i");
    Tokens.WordsOfWord(addr);
    Tokens.WordsAcrossSpace("-i", ' ', addr);
  }

  lemma RunConnect(addr: string, ip: string, port: nat)
    requires Address.Validate(addr) == Address.Addr(ip, port)
    ensures Run(["-i", addr], START) == Accepted(Request(ip, port, CLOSED, Connect, ""))
  {
    assert ["-i", addr][2..] == [];
  }

  /** The command asks to connect to the address. */
  lemma CommandConnects(port: nat)
    requires 10 <= port <= 99
    ensures Parse(CommandTo(port)) == Accepted(RequestTo(port))
  {
    AddressIsWord(port);
    WordsOfOption(AddressOf(port));
    Address.QuadsAreAccepted("1", "2", "3", "4", port);
    RunConnect(AddressOf(port), IP, port);
  }

  lemma Longer(s: System, run: seq<Action>, a: Action)
    requires Possible(s, run) && Enabled(After(s, run), a)
    ensures Possible(s, run + [a]) && After(s, run + [a]) == Next(After(s, run), a)
    decreases |run|
  {
    if run == [] {
      assert [a][1..] == [];
    } else {
      assert (run + [a])[1..] == run[1..] + [a];
      Longer(Next(s, run[0]), run[1..], a);
    }
  }

  // ----- Stages of a run -----

  /** What a stage of a run looks like: the dispatcher has nothing to do. */
  datatype View = View(sockets: map<int, Socket>, batch: seq<Event>, peers: seq<Peer>, pcs: seq<Pc>)

  ghost predicate Looks(s: System, v: View) {
    && s.code == Reading.AsWritten && !s.halted && s.queue == [] && s.hand == None
    && s.sockets == v.sockets && s.batch == v.batch && s.peers == v.peers
    && |s.servants| == |v.peers| == |v.pcs|
    && forall i :: 0 <= i < |v.pcs| ==> s.servants[i].pc == v.pcs[i] && |s.servants[i].tags| == |v.peers[i].que|
  }

  ghost predicate NoReads(run: seq<Action>) {
    forall k :: 0 <= k < |run| ==> !run[k].ReadSocket?
  }

  /** The schedule leads from `start` to this stage without a read. */
  ghost predicate Leads(start: System, run: seq<Action>, v: View) {
    Possible(start, run) && NoReads(run) && Looks(After(start, run), v)
  }

  lemma Onward(start: System, run: seq<Action>, v: View, a: Action, v': View)
    requires Leads(start, run, v) && !a.ReadSocket?
    requires Enabled(After(start, run), a) && Looks(Next(After(start, run), a), v')
    ensures Leads(start, run + [a], v')
  {
    Longer(start, run, a);
  }

  function AtStart(junk: nat): View {
    View(map[], [], [NewPeer("", 0, junk)], [Idle])
  }

  lemma Starts(junk: nat)
    ensures Leads(Initial(Reading.AsWritten, "", 0, junk), [], AtStart(junk))
  {
  }

  function AfterDispatch(v: View, r: Request, junk: nat): View {
    v.(peers := Dispatch(v.peers, r, junk), pcs := if FirstMatch(v.peers, r) < |v.peers| then v.pcs else v.pcs + [Idle])
  }

  lemma Dispatches(s: System, v: View, line: Line, r: Request, junk: nat)
    requires Looks(s.(hand := None), v) && s.hand == Some(line) && line.says == Accepted(r)
    ensures Enabled(s, Scan(junk)) && Looks(Next(s, Scan(junk)), AfterDispatch(v, r, junk))
  {
  }

  lemma Takes(start: System, before: seq<Action>, v: View, line: Line) returns (run: seq<Action>)
    requires Possible(start, before) && NoReads(before)
    requires var s := After(start, before); Looks(s.(queue := []), v) && s.queue == [line]
    ensures Possible(start, run) && NoReads(run)
    ensures var s := After(start, run); Looks(s.(hand := None), v) && s.hand == Some(line)
  {
    Longer(start, before, Take);
    run := before + [Take];
  }

  lemma TakenAndDispatched(start: System, before: seq<Action>, v: View, line: Line, r: Request, junk: nat) returns (run: seq<Action>)
    requires Possible(start, before) && NoReads(before)
    requires var s := After(start, before); Looks(s.(queue := []), v) && s.queue == [line] && line.says == Accepted(r)
    ensures Leads(start, run, AfterDispatch(v, r, junk))
  {
    run := Takes(start, before, v, line);
    Dispatches(After(start, run), v, line, r, junk);
    Longer(start, run, Scan(junk));
    run := run + [Scan(junk)];
  }

  /** A command is typed, taken and dispatched. */
  lemma Typed(start: System, before: seq<Action>, v: View, text: string, r: Request, junk: nat) returns (run: seq<Action>)
    requires Leads(start, before, v) && Parse(text) == Accepted(r)
    ensures Leads(start, run, AfterDispatch(v, r, junk))
  {
    Longer(start, before, Push(text));
    run := TakenAndDispatched(start, before + [Push(text)], v, Line(text, Parse(text)), r, junk);
  }

  /** The waiter's command for the one event of its batch is pushed, taken and dispatched. */
  lemma Printed(start: System, before: seq<Action>, v: View, e: Event, r: Request) returns (run: seq<Action>)
    requires Leads(start, before, v) && v.batch == [e] && Parse(CommandFor(e)) == Accepted(r)
    ensures Leads(start, run, AfterDispatch(v.(batch := []), r, 0))
  {
    Longer(start, before, Print);
    run := TakenAndDispatched(start, before + [Print], v.(batch := []), Line(CommandFor(e), Parse(CommandFor(e))), r, 0);
  }

  /** Peer `i` pops a CONNECT while disconnected or a READ while connected. */
  function AfterServe(v: View, i: nat): View
    requires i < |v.peers| == |v.pcs| && v.peers[i].que != []
  {
    v.(peers := v.peers[i := v.peers[i].(que := v.peers[i].que[1..])],
       pcs := v.pcs[i := if v.peers[i].fd == CLOSED then Connecting else Draining(false)])
  }

  lemma Serves(start: System, before: seq<Action>, v: View, i: nat) returns (run: seq<Action>)
    requires Leads(start, before, v) && i < |v.pcs| && v.pcs[i] == Idle && v.peers[i].que != []
    requires v.peers[i].que[0].req == if v.peers[i].fd == CLOSED then Connect else Read
    ensures Leads(start, run, AfterServe(v, i))
  {
    Longer(start, before, Serve(i));
    run := before + [Serve(i)];
  }

  /** One candidate with this socket, refused or connected. */
  function OneCandidate(fd: nat, dial: Connector.Dial): seq<Connector.Candidate> {
    [Connector.Candidate(fd, true, true, true, true, dial)]
  }

  lemma AttemptOfOne(binds: bool, fd: nat, dial: Connector.Dial, open: set<int>)
    requires fd !in open && !dial.InProgress?
    ensures Connector.FreshSockets(binds, OneCandidate(fd, dial), open)
    ensures Connector.Attempt(binds, OneCandidate(fd, dial), CLOSED, open) ==
            Connector.Ledger(fd, if dial.Connected? then open + {fd} else open)
  {
    assert OneCandidate(fd, dial)[1..] == [];
  }

  /** Peer `i` calls connectTCP, which returns `fd`, open or closed, and registers it if it is open. */
  function AfterDial(v: View, i: nat, fd: nat, dial: Connector.Dial): View
    requires i < |v.peers| == |v.pcs|
  {
    v.(peers := v.peers[i := v.peers[i].(fd := fd)],
       pcs := v.pcs[i := Idle],
       sockets := if dial.Connected? then v.sockets[fd := Socket(0, false, true, false)] else v.sockets)
  }

  function Obtains(v: View, i: nat, fd: nat, dial: Connector.Dial): View
    requires i < |v.pcs|
  {
    v.(pcs := v.pcs[i := Obtained(fd)],
       sockets := if dial.Connected? then v.sockets[fd := Socket(0, false, false, false)] else v.sockets)
  }

  lemma DialOnce(s: System, v: View, i: nat, fd: nat, dial: Connector.Dial)
    requires Looks(s, v) && i < |v.pcs| && v.pcs[i] == Connecting && fd !in v.sockets && IsInt(fd) && !dial.InProgress?
    ensures var a := Dial(i, true, OneCandidate(fd, dial));
            && Enabled(s, a)
            && Looks(Next(s, a), Obtains(v, i, fd, dial))
  {
    var a := Dial(i, true, OneCandidate(fd, dial));
    AttemptOfOne(Binds(v.peers[i]), fd, dial, v.sockets.Keys);
    assert Resolved(a) == OneCandidate(fd, dial);
    if dial.Connected? {
      assert v.sockets.Keys + {fd} - v.sockets.Keys == {fd};
    } else {
      assert v.sockets.Keys - v.sockets.Keys == {};
    }
  }

  lemma AssignOnce(s: System, v: View, i: nat, fd: nat)
    requires Looks(s, v) && i < |v.pcs| && v.pcs[i] == Obtained(fd)
    ensures Enabled(s, Assign(i))
    ensures Looks(Next(s, Assign(i)), v.(peers := v.peers[i := v.peers[i].(fd := fd)], pcs := v.pcs[i := Registering]))
  {
  }

  lemma RegisterOnce(s: System, v: View, i: nat, ok: bool)
    requires Looks(s, v) && i < |v.pcs| && v.pcs[i] == Registering
    requires ok ==> v.peers[i].fd in v.sockets && v.sockets[v.peers[i].fd] == Socket(0, false, false, false)
    ensures var fd := v.peers[i].fd;
            && Enabled(s, Register(i, ok))
            && Looks(Next(s, Register(i, ok)),
                     v.(pcs := v.pcs[i := Idle], sockets := if ok then v.sockets[fd := Socket(0, false, true, false)] else v.sockets))
  {
  }

  lemma Dials(start: System, before: seq<Action>, v: View, i: nat, fd: nat, dial: Connector.Dial) returns (run: seq<Action>)
    requires Leads(start, before, v) && i < |v.pcs| && v.pcs[i] == Connecting
    requires fd !in v.sockets && IsInt(fd) && !dial.InProgress?
    ensures Leads(start, run, AfterDial(v, i, fd, dial))
  {
    var a := Dial(i, true, OneCandidate(fd, dial));
    DialOnce(After(start, before), v, i, fd, dial);
    Onward(start, before, v, a, Obtains(v, i, fd, dial));
    run := Registers(start, before + [a], v, i, fd, dial);
  }

  lemma Registers(start: System, before: seq<Action>, v: View, i: nat, fd: nat, dial: Connector.Dial) returns (run: seq<Action>)
    requires i < |v.pcs| == |v.peers| && Leads(start, before, Obtains(v, i, fd, dial))
    ensures Leads(start, run, AfterDial(v, i, fd, dial))
  {
    var v1 := Obtains(v, i, fd, dial);
    var v2 := v1.(peers := v1.peers[i := v1.peers[i].(fd := fd)], pcs := v1.pcs[i := Registering]);
    AssignOnce(After(start, before), v1, i, fd);
    Onward(start, before, v1, Assign(i), v2);
    run := before + [Assign(i)];
    RegisterOnce(After(start, run), v2, i, dial.Connected?);
    assert v1.sockets[fd := Socket(0, false, true, false)] == v.sockets[fd := Socket(0, false, true, false)];
    Onward(start, run, v2, Register(i, dial.Connected?), AfterDial(v, i, fd, dial));
    run := run + [Register(i, dial.Connected?)];
  }

  /** `n` bytes arrive on a registered socket, and epoll reports them. */
  lemma Arrives(start: System, before: seq<Action>, v: View, fd: int, n: nat) returns (run: seq<Action>)
    requires Leads(start, before, v) && v.batch == [] && v.sockets == map[fd := Socket(0, false, true, false)] && n > 0
    ensures Leads(start, run, v.(sockets := map[fd := Socket(n, false, true, false)], batch := [Event(fd, EPOLLIN)]))
  {
    var e := Event(fd, EPOLLIN);
    var v1 := v.(sockets := map[fd := Socket(n, false, true, true)]);
    ArriveOnce(After(start, before), v, fd, n);
    Onward(start, before, v, Arrive(fd, n), v1);
    run := before + [Arrive(fd, n)];
    WaitOnce(After(start, run), v1, fd, n);
    Onward(start, run, v1, Wait([e]), v1.(sockets := map[fd := Socket(n, false, true, false)], batch := [e]));
    run := run + [Wait([e])];
  }

  lemma ArriveOnce(s: System, v: View, fd: int, n: nat)
    requires Looks(s, v) && v.sockets == map[fd := Socket(0, false, true, false)] && n > 0
    ensures Enabled(s, Arrive(fd, n)) && Looks(Next(s, Arrive(fd, n)), v.(sockets := map[fd := Socket(n, false, true, true)]))
  {
  }

  lemma WaitOnce(s: System, v: View, fd: int, n: nat)
    requires Looks(s, v) && v.batch == [] && v.sockets == map[fd := Socket(n, false, true, true)]
    ensures var e := Event(fd, EPOLLIN);
            && Enabled(s, Wait([e]))
            && Looks(Next(s, Wait([e])), v.(sockets := map[fd := Socket(n, false, true, false)], batch := [e]))
  {
    var e := Event(fd, EPOLLIN);
    assert Reported(s.sockets, [e]);
    assert [e][0].fd == fd;
  }

  // ----- The runs -----

  const FRESH: System := Initial(Reading.AsWritten, "", 0, 0)

  /** The one peer of these runs, and its socket. */
  function Single(fd: int, que: seq<Query>): seq<Peer> {
    [Peer(IP, 80, fd, que, "", 0)]
  }

  lemma FirstClaims()
    ensures AfterDispatch(AtStart(0), RequestTo(80), 0) == View(map[], [], Single(CLOSED, [Query(Connect, "")]), [Idle])
  {
    assert IP != "";
    assert Claims(AtStart(0).peers[0], RequestTo(80));
    assert [] + [Query(Connect, "")] == [Query(Connect, "")];
    assert Dispatch(AtStart(0).peers, RequestTo(80), 0) == Single(CLOSED, [Query(Connect, "")]);
  }

  /** The first command claims peer 0, whose servant starts connecting. */
  lemma ConnectsFirst() returns (run: seq<Action>)
    ensures Leads(FRESH, run, View(map[], [], Single(CLOSED, []), [Connecting]))
  {
    Starts(0);
    CommandConnects(80);
    FirstClaims();
    run := Typed(FRESH, [], AtStart(0), CommandTo(80), RequestTo(80), 0);
    run := Serves(FRESH, run, View(map[], [], Single(CLOSED, [Query(Connect, "")]), [Idle]), 0);
  }

  /** It connects on descriptor 3, and five bytes arrive. */
  lemma ReportsOn3() returns (run: seq<Action>)
    ensures Leads(FRESH, run, View(map[3 := Socket(5, false, true, false)], [Event(3, EPOLLIN)], Single(3, []), [Idle]))
  {
    run := ConnectsFirst();
    var v := View(map[], [], Single(CLOSED, []), [Connecting]);
    run := Dials(FRESH, run, v, 0, 3, Connector.Connected);
    v := AfterDial(v, 0, 3, Connector.Connected);
    run := Arrives(FRESH, run, v, 3, 5);
  }

  lemma PrintedRead()
    ensures Parse(CommandFor(Event(3, EPOLLIN))) == Accepted(Request("", 0, 3, Read, ""))
  {
    assert !HungUp(EPOLLIN);
    CommandRoundTrip(Event(3, EPOLLIN));
  }

  /** Its servant starts to read. */
  lemma StartsReading() returns (run: seq<Action>)
    ensures Leads(FRESH, run, View(map[3 := Socket(5, false, true, false)], [], Single(3, []), [Draining(false)]))
  {
    run := ReportsOn3();
    PrintedRead();
    var v, r := View(map[3 := Socket(5, false, true, false)], [Event(3, EPOLLIN)], Single(3, []), [Idle]), Request("", 0, 3, Read, "");
    run := Printed(FRESH, run, v, Event(3, EPOLLIN), r);
    ReadQueued();
    run := Serves(FRESH, run, v.(batch := [], peers := Single(3, [Query(Read, "")])), 0);
  }

  lemma ReadQueued()
    ensures FirstMatch(Single(3, []), Request("", 0, 3, Read, "")) == 0
    ensures Dispatch(Single(3, []), Request("", 0, 3, Read, ""), 0) == Single(3, [Query(Read, "")])
  {
    assert [] + [Query(Read, "")] == [Query(Read, "")];
  }

  /** As the code is written, a run of a freshly started client that leaves five received bytes
      stranded: the first read fails. Nothing accounts for them. */
  lemma BytesAreStranded() returns (run: seq<Action>)
    ensures Possible(FRESH, run)
    ensures var s := After(FRESH, run);
            && |s.peers| == |s.servants| == 1
            && s.sockets == map[3 := Socket(5, false, true, false)] && s.peers[0].fd == 3
            && s.servants[0].pc == Idle && !Accounted(s, 3) && !Attended(s, 0)
  {
    run := StartsReading();
    var fail := ReadSocket(0, Reading.Failed);
    Longer(FRESH, run, fail);
    run := run + [fail];
    var s := After(FRESH, run);
    assert Unread(s, 3) && !Underway(s, 3) && forall j :: !Attends(s, j, 3);
  }

  // ----- A reused descriptor number -----

  /** Two peers, connected to ports 80 and 81 or about to be. */
  function Two(fd: int, que: seq<Query>, fd1: int, que1: seq<Query>): seq<Peer> {
    [Peer(IP, 80, fd, que, "", 0), Peer(IP, 81, fd1, que1, IP, 81)]
  }

  const CONNECT: seq<Query> := [Query(Connect, "")]

  lemma SecondAppends()
    ensures var v := View(map[], [], Single(CLOSED, []), [Connecting]);
            AfterDispatch(v, RequestTo(81), 0) == v.(peers := Single(CLOSED, []) + [NewPeer(IP, 81, 0)], pcs := [Connecting, Idle])
  {
    assert IP != "";
    assert !Accepts(Single(CLOSED, [])[0], RequestTo(81));
  }

  lemma ThirdClaims()
    ensures var v := View(map[], [], Single(CLOSED, []) + [NewPeer(IP, 81, 0)], [Connecting, Idle]);
            AfterDispatch(v, RequestTo(81), 0) == v.(peers := Two(CLOSED, [], CLOSED, CONNECT))
  {
    var peers := Single(CLOSED, []) + [NewPeer(IP, 81, 0)];
    assert IP != "";
    assert !Accepts(peers[0], RequestTo(81)) && Accepts(peers[1], RequestTo(81));
    FirstMatchIs(peers, RequestTo(81), 1);
    assert [] + CONNECT == CONNECT;
    assert Dispatch(peers, RequestTo(81), 0) == Two(CLOSED, [], CLOSED, CONNECT);
  }

  /** Two servants are connecting. */
  lemma BothConnect() returns (run: seq<Action>)
    ensures Leads(FRESH, run, View(map[], [], Two(CLOSED, [], CLOSED, []), [Connecting, Connecting]))
  {
    run := ConnectsFirst();
    var v := View(map[], [], Single(CLOSED, []), [Connecting]);
    CommandConnects(81);
    SecondAppends();
    run := Typed(FRESH, run, v, CommandTo(81), RequestTo(81), 0);
    run := ClaimsSecond(run);
  }

  lemma ClaimsSecond(before: seq<Action>) returns (run: seq<Action>)
    requires Leads(FRESH, before, View(map[], [], Single(CLOSED, []) + [NewPeer(IP, 81, 0)], [Connecting, Idle]))
    ensures Leads(FRESH, run, View(map[], [], Two(CLOSED, [], CLOSED, []), [Connecting, Connecting]))
  {
    var v := View(map[], [], Single(CLOSED, []) + [NewPeer(IP, 81, 0)], [Connecting, Idle]);
    CommandConnects(81);
    ThirdClaims();
    run := Typed(FRESH, before, v, CommandTo(81), RequestTo(81), 0);
    run := ServesSecond(run);
  }

  lemma ServesSecond(before: seq<Action>) returns (run: seq<Action>)
    requires Leads(FRESH, before, View(map[], [], Two(CLOSED, [], CLOSED, CONNECT), [Connecting, Idle]))
    ensures Leads(FRESH, run, View(map[], [], Two(CLOSED, [], CLOSED, []), [Connecting, Connecting]))
  {
    var v := View(map[], [], Two(CLOSED, [], CLOSED, CONNECT), [Connecting, Idle]);
    run := Serves(FRESH, before, v, 1);
    assert AfterServe(v, 1) == View(map[], [], Two(CLOSED, [], CLOSED, []), [Connecting, Connecting]);
  }

  /** The first one's candidate is refused and its closed socket handed back; the kernel gives the
      number to the second one, whose peer sends five bytes. */
  lemma NumberReused() returns (run: seq<Action>)
    ensures Leads(FRESH, run, View(map[3 := Socket(5, false, true, false)], [Event(3, EPOLLIN)], Two(3, [], 3, []), [Idle, Idle]))
  {
    run := BothConnect();
    var v := View(map[], [], Two(CLOSED, [], CLOSED, []), [Connecting, Connecting]);
    run := Dials(FRESH, run, v, 0, 3, Connector.Refused);
    var v1 := View(map[], [], Two(3, [], CLOSED, []), [Idle, Connecting]);
    assert AfterDial(v, 0, 3, Connector.Refused) == v1;
    run := Dials(FRESH, run, v1, 1, 3, Connector.Connected);
    var v2 := View(map[3 := Socket(0, false, true, false)], [], Two(3, [], 3, []), [Idle, Idle]);
    assert AfterDial(v1, 1, 3, Connector.Connected) == v2;
    run := Arrives(FRESH, run, v2, 3, 5);
  }

  lemma ReadGoesToFirst()
    ensures FirstMatch(Two(3, [], 3, []), Request("", 0, 3, Read, "")) == 0
    ensures Dispatch(Two(3, [], 3, []), Request("", 0, 3, Read, ""), 0) == Two(3, [Query(Read, "")], 3, [])
  {
    assert MatchesFd(Two(3, [], 3, [])[0], Request("", 0, 3, Read, ""));
    assert [] + [Query(Read, "")] == [Query(Read, "")];
  }

  /** The READ for the second peer's bytes is queued at the first peer. */
  lemma ReadMisrouted() returns (run: seq<Action>)
    ensures Leads(FRESH, run, View(map[3 := Socket(5, false, true, false)], [], Two(3, [Query(Read, "")], 3, []), [Idle, Idle]))
  {
    run := NumberReused();
    PrintedRead();
    ReadGoesToFirst();
    var v := View(map[3 := Socket(5, false, true, false)], [Event(3, EPOLLIN)], Two(3, [], 3, []), [Idle, Idle]);
    run := Printed(FRESH, run, v, Event(3, EPOLLIN), Request("", 0, 3, Read, ""));
  }

  lemma {:induction false} NoReadsNeverLetGo(s: System, run: seq<Action>, i: nat, fd: int)
    requires Possible(s, run) && NoReads(run)
    ensures NeverStrands(s, run, i) && NeverForgets(s, run, fd)
    decreases |run|
  {
    if run != [] {
      NoReadsNeverLetGo(Next(s, run[0]), run[1..], i, fd);
    }
  }

  /** A run of a freshly started client in which no read fails or even happens, and in which peer 1
      loses the only command for its five unread bytes, because connectTCP handed back a closed
      socket and its number was reused. The bytes are accounted for, at peer 0, whose servant goes
      on to read them. */
  lemma NumberReuseSteals() returns (run: seq<Action>)
    ensures Possible(FRESH, run) && Shape(FRESH)
    ensures NeverStrands(FRESH, run, 1) && !NeverCollides(FRESH, run, 1) && !NeverMisses(FRESH, run, 1)
    ensures var s := After(FRESH, run);
            && |s.peers| == |s.servants| == 2
            && s.sockets == map[3 := Socket(5, false, true, false)] && s.peers[0].fd == 3 == s.peers[1].fd
            && !Attended(s, 1) && Accounted(s, 3) && Attends(s, 0, 3)
            && var steal := [Serve(0), ReadSocket(0, Reading.Data(5))];
            && Possible(s, steal)
            && After(s, steal).sockets == map[3 := Socket(0, false, true, false)]
  {
    run := ReadMisrouted();
    NoReadsNeverLetGo(FRESH, run, 1, 3);
    InitialSteady(Reading.AsWritten, "", 0, 0);
    var s := After(FRESH, run);
    OthersRead(s);
    RunAttended(FRESH, run, 1);
    if NeverCollides(FRESH, run, 1) {
      RunAlone(FRESH, run, 1);
      assert false;
    }
    Steals(s);
  }

  lemma OthersRead(s: System)
    requires Looks(s, View(map[3 := Socket(5, false, true, false)], [], Two(3, [Query(Read, "")], 3, []), [Idle, Idle]))
    ensures !Attended(s, 1) && Attends(s, 0, 3)
  {
    assert s.peers[0].que[0] in s.peers[0].que;
    assert Unread(s, 3) && !Underway(s, 3);
  }

  lemma Steals(s: System)
    requires Looks(s, View(map[3 := Socket(5, false, true, false)], [], Two(3, [Query(Read, "")], 3, []), [Idle, Idle]))
    ensures var steal := [Serve(0), ReadSocket(0, Reading.Data(5))];
            && Possible(s, steal)
            && After(s, steal).sockets == map[3 := Socket(0, false, true, false)]
  {
    var s1 := Next(s, Serve(0));
    var read := ReadSocket(0, Reading.Data(5));
    assert s1.peers[0].fd == 3 && s1.servants[0].pc == Draining(false);
    assert Enabled(s1, read);
    var steal := [Serve(0), read];
    assert steal[1..] == [read] && [read][1..] == [];
    assert Next(s1, read).sockets == map[3 := Socket(0, false, true, false)];
  }

  lemma ReadGoesToSecond()
    ensures FirstMatch(Two(CLOSED, [], 3, []), Request("", 0, 3, Read, "")) == 1
    ensures Dispatch(Two(CLOSED, [], 3, []), Request("", 0, 3, Read, ""), 0) == Two(CLOSED, [], 3, [Query(Read, "")])
  {
    var peers, r := Two(CLOSED, [], 3, []), Request("", 0, 3, Read, "");
    assert !Accepts(peers[0], r) && MatchesFd(peers[1], r);
    FirstMatchIs(peers, r, 1);
    assert [] + [Query(Read, "")] == [Query(Read, "")];
  }

  /** The first one has not assigned the closed socket's number yet when the kernel reuses it. */
  lemma NumberReusedEarly() returns (run: seq<Action>)
    ensures Leads(FRESH, run, View(map[3 := Socket(5, false, true, false)], [Event(3, EPOLLIN)], Two(CLOSED, [], 3, []), [Obtained(3), Idle]))
  {
    run := BothConnect();
    var v := View(map[], [], Two(CLOSED, [], CLOSED, []), [Connecting, Connecting]);
    var a := Dial(0, true, OneCandidate(3, Connector.Refused));
    DialOnce(After(FRESH, run), v, 0, 3, Connector.Refused);
    var v1 := View(map[], [], Two(CLOSED, [], CLOSED, []), [Obtained(3), Connecting]);
    assert Obtains(v, 0, 3, Connector.Refused) == v1;
    Onward(FRESH, run, v, a, v1);
    run := Dials(FRESH, run + [a], v1, 1, 3, Connector.Connected);
    var v2 := View(map[3 := Socket(0, false, true, false)], [], Two(CLOSED, [], 3, []), [Obtained(3), Idle]);
    assert AfterDial(v1, 1, 3, Connector.Connected) == v2;
    run := Arrives(FRESH, run, v2, 3, 5);
  }

  /** A run in which peer 0 comes by a number under which peer 1's unread bytes wait: it does not
      attend to them, peer 1 does. */
  lemma NumberIsInherited() returns (run: seq<Action>)
    ensures Possible(FRESH, run)
    ensures var s := After(FRESH, run);
            && |s.peers| == |s.servants| == 2 && s.peers[0].fd == 3 == s.peers[1].fd
            && Enabled(s, Register(0, true)) && !Attended(s, 0) && Attended(s, 1) && Accounted(s, 3)
  {
    run := NumberReusedEarly();
    PrintedRead();
    ReadGoesToSecond();
    var v := View(map[3 := Socket(5, false, true, false)], [Event(3, EPOLLIN)], Two(CLOSED, [], 3, []), [Obtained(3), Idle]);
    run := Printed(FRESH, run, v, Event(3, EPOLLIN), Request("", 0, 3, Read, ""));
    var v1 := View(map[3 := Socket(5, false, true, false)], [], Two(CLOSED, [], 3, [Query(Read, "")]), [Obtained(3), Idle]);
    AssignOnce(After(FRESH, run), v1, 0, 3);
    var v2 := v1.(peers := Two(3, [], 3, [Query(Read, "")]), pcs := [Registering, Idle]);
    Onward(FRESH, run, v1, Assign(0), v2);
    run := run + [Assign(0)];
    Inherited(After(FRESH, run));
  }

  lemma Inherited(s: System)
    requires Looks(s, View(map[3 := Socket(5, false, true, false)], [], Two(3, [], 3, [Query(Read, "")]), [Registering, Idle]))
    ensures Enabled(s, Register(0, true)) && !Attended(s, 0) && Attends(s, 1, 3)
  {
    assert s.peers[1].que[0] in s.peers[1].que;
    assert Unread(s, 3) && !Underway(s, 3);
  }

  // ----- A dead peer -----

  /** A run of a freshly started client whose first peer's port happened to start with 7: the same
      command twice, and the second peer owns the address while the first owns nothing. */
  lemma DeadPeerFirst() returns (run: seq<Action>)
    ensures var start := Initial(Reading.AsWritten, "", 0, 7);
            && Possible(start, run)
            && var peers := After(start, run).peers;
            && |peers| == 2 && !Assigned(peers[0]) && Owns(peers[1], IP, 80) && !OwnersFirst(peers)
  {
    var start, r := Initial(Reading.AsWritten, "", 0, 7), RequestTo(80);
    Starts(7);
    CommandConnects(80);
    assert ByAddress(r) && r.ip == IP && r.port == 80;
    DeadPeerIsPassed(7, r);
    run := Typed(start, [], AtStart(7), CommandTo(80), r, 0);
    run := Typed(start, run, AfterDispatch(AtStart(7), r, 0), CommandTo(80), r, 0);
  }

  // ----- A closed socket handed back -----

  /** While a servant is connecting, one refused candidate makes its descriptor variable name a
      closed socket. */
  lemma ClosedSocketIsKept(s: System, i: nat, fd: nat)
    requires Steady(s) && !s.halted && i < |s.peers| && s.servants[i].pc == Connecting && !Binds(s.peers[i])
    requires fd !in s.sockets && IsInt(fd)
    ensures var a := Dial(i, true, [Connector.Candidate(fd, true, true, true, true, Connector.Refused)]);
            && Enabled(s, a) && DialsClosed(s, a)
            && Held(Next(s, a).peers[i], Next(s, a).servants[i]) == fd && fd !in Next(s, a).sockets
            && !Steady(Next(s, a))
  {
    var a := Dial(i, true, [Connector.Candidate(fd, true, true, true, true, Connector.Refused)]);
    Connector.RefusedIsReturned(fd, s.sockets.Keys);
    StepSteady(s, a);
  }
}
