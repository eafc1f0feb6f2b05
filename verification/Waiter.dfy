/** `Epoll::waiterFunction`: a batch of epoll events becomes command lines. */
module Waiter {
  import opened Types
  import opened Decimal
  import opened Tokens
  import opened Command
  import opened SafeQueue

  const MAXEVENTS: nat := 64

  const EPOLLIN: bv32 := 0x001
  const EPOLLERR: bv32 := 0x008
  const EPOLLHUP: bv32 := 0x010
  const EPOLLRDHUP: bv32 := 0x2000

  datatype Event = Event(fd: int, mask: bv32)

  predicate IsInt(n: int) {
    -INT_MAX - 1 <= n <= INT_MAX
  }

  predicate HungUp(mask: bv32) {
    mask & (EPOLLRDHUP | EPOLLERR | EPOLLHUP) != 0 && mask & EPOLLIN == 0
  }

  function CommandFor(e: Event): string {
    "-f " + Print(e.fd) + " " + (if HungUp(e.mask) then "-c" else "-r")
  }

  function CommandsFor(events: seq<Event>): (cs: seq<string>)
    ensures |cs| == |events|
    ensures forall k :: 0 <= k < |cs| ==> cs[k] == CommandFor(events[k])
  {
    seq(|events|, k requires 0 <= k < |events| => CommandFor(events[k]))
  }

  /** One return of `epoll_wait`. An interrupted wait is repeated; any other failure ends the
      process. */
  method HandleWait(wait: int, interrupted: bool, events: array<Event>, queue: ThreadSafeQueue<string>) returns (exits: bool)
    requires events.Length == MAXEVENTS && -1 <= wait <= MAXEVENTS
    modifies queue
    ensures exits <==> wait == -1 && !interrupted
    ensures queue.que == old(queue.que) + CommandsFor(if wait == -1 then [] else events[..wait])
  {
    if wait == -1 {
      return !interrupted;
    }
    exits := false;
    var i := 0;
    while i < wait
      invariant 0 <= i <= wait
      invariant queue.que == old(queue.que) + CommandsFor(events[..i])
    {
      var fd := "-f " + Print(events[i].fd) + " ";
      if HungUp(events[i].mask) {
        queue.Push(fd + "-c");
      } else {
        queue.Push(fd + "-r");
      }
      assert events[..i + 1] == events[..i] + [events[i]];
      i := i + 1;
    }
  }

  /** What an event asks for. */
  function Meaning(e: Event): Request {
    Request("", 0, e.fd, if HungUp(e.mask) then Close else Read, "")
  }

  lemma PrintIsWord(n: int)
    ensures IsWord(Print(n))
  {
    assert forall c: char :: IsDigit(c) || c == '-' ==> !IsSpace(c);
    if n < 0 {
      var digits := Digits(-n);
      assert AllDigits(digits) && digits[0] == Print(n)[1];
      assert forall k :: 0 < k < |Print(n)| ==> Print(n)[k] == digits[k - 1];
    }
  }

  lemma WordsOfCommand(number: string, mode: string)
    requires IsWord(number) && IsWord(mode)
    ensures Words("-f " + number + " " + mode) == ["-f", number, mode]
  {
    var rest := number + [' '] + mode;
    TwoWords(number, mode);
    WordsOfWord("-f");
    WordsAcrossSpace("-f", ' ', rest);
    CommandText(number, mode);
  }

  lemma CommandText(number: string, mode: string)
    ensures "-f " + number + " " + mode == "-f" + [' '] + (number + [' '] + mode)
  {
  }

  lemma TwoWords(x: string, y: string)
    requires IsWord(x) && IsWord(y)
    ensures Words(x + [' '] + y) == [x, y]
  {
    WordsOfWord(x);
    WordsOfWord(y);
    WordsAcrossSpace(x, ' ', y);
  }

  lemma RunCommand(number: string, mode: string, fd: int)
    requires ScanInt(number) == Value(fd) && (mode == "-c" || mode == "-r")
    ensures Run(["-f", number, mode], START) == Accepted(Request("", 0, fd, if mode == "-c" then Close else Read, ""))
  {
    var o := START.(fd := fd);
    assert ["-f", number, mode][2..] == [mode];
    assert [mode][1..] == [];
    assert Run([mode], o) == Run([], o.(kind := if mode == "-c" then Close else Read));
  }

  /** What the waiter prints for an event, the parser reads back as that event's meaning. */
  lemma CommandRoundTrip(e: Event)
    requires IsInt(e.fd)
    ensures Parse(CommandFor(e)) == Accepted(Meaning(e))
  {
    var mode := if HungUp(e.mask) then "-c" else "-r";
    PrintIsWord(e.fd);
    WordsOfCommand(Print(e.fd), mode);
    ScanPrinted(e.fd, "");
    assert Print(e.fd) + "" == Print(e.fd);
    RunCommand(Print(e.fd), mode, e.fd);
  }

  predicate Has(mask: bv32, flag: bv32) {
    mask & flag != 0
  }

  lemma HungUpFlags(mask: bv32)
    ensures HungUp(mask) <==> !Has(mask, EPOLLIN) && (Has(mask, EPOLLRDHUP) || Has(mask, EPOLLERR) || Has(mask, EPOLLHUP))
  {
  }

  /** A whole batch: one command an event, in order, each read back as a request on that event's
      descriptor and nothing else, to close it exactly when it hung up with nothing to read. */
  lemma BatchRoundTrip(events: seq<Event>)
    requires forall k :: 0 <= k < |events| ==> IsInt(events[k].fd)
    ensures |CommandsFor(events)| == |events|
    ensures forall k :: 0 <= k < |events| ==>
              var mask := events[k].mask;
              var hungUp := !Has(mask, EPOLLIN) && (Has(mask, EPOLLRDHUP) || Has(mask, EPOLLERR) || Has(mask, EPOLLHUP));
              Parse(CommandsFor(events)[k]) == Accepted(Request("", 0, events[k].fd, if hungUp then Close else Read, ""))
  {
    forall k | 0 <= k < |events| ensures Parse(CommandsFor(events)[k]) == Accepted(Meaning(events[k])) {
      CommandRoundTrip(events[k]);
    }
    forall k | 0 <= k < |events| ensures var mask := events[k].mask;
      HungUp(mask) <==> !Has(mask, EPOLLIN) && (Has(mask, EPOLLRDHUP) || Has(mask, EPOLLERR) || Has(mask, EPOLLHUP))
    {
      HungUpFlags(events[k].mask);
    }
  }
}
