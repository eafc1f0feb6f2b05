/** `IO::read` and the drain loop of `IO::threadFunc`. */
module Reading {
  import opened Types

  const MAX_READ: nat := 2048

  /** The code as it stands, or with the two repairs that its own comments ask for: `read` reports
      "all data read" as -1 and a failure as 0, and an end of file leaves the loop. */
  datatype Code = AsWritten | AsIntended

  /** What one `::read` on the socket reports. */
  datatype Outcome = Data(n: nat) | Eof | Again | Failed

  /** The value that `IO::read` returns. */
  function ReadResult(code: Code, o: Outcome): int {
    match o
    case Data(n) => n
    case Eof => 0
    case Again => if code.AsWritten? then 0 else -1
    case Failed => if code.AsWritten? then -1 else 0
  }

  /** Where the loop stands after some reads: bytes counted, whether the request has become CLOSE
      (the queue has then been cleared), and whether the loop has been left, after `used` reads. */
  datatype Drained = Drained(left: bool, used: nat, total: int, zero: bool)

  function Drain(code: Code, outcomes: seq<Outcome>, d: Drained): Drained {
    if d.left || outcomes == [] then d
    else
      var res := ReadResult(code, outcomes[0]);
      var next := d.(used := d.used + 1);
      Drain(code, outcomes[1..],
            if res == -1 then next.(left := true)
            else if res == 0 then next.(zero := true, left := code.AsIntended?)
            else next.(total := d.total + res))
  }

  const START: Drained := Drained(false, 0, 0, false)

  /** The loop of a READ request. `outcomes` are the kernel's answers in order; a loop that wants
      more of them has not ended. */
  method DrainLoop(code: Code, outcomes: seq<Outcome>, queue: seq<Query>) returns (d: Drained, request: Req, queue': seq<Query>)
    ensures d == Drain(code, outcomes, START)
    ensures request == (if d.zero then Close else Read) && queue' == (if d.zero then [] else queue)
  {
    var allReads, i, left := 0, 0, false;
    request, queue' := Read, queue;
    while i < |outcomes| && !left
      invariant 0 <= i <= |outcomes| && (request == Read || request == Close)
      invariant queue' == if request == Close then [] else queue
      invariant Drain(code, outcomes[i..], Drained(left, i, allReads, request == Close)) == Drain(code, outcomes, START)
    {
      var res := ReadResult(code, outcomes[i]);
      assert outcomes[i..][1..] == outcomes[i + 1..];
      i := i + 1;
      if res == -1 {
        left := true;
      } else if res == 0 {
        queue' := [];
        request := Close;
        left := code.AsIntended?;
      } else {
        allReads := allReads + res;
      }
    }
    d := Drained(left, i, allReads, request == Close);
  }

  /** Answers of a kernel whose socket holds `buffered` bytes, has or has not seen the end of file,
      gets nothing more, and does not fail. The chunks are as the kernel likes. */
  predicate Honest(buffered: nat, eof: bool, outcomes: seq<Outcome>)
    decreases |outcomes|
  {
    outcomes != [] ==>
      match outcomes[0]
      case Data(n) => 1 <= n <= MAX_READ && n <= buffered && Honest(buffered - n, eof, outcomes[1..])
      case Eof => buffered == 0 && eof && Honest(0, eof, outcomes[1..])
      case Again => buffered == 0 && !eof && Honest(0, eof, outcomes[1..])
      case Failed => false
  }

  /** The same, but any read may also fail. */
  predicate Admissible(buffered: nat, eof: bool, outcomes: seq<Outcome>)
    decreases |outcomes|
  {
    outcomes != [] ==>
      match outcomes[0]
      case Data(n) => 1 <= n <= MAX_READ && n <= buffered && Admissible(buffered - n, eof, outcomes[1..])
      case Eof => buffered == 0 && eof && Admissible(0, eof, outcomes[1..])
      case Again => buffered == 0 && !eof && Admissible(0, eof, outcomes[1..])
      case Failed => Admissible(buffered, eof, outcomes[1..])
  }

  /** As intended, every honest drain ends, with every byte counted and a close exactly at the end
      of file. */
  lemma {:induction false} IntendedDrainCompletes(buffered: nat, eof: bool, outcomes: seq<Outcome>, d: Drained)
    requires !d.left && !d.zero && Honest(buffered, eof, outcomes) && |outcomes| > buffered
    ensures var end := Drain(AsIntended, outcomes, d);
            end.left && end.total == d.total + buffered && end.zero == eof && end.used <= d.used + buffered + 1
    decreases buffered
  {
    if outcomes[0].Data? {
      var n := outcomes[0].n;
      IntendedDrainCompletes(buffered - n, eof, outcomes[1..], d.(used := d.used + 1, total := d.total + n));
    }
  }

  /** As written, no honest drain ends: once the bytes are read the request has become CLOSE and
      the queue is gone, with or without an end of file, and the loop goes on. */
  lemma {:induction false} WrittenDrainSpins(buffered: nat, eof: bool, outcomes: seq<Outcome>, d: Drained)
    requires !d.left && Honest(buffered, eof, outcomes)
    ensures var end := Drain(AsWritten, outcomes, d);
            && !end.left && end.used == d.used + |outcomes|
            && (|outcomes| > buffered ==> end.total == d.total + buffered && end.zero)
    decreases |outcomes|
  {
    if outcomes != [] {
      var rest := outcomes[1..];
      if outcomes[0].Data? {
        var n := outcomes[0].n;
        WrittenDrainSpins(buffered - n, eof, rest, d.(used := d.used + 1, total := d.total + n));
      } else {
        var next := d.(used := d.used + 1, zero := true);
        WrittenDrainSpins(0, eof, rest, next);
        WrittenStaysClosing(rest, next);
        NothingMore(eof, rest, next);
      }
    }
  }

  lemma {:induction false} WrittenStaysClosing(outcomes: seq<Outcome>, d: Drained)
    requires d.zero
    ensures Drain(AsWritten, outcomes, d).zero
    decreases |outcomes|
  {
    if !d.left && outcomes != [] {
      var res := ReadResult(AsWritten, outcomes[0]);
      var next := d.(used := d.used + 1);
      WrittenStaysClosing(outcomes[1..], if res == -1 then next.(left := true) else if res == 0 then next else next.(total := d.total + res));
    }
  }

  lemma {:induction false} NothingMore(eof: bool, outcomes: seq<Outcome>, d: Drained)
    requires Honest(0, eof, outcomes) && d.zero
    ensures Drain(AsWritten, outcomes, d).total == d.total
    decreases |outcomes|
  {
    if !d.left && outcomes != [] {
      NothingMore(eof, outcomes[1..], d.(used := d.used + 1));
    }
  }

  /** As written the loop is left exactly by a read that fails. */
  lemma {:induction false} WrittenLeavesOnFailure(outcomes: seq<Outcome>, d: Drained)
    requires !d.left
    ensures Drain(AsWritten, outcomes, d).left <==> Failed in outcomes
    decreases |outcomes|
  {
    if outcomes != [] {
      var rest := outcomes[1..];
      assert forall o :: o in outcomes <==> o == outcomes[0] || o in rest;
      if !outcomes[0].Failed? {
        var res := ReadResult(AsWritten, outcomes[0]);
        var next := d.(used := d.used + 1);
        WrittenLeavesOnFailure(rest, if res == 0 then next.(zero := true) else next.(total := d.total + res));
      }
    }
  }

  /** Five bytes on a healthy connection: as intended two reads finish the request;
      as written the servant is still reading after any number of them. */
  lemma HealthyConnectionSpins(k: nat)
    ensures var answers := [Data(5)] + seq(k + 1, _ => Again);
            && Honest(5, false, answers)
            && Drain(AsIntended, answers, START) == Drained(true, 2, 5, false)
            && Drain(AsWritten, answers, START) == Drained(false, k + 2, 5, true)
  {
    var agains := seq(k + 1, _ => Again);
    var answers := [Data(5)] + agains;
    assert answers[1..] == agains;
    AgainsAreHonest(agains);
    assert Drain(AsIntended, agains, Drained(false, 1, 5, false)) == Drained(true, 2, 5, false);
    var next := Drained(false, 1, 5, false);
    WrittenDrainSpins(0, false, agains, next);
    assert Drain(AsWritten, answers, START) == Drain(AsWritten, agains, next);
  }

  lemma {:induction false} AgainsAreHonest(agains: seq<Outcome>)
    requires forall k :: 0 <= k < |agains| ==> agains[k] == Again
    ensures Honest(0, false, agains)
    decreases |agains|
  {
    if agains != [] {
      AgainsAreHonest(agains[1..]);
    }
  }
}
