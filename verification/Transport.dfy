/** How a second instance's arguments reach the first instance's command queue: the argument
    block is flattened in place, sent as one message and read back as a C string. */
module Transport {
  import opened Types
  import opened Tokens

  const NUL: char := 0 as char

  /** The arguments `args` lie one after the other in `mem`, each closed by a NUL. */
  ghost predicate LaidOut(mem: string, at: seq<nat>, args: seq<string>) {
    && |at| == |args| > 0
    && (forall k :: 0 <= k < |args| ==>
          && NUL !in args[k]
          && at[k] + |args[k]| < |mem|
          && mem[at[k]..at[k] + |args[k]|] == args[k]
          && mem[at[k] + |args[k]|] == NUL)
    && (forall k :: 0 <= k < |args| - 1 ==> at[k + 1] == at[k] + |args[k]| + 1)
  }

  /** Everything before the first NUL. */
  function UpToNul(s: string): (t: string)
    ensures |t| <= |s| && t == s[..|t|] && NUL !in t
    ensures |t| < |s| ==> s[|t|] == NUL
  {
    if s == [] || s[0] == NUL then [] else [s[0]] + UpToNul(s[1..])
  }

  function Spaced(s: string): (t: string)
    ensures |t| == |s| && NUL !in t
    ensures forall k :: 0 <= k < |s| ==> t[k] == if s[k] == NUL then ' ' else s[k]
  {
    seq(|s|, k requires 0 <= k < |s| => if s[k] == NUL then ' ' else s[k])
  }

  /** `std::replace` over the copied argument block. */
  method ReplaceNul(buffer: array<char>)
    modifies buffer
    ensures buffer[..] == Spaced(old(buffer[..]))
  {
    var i := 0;
    while i < buffer.Length
      invariant 0 <= i <= buffer.Length
      invariant buffer[..i] == Spaced(old(buffer[..]))[..i]
      invariant buffer[i..] == old(buffer[i..])
    {
      assert buffer[i] == buffer[i..][0] == old(buffer[..])[i];
      if buffer[i] == NUL {
        buffer[i] := ' ';
      }
      i := i + 1;
    }
  }

  /** The text sent: from the first argument up to the end of the last one. */
  function Flattened(mem: string, at: seq<nat>): string
    requires |at| > 0 && at[0] <= at[|at| - 1] <= |mem|
  {
    var last := at[|at| - 1];
    Spaced(mem[at[0]..last + |UpToNul(mem[last..])|])
  }

  /** The sender: with no argument there is nothing to send and the process exits. */
  method Flatten(mem: string, at: seq<nat>) returns (message: Option<string>)
    requires |at| > 0 ==> at[0] <= at[|at| - 1] <= |mem|
    ensures message == if |at| == 0 then None else Some(Flattened(mem, at))
  {
    if |at| == 0 {
      return None;
    }
    var last := at[|at| - 1];
    var size := |UpToNul(mem[last..])|;
    var text := mem[at[0]..last + size];
    var buffer := new char[|text|](k requires 0 <= k < |text| => text[k]);
    assert buffer[..] == text;
    ReplaceNul(buffer);
    message := Some(buffer[..]);
  }

  /** The receiver: the message is copied into a buffer of the queue's message size, closed by a NUL
      and read as a C string. None: the message fills the buffer, and the NUL is written past it. */
  method Receive(message: string, buffer: array<char>) returns (text: Option<string>)
    requires |message| <= buffer.Length
    modifies buffer
    ensures text == if |message| < buffer.Length then Some(UpToNul(message)) else None
  {
    var rcv := |message|;
    forall k | 0 <= k < rcv { buffer[k] := message[k]; }
    if rcv == buffer.Length {
      return None;
    }
    buffer[rcv] := NUL;
    text := Some(UpToNul(buffer[..]));
    assert buffer[..][..rcv] == message;
    UpToFirstNul(message, buffer[..]);
  }

  lemma {:induction false} UpToFirstNul(s: string, t: string)
    requires |s| < |t| && t[..|s|] == s && t[|s|] == NUL
    ensures UpToNul(t) == UpToNul(s)
  {
    if s != [] && s[0] != NUL {
      assert t[1..][..|s| - 1] == s[1..];
      UpToFirstNul(s[1..], t[1..]);
    }
  }

  /** The words of each argument, one argument after the other. */
  function WordsOfAll(args: seq<string>): seq<string> {
    if args == [] then [] else WordsOfAll(args[..|args| - 1]) + Words(args[|args| - 1])
  }

  lemma {:induction false} WordsOfAllJoined(args: seq<string>)
    ensures Words(Join(args)) == WordsOfAll(args)
  {
    if |args| > 1 {
      var rest, last := args[..|args| - 1], args[|args| - 1];
      WordsOfAllJoined(rest);
      WordsAcrossSpace(Join(rest), ' ', last);
      assert Join(args) == Join(rest) + [' '] + last;
    }
  }

  lemma SpacedAcrossNul(front: string, back: string)
    ensures Spaced(front + [NUL] + back) == Spaced(front) + [' '] + Spaced(back)
  {
  }

  lemma NulFreeStays(s: string)
    requires NUL !in s
    ensures Spaced(s) == s
  {
  }

  lemma {:induction false} FlattenedBlock(mem: string, at: seq<nat>, args: seq<string>)
    requires LaidOut(mem, at, args)
    ensures at[0] <= at[|at| - 1]
    ensures Spaced(mem[at[0]..at[|at| - 1] + |args[|at| - 1]|]) == Join(args)
  {
    var n := |args| - 1;
    NulFreeStays(args[n]);
    if n > 0 {
      ShorterBlock(mem, at, args);
      FlattenedBlock(mem, at[..n], args[..n]);
      var m := at[n - 1] + |args[n - 1]|;
      LastBlock(mem, at[0], m, args[n]);
    }
  }

  lemma ShorterBlock(mem: string, at: seq<nat>, args: seq<string>)
    requires LaidOut(mem, at, args) && |args| > 1
    ensures LaidOut(mem, at[..|args| - 1], args[..|args| - 1])
  {
  }

  lemma LastBlock(mem: string, from: nat, m: nat, arg: string)
    requires from <= m && m + 1 + |arg| < |mem|
    requires NUL !in arg && mem[m] == NUL && mem[m + 1..m + 1 + |arg|] == arg
    ensures Spaced(mem[from..m + 1 + |arg|]) == Spaced(mem[from..m]) + [' '] + arg
  {
    BlockSplits(mem, from, m, |arg|);
    SpacedAcrossNul(mem[from..m], arg);
    NulFreeStays(arg);
  }

  lemma BlockSplits(mem: string, from: nat, m: nat, size: nat)
    requires from <= m && m + 1 + size < |mem|
    ensures mem[from..m + 1 + size] == mem[from..m] + [mem[m]] + mem[m + 1..m + 1 + size]
  {
  }

  lemma NulFree(s: string)
    requires NUL !in s
    ensures UpToNul(s) == s
  {
    assert |UpToNul(s)| == |s|;
  }

  /** Nothing is lost or merged on the way: the option loop of the first instance sees exactly
      the words of the second instance's arguments, in order. */
  lemma ArgumentsArrive(mem: string, at: seq<nat>, args: seq<string>)
    requires LaidOut(mem, at, args)
    ensures at[0] <= at[|at| - 1] <= |mem|
    ensures Words(UpToNul(Flattened(mem, at))) == WordsOfAll(args)
  {
    FlattenedIsJoin(mem, at, args);
    NulFree(Flattened(mem, at));
    WordsOfAllJoined(args);
  }

  lemma FlattenedIsJoin(mem: string, at: seq<nat>, args: seq<string>)
    requires LaidOut(mem, at, args)
    ensures at[0] <= at[|at| - 1] <= |mem|
    ensures Flattened(mem, at) == Join(args)
  {
    var n := |args| - 1;
    FlattenedBlock(mem, at, args);
    LastArgumentEnds(mem, at[n], args[n]);
  }

  lemma LastArgumentEnds(mem: string, from: nat, arg: string)
    requires NUL !in arg && from + |arg| < |mem|
    requires mem[from..from + |arg|] == arg && mem[from + |arg|] == NUL
    ensures UpToNul(mem[from..]) == arg
  {
    UpToFirstNul(arg, mem[from..]);
    NulFree(arg);
  }
}
