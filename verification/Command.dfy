/** The command language: the option loop at the head of `EndPoint::interpretRequest`. */
module Command {
  import opened Types
  import opened Decimal
  import opened Tokens
  import opened Address

  /** `Rejected` is the early return; `Thrown` is the exception for a missing argument, which
      nothing catches; `Undefined` is inherited from the address check. */
  datatype Outcome = Accepted(r: Request) | Rejected | Thrown | Undefined

  /** The variables of the loop; `message` stands for `opt == "-m"`. */
  datatype Options = Options(message: bool, ip: string, port: nat, fd: int, kind: Req, msg: string)

  const START: Options := Options(false, "", 0, CLOSED, Connect, "")

  /** A descriptor that does not scan leaves the earlier one in place. */
  function TakeFd(fd: int, word: string): int {
    match ScanInt(word)
    case Value(n) => n
    case _ => fd
  }

  function AppendWord(msg: string, word: string): string {
    msg + (if msg == "" then "" else " ") + word
  }

  function Run(ws: seq<string>, o: Options): Outcome {
    if ws == [] then Accepted(Request(o.ip, o.port, o.fd, o.kind, o.msg))
    else if ws[0] == "-i" then
      if |ws| == 1 then Thrown
      else
        match Validate(ws[1])
        case Overrun => Undefined
        case Addr(ip, port) => Run(ws[2..], o.(ip := ip, port := port))
    else if ws[0] == "-f" then
      if |ws| == 1 then Thrown
      else Run(ws[2..], o.(fd := TakeFd(o.fd, ws[1])))
    else if o.message then Run(ws[1..], o.(msg := AppendWord(o.msg, ws[0])))
    else if ws[0] == "-m" then Run(ws[1..], o.(message := true, kind := Write))
    else if ws[0] == "-r" then Run(ws[1..], o.(kind := Read))
    else if ws[0] == "-c" then Run(ws[1..], o.(kind := Close))
    else Rejected
  }

  function Parse(text: string): Outcome {
    Run(Words(text), START)
  }

  lemma SuffixFromFront(ws: seq<string>, i: nat)
    requires i < |ws|
    ensures |ws[i..]| == |ws| - i && ws[i..][0] == ws[i] && ws[i..][1..] == ws[i + 1..]
    ensures i + 1 < |ws| ==> ws[i..][1] == ws[i + 1] && ws[i..][2..] == ws[i + 2..]
  {
  }

  method InterpretRequest(text: string) returns (result: Outcome)
    ensures result == Parse(text)
  {
    var words := Words(text);
    var message, ip, port, fd, kind, msg := false, "", 0, CLOSED, Connect, "";
    var i := 0;
    while i < |words|
      invariant 0 <= i <= |words|
      invariant Run(words[i..], Options(message, ip, port, fd, kind, msg)) == Parse(text)
    {
      var word := words[i];
      SuffixFromFront(words, i);
      if word == "-i" {
        if i + 1 == |words| {
          return Thrown;
        }
        var addr := ValidateAddrTCP(words[i + 1]);
        if addr == Overrun {
          return Undefined;
        }
        ip, port := addr.ip, addr.port;
        i := i + 2;
      } else if word == "-f" {
        if i + 1 == |words| {
          return Thrown;
        }
        fd := TakeFd(fd, words[i + 1]);
        i := i + 2;
      } else if word == "-m" || message {
        if !message {
          message := true;
          kind := Write;
        } else {
          msg := AppendWord(msg, word);
        }
        i := i + 1;
      } else if word == "-r" {
        kind := Read;
        i := i + 1;
      } else if word == "-c" {
        kind := Close;
        i := i + 1;
      } else {
        return Rejected;
      }
    }
    result := Accepted(Request(ip, port, fd, kind, msg));
  }

  // ----- What a command line means, without the loop -----

  /** `-i` and `-f` take the next word wherever they stand, inside a message too. */
  datatype Item = AddrArg(word: string) | FdArg(word: string) | Plain(word: string) | Missing

  function Items(ws: seq<string>): seq<Item> {
    if ws == [] then []
    else if ws[0] == "-i" || ws[0] == "-f" then
      if |ws| == 1 then [Missing]
      else [if ws[0] == "-i" then AddrArg(ws[1]) else FdArg(ws[1])] + Items(ws[2..])
    else [Plain(ws[0])] + Items(ws[1..])
  }

  function Addresses(items: seq<Item>): seq<string> {
    if items == [] then [] else (if items[0].AddrArg? then [items[0].word] else []) + Addresses(items[1..])
  }

  function Descriptors(items: seq<Item>): seq<string> {
    if items == [] then [] else (if items[0].FdArg? then [items[0].word] else []) + Descriptors(items[1..])
  }

  function Plains(items: seq<Item>): seq<string> {
    if items == [] then [] else (if items[0].Plain? then [items[0].word] else []) + Plains(items[1..])
  }

  /** Index of the first "-m", or the length. */
  function MessageMark(plains: seq<string>): (k: nat)
    ensures k <= |plains|
    ensures k < |plains| ==> plains[k] == "-m"
    ensures "-m" !in plains[..k]
  {
    if plains == [] || plains[0] == "-m" then 0 else 1 + MessageMark(plains[1..])
  }

  predicate ModesOnly(plains: seq<string>) {
    forall k :: 0 <= k < MessageMark(plains) ==> plains[k] == "-r" || plains[k] == "-c"
  }

  predicate AddressesDefined(items: seq<Item>) {
    forall k :: 0 <= k < |Addresses(items)| ==> Validate(Addresses(items)[k]) != Overrun
  }

  /** Write as soon as a "-m" stands in option position, else the last of "-r" and "-c". */
  function KindOf(plains: seq<string>): Req {
    if "-m" in plains then Write
    else if plains == [] then Connect
    else if plains[|plains| - 1] == "-r" then Read
    else Close
  }

  function MessageWords(plains: seq<string>): seq<string> {
    if "-m" in plains then plains[MessageMark(plains) + 1..] else []
  }

  /** The last descriptor argument that is a number. */
  function LastDescriptor(words: seq<string>, fd: int): int
    decreases |words|
  {
    if words == [] then fd
    else
      match ScanInt(words[|words| - 1])
      case Value(n) => n
      case _ => LastDescriptor(words[..|words| - 1], fd)
  }

  lemma {:induction false} LastDescriptorFromFront(word: string, words: seq<string>, fd: int)
    ensures LastDescriptor([word] + words, fd) == LastDescriptor(words, TakeFd(fd, word))
    decreases |words|
  {
    var all := [word] + words;
    if words == [] {
      assert all[..|all| - 1] == [];
    } else {
      assert all[..|all| - 1] == [word] + words[..|words| - 1];
      LastDescriptorFromFront(word, words[..|words| - 1], fd);
    }
  }

  /** The last address argument, as the validator returns it. */
  function LastAddress(words: seq<string>, ip: string, port: nat): Addr {
    if words == [] then Addr(ip, port) else Validate(words[|words| - 1])
  }

  predicate NoneEmpty(ws: seq<string>) {
    forall k :: 0 <= k < |ws| ==> ws[k] != ""
  }

  /** The state of the loop agrees with the message words `seen` so far. */
  ghost predicate Seen(o: Options, seen: seq<string>) {
    && o.msg == Join(seen)
    && NoneEmpty(seen)
    && (if o.message then o.kind == Write else seen == [])
  }

  predicate PlainsOk(message: bool, plains: seq<string>) {
    message || ModesOnly(plains)
  }

  function KindFrom(o: Options, plains: seq<string>): Req {
    if o.message || plains == [] then o.kind else KindOf(plains)
  }

  function MessageFrom(o: Options, seen: seq<string>, plains: seq<string>): string {
    Join(seen + (if o.message then plains else MessageWords(plains)))
  }

  ghost predicate Asks(out: Outcome, missing: bool, defined: bool, plains: seq<string>, where: Addr, fd: int,
                       o: Options, seen: seq<string>) {
    && (out.Accepted? <==> !missing && defined && PlainsOk(o.message, plains))
    && (out == Thrown <==> missing && defined && PlainsOk(o.message, plains))
    && (out.Accepted? && where.Addr? ==>
          out.r == Request(where.ip, where.port, fd, KindFrom(o, plains), MessageFrom(o, seen, plains)))
  }

  ghost predicate Means(out: Outcome, items: seq<Item>, o: Options, seen: seq<string>) {
    Asks(out, Missing in items, AddressesDefined(items), Plains(items), LastAddress(Addresses(items), o.ip, o.port),
         LastDescriptor(Descriptors(items), o.fd), o, seen)
  }

  lemma AfterMode(word: string, plains: seq<string>)
    requires word != "-m"
    ensures ModesOnly([word] + plains) <==> (word == "-r" || word == "-c") && ModesOnly(plains)
    ensures MessageWords([word] + plains) == MessageWords(plains)
    ensures "-m" in [word] + plains <==> "-m" in plains
  {
    var all := [word] + plains;
    MarkAfterMode(word, plains);
    assert forall k :: 0 <= k < |plains| ==> all[k + 1] == plains[k];
    if ModesOnly(all) {
      assert all[0] == word;
      forall k | 0 <= k < MessageMark(plains) ensures plains[k] == "-r" || plains[k] == "-c" {
        assert all[k + 1] == plains[k];
      }
    }
  }

  lemma MarkAfterMode(word: string, plains: seq<string>)
    requires word != "-m"
    ensures MessageMark([word] + plains) == 1 + MessageMark(plains)
    ensures "-m" in [word] + plains <==> "-m" in plains
    ensures MessageWords([word] + plains) == MessageWords(plains)
  {
    assert ([word] + plains)[1..] == plains;
  }

  lemma AtMark(plains: seq<string>)
    ensures ModesOnly(["-m"] + plains)
    ensures MessageWords(["-m"] + plains) == plains
    ensures KindOf(["-m"] + plains) == Write
  {
    var all := ["-m"] + plains;
    assert MessageMark(all) == 0 && all[0] in all;
  }

  lemma JoinAppends(seen: seq<string>, word: string)
    requires word != "" && NoneEmpty(seen)
    ensures Join(seen + [word]) == AppendWord(Join(seen), word)
  {
    var all := seen + [word];
    assert all[..|all| - 1] == seen;
    assert Join(seen) == "" <==> seen == [];
  }

  lemma PlainFirst(word: string, rest: seq<Item>)
    ensures var items := [Plain(word)] + rest;
            && Plains(items) == [word] + Plains(rest)
            && Addresses(items) == Addresses(rest)
            && Descriptors(items) == Descriptors(rest)
            && (Missing in items <==> Missing in rest)
  {
    assert ([Plain(word)] + rest)[1..] == rest;
  }

  lemma ArgumentFirst(arg: Item, rest: seq<Item>)
    requires arg.AddrArg? || arg.FdArg?
    ensures var items := [arg] + rest;
            && Plains(items) == Plains(rest)
            && Addresses(items) == (if arg.AddrArg? then [arg.word] + Addresses(rest) else Addresses(rest))
            && Descriptors(items) == (if arg.FdArg? then [arg.word] + Descriptors(rest) else Descriptors(rest))
            && (Missing in items <==> Missing in rest)
  {
    assert ([arg] + rest)[1..] == rest;
  }

  lemma MessageWordFirst(out: Outcome, word: string, rest: seq<Item>, o: Options, seen: seq<string>)
    requires o.message && Means(out, rest, o.(msg := AppendWord(o.msg, word)), seen + [word])
    ensures Means(out, [Plain(word)] + rest, o, seen)
  {
    PlainFirst(word, rest);
    MessageOnward(o, o.(msg := AppendWord(o.msg, word)), word, seen, Plains(rest));
  }

  lemma MessageOnward(o: Options, o': Options, word: string, seen: seq<string>, plains: seq<string>)
    requires o.message && o'.message && o'.kind == o.kind
    ensures MessageFrom(o', seen + [word], plains) == MessageFrom(o, seen, [word] + plains)
    ensures KindFrom(o', plains) == KindFrom(o, [word] + plains)
  {
    assert seen + [word] + plains == seen + ([word] + plains);
  }

  lemma MarkFirst(out: Outcome, rest: seq<Item>, o: Options, seen: seq<string>)
    requires !o.message && Means(out, rest, o.(message := true, kind := Write), seen)
    ensures Means(out, [Plain("-m")] + rest, o, seen)
  {
    PlainFirst("-m", rest);
    AtMark(Plains(rest));
  }

  lemma KindAfterMode(word: string, plains: seq<string>)
    requires word == "-r" || word == "-c"
    ensures KindOf([word] + plains) == if plains == [] then (if word == "-r" then Read else Close) else KindOf(plains)
  {
    var all := [word] + plains;
    MarkAfterMode(word, plains);
    assert all[|all| - 1] == if plains == [] then word else plains[|plains| - 1];
  }

  lemma ModeFirst(out: Outcome, word: string, rest: seq<Item>, o: Options, seen: seq<string>)
    requires word == "-r" || word == "-c"
    requires !o.message && Means(out, rest, o.(kind := if word == "-r" then Read else Close), seen)
    ensures Means(out, [Plain(word)] + rest, o, seen)
  {
    PlainFirst(word, rest);
    AfterMode(word, Plains(rest));
    KindAfterMode(word, Plains(rest));
  }

  lemma LastAddressFromFront(word: string, words: seq<string>, ip: string, port: nat)
    requires Validate(word).Addr?
    ensures LastAddress([word] + words, ip, port) == LastAddress(words, Validate(word).ip, Validate(word).port)
  {
    var all := [word] + words;
    assert all[|all| - 1] == if words == [] then word else words[|words| - 1];
  }

  lemma ArgumentsOfMissing()
    ensures Plains([Missing]) == [] && Addresses([Missing]) == []
  {
    var items := [Missing];
    assert items[1..] == [];
    assert Addresses(items) == [] + Addresses(items[1..]);
  }

  lemma AddressesDefinedFromFront(word: string, rest: seq<Item>)
    ensures AddressesDefined([AddrArg(word)] + rest) <==> Validate(word) != Overrun && AddressesDefined(rest)
  {
    var items := [AddrArg(word)] + rest;
    ArgumentFirst(AddrArg(word), rest);
    var all := Addresses(items);
    assert all[0] == word;
    assert forall k :: 0 <= k < |Addresses(rest)| ==> Addresses(rest)[k] == all[k + 1];
    if AddressesDefined(items) {
      forall k | 0 <= k < |Addresses(rest)| ensures Validate(Addresses(rest)[k]) != Overrun {
        assert Validate(all[k + 1]) != Overrun;
      }
    }
  }

  lemma AddressFirst(out: Outcome, word: string, rest: seq<Item>, o: Options, seen: seq<string>)
    requires Validate(word).Addr?
    requires Means(out, rest, o.(ip := Validate(word).ip, port := Validate(word).port), seen)
    ensures Means(out, [AddrArg(word)] + rest, o, seen)
  {
    ArgumentFirst(AddrArg(word), rest);
    LastAddressFromFront(word, Addresses(rest), o.ip, o.port);
    AddressesDefinedFromFront(word, rest);
  }

  lemma DescriptorFirst(out: Outcome, word: string, rest: seq<Item>, o: Options, seen: seq<string>)
    requires Means(out, rest, o.(fd := TakeFd(o.fd, word)), seen)
    ensures Means(out, [FdArg(word)] + rest, o, seen)
  {
    ArgumentFirst(FdArg(word), rest);
    LastDescriptorFromFront(word, Descriptors(rest), o.fd);
  }

  // ----- Where the octet array overruns -----

  /** An address that runs off the octet array is reached before any unexpected word. */
  ghost predicate Overruns(items: seq<Item>, message: bool) {
    exists k :: 0 <= k < |items| && items[k].AddrArg? && Validate(items[k].word) == Overrun && PlainsOk(message, Plains(items[..k]))
  }

  predicate GoesOn(item: Item, message: bool) {
    item.Plain? ==> message || item.word == "-m" || item.word == "-r" || item.word == "-c"
  }

  lemma PlainsOkFromFront(item: Item, rest: seq<Item>, message: bool)
    ensures PlainsOk(message, Plains([item] + rest)) <==>
            GoesOn(item, message) && PlainsOk(message || item == Plain("-m"), Plains(rest))
  {
    var all := [item] + rest;
    assert all[1..] == rest;
    if item.Plain? {
      PlainFirst(item.word, rest);
      if item.word == "-m" {
        AtMark(Plains(rest));
      } else {
        AfterMode(item.word, Plains(rest));
      }
    } else {
      assert Plains(all) == [] + Plains(rest) == Plains(rest);
    }
  }

  lemma OverrunsFromFront(item: Item, rest: seq<Item>, message: bool)
    ensures Overruns([item] + rest, message) <==>
            || (item.AddrArg? && Validate(item.word) == Overrun)
            || (GoesOn(item, message) && Overruns(rest, message || item == Plain("-m")))
  {
    var all, later := [item] + rest, message || item == Plain("-m");
    forall k | 0 <= k < |rest|
      ensures all[k + 1] == rest[k]
      ensures PlainsOk(message, Plains(all[..k + 1])) <==> GoesOn(item, message) && PlainsOk(later, Plains(rest[..k]))
    {
      assert all[..k + 1] == [item] + rest[..k];
      PlainsOkFromFront(item, rest[..k], message);
    }
    if item.AddrArg? && Validate(item.word) == Overrun {
      assert all[0] == item && all[..0] == [];
      assert PlainsOk(message, Plains(all[..0]));
    }
    if k :| 0 <= k < |rest| && rest[k].AddrArg? && Validate(rest[k].word) == Overrun && PlainsOk(later, Plains(rest[..k])) {
      assert all[k + 1] == rest[k];
    }
    if k :| 0 <= k < |all| && all[k].AddrArg? && Validate(all[k].word) == Overrun && PlainsOk(message, Plains(all[..k])) {
      assert k > 0 ==> all[k] == rest[k - 1] && all[..(k - 1) + 1] == all[..k];
    }
  }

  lemma {:induction false} UndefinedExactly(ws: seq<string>, o: Options)
    ensures Run(ws, o) == Undefined <==> Overruns(Items(ws), o.message)
    decreases |ws|
  {
    if ws != [] && (ws[0] == "-i" || ws[0] == "-f") {
      if |ws| > 1 {
        var item := if ws[0] == "-i" then AddrArg(ws[1]) else FdArg(ws[1]);
        OverrunsFromFront(item, Items(ws[2..]), o.message);
        if ws[0] == "-f" {
          UndefinedExactly(ws[2..], o.(fd := TakeFd(o.fd, ws[1])));
        } else if Validate(ws[1]).Addr? {
          UndefinedExactly(ws[2..], o.(ip := Validate(ws[1]).ip, port := Validate(ws[1]).port));
        }
      }
    } else if ws != [] {
      var word := ws[0];
      OverrunsFromFront(Plain(word), Items(ws[1..]), o.message);
      if o.message {
        UndefinedExactly(ws[1..], o.(msg := AppendWord(o.msg, word)));
      } else if word == "-m" {
        UndefinedExactly(ws[1..], o.(message := true, kind := Write));
      } else if word == "-r" || word == "-c" {
        UndefinedExactly(ws[1..], o.(kind := if word == "-r" then Read else Close));
      }
    }
  }

  lemma {:induction false} RunMeans(ws: seq<string>, o: Options, seen: seq<string>)
    requires NoneEmpty(ws)
    requires Seen(o, seen)
    ensures Means(Run(ws, o), Items(ws), o, seen)
    ensures Run(ws, o) == Undefined <==> Overruns(Items(ws), o.message)
    decreases |ws|
  {
    UndefinedExactly(ws, o);
    if ws == [] {
      assert seen + [] == seen;
    } else if ws[0] == "-i" || ws[0] == "-f" {
      if |ws| > 1 {
        ArgumentMeans(ws, o, seen);
      } else {
        var items := Items(ws);
        assert items == [Missing] && items[0] == Missing && items[1..] == [];
        ArgumentsOfMissing();
      }
    } else {
      PlainMeans(ws, o, seen);
    }
  }

  lemma {:induction false} ArgumentMeans(ws: seq<string>, o: Options, seen: seq<string>)
    requires NoneEmpty(ws)
    requires |ws| > 1 && (ws[0] == "-i" || ws[0] == "-f") && Seen(o, seen)
    ensures Means(Run(ws, o), Items(ws), o, seen)
    decreases |ws|, 0
  {
    var rest := Items(ws[2..]);
    if ws[0] == "-f" {
      var next := o.(fd := TakeFd(o.fd, ws[1]));
      RunMeans(ws[2..], next, seen);
      DescriptorFirst(Run(ws[2..], next), ws[1], rest, o, seen);
    } else if Validate(ws[1]).Addr? {
      var next := o.(ip := Validate(ws[1]).ip, port := Validate(ws[1]).port);
      RunMeans(ws[2..], next, seen);
      AddressFirst(Run(ws[2..], next), ws[1], rest, o, seen);
    } else {
      AddressesDefinedFromFront(ws[1], rest);
    }
  }

  lemma {:induction false} PlainMeans(ws: seq<string>, o: Options, seen: seq<string>)
    requires NoneEmpty(ws)
    requires ws != [] && ws[0] != "-i" && ws[0] != "-f" && Seen(o, seen)
    ensures Means(Run(ws, o), Items(ws), o, seen)
    decreases |ws|, 0
  {
    var word, rest := ws[0], Items(ws[1..]);
    if o.message {
      JoinAppends(seen, word);
      var next := o.(msg := AppendWord(o.msg, word));
      RunMeans(ws[1..], next, seen + [word]);
      MessageWordFirst(Run(ws[1..], next), word, rest, o, seen);
    } else if word == "-m" {
      var next := o.(message := true, kind := Write);
      RunMeans(ws[1..], next, seen);
      MarkFirst(Run(ws[1..], next), rest, o, seen);
    } else if word == "-r" || word == "-c" {
      var next := o.(kind := if word == "-r" then Read else Close);
      RunMeans(ws[1..], next, seen);
      ModeFirst(Run(ws[1..], next), word, rest, o, seen);
    } else {
      PlainFirst(word, rest);
      AfterMode(word, Plains(rest));
    }
  }

  /** The exact meaning of a command line. It is accepted iff no option lacks its argument, no
      address runs off the octet array, and only "-r" and "-c" stand before the first "-m". What
      it then asks for depends on the last address, the last number after "-f", the modes and
      the words after that "-m". It kills the client iff the last option lacks its argument and
      nothing before stopped the loop, and it runs off the octet array iff such an address is
      reached before an unexpected word. What is left is rejected. */
  lemma OptionMeaning(text: string)
    ensures var items := Items(Words(text));
            var plains := Plains(items);
            var where := LastAddress(Addresses(items), "", 0);
            && (Parse(text).Accepted? <==> Missing !in items && AddressesDefined(items) && ModesOnly(plains))
            && (Parse(text) == Thrown <==> Missing in items && AddressesDefined(items) && ModesOnly(plains))
            && (Parse(text) == Undefined <==> Overruns(items, false))
            && (Parse(text).Accepted? ==>
                  && where.Addr?
                  && Parse(text).r == Request(where.ip, where.port, LastDescriptor(Descriptors(items), CLOSED),
                                              KindOf(plains), Join(MessageWords(plains))))
  {
    var items := Items(Words(text));
    assert forall k :: 0 <= k < |Words(text)| ==> Words(text)[k] in Words(text);
    RunMeans(Words(text), START, []);
    assert [] + MessageWords(Plains(items)) == MessageWords(Plains(items));
    if AddressesDefined(items) && Addresses(items) != [] {
      assert Validate(Addresses(items)[|Addresses(items)| - 1]) != Overrun;
    }
  }

  /** The line kills the client: its last option lacks its argument and nothing stops the loop
      before, or an address runs off the octet array before an unexpected word. */
  ghost predicate Fatal(text: string) {
    var items := Items(Words(text));
    (Missing in items && AddressesDefined(items) && ModesOnly(Plains(items))) || Overruns(items, false)
  }

  lemma FatalExactly(text: string)
    ensures Fatal(text) <==> Parse(text) == Thrown || Parse(text) == Undefined
  {
    OptionMeaning(text);
  }
}
