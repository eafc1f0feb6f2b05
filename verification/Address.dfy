/** `validateAddrTCP`: the "ip:port" argument of `-i`. */
module Address {
  import opened Decimal

  /** A failed check yields an empty ip. A fifth octet is written past the end of a four-element
      array, after which C++ promises nothing. */
  datatype Addr = Addr(ip: string, port: nat) | Overrun

  /** Offset of the first `c`, or the length of `s`. */
  function Find(s: string, c: char): (k: nat)
    ensures k <= |s|
    ensures k < |s| ==> s[k] == c
    ensures c !in s[..k]
  {
    if s == [] || s[0] == c then 0 else 1 + Find(s[1..], c)
  }

  /** The stretches between the dots. */
  function Pieces(s: string): (ps: seq<string>)
    ensures |ps| > 0
    decreases |s|
  {
    var k := Find(s, '.');
    if k == |s| then [s] else [s[..k]] + Pieces(s[k + 1..])
  }

  /** The tokens of `sregex_token_iterator` with submatch -1: an empty stretch after the last
      dot is not a token. */
  function Split(s: string): (ts: seq<string>)
    ensures |ts| > 0
  {
    var ps := Pieces(s);
    if |ps| > 1 && ps[|ps| - 1] == "" then ps[..|ps| - 1] else ps
  }

  /** A token passes for octet `idx`: it starts with a number up to 255, and the first one is
      not zero. Characters after the number are not looked at. */
  predicate OctetOk(token: string, idx: nat) {
    match ScanUnsigned(token, 255)
    case Value(n) => idx > 0 || n != 0
    case _ => false
  }

  /** The octet loop from token `idx` on. */
  function CheckOctets(tokens: seq<string>, idx: nat, ip: string, port: nat): Addr
    requires idx <= |tokens|
    decreases |tokens| - idx
  {
    if idx == |tokens| then Addr(ip, port)
    else if idx >= 4 then Overrun
    else if !OctetOk(tokens[idx], idx) then Addr("", port)
    else CheckOctets(tokens, idx + 1, ip, port)
  }

  function Validate(addr: string): Addr {
    var sep := Find(addr, ':');
    if sep == |addr| then Addr("", 0)
    else
      match ScanUnsigned(addr[sep + 1..], 65535)
      case Value(port) =>
        if port == 0 then Addr("", 0) else CheckOctets(Split(addr[..sep]), 0, addr[..sep], port)
      case _ => Addr("", 0)
  }

  method ValidateAddrTCP(addr: string) returns (r: Addr)
    ensures r == Validate(addr)
  {
    var sep := Find(addr, ':');
    if sep == |addr| {
      return Addr("", 0);
    }
    var port := 0;
    var scan := ScanUnsigned(addr[sep + 1..], 65535);
    if scan.Value? {
      port := scan.n;
    }
    if !scan.Value? || port == 0 {
      return Addr("", 0);
    }
    var ip := addr[..sep];
    var tokens := Split(ip);
    ghost var answer := CheckOctets(tokens, 0, ip, port);
    assert Validate(addr) == answer;
    var octet := new int[4];
    var idx := 0;
    while idx < |tokens|
      invariant 0 <= idx <= |tokens|
      invariant CheckOctets(tokens, idx, ip, port) == answer
    {
      if idx >= octet.Length {
        return Overrun;
      }
      var value := ScanUnsigned(tokens[idx], 255);
      if value.Value? {
        octet[idx] := value.n;
      }
      if !value.Value? || (idx == 0 && octet[idx] == 0) {
        return Addr("", port);
      }
      idx := idx + 1;
    }
    r := Addr(ip, port);
  }

  // ----- What is accepted -----

  function BeforeColon(addr: string): string {
    addr[..Find(addr, ':')]
  }

  /** Empty without a colon. */
  function AfterColon(addr: string): string {
    if Find(addr, ':') == |addr| then "" else addr[Find(addr, ':') + 1..]
  }

  lemma ValidateByParts(addr: string)
    ensures var port := ScanUnsigned(AfterColon(addr), 65535);
            Validate(addr) ==
            if port.Value? && port.n != 0 then CheckOctets(Split(BeforeColon(addr)), 0, BeforeColon(addr), port.n) else Addr("", 0)
    ensures Find(addr, ':') == |addr| ==> ScanUnsigned(AfterColon(addr), 65535) == NoDigits
  {
  }

  /** Everything `-i` accepts. */
  predicate Acceptable(addr: string) {
    var port, tokens := ScanUnsigned(AfterColon(addr), 65535), Split(BeforeColon(addr));
    && port.Value? && port.n != 0
    && |tokens| <= 4
    && forall k :: 0 <= k < |tokens| ==> OctetOk(tokens[k], k)
  }

  lemma {:induction false} CheckOctetsExactly(tokens: seq<string>, idx: nat, ip: string, port: nat)
    requires idx <= |tokens| && ip != ""
    ensures CheckOctets(tokens, idx, ip, port) == Addr(ip, port) <==>
            (idx < |tokens| ==> |tokens| <= 4) && forall k :: idx <= k < |tokens| ==> OctetOk(tokens[k], k)
    ensures CheckOctets(tokens, idx, ip, port) in {Addr(ip, port), Addr("", port), Overrun}
    ensures CheckOctets(tokens, idx, ip, port) == Overrun <==>
            idx < |tokens| && |tokens| > 4 && forall k :: idx <= k < 4 ==> OctetOk(tokens[k], k)
    decreases |tokens| - idx
  {
    if idx < |tokens| && idx < 4 && OctetOk(tokens[idx], idx) {
      CheckOctetsExactly(tokens, idx + 1, ip, port);
    }
  }

  lemma EmptyIpIsRejected(port: nat)
    ensures CheckOctets(Split(""), 0, "", port) == Addr("", port)
  {
    assert Split("") == [""];
  }

  /** Validation either returns the text before the colon and the port number, exactly for the
      acceptable arguments, or an empty ip, or runs off the octet array. It does the last
      exactly when the port and the first four octets pass and a fifth token follows. */
  lemma ValidateExactly(addr: string)
    ensures var r, port, tokens := Validate(addr), ScanUnsigned(AfterColon(addr), 65535), Split(BeforeColon(addr));
            && (r.Addr? && r.ip != "" <==> Acceptable(addr))
            && (Acceptable(addr) ==> r == Addr(BeforeColon(addr), port.n) && 0 < r.port <= 65535)
            && (r == Overrun <==>
                  port.Value? && port.n != 0 && |tokens| > 4 && forall k :: 0 <= k < 4 ==> OctetOk(tokens[k], k))
  {
    var ip, port := BeforeColon(addr), ScanUnsigned(AfterColon(addr), 65535);
    ValidateByParts(addr);
    if port.Value? && port.n != 0 {
      if ip == "" {
        EmptyIpIsRejected(port.n);
        assert Split(ip) == [""] && !OctetOk("", 0);
      } else {
        CheckOctetsExactly(Split(ip), 0, ip, port.n);
      }
    }
  }

  // ----- What is accepted, by the numbers -----

  /** The text after the colon starts with a port number. */
  ghost predicate PortIn(s: string, port: nat) {
    1 <= port <= 65535 && StartsWith(s, port)
  }

  /** A token starts with a number that an octet can hold; the first one is not zero. */
  ghost predicate OctetIn(token: string, k: nat, n: nat) {
    n <= 255 && (k == 0 ==> n != 0) && StartsWith(token, n)
  }

  /** Either no number or one that this octet cannot hold. */
  ghost predicate BadOctet(token: string, k: nat) {
    NoNumber(token) || exists n: nat :: StartsWith(token, n) && (n > 255 || (k == 0 && n == 0))
  }

  lemma OctetOkMeans(token: string, k: nat)
    ensures OctetOk(token, k) <==> GoodOctet(token, k)
    ensures OctetOk(token, k) <==> !BadOctet(token, k)
  {
    ScanMeans(token, 255);
    if OctetOk(token, k) {
      var n: nat := ScanUnsigned(token, 255).n;
      assert OctetIn(token, k, n);
      forall m: nat | StartsWith(token, m) ensures m == n {
        StartsUnique(token, m, n);
      }
    }
    if n: nat :| OctetIn(token, k, n) {
      assert ScanUnsigned(token, 255) == Value(n);
    }
  }

  ghost predicate GoodPort(s: string) {
    exists port: nat :: PortIn(s, port)
  }

  ghost predicate GoodOctet(token: string, k: nat) {
    exists n: nat :: OctetIn(token, k, n)
  }

  /** No number, or zero, or one above 65535. */
  ghost predicate BadPort(s: string) {
    NoNumber(s) || exists n: nat :: StartsWith(s, n) && (n == 0 || n > 65535)
  }

  lemma PortMeans(s: string)
    ensures var scan := ScanUnsigned(s, 65535);
            && (scan.Value? && scan.n != 0 <==> GoodPort(s))
            && (scan.Value? && scan.n != 0 ==> PortIn(s, scan.n))
            && (GoodPort(s) <==> !BadPort(s))
  {
    ScanMeans(s, 65535);
    if ScanUnsigned(s, 65535).Value? {
      var n: nat := ScanUnsigned(s, 65535).n;
      assert StartsWith(s, n);
      assert n != 0 ==> PortIn(s, n);
      forall m: nat | StartsWith(s, m) ensures m == n {
        StartsUnique(s, m, n);
      }
    }
    if port: nat :| PortIn(s, port) {
      assert ScanUnsigned(s, 65535) == Value(port);
    }
  }

  lemma OctetsByNumbers(tokens: seq<string>, n: nat)
    requires n <= |tokens|
    ensures (forall k :: 0 <= k < n ==> OctetOk(tokens[k], k)) <==> forall k :: 0 <= k < n ==> GoodOctet(tokens[k], k)
  {
    forall k | 0 <= k < n ensures OctetOk(tokens[k], k) <==> GoodOctet(tokens[k], k) {
      OctetOkMeans(tokens[k], k);
    }
  }

  /** An argument is accepted exactly when the text after the first colon starts with a number from 1
      to 65535 and each of at most four stretches before it with one up to 255, the first not zero;
      what comes back is the text before the colon and that port. The array overruns exactly when
      that holds of the first four stretches and there are more. */
  lemma AcceptedByNumbers(addr: string)
    ensures var r, tokens := Validate(addr), Split(BeforeColon(addr));
            && (r.Addr? && r.ip != "" <==>
                  GoodPort(AfterColon(addr)) && |tokens| <= 4 && forall k :: 0 <= k < |tokens| ==> GoodOctet(tokens[k], k))
            && (r.Addr? && r.ip != "" ==> r.ip == BeforeColon(addr) && PortIn(AfterColon(addr), r.port))
            && (r == Overrun <==>
                  GoodPort(AfterColon(addr)) && |tokens| > 4 && forall k :: 0 <= k < 4 ==> GoodOctet(tokens[k], k))
  {
    var tokens := Split(BeforeColon(addr));
    ValidateExactly(addr);
    PortMeans(AfterColon(addr));
    OctetsByNumbers(tokens, if |tokens| > 4 then 4 else |tokens|);
  }

  /** One bad octet among the first four is enough for an empty ip. */
  lemma BadOctetRejected(addr: string, k: nat)
    requires k < 4 && k < |Split(BeforeColon(addr))| && BadOctet(Split(BeforeColon(addr))[k], k)
    ensures Validate(addr).Addr? && Validate(addr).ip == ""
  {
    OctetOkMeans(Split(BeforeColon(addr))[k], k);
    ValidateExactly(addr);
  }

  /** So is a missing colon, or a port that is no number, zero or too big. */
  lemma BadPortRejected(addr: string)
    requires Find(addr, ':') < |addr| ==> BadPort(AfterColon(addr))
    ensures Validate(addr) == Addr("", 0)
  {
    ValidateByParts(addr);
    PortMeans(AfterColon(addr));
  }

  function JoinDots(ps: seq<string>): string {
    if ps == [] then "" else if |ps| == 1 then ps[0] else ps[0] + "." + JoinDots(ps[1..])
  }

  /** The stretches hold no dot, and with dots between them they are the text. */
  lemma CutAt(s: string, k: nat)
    requires k < |s|
    ensures s == s[..k] + [s[k]] + s[k + 1..]
  {
  }

  lemma JoinDotsOnward(p: string, ps: seq<string>)
    requires ps != []
    ensures JoinDots([p] + ps) == p + "." + JoinDots(ps)
  {
    assert ([p] + ps)[1..] == ps;
  }

  /** The stretches hold no dot, and with dots between them they are the text. */
  lemma {:induction false} PiecesExactly(s: string)
    ensures JoinDots(Pieces(s)) == s
    ensures forall k :: 0 <= k < |Pieces(s)| ==> '.' !in Pieces(s)[k]
    decreases |s|
  {
    var k := Find(s, '.');
    if k < |s| {
      var rest := s[k + 1..];
      PiecesExactly(rest);
      JoinDotsOnward(s[..k], Pieces(rest));
      CutAt(s, k);
    } else {
      assert s[..k] == s;
    }
  }

  lemma SlicesInFront(s: string, k: nat, rest: string)
    requires k < |s|
    ensures (s + rest)[..k] == s[..k] && (s + rest)[k + 1..] == s[k + 1..] + rest
  {
  }

  lemma {:induction false} PiecesBeforeDot(s: string)
    ensures Pieces(s + ".") == Pieces(s) + [""]
    decreases |s|
  {
    var k := Find(s, '.');
    FindInFront(s, '.', ".");
    if k < |s| {
      SlicesInFront(s, k, ".");
      PiecesBeforeDot(s[k + 1..]);
      assert [s[..k]] + (Pieces(s[k + 1..]) + [""]) == ([s[..k]] + Pieces(s[k + 1..])) + [""];
    } else {
      PiecesAcrossDot(s, "");
      assert Pieces("") == [""];
      assert s + "." + "" == s + ".";
    }
  }

  lemma {:induction false} FindInFront(s: string, c: char, rest: string)
    requires rest != [] && rest[0] == c
    ensures Find(s + rest, c) == Find(s, c)
  {
    if s == [] {
      assert s + rest == rest;
    } else if s[0] != c {
      assert (s + rest)[1..] == s[1..] + rest;
      FindInFront(s[1..], c, rest);
    }
  }

  predicate EndsEmpty(s: string) {
    s == "" || s[|s| - 1] == '.'
  }

  lemma EndsOnward(front: string, back: string)
    ensures EndsEmpty(front + "." + back) <==> EndsEmpty(back)
  {
    var s := front + "." + back;
    assert s[|s| - 1] == if back == "" then '.' else back[|back| - 1];
  }

  lemma {:induction false} LastOfJoin(ps: seq<string>)
    requires ps != [] && '.' !in ps[|ps| - 1]
    ensures EndsEmpty(JoinDots(ps)) <==> ps[|ps| - 1] == ""
  {
    if |ps| > 1 {
      LastOfJoin(ps[1..]);
      EndsOnward(ps[0], JoinDots(ps[1..]));
    } else if ps[0] != "" {
      assert ps[0][|ps[0]| - 1] in ps[0];
    }
  }

  lemma LastPiece(s: string)
    ensures Pieces(s)[|Pieces(s)| - 1] == "" <==> EndsEmpty(s)
  {
    PiecesExactly(s);
    LastOfJoin(Pieces(s));
  }

  /** The tokens are the stretches between the dots; one dot at the end is not looked at. */
  lemma SplitExactly(s: string)
    ensures Split(s + ".") == Pieces(s)
    ensures s == "" || !EndsEmpty(s) ==> Split(s) == Pieces(s)
  {
    PiecesBeforeDot(s);
    LastPiece(s);
  }

  // ----- Dotted quads -----

  /** `dec-octet` of section 3.2.2 of RFC 3986. */
  predicate DecOctet(s: string) {
    && AllDigits(s)
    && ( || |s| == 1
         || (|s| == 2 && '1' <= s[0])
         || (|s| == 3 && s[0] == '1')
         || (|s| == 3 && s[0] == '2' && s[1] <= '4')
         || (|s| == 3 && s[0] == '2' && s[1] == '5' && s[2] <= '5'))
  }

  function Quad(a: string, b: string, c: string, d: string): string {
    a + "." + (b + "." + (c + "." + d))
  }

  lemma {:induction false} NumberOfThree(s: string)
    requires AllDigits(s) && 1 <= |s| <= 3
    ensures Number(s) == (if |s| == 1 then s[0] as int - 48
                          else if |s| == 2 then 10 * (s[0] as int - 48) + (s[1] as int - 48)
                          else 100 * (s[0] as int - 48) + 10 * (s[1] as int - 48) + (s[2] as int - 48))
  {
    var t := s[..|s| - 1];
    assert Number(s) == 10 * Number(t) + (s[|s| - 1] as int - 48);
    if |s| > 1 {
      NumberOfThree(t);
    }
  }

  /** Every grammatical octet passes, except a leading "0". */
  lemma DecOctetOk(s: string, idx: nat)
    requires DecOctet(s) && (idx == 0 ==> s != "0")
    ensures OctetOk(s, idx)
  {
    DigitRunStops(s, "");
    assert s + "" == s && s[..|s|] == s;
    NumberOfThree(s);
  }

  lemma {:induction false} FindAfter(s: string, c: char, rest: string)
    requires c !in s
    ensures Find(s + [c] + rest, c) == |s| && Find(s, c) == |s|
  {
    if s != [] {
      assert c !in s[1..];
      FindAfter(s[1..], c, rest);
      assert (s + [c] + rest)[1..] == s[1..] + [c] + rest;
    }
  }

  lemma PiecesAcrossDot(s: string, rest: string)
    requires '.' !in s
    ensures Pieces(s + "." + rest) == [s] + Pieces(rest)
    ensures Pieces(s) == [s]
  {
    FindAfter(s, '.', rest);
    assert (s + "." + rest)[..|s|] == s && (s + "." + rest)[|s| + 1..] == rest;
  }

  lemma PiecesOfTwo(c: string, d: string)
    requires AllDigits(c) && AllDigits(d)
    ensures Pieces(c + "." + d) == [c, d]
  {
    PiecesAcrossDot(d, "");
    PiecesAcrossDot(c, d);
  }

  lemma PiecesOfQuad(a: string, b: string, c: string, d: string)
    requires AllDigits(a) && AllDigits(b) && AllDigits(c) && AllDigits(d)
    ensures Pieces(Quad(a, b, c, d)) == [a, b, c, d]
  {
    PiecesOfTwo(c, d);
    PiecesAcrossDot(b, c + "." + d);
    PiecesAcrossDot(a, b + "." + (c + "." + d));
  }

  /** Validation of a text put together from an ip and a port. */
  lemma ValidateJoined(ip: string, text: string, port: nat)
    requires ':' !in ip && ScanUnsigned(text, 65535) == Value(port) && port != 0
    ensures Validate(ip + ":" + text) == CheckOctets(Split(ip), 0, ip, port)
  {
    FindAfter(ip, ':', text);
    var addr := ip + ":" + text;
    assert addr[..|ip|] == ip && addr[|ip| + 1..] == text;
  }

  /** Every IPv4address with a nonzero first octet, with any usable port, is returned as written. */
  lemma QuadsAreAccepted(a: string, b: string, c: string, d: string, port: nat)
    requires DecOctet(a) && DecOctet(b) && DecOctet(c) && DecOctet(d) && a != "0"
    requires 1 <= port <= 65535
    ensures Validate(Quad(a, b, c, d) + ":" + Print(port)) == Addr(Quad(a, b, c, d), port)
  {
    var ip := Quad(a, b, c, d);
    ScanPrintedUnsigned(port, 65535, "");
    assert Print(port) == Digits(port) + "";
    ValidateJoined(ip, Print(port), port);
    PiecesOfQuad(a, b, c, d);
    FourOctetsPass(a, b, c, d, ip, port);
  }

  /** The same with a last octet above 255, whatever it is: the ip comes back empty. */
  lemma OctetAbove255(a: string, b: string, c: string, n: nat, port: nat)
    requires DecOctet(a) && DecOctet(b) && DecOctet(c) && n >= 256 && 1 <= port <= 65535
    ensures Validate(Quad(a, b, c, Digits(n)) + ":" + Print(port)) == Addr("", port)
  {
    var ip := Quad(a, b, c, Digits(n));
    ScanPrintedUnsigned(port, 65535, "");
    assert Print(port) == Digits(port) + "";
    ValidateJoined(ip, Print(port), port);
    PiecesOfQuad(a, b, c, Digits(n));
    BigNumberIsBad(n, 3);
    LastOctetBad(a, b, c, Digits(n), ip, port);
  }

  lemma BigNumberIsBad(n: nat, k: nat)
    requires n >= 256
    ensures !OctetOk(Digits(n), k)
  {
    PrintedStarts(n, "");
    assert Digits(n) + "" == Digits(n);
    OctetOkMeans(Digits(n), k);
  }

  lemma LastOctetBad(a: string, b: string, c: string, d: string, ip: string, port: nat)
    requires !OctetOk(d, 3) && ip != ""
    ensures CheckOctets([a, b, c, d], 0, ip, port) == Addr("", port)
  {
    CheckOctetsExactly([a, b, c, d], 0, ip, port);
    assert [a, b, c, d][3] == d;
  }

  lemma FourOctetsPass(a: string, b: string, c: string, d: string, ip: string, port: nat)
    requires DecOctet(a) && DecOctet(b) && DecOctet(c) && DecOctet(d) && a != "0" && ip != ""
    ensures CheckOctets([a, b, c, d], 0, ip, port) == Addr(ip, port)
  {
    DecOctetOk(a, 0);
    DecOctetOk(b, 1);
    DecOctetOk(c, 2);
    DecOctetOk(d, 3);
    CheckOctetsExactly([a, b, c, d], 0, ip, port);
  }

  /** More than the grammar is accepted: any numeric start of an octet or of the port is enough,
      and fewer than four octets will do. */
  lemma NotOnlyQuads(a: string, junk: string, port: nat)
    requires DecOctet(a) && a != "0" && 1 <= port <= 65535
    requires junk != "" && !IsDigit(junk[0]) && '.' !in junk && ':' !in junk
    ensures Validate((a + junk) + ":" + (Digits(port) + junk)) == Addr(a + junk, port)
  {
    ScanPrintedUnsigned(port, 65535, junk);
    ValidateJoined(a + junk, Digits(port) + junk, port);
    PiecesAcrossDot(a + junk, "");
    OctetWithJunk(a, junk);
    CheckOctetsExactly([a + junk], 0, a + junk, port);
  }

  /** A dot may close the list of octets. */
  lemma TrailingDotAccepted(a: string, port: nat)
    requires DecOctet(a) && a != "0" && 1 <= port <= 65535
    ensures Validate((a + ".") + ":" + Digits(port)) == Addr(a + ".", port)
  {
    ScanPrintedUnsigned(port, 65535, "");
    assert Digits(port) == Digits(port) + "";
    ValidateJoined(a + ".", Digits(port), port);
    PiecesAcrossDot(a, "");
    assert a + "." + "" == a + "." && Pieces("") == [""];
    DecOctetOk(a, 0);
    CheckOctetsExactly([a], 0, a + ".", port);
  }

  lemma OctetWithJunk(a: string, junk: string)
    requires DecOctet(a) && a != "0" && junk != "" && !IsDigit(junk[0])
    ensures OctetOk(a + junk, 0)
  {
    DigitRunStops(a, junk);
    assert (a + junk)[..|a|] == a;
    NumberOfThree(a);
  }
}
