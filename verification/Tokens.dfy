/** `istringstream >> word`: the words of a command line. */
module Tokens {
  /** `isspace` of the C locale. */
  predicate IsSpace(c: char) {
    c == ' ' || 9 <= c as int <= 13
  }

  /** Blank, tab, line feed, vertical tab, form feed and carriage return. */
  lemma SpacesExactly(c: char)
    ensures IsSpace(c) <==> c == ' ' || c == '\t' || c == '\n' || c == 11 as char || c == 12 as char || c == '\r'
  {
  }

  predicate IsWord(w: string) {
    w != [] && forall k :: 0 <= k < |w| ==> !IsSpace(w[k])
  }

  function WordLength(s: string): (n: nat)
    ensures n <= |s|
    ensures forall k :: 0 <= k < n ==> !IsSpace(s[k])
    ensures n < |s| ==> IsSpace(s[n])
  {
    if s == [] || IsSpace(s[0]) then 0 else 1 + WordLength(s[1..])
  }

  function Words(s: string): (ws: seq<string>)
    ensures forall w :: w in ws ==> IsWord(w)
    decreases |s|
  {
    if s == [] then []
    else if IsSpace(s[0]) then Words(s[1..])
    else
      var n := WordLength(s);
      [s[..n]] + Words(s[n..])
  }

  lemma {:induction false} WordLengthAtSpace(a: string, sep: char, b: string)
    requires IsSpace(sep)
    ensures WordLength(a + [sep] + b) == WordLength(a)
  {
    if a == [] || IsSpace(a[0]) {
    } else {
      assert (a + [sep] + b)[1..] == a[1..] + [sep] + b;
      WordLengthAtSpace(a[1..], sep, b);
    }
  }

  /** A space splits the words: nothing is joined across it and nothing is lost. */
  lemma {:induction false} WordsAcrossSpace(a: string, sep: char, b: string)
    requires IsSpace(sep)
    ensures Words(a + [sep] + b) == Words(a) + Words(b)
    decreases |a|
  {
    var s := a + [sep] + b;
    if a == [] {
      assert s[1..] == b;
    } else if IsSpace(a[0]) {
      assert s[1..] == a[1..] + [sep] + b;
      WordsAcrossSpace(a[1..], sep, b);
    } else {
      var n := WordLength(a);
      FirstWord(a, sep, b);
      WordsAcrossSpace(a[n..], sep, b);
      assert Words(a) == [a[..n]] + Words(a[n..]);
      assert [a[..n]] + (Words(a[n..]) + Words(b)) == Words(a) + Words(b);
    }
  }

  lemma FirstWord(a: string, sep: char, b: string)
    requires IsSpace(sep) && a != [] && !IsSpace(a[0])
    ensures var n := WordLength(a); 0 < n && Words(a + [sep] + b) == [a[..n]] + Words(a[n..] + [sep] + b)
  {
    var s, n := a + [sep] + b, WordLength(a);
    WordLengthAtSpace(a, sep, b);
    assert s[..n] == a[..n];
    assert s[n..] == a[n..] + [sep] + b;
  }

  lemma WordsOfWord(w: string)
    requires IsWord(w)
    ensures Words(w) == [w]
  {
    var n := WordLength(w);
    assert n == |w|;
    assert w[..n] == w && w[n..] == [];
  }

  /** Words joined by one space; a join reads back as the same words. */
  function Join(ws: seq<string>): string {
    if ws == [] then ""
    else if |ws| == 1 then ws[0]
    else Join(ws[..|ws| - 1]) + " " + ws[|ws| - 1]
  }

  lemma {:induction false} WordsOfJoin(ws: seq<string>)
    requires forall w :: w in ws ==> IsWord(w)
    ensures Words(Join(ws)) == ws
  {
    if ws == [] {
    } else if |ws| == 1 {
      WordsOfWord(ws[0]);
    } else {
      var rest, last := ws[..|ws| - 1], ws[|ws| - 1];
      WordsOfJoin(rest);
      WordsOfWord(last);
      WordsAcrossSpace(Join(rest), ' ', last);
      assert Join(rest) + [' '] + last == Join(ws);
    }
  }
}
