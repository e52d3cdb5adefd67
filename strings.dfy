/**
 * The string operations the client uses to build a command line and cut it
 * back into words: `Array.prototype.join`, `String.prototype.split` with a
 * one-character separator, and the decimal rendering of an integer in a
 * template literal.
 */
module Strings {

  /** `words.join(sep)`: nothing for no words, otherwise a line that starts with the first word. */
  function Join(words: seq<string>, sep: char): (line: string)
    ensures |words| == 0 ==> line == ""
    ensures |words| > 0 ==> words[0] <= line
  {
    if |words| == 0 then ""
    else if |words| == 1 then words[0]
    else words[0] + [sep] + Join(words[1..], sep)
  }

  /** Joining a word in front of at least one more puts one separator after it. */
  lemma JoinCons(w: string, rest: seq<string>, sep: char)
    requires |rest| > 0
    ensures Join([w] + rest, sep) == w + [sep] + Join(rest, sep)
  {
    assert ([w] + rest)[1..] == rest;
  }

  /** When no word holds the separator, the joined line holds one separator between each two words. */
  lemma {:induction false} JoinSeparators(words: seq<string>, sep: char)
    requires forall i :: 0 <= i < |words| ==> sep !in words[i]
    ensures multiset(Join(words, sep))[sep] == (if |words| == 0 then 0 else |words| - 1)
  {
    if |words| > 1 {
      JoinSeparators(words[1..], sep);
      assert multiset(words[0])[sep] == 0;
      assert multiset(Join(words, sep)) == multiset(words[0]) + multiset([sep]) + multiset(Join(words[1..], sep));
    } else if |words| == 1 {
      assert multiset(words[0])[sep] == 0;
    }
  }

  /** `s.split(sep)`: the maximal pieces between separators, at least one. */
  function Split(s: string, sep: char): (pieces: seq<string>)
    ensures |pieces| >= 1
    ensures forall i :: 0 <= i < |pieces| ==> sep !in pieces[i]
    decreases |s|
  {
    if |s| == 0 then [""]
    else
      var rest := Split(s[1..], sep);
      if s[0] == sep then [""] + rest
      else [[s[0]] + rest[0]] + rest[1..]
  }

  /** A piece with no separator in it splits into itself. */
  lemma {:induction false} SplitWord(w: string, sep: char)
    requires sep !in w
    ensures Split(w, sep) == [w]
    decreases |w|
  {
    if |w| > 0 {
      SplitWord(w[1..], sep);
      assert [w[0]] + w[1..] == w;
    }
  }

  /** Splitting stops at the first separator. */
  lemma {:induction false} SplitAtSeparator(a: string, b: string, sep: char)
    requires sep !in a
    ensures Split(a + [sep] + b, sep) == [a] + Split(b, sep)
    decreases |a|
  {
    if |a| == 0 {
      assert a + [sep] + b == [sep] + b;
      assert ([sep] + b)[1..] == b;
    } else {
      SplitAtSeparator(a[1..], b, sep);
      assert (a + [sep] + b)[1..] == a[1..] + [sep] + b;
      assert [a[0]] + a[1..] == a;
    }
  }

  /** Splitting a join of separator-free pieces gives the pieces back. */
  lemma {:induction false} SplitJoin(words: seq<string>, sep: char)
    requires |words| >= 1
    requires forall i :: 0 <= i < |words| ==> sep !in words[i]
    ensures Split(Join(words, sep), sep) == words
  {
    if |words| == 1 {
      SplitWord(words[0], sep);
    } else {
      SplitJoin(words[1..], sep);
      SplitAtSeparator(words[0], Join(words[1..], sep), sep);
      assert [words[0]] + words[1..] == words;
    }
  }

  function DigitChar(d: nat): (c: char)
    requires d < 10
  {
    "0123456789"[d]
  }

  function Digits(n: nat): (s: string)
    ensures |s| >= 1
    ensures forall i :: 0 <= i < |s| ==> '0' <= s[i] <= '9'
  {
    if n < 10 then [DigitChar(n)] else Digits(n / 10) + [DigitChar(n % 10)]
  }

  /** `${n}` for an integer `n`: optional minus sign, then decimal digits. */
  function Decimal(n: int): (s: string)
    ensures |s| >= 1 && ' ' !in s
  {
    if n < 0 then "-" + Digits(-n) else Digits(n)
  }
}
