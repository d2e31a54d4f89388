/**
 * Character classes and the string operations of Python's `str` that the
 * transcript pipeline relies on: `lstrip`, `rstrip`, `strip`, `split()` with
 * no separator, and `sep.join(parts)`.
 */
module Strings {

  /** Whitespace as Python's `\s` and `str.isspace` see it in the ASCII range:
      space, tab, line feed, vertical tab, form feed, carriage return and the
      four separators 0x1C to 0x1F. */
  predicate IsSpace(c: char) {
    c == ' ' || ('\t' <= c <= '\r') || ('\U{1C}' <= c <= '\U{1F}')
  }

  /** Digits as Python's `\d` sees them in the ASCII range. */
  predicate IsDigit(c: char) {
    '0' <= c <= '9'
  }

  /** A word: a non-empty run with no whitespace in it. */
  predicate IsWord(w: string) {
    |w| > 0 && forall i :: 0 <= i < |w| ==> !IsSpace(w[i])
  }

  /** Nothing but whitespace (the empty string included). */
  predicate AllSpace(s: string) {
    forall i :: 0 <= i < |s| ==> IsSpace(s[i])
  }

  /** Two runs of whitespace make one. */
  lemma AllSpaceAppend(a: string, b: string)
    requires AllSpace(a) && AllSpace(b)
    ensures AllSpace(a + b)
  {
    forall i | 0 <= i < |a + b|
      ensures IsSpace((a + b)[i])
    {
      if i >= |a| {
        assert (a + b)[i] == b[i - |a|];
      }
    }
  }

  /** The shape of normalised text: no whitespace at either end, and every
      whitespace character is a single space followed by a non-space. */
  ghost predicate SingleSpaced(s: string) {
    && (s != [] ==> !IsSpace(s[0]) && !IsSpace(s[|s| - 1]))
    && (forall i :: 0 <= i < |s| && IsSpace(s[i]) ==> s[i] == ' ')
    && NoDoubleSpace(s)
  }

  /** No two whitespace characters stand next to each other. */
  ghost predicate NoDoubleSpace(s: string) {
    forall i, j :: 0 <= i < j < |s| && j - i == 1 ==> !(IsSpace(s[i]) && IsSpace(s[j]))
  }

  /** `s.lstrip()`: drop every leading whitespace character. */
  function TrimStart(s: string): (r: string)
    ensures |r| <= |s|
    ensures s != [] && IsSpace(s[0]) ==> |r| < |s|
    ensures r == [] || !IsSpace(r[0])
  {
    if s != [] && IsSpace(s[0]) then TrimStart(s[1..]) else s
  }

  /** What `lstrip` removes is a prefix made only of whitespace. */
  lemma {:induction false} TrimStartSuffix(s: string)
    ensures TrimStart(s) == s[|s| - |TrimStart(s)|..]
    ensures forall i :: 0 <= i < |s| - |TrimStart(s)| ==> IsSpace(s[i])
  {
    if s != [] && IsSpace(s[0]) {
      TrimStartSuffix(s[1..]);
    }
  }

  /** `s.rstrip()`: drop every trailing whitespace character. */
  function TrimEnd(s: string): (r: string)
    ensures |r| <= |s|
    ensures r == [] || !IsSpace(r[|r| - 1])
  {
    if s != [] && IsSpace(s[|s| - 1]) then TrimEnd(s[..|s| - 1]) else s
  }

  /** What `rstrip` removes is a suffix made only of whitespace. */
  lemma {:induction false} TrimEndPrefix(s: string)
    ensures TrimEnd(s) == s[..|TrimEnd(s)|]
    ensures forall i :: |TrimEnd(s)| <= i < |s| ==> IsSpace(s[i])
  {
    if s != [] && IsSpace(s[|s| - 1]) {
      TrimEndPrefix(s[..|s| - 1]);
    }
  }

  /** `s.strip()`: no whitespace is left at either end, and the result is
      empty exactly when `s` is nothing but whitespace. */
  function Trim(s: string): (r: string)
    ensures |r| <= |s|
    ensures r != [] ==> !IsSpace(r[0]) && !IsSpace(r[|r| - 1])
    ensures r == [] <==> AllSpace(s)
  {
    TrimStartSuffix(s);
    TrimEndPrefix(TrimStart(s));
    TrimEnd(TrimStart(s))
  }

  /** Length of the run of non-whitespace characters that starts `s`. */
  function WordLen(s: string): (n: nat)
    ensures n <= |s|
    ensures forall i :: 0 <= i < n ==> !IsSpace(s[i])
    ensures n < |s| ==> IsSpace(s[n])
  {
    if s == [] || IsSpace(s[0]) then 0 else 1 + WordLen(s[1..])
  }

  /** `s.split()`: the maximal runs of non-whitespace characters, in order. */
  function Words(s: string): (r: seq<string>)
    ensures forall i :: 0 <= i < |r| ==> IsWord(r[i])
    decreases |s|
  {
    var t := TrimStart(s);
    if t == [] then []
    else
      var n := WordLen(t);
      WordPrefixIsWord(t);
      [t[..n]] + Words(t[n..])
  }

  /** Text that starts with a non-space starts with a word. */
  lemma WordPrefixIsWord(t: string)
    requires t != [] && !IsSpace(t[0])
    ensures WordLen(t) > 0 && IsWord(t[..WordLen(t)])
  {
  }

  /** `sep.join(parts)`. With a non-empty separator the join is empty
      exactly when there is nothing to join, or a single empty part. */
  function JoinWith(parts: seq<string>, sep: string): (r: string)
    ensures sep != [] ==> (r == [] <==> |parts| == 0 || (|parts| == 1 && parts[0] == []))
  {
    if |parts| == 0 then ""
    else if |parts| == 1 then parts[0]
    else parts[0] + sep + JoinWith(parts[1..], sep)
  }

  /** `"".join(parts)`, peeled from the right. */
  function Concat(parts: seq<string>): string {
    if parts == [] then "" else Concat(parts[..|parts| - 1]) + parts[|parts| - 1]
  }

  /** Joining a part in front of a non-empty list puts one separator between. */
  lemma JoinWithCons(x: string, xs: seq<string>, sep: string)
    requires xs != []
    ensures JoinWith([x] + xs, sep) == x + sep + JoinWith(xs, sep)
  {
    assert ([x] + xs)[1..] == xs;
  }

  /** A join of two parts has the separator between them. */
  lemma JoinWithTwo(a: string, b: string, sep: string)
    ensures JoinWith([a, b], sep) == a + sep + b
  {
    assert [a, b][1..] == [b];
    assert JoinWith([b], sep) == b;
  }

  /** A join of three parts keeps them in order, separator between each. */
  lemma JoinWithThree(a: string, b: string, c: string, sep: string)
    ensures JoinWith([a, b, c], sep) == a + sep + b + sep + c
  {
    assert [a, b, c][1..] == [b, c];
    assert [b, c][1..] == [c];
    assert JoinWith([c], sep) == c;
    assert JoinWith([b, c], sep) == b + sep + c;
  }

  /** A string has no words exactly when it is all whitespace. */
  lemma WordsEmpty(s: string)
    ensures Words(s) == [] <==> AllSpace(s)
  {
    var t := TrimStart(s);
    TrimStartSuffix(s);
    if t != [] {
      assert !IsSpace(s[|s| - |t|]);
    }
  }

  /** Joining two non-empty single-spaced strings with a space is single-spaced. */
  lemma SingleSpacedJoinStep(a: string, b: string)
    requires a != [] && SingleSpaced(a)
    requires b != [] && SingleSpaced(b)
    ensures SingleSpaced(a + " " + b)
  {
    var s := a + " " + b;
    forall i | 0 <= i < |s| && IsSpace(s[i])
      ensures s[i] == ' '
    {
      if i < |a| {
        assert s[i] == a[i];
      } else if i > |a| {
        assert s[i] == b[i - |a| - 1];
      }
    }
    forall i, j | 0 <= i < j < |s| && j - i == 1
      ensures !(IsSpace(s[i]) && IsSpace(s[j]))
    {
      if j < |a| {
        assert s[i] == a[i] && s[j] == a[j];
      } else if j == |a| {
        assert s[i] == a[|a| - 1];
      } else if i == |a| {
        assert s[j] == b[0];
      } else {
        assert s[i] == b[i - |a| - 1] && s[j] == b[j - |a| - 1];
      }
    }
    assert s[0] == a[0] && s[|s| - 1] == b[|b| - 1];
  }

  /** Joining non-empty single-spaced parts with a space gives single-spaced text. */
  lemma {:induction false} JoinSingleSpaced(parts: seq<string>)
    requires forall i :: 0 <= i < |parts| ==> parts[i] != [] && SingleSpaced(parts[i])
    ensures SingleSpaced(JoinWith(parts, " "))
  {
    if |parts| > 1 {
      JoinSingleSpaced(parts[1..]);
      SingleSpacedJoinStep(parts[0], JoinWith(parts[1..], " "));
    }
  }

  /** Joining words with a space gives single-spaced text. */
  lemma JoinWordsSingleSpaced(ws: seq<string>)
    requires forall i :: 0 <= i < |ws| ==> IsWord(ws[i])
    ensures SingleSpaced(JoinWith(ws, " "))
  {
    forall i | 0 <= i < |ws| ensures ws[i] != [] && SingleSpaced(ws[i]) {
      assert IsWord(ws[i]);
    }
    JoinSingleSpaced(ws);
  }

  /** A join of words begins with the first letter of the first word. */
  lemma JoinWithStart(ws: seq<string>, sep: string)
    requires |ws| > 0 && ws[0] != []
    ensures JoinWith(ws, sep) != [] && JoinWith(ws, sep)[0] == ws[0][0]
  {
  }

  /** Splitting a string of space-joined words gives back the words:
      `" ".join(ws).split() == ws`. */
  lemma {:induction false} WordsOfJoin(ws: seq<string>)
    requires forall i :: 0 <= i < |ws| ==> IsWord(ws[i])
    ensures Words(JoinWith(ws, " ")) == ws
  {
    if |ws| == 0 {
    } else if |ws| == 1 {
      WordsOfWord(ws[0]);
    } else {
      var w, more := ws[0], ws[1..];
      var rest := JoinWith(more, " ");
      assert Words(JoinWith(ws, " ")) == [w] + Words(rest) by {
        assert JoinWith(ws, " ") == w + " " + rest;
        assert IsWord(w) && IsWord(more[0]);
        JoinWithStart(more, " ");
        WordsAfterWord(w, " ", rest);
      }
      WordsOfJoin(more);
      assert [w] + more == ws;
    }
  }

  /** A single word splits to itself. */
  lemma WordsOfWord(w: string)
    requires IsWord(w)
    ensures Words(w) == [w]
  {
    assert TrimStart(w) == w;
    assert WordLen(w) == |w|;
    assert w[..|w|] == w && w[|w|..] == [];
    assert Words([]) == [];
  }

  /** Splitting text that starts with a word yields that word, then the words
      of the remainder. */
  lemma WordsStep(u: string)
    requires u != [] && !IsSpace(u[0])
    ensures Words(u) == [u[..WordLen(u)]] + Words(u[WordLen(u)..])
  {
    assert TrimStart(u) == u;
  }

  /** Splitting ignores leading whitespace. */
  lemma WordsTrimStart(s: string)
    ensures Words(s) == Words(TrimStart(s))
  {
    assert TrimStart(TrimStart(s)) == TrimStart(s);
  }

  /** Leading whitespace in front of `rest` is all that `lstrip` removes. */
  lemma {:induction false} TrimStartSpaces(gap: string, rest: string)
    requires AllSpace(gap)
    ensures TrimStart(gap + rest) == TrimStart(rest)
  {
    if gap != [] {
      assert (gap + rest)[1..] == gap[1..] + rest;
      TrimStartSpaces(gap[1..], rest);
    } else {
      assert gap + rest == rest;
    }
  }

  /** The first word of a word followed by whitespace is that word. */
  lemma WordLenOfWordSpace(w: string, tail: string)
    requires IsWord(w) && tail != [] && IsSpace(tail[0])
    ensures WordLen(w + tail) == |w|
  {
    var s := w + tail;
    assert s[|w|] == tail[0];
  }

  /** A word, a run of whitespace, then anything: the word comes first in
      the split, then the split of the rest. */
  lemma WordsAfterWord(w: string, gap: string, rest: string)
    requires IsWord(w) && gap != [] && AllSpace(gap)
    ensures Words(w + gap + rest) == [w] + Words(rest)
  {
    var tail := gap + rest;
    var s := w + tail;
    assert s == w + gap + rest;
    WordLenOfWordSpace(w, tail);
    assert s[0] == w[0];
    WordsStep(s);
    assert s[..|w|] == w && s[|w|..] == tail;
    WordsTrimStart(tail);
    TrimStartSpaces(gap, rest);
    WordsTrimStart(rest);
  }

  /** A space, a word, a run of whitespace and a word split into the two words. */
  lemma WordsOfTwoWords(w1: string, gap: string, w2: string)
    requires IsWord(w1) && IsWord(w2) && gap != [] && AllSpace(gap)
    ensures Words(" " + w1 + gap + w2) == [w1, w2]
  {
    var body := w1 + gap + w2;
    assert " " + w1 + gap + w2 == " " + body;
    WordsTrimStart(" " + body);
    TrimStartSpaces(" ", body);
    WordsTrimStart(body);
    WordsAfterWord(w1, gap, w2);
    WordsOfWord(w2);
  }

  /** A word that ends inside `u` ends at the same place whatever follows `u`. */
  lemma {:induction false} WordLenAppend(u: string, z: string)
    requires WordLen(u) < |u|
    ensures WordLen(u + z) == WordLen(u)
  {
    if !IsSpace(u[0]) {
      assert (u + z)[1..] == u[1..] + z;
      WordLenAppend(u[1..], z);
    }
  }

  /** Text splits into its leading whitespace and `TrimStart` of it. */
  lemma SplitLeadingSpace(a: string)
    ensures a == a[..|a| - |TrimStart(a)|] + TrimStart(a)
    ensures AllSpace(a[..|a| - |TrimStart(a)|])
  {
    TrimStartSuffix(a);
  }

  /** Whitespace between two texts separates their words: `(a + gap + b).split()
      == a.split() + b.split()`. */
  lemma {:induction false} WordsAroundGap(a: string, gap: string, b: string)
    requires gap != [] && AllSpace(gap)
    ensures Words(a + gap + b) == Words(a) + Words(b)
    decreases |a|, 2
  {
    var u := TrimStart(a);
    var sp := a[..|a| - |u|];
    SplitLeadingSpace(a);
    assert a + gap + b == sp + (u + gap + b);
    TrimStartSpaces(sp, u + gap + b);
    WordsTrimStart(a + gap + b);
    WordsTrimStart(u + gap + b);
    WordsTrimStart(a);
    if u == [] {
      assert u + gap + b == gap + b;
      TrimStartSpaces(gap, b);
      WordsTrimStart(gap + b);
      WordsTrimStart(b);
      assert Words(a) == [];
    } else {
      WordsAroundGapWord(u, gap, b);
    }
  }

  /** `WordsAroundGap` for text that starts with a word. */
  lemma {:induction false} WordsAroundGapWord(u: string, gap: string, b: string)
    requires u != [] && !IsSpace(u[0])
    requires gap != [] && AllSpace(gap)
    ensures Words(u + gap + b) == Words(u) + Words(b)
    decreases |u|, 1
  {
    var n := WordLen(u);
    if n == |u| {
      assert IsWord(u);
      WordsAfterWord(u, gap, b);
      WordsOfWord(u);
    } else {
      WordsAroundGapLongWord(u, gap, b);
    }
  }

  /** `WordsAroundGapWord` when the first word ends inside `u`. */
  lemma {:induction false} WordsAroundGapLongWord(u: string, gap: string, b: string)
    requires u != [] && !IsSpace(u[0]) && WordLen(u) < |u|
    requires gap != [] && AllSpace(gap)
    ensures Words(u + gap + b) == Words(u) + Words(b)
    decreases |u|, 0
  {
    var n := WordLen(u);
    var z := gap + b;
    var s := u + z;
    WordLenAppend(u, z);
    SliceOfAppend(u, z, n);
    assert s[0] == u[0];
    WordsStep(s);
    WordsStep(u);
    WordsAroundGap(u[n..], gap, b);
    assert u[n..] + z == u[n..] + gap + b;
    assert u + gap + b == s;
  }

  lemma SliceOfAppend(u: string, z: string, n: nat)
    requires n <= |u|
    ensures (u + z)[..n] == u[..n] && (u + z)[n..] == u[n..] + z
  {
  }

  /** The words of each part, one part after another. */
  function FlatWords(parts: seq<string>): (r: seq<string>)
    ensures forall i :: 0 <= i < |r| ==> IsWord(r[i])
  {
    if parts == [] then [] else Words(parts[0]) + FlatWords(parts[1..])
  }

  /** Joining with spaces loses and invents no word, and keeps their order:
      `" ".join(parts).split()` is every part's words in turn. Empty parts
      and parts with surrounding whitespace are allowed. */
  lemma {:induction false} WordsOfJoinAll(parts: seq<string>)
    ensures Words(JoinWith(parts, " ")) == FlatWords(parts)
  {
    if |parts| == 1 {
      assert JoinWith(parts, " ") == parts[0];
      assert FlatWords(parts[1..]) == [];
    } else if |parts| > 1 {
      WordsOfJoinAll(parts[1..]);
      WordsAroundGap(parts[0], " ", JoinWith(parts[1..], " "));
    }
  }
}
