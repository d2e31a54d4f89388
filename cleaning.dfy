/**
 * `clean_text`: delete the timestamp tokens `[m:s]` and `(m:s)`, collapse
 * every run of whitespace to one space, and strip both ends.
 */
module Cleaning {
  import opened Strings

  predicate IsOpener(c: char) {
    c == '[' || c == '('
  }

  /** The bracket that closes a timestamp opened by `open`. */
  function Closer(open: char): char
    requires IsOpener(open)
  {
    if open == '[' then ']' else ')'
  }

  /** Every character of `s` from index `lo` up to, not including, `hi` is a digit. */
  predicate DigitsBetween(s: string, lo: int, hi: int)
    requires 0 <= lo && hi <= |s|
  {
    forall i :: lo <= i < hi ==> IsDigit(s[i])
  }

  /** `t` is, as a whole, a match of the pattern `\[\d+:\d+\]|\(\d+:\d+\)`:
      an opening bracket, digits, a colon at some index `c`, digits, and the
      matching closing bracket. */
  ghost predicate IsTimestamp(t: string) {
    && 5 <= |t|
    && IsOpener(t[0])
    && t[|t| - 1] == Closer(t[0])
    && exists c :: 2 <= c <= |t| - 3 && t[c] == ':' && DigitsBetween(t, 1, c) && DigitsBetween(t, c + 1, |t| - 1)
  }

  /** Number of digits at the start of `s` (the greedy `\d+` before a non-digit). */
  function DigitCount(s: string): (n: nat)
    ensures n <= |s| && DigitsBetween(s, 0, n)
    ensures n < |s| ==> !IsDigit(s[n])
  {
    if s == [] || !IsDigit(s[0]) then 0 else 1 + DigitCount(s[1..])
  }

  /** The length of the timestamp that starts `s`, or 0 when none does. The
      digit runs are followed by fixed characters, so there is at most one
      candidate length and no backtracking is needed. */
  function MatchLen(s: string): (n: nat)
    ensures n <= |s|
    ensures n == 0 || 5 <= n
  {
    if |s| == 0 || !IsOpener(s[0]) then 0
    else
      var d1 := DigitCount(s[1..]);
      if d1 == 0 || 1 + d1 >= |s| || s[1 + d1] != ':' then 0
      else
        var d2 := DigitCount(s[2 + d1..]);
        if d2 == 0 || 2 + d1 + d2 >= |s| || s[2 + d1 + d2] != Closer(s[0]) then 0
        else 3 + d1 + d2
  }

  /** A digit run bounded by a non-digit is exactly what `DigitCount` finds. */
  lemma DigitRun(s: string, lo: nat, hi: nat)
    requires lo <= hi < |s| && DigitsBetween(s, lo, hi) && !IsDigit(s[hi])
    ensures DigitCount(s[lo..]) == hi - lo
  {
    var r := s[lo..];
    var k := DigitCount(r);
    assert r[hi - lo] == s[hi];
  }

  /** What `MatchLen` finds is a timestamp. */
  lemma MatchLenSound(s: string)
    ensures MatchLen(s) > 0 ==> IsTimestamp(s[..MatchLen(s)])
  {
    var n := MatchLen(s);
    if n > 0 {
      var t := s[..n];
      var d1 := DigitCount(s[1..]);
      var d2 := DigitCount(s[2 + d1..]);
      var c := 1 + d1;
      assert DigitsBetween(t, 1, c) by {
        forall i | 1 <= i < c ensures IsDigit(t[i]) {
          assert t[i] == s[1..][i - 1];
        }
      }
      assert DigitsBetween(t, c + 1, n - 1) by {
        forall i | c + 1 <= i < n - 1 ensures IsDigit(t[i]) {
          assert t[i] == s[2 + d1..][i - c - 1];
        }
      }
      assert t[c] == ':' && t[0] == s[0] && t[n - 1] == s[n - 1];
    }
  }

  /** Every timestamp that starts `s` is the one `MatchLen` finds, so the
      match at a position is unique. */
  lemma MatchLenComplete(s: string, n: nat)
    requires n <= |s| && IsTimestamp(s[..n])
    ensures MatchLen(s) == n
  {
    var t := s[..n];
    var c :| 2 <= c <= |t| - 3 && t[c] == ':' && DigitsBetween(t, 1, c) && DigitsBetween(t, c + 1, |t| - 1);
    TimestampPrefix(s, n, c);
    DigitRun(s, 1, c);
    DigitRun(s, c + 1, n - 1);
    MatchLenOf(s, c - 1, n - c - 2);
  }

  /** The parts of a timestamp that starts `s`, read on `s` itself. */
  lemma TimestampPrefix(s: string, n: nat, c: nat)
    requires n <= |s| && IsTimestamp(s[..n]) && 2 <= c <= n - 3
    requires s[..n][c] == ':' && DigitsBetween(s[..n], 1, c) && DigitsBetween(s[..n], c + 1, n - 1)
    ensures IsOpener(s[0]) && s[c] == ':' && s[n - 1] == Closer(s[0])
    ensures DigitsBetween(s, 1, c) && DigitsBetween(s, c + 1, n - 1)
  {
    var t := s[..n];
    assert s[0] == t[0] && s[n - 1] == t[n - 1];
    assert forall i :: 0 <= i < n ==> s[i] == t[i];
  }

  /** `MatchLen` read off from the two digit runs and the three fixed characters. */
  lemma MatchLenOf(s: string, d1: nat, d2: nat)
    requires 3 + d1 + d2 <= |s| && 0 < d1 && 0 < d2
    requires IsOpener(s[0]) && s[1 + d1] == ':' && s[2 + d1 + d2] == Closer(s[0])
    requires DigitCount(s[1..]) == d1 && DigitCount(s[2 + d1..]) == d2
    ensures MatchLen(s) == 3 + d1 + d2
  {
  }

  /** `re.sub(r"\[\d+:\d+\]|\(\d+:\d+\)", "", s)`: scan left to right, drop a
      timestamp where one starts and resume after it, otherwise keep the
      character. */
  function RemoveTimestamps(s: string): (r: string)
    ensures |r| <= |s|
    decreases |s|
  {
    if s == [] then []
    else
      var n := MatchLen(s);
      if n > 0 then RemoveTimestamps(s[n..])
      else [s[0]] + RemoveTimestamps(s[1..])
  }

  /** A timestamp at the scan position is deleted whole. */
  lemma RemoveTimestampsDropsMatch(t: string, s: string)
    requires IsTimestamp(t)
    ensures RemoveTimestamps(t + s) == RemoveTimestamps(s)
  {
    assert (t + s)[..|t|] == t;
    MatchLenComplete(t + s, |t|);
    assert (t + s)[|t|..] == s;
  }

  /** A character where no timestamp starts is kept, in place. */
  lemma RemoveTimestampsKeepsChar(s: string)
    requires s != []
    requires forall n :: 0 < n <= |s| ==> !IsTimestamp(s[..n])
    ensures RemoveTimestamps(s) == [s[0]] + RemoveTimestamps(s[1..])
  {
    MatchLenSound(s);
  }

  /** A character that is not an opening bracket is kept. */
  lemma RemoveTimestampsKeepsNonOpener(s: string)
    requires s != [] && !IsOpener(s[0])
    ensures RemoveTimestamps(s) == [s[0]] + RemoveTimestamps(s[1..])
  {
  }

  /** No opening bracket anywhere: no timestamp can start in the text. */
  predicate NoOpener(s: string) {
    forall i :: 0 <= i < |s| ==> !IsOpener(s[i])
  }

  lemma NoOpenerAppend(a: string, b: string)
    requires NoOpener(a) && NoOpener(b)
    ensures NoOpener(a + b)
  {
    forall i | 0 <= i < |a + b|
      ensures !IsOpener((a + b)[i])
    {
      if i >= |a| {
        assert (a + b)[i] == b[i - |a|];
      }
    }
  }

  /** A prefix with no opening bracket is copied through unchanged, and the
      scan goes on after it. */
  lemma {:induction false} RemoveTimestampsNoOpenerPrefix(x: string, y: string)
    requires NoOpener(x)
    ensures RemoveTimestamps(x + y) == x + RemoveTimestamps(y)
  {
    if x == [] {
      assert x + y == y;
    } else {
      var s := x + y;
      RemoveTimestampsKeepsNonOpener(s);
      assert s[1..] == x[1..] + y;
      RemoveTimestampsNoOpenerPrefix(x[1..], y);
      assert x == [x[0]] + x[1..];
    }
  }

  /** Text with no colon (such as `[Music]`) holds no timestamp and passes
      through unchanged. */
  lemma {:induction false} RemoveTimestampsNoColon(s: string)
    requires forall i :: 0 <= i < |s| ==> s[i] != ':'
    ensures RemoveTimestamps(s) == s
  {
    if s != [] {
      RemoveTimestampsNoColon(s[1..]);
      assert s == [s[0]] + s[1..];
    }
  }

  /** `re.sub(r"\s+", " ", s)`: every maximal run of whitespace becomes one space. */
  function Collapse(s: string): (r: string)
    ensures r == [] <==> s == []
    ensures r != [] ==> (IsSpace(r[0]) <==> IsSpace(s[0]))
    ensures forall i :: 0 <= i < |r| && IsSpace(r[i]) ==> r[i] == ' '
    ensures NoDoubleSpace(r)
    decreases |s|
  {
    if s == [] then []
    else if IsSpace(s[0]) then " " + Collapse(TrimStart(s))
    else [s[0]] + Collapse(s[1..])
  }

  /** `clean_text`: the words left once the timestamps are gone, joined by
      single spaces (`" ".join(t.split())`), so the result never starts or
      ends with whitespace, holds no whitespace but `' '` and never two in a
      row. */
  function CleanText(s: string): (r: string)
    ensures r == JoinWith(Words(RemoveTimestamps(s)), " ")
    ensures SingleSpaced(r)
  {
    TrimCollapse(RemoveTimestamps(s));
    JoinWordsSingleSpaced(Words(RemoveTimestamps(s)));
    Trim(Collapse(RemoveTimestamps(s)))
  }

  /** A leading run of non-whitespace passes through `Collapse` unchanged. */
  lemma {:induction false} CollapseWordPrefix(w: string, rest: string)
    requires forall i :: 0 <= i < |w| ==> !IsSpace(w[i])
    ensures Collapse(w + rest) == w + Collapse(rest)
  {
    if w != [] {
      var s := w + rest;
      assert s[0] == w[0] && !IsSpace(s[0]);
      assert s[1..] == w[1..] + rest;
      assert Collapse(s) == [w[0]] + Collapse(w[1..] + rest);
      CollapseWordPrefix(w[1..], rest);
      assert [w[0]] + w[1..] == w;
    } else {
      assert w + rest == rest;
    }
  }

  /** Trailing whitespace is trimmed only from the part after `a` when that
      part starts with a non-space. */
  lemma {:induction false} TrimEndAppend(a: string, b: string)
    requires b != [] && !IsSpace(b[0])
    ensures TrimEnd(a + b) == a + TrimEnd(b)
  {
    if IsSpace(b[|b| - 1]) {
      var b' := b[..|b| - 1];
      assert (a + b)[..|a + b| - 1] == a + b';
      TrimEndAppend(a, b');
    }
  }

  /** One word, a space, then text that starts with a word: the trimmed
      collapse is the word, a space, and the trimmed collapse of the rest. */
  lemma TrimEndWordStep(u: string, w: string, rest: string, u': string)
    requires w != [] && u' != [] && !IsSpace(u'[0])
    requires Collapse(u) == w + Collapse(rest) && Collapse(rest) == " " + Collapse(u')
    requires Words(u) == [w] + Words(rest) && Words(rest) == Words(u')
    requires TrimEnd(Collapse(u')) == JoinWith(Words(u'), " ")
    ensures TrimEnd(Collapse(u)) == JoinWith(Words(u), " ")
  {
    var cu := Collapse(u');
    assert w + (" " + cu) == (w + " ") + cu;
    TrimEndAppend(w + " ", cu);
    WordsStep(u');
    JoinWithCons(w, Words(u'), " ");
  }

  /** For text that does not start with whitespace, collapsing and then
      trimming the end gives the words joined by single spaces. */
  lemma {:induction false} TrimEndCollapse(u: string)
    requires u == [] || !IsSpace(u[0])
    ensures TrimEnd(Collapse(u)) == JoinWith(Words(u), " ")
    decreases |u|, 1
  {
    if u != [] {
      TrimEndCollapseWord(u);
    }
  }

  /** The inductive step of `TrimEndCollapse`: a first word, then the rest. */
  lemma {:induction false} TrimEndCollapseWord(u: string)
    requires u != [] && !IsSpace(u[0])
    ensures TrimEnd(Collapse(u)) == JoinWith(Words(u), " ")
    decreases |u|, 0
  {
    var n := WordLen(u);
    var w, rest := u[..n], u[n..];
    SplitAtWord(u);
    if rest == [] {
      assert Words(rest) == [] && Collapse(rest) == [];
      assert Collapse(u) == w;
    } else {
      var u' := TrimStart(rest);
      SplitAtSpace(rest);
      if u' == [] {
        assert Words(u') == [] && Collapse(u') == [];
        assert Collapse(u) == w + " " by { assert w + (" " + []) == w + " "; }
        assert (w + " ")[..|w|] == w;
      } else {
        TrimEndCollapse(u');
        TrimEndWordStep(u, w, rest, u');
      }
    }
  }

  /** Text that starts with a word: that word comes first in both the split
      and the collapse. */
  lemma SplitAtWord(u: string)
    requires u != [] && !IsSpace(u[0])
    ensures Words(u) == [u[..WordLen(u)]] + Words(u[WordLen(u)..])
    ensures Collapse(u) == u[..WordLen(u)] + Collapse(u[WordLen(u)..])
  {
    var n := WordLen(u);
    assert u == u[..n] + u[n..];
    WordsStep(u);
    CollapseWordPrefix(u[..n], u[n..]);
  }

  /** Text that starts with whitespace: the run is dropped by the split and
      becomes one space in the collapse. */
  lemma SplitAtSpace(s: string)
    requires s != [] && IsSpace(s[0])
    ensures Words(s) == Words(TrimStart(s))
    ensures Collapse(s) == " " + Collapse(TrimStart(s))
  {
    WordsTrimStart(s);
  }

  /** `re.sub(r"\s+", " ", t).strip() == " ".join(t.split())`. */
  lemma TrimCollapse(t: string)
    ensures Trim(Collapse(t)) == JoinWith(Words(t), " ")
  {
    var u := TrimStart(t);
    assert Words(t) == Words(u);
    if t != [] && IsSpace(t[0]) {
      assert Collapse(t) == " " + Collapse(u);
      assert (" " + Collapse(u))[1..] == Collapse(u);
      assert TrimStart(Collapse(t)) == TrimStart(Collapse(u)) == Collapse(u);
    } else {
      assert u == t;
    }
    TrimEndCollapse(u);
  }

  /** Cleaning keeps the words of the timestamp-free text: splitting the
      cleaned text gives them back. */
  lemma CleanTextWords(s: string)
    ensures Words(CleanText(s)) == Words(RemoveTimestamps(s))
  {
    WordsOfJoin(Words(RemoveTimestamps(s)));
  }

  /** Cleaning gives `""` exactly when nothing but whitespace is left once the
      timestamps are gone. */
  lemma CleanTextEmpty(s: string)
    ensures CleanText(s) == "" <==> AllSpace(RemoveTimestamps(s))
  {
    var t := RemoveTimestamps(s);
    WordsEmpty(t);
    if |Words(t)| == 1 {
      assert IsWord(Words(t)[0]);
    }
  }

  /** Text with no colon, such as `[Music]`, keeps every word: cleaning
      only normalises its whitespace. */
  lemma CleanTextNoColon(s: string)
    requires forall i :: 0 <= i < |s| ==> s[i] != ':'
    ensures CleanText(s) == JoinWith(Words(s), " ")
  {
    RemoveTimestampsNoColon(s);
  }

  /** A timestamp at the very start is deleted before anything else is done. */
  lemma CleanTextDropsLeadingStamp(t: string, x: string)
    requires IsTimestamp(t)
    ensures CleanText(t + x) == CleanText(x)
  {
    RemoveTimestampsDropsMatch(t, x);
  }

  /** Timestamp removal that leaves one word: cleaning gives that word. */
  lemma CleanTextOfWord(s: string)
    requires IsWord(RemoveTimestamps(s))
    ensures CleanText(s) == RemoveTimestamps(s)
  {
    WordsOfWord(RemoveTimestamps(s));
  }

  /** A word with no opening bracket is its own cleaning. */
  lemma CleanTextOfPlainWord(w: string)
    requires IsWord(w) && NoOpener(w)
    ensures CleanText(w) == w
  {
    RemoveTimestampsNoOpenerPrefix(w, []);
    assert w + [] == w;
    CleanTextOfWord(w);
  }

  /** Space, word, whitespace, word: no timestamp can start anywhere in it
      when the words hold no opening bracket. */
  lemma RemoveTimestampsTwoWords(w1: string, gap: string, w2: string)
    requires NoOpener(w1) && NoOpener(w2) && AllSpace(gap)
    ensures RemoveTimestamps(" " + w1 + gap + w2) == " " + w1 + gap + w2
  {
    var x := " " + w1 + gap + w2;
    NoOpenerAppend(" ", w1);
    NoOpenerAppend(" " + w1, gap);
    NoOpenerAppend(" " + w1 + gap, w2);
    RemoveTimestampsNoOpenerPrefix(x, []);
    assert x + [] == x;
  }

  /** A timestamp, a space, a word, a run of whitespace and a word clean to
      the two words with one space between, as `"(00:05) Goodbye   now"`
      becomes `"Goodbye now"`. */
  lemma CleanTextStampAndTwoWords(t: string, w1: string, gap: string, w2: string)
    requires IsTimestamp(t) && IsWord(w1) && IsWord(w2) && NoOpener(w1) && NoOpener(w2)
    requires gap != [] && AllSpace(gap)
    ensures CleanText(t + (" " + w1 + gap + w2)) == w1 + " " + w2
  {
    var x := " " + w1 + gap + w2;
    CleanTextDropsLeadingStamp(t, x);
    RemoveTimestampsTwoWords(w1, gap, w2);
    WordsOfTwoWords(w1, gap, w2);
    JoinWithCons(w1, [w2], " ");
    assert [w1] + [w2] == [w1, w2];
  }

  /** Whitespace, or a timestamp, at the scan position: the scan keeps the
      whitespace and deletes the timestamp. */
  lemma RemoveTimestampsStampOrSpace(p: string, y: string)
    requires IsTimestamp(p) || AllSpace(p)
    requires AllSpace(RemoveTimestamps(y))
    ensures AllSpace(RemoveTimestamps(p + y))
  {
    if IsTimestamp(p) {
      RemoveTimestampsDropsMatch(p, y);
    } else {
      RemoveTimestampsNoOpenerPrefix(p, y);
      AllSpaceAppend(p, RemoveTimestamps(y));
    }
  }

  /** Text made of nothing but timestamps and whitespace cleans to `""`. */
  lemma {:induction false} CleanTextStampsAndSpaces(parts: seq<string>)
    requires forall k :: 0 <= k < |parts| ==> IsTimestamp(parts[k]) || AllSpace(parts[k])
    ensures CleanText(JoinWith(parts, "")) == ""
  {
    StampsAndSpacesLeaveSpaces(parts);
    CleanTextEmpty(JoinWith(parts, ""));
  }

  lemma {:induction false} StampsAndSpacesLeaveSpaces(parts: seq<string>)
    requires forall k :: 0 <= k < |parts| ==> IsTimestamp(parts[k]) || AllSpace(parts[k])
    ensures AllSpace(RemoveTimestamps(JoinWith(parts, "")))
  {
    if |parts| == 1 {
      RemoveTimestampsStampOrSpace(parts[0], []);
      assert parts[0] + [] == parts[0];
    } else if |parts| > 1 {
      var rest := JoinWith(parts[1..], "");
      StampsAndSpacesLeaveSpaces(parts[1..]);
      assert JoinWith(parts, "") == parts[0] + rest;
      RemoveTimestampsStampOrSpace(parts[0], rest);
    }
  }

  /** `[a:b]` with single digits `a` and `b` is a timestamp, and a word. */
  lemma ShortStamp(a: char, b: char)
    requires IsDigit(a) && IsDigit(b)
    ensures IsTimestamp(['[', a, ':', b, ']'])
    ensures IsWord(['[', a, ':', b, ']'])
  {
    var t := ['[', a, ':', b, ']'];
    assert DigitsBetween(t, 1, 2) && DigitsBetween(t, 3, 4) && t[2] == ':';
  }

  /** A bracketed run with two colons, `[a:b:c]`, is not a timestamp and
      survives cleaning. */
  lemma CleanTextKeepsTwoColons(a: char, b: char, c: char)
    requires IsDigit(a) && IsDigit(b) && IsDigit(c)
    ensures CleanText(['[', a, ':', b, ':', c, ']']) == ['[', a, ':', b, ':', c, ']']
  {
    TwoColonsNoMatch(a, b, c);
    TwoColonsPieces(a, b, c);
    CleanTextKeepsUnmatched('[', [a, ':', b, ':', c, ']']);
  }

  /** `[a:b:c]` is `[` in front of a bracket-free run, and a word. */
  lemma TwoColonsPieces(a: char, b: char, c: char)
    requires IsDigit(a) && IsDigit(b) && IsDigit(c)
    ensures ['[', a, ':', b, ':', c, ']'] == ['['] + [a, ':', b, ':', c, ']']
    ensures NoOpener([a, ':', b, ':', c, ']'])
    ensures IsWord(['[', a, ':', b, ':', c, ']'])
  {
  }

  /** A word whose first character starts no timestamp and whose remainder
      has no opening bracket is its own cleaning. */
  lemma CleanTextKeepsUnmatched(o: char, x: string)
    requires MatchLen([o] + x) == 0 && NoOpener(x) && IsWord([o] + x)
    ensures CleanText([o] + x) == [o] + x
  {
    RemoveTimestampsKeepsOpener([o] + x);
    assert ([o] + x)[1..] == x;
    RemoveTimestampsNoOpenerPrefix(x, []);
    assert x + [] == x;
    CleanTextOfWord([o] + x);
  }

  /** At `[a:b:c]` the digits after the first colon run into a second colon
      where the closing bracket should be. */
  lemma TwoColonsNoMatch(a: char, b: char, c: char)
    requires IsDigit(a) && IsDigit(b) && IsDigit(c)
    ensures MatchLen(['[', a, ':', b, ':', c, ']']) == 0
  {
    var s := ['[', a, ':', b, ':', c, ']'];
    DigitRun(s, 1, 2);
    DigitRun(s, 3, 4);
  }

  /** An opening bracket where no timestamp starts is kept. */
  lemma RemoveTimestampsKeepsOpener(s: string)
    requires s != [] && MatchLen(s) == 0
    ensures RemoveTimestamps(s) == [s[0]] + RemoveTimestamps(s[1..])
  {
  }

  /** At `[a[b:c]:d]` the first digit run meets a bracket, not a colon. */
  lemma NestedNoMatch(a: char, b: char, c: char, d: char)
    requires IsDigit(a) && IsDigit(b) && IsDigit(c) && IsDigit(d)
    ensures MatchLen(['[', a, '[', b, ':', c, ']', ':', d, ']']) == 0
  {
    var s := ['[', a, '[', b, ':', c, ']', ':', d, ']'];
    DigitRun(s, 1, 2);
  }

  /** A kept first character, a bracket-free run, a timestamp and another
      bracket-free run: only the timestamp goes. */
  lemma RemoveTimestampsInnerStamp(o: char, x: string, t: string, y: string)
    requires MatchLen([o] + (x + (t + y))) == 0
    requires NoOpener(x) && IsTimestamp(t) && NoOpener(y)
    ensures RemoveTimestamps([o] + (x + (t + y))) == [o] + (x + y)
  {
    var s := [o] + (x + (t + y));
    RemoveTimestampsKeepsOpener(s);
    assert s[1..] == x + (t + y);
    RemoveTimestampsNoOpenerPrefix(x, t + y);
    RemoveTimestampsDropsMatch(t, y);
    RemoveTimestampsNoOpenerPrefix(y, []);
    assert y + [] == y;
  }

  /** `[a[b:c]:d]` is `[`, then `a`, then the timestamp `[b:c]`, then `:d]`. */
  lemma NestedPieces(a: char, b: char, c: char, d: char)
    ensures ['[', a, '[', b, ':', c, ']', ':', d, ']'] == ['['] + ([a] + (['[', b, ':', c, ']'] + [':', d, ']']))
    ensures ['['] + ([a] + [':', d, ']']) == ['[', a, ':', d, ']']
  {
  }

  lemma RemoveTimestampsNestedPieces(a: char, b: char, c: char, d: char)
    requires IsTimestamp(['[', b, ':', c, ']'])
    requires MatchLen(['['] + ([a] + (['[', b, ':', c, ']'] + [':', d, ']']))) == 0
    requires !IsOpener(a) && !IsOpener(d)
    ensures RemoveTimestamps(['['] + ([a] + (['[', b, ':', c, ']'] + [':', d, ']']))) == ['['] + ([a] + [':', d, ']'])
  {
    RemoveTimestampsInnerStamp('[', [a], ['[', b, ':', c, ']'], [':', d, ']']);
  }

  /** Removing timestamps from `[a[b:c]:d]` deletes only the inner `[b:c]`. */
  lemma RemoveTimestampsNested(a: char, b: char, c: char, d: char)
    requires IsDigit(a) && IsDigit(b) && IsDigit(c) && IsDigit(d)
    ensures RemoveTimestamps(['[', a, '[', b, ':', c, ']', ':', d, ']']) == ['[', a, ':', d, ']']
  {
    NestedNoMatch(a, b, c, d);
    ShortStamp(b, c);
    NestedPieces(a, b, c, d);
    RemoveTimestampsNestedPieces(a, b, c, d);
  }

  /** Cleaning `[a[b:c]:d]` gives `[a:d]`. */
  lemma CleanTextNested(a: char, b: char, c: char, d: char)
    requires IsDigit(a) && IsDigit(b) && IsDigit(c) && IsDigit(d)
    ensures CleanText(['[', a, '[', b, ':', c, ']', ':', d, ']']) == ['[', a, ':', d, ']']
  {
    RemoveTimestampsNested(a, b, c, d);
    ShortStamp(a, d);
    CleanTextOfWord(['[', a, '[', b, ':', c, ']', ':', d, ']']);
  }

  /** Cleaning a lone timestamp gives `""`. */
  lemma CleanTextOfStamp(t: string)
    requires IsTimestamp(t)
    ensures CleanText(t) == []
  {
    CleanTextDropsLeadingStamp(t, []);
    assert t + [] == t;
  }

  /** Cleaning is not idempotent and can leave a timestamp behind: deleting
      the inner `[b:c]` of `[a[b:c]:d]` closes up `[a:d]`, which is a
      timestamp that a second pass deletes. */
  lemma CleanTextNotIdempotent(a: char, b: char, c: char, d: char)
    requires IsDigit(a) && IsDigit(b) && IsDigit(c) && IsDigit(d)
    ensures CleanText(['[', a, '[', b, ':', c, ']', ':', d, ']']) == ['[', a, ':', d, ']']
    ensures IsTimestamp(['[', a, ':', d, ']'])
    ensures CleanText(['[', a, ':', d, ']']) == []
  {
    CleanTextNested(a, b, c, d);
    ShortStamp(a, d);
    CleanTextOfStamp(['[', a, ':', d, ']']);
  }
}
