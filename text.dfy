/** String primitives the schedule parser is built from: Python's ASCII
    whitespace and digit classes, `str.strip`, `str.split()`, `' '.join`,
    `''.join`, `str.upper`/`str.lower` on ASCII letters, substring search
    (`in`), `str.startswith` and `str.splitlines` restricted to '\n'. */
module Text {

  /** `\d` and `str.isdigit` restricted to ASCII. */
  predicate IsDigit(c: char) { '0' <= c <= '9' }

  /** The ASCII characters Python treats as whitespace (`str.isspace`, `\s`). */
  predicate IsSpace(c: char) {
    c == ' ' || c == '\t' || c == '\n' || c == '\r' || c == '\U{000B}' || c == '\U{000C}'
    || ('\U{001C}' <= c <= '\U{001F}')
  }

  predicate IsUpperLetter(c: char) { 'A' <= c <= 'Z' }

  predicate AllDigits(s: string) { forall i :: 0 <= i < |s| ==> IsDigit(s[i]) }

  predicate AllUpperLetters(s: string) { forall i :: 0 <= i < |s| ==> IsUpperLetter(s[i]) }

  predicate NoSpace(s: string) { forall i :: 0 <= i < |s| ==> !IsSpace(s[i]) }

  /** A token as `str.split()` produces it: non-empty, without whitespace. */
  predicate IsToken(s: string) { s != [] && NoSpace(s) }

  /** Printable ASCII characters other than the space make up a token. */
  lemma VisibleToken(s: string)
    requires s != [] && forall i :: 0 <= i < |s| ==> '!' <= s[i] <= '~'
    ensures IsToken(s)
  {
  }

  predicate AllTokens(toks: seq<string>) { forall k :: 0 <= k < |toks| ==> IsToken(toks[k]) }

  function UpperChar(c: char): char {
    if 'a' <= c <= 'z' then (c as int - 32) as char else c
  }

  function LowerChar(c: char): char {
    if 'A' <= c <= 'Z' then (c as int + 32) as char else c
  }

  /** `s.upper()` on ASCII letters. */
  function Upper(s: string): (r: string)
    ensures |r| == |s|
    ensures forall i :: 0 <= i < |s| ==> r[i] == UpperChar(s[i])
  {
    if s == [] then [] else [UpperChar(s[0])] + Upper(s[1..])
  }

  /** `s.lower()` on ASCII letters. */
  function Lower(s: string): (r: string)
    ensures |r| == |s|
    ensures forall i :: 0 <= i < |s| ==> r[i] == LowerChar(s[i])
  {
    if s == [] then [] else [LowerChar(s[0])] + Lower(s[1..])
  }

  lemma UpperAppend(a: string, b: string)
    ensures Upper(a + b) == Upper(a) + Upper(b)
  {
    assert forall i :: 0 <= i < |a + b| ==> Upper(a + b)[i] == (Upper(a) + Upper(b))[i];
  }

  lemma LowerAppend(a: string, b: string)
    ensures Lower(a + b) == Lower(a) + Lower(b)
  {
    assert forall i :: 0 <= i < |a + b| ==> Lower(a + b)[i] == (Lower(a) + Lower(b))[i];
  }

  /** Text that upper-casing leaves as it is. */
  predicate IsUpperCased(s: string) { forall i :: 0 <= i < |s| ==> UpperChar(s[i]) == s[i] }

  lemma UpperIsUpperCased(s: string)
    ensures IsUpperCased(Upper(s))
  {
  }

  lemma UpperCasedFixed(s: string)
    requires IsUpperCased(s)
    ensures Upper(s) == s
  {
  }

  /** Upper-casing twice is upper-casing once. */
  lemma UpperUpper(s: string)
    ensures Upper(Upper(s)) == Upper(s)
  {
    assert forall i :: 0 <= i < |s| ==> Upper(Upper(s))[i] == Upper(s)[i];
  }

  /** `s.startswith(p)`. */
  predicate StartsWith(s: string, p: string) { |p| <= |s| && s[..|p|] == p }

  /** `t` occurs in `s` starting at index `i`. */
  predicate OccursAt(s: string, t: string, i: nat) { i + |t| <= |s| && s[i..i + |t|] == t }

  /** A slice is the slices on either side of any cut. */
  lemma SliceConcat(s: string, i: nat, j: nat, k: nat)
    requires i <= j <= k <= |s|
    ensures s[i..k] == s[i..j] + s[j..k]
  {
  }

  /** `t in s` for strings: `t` occurs somewhere in `s`. */
  function Contains(s: string, t: string): (r: bool)
    ensures r <==> exists i: nat :: OccursAt(s, t, i)
    decreases |s|
  {
    if |t| > |s| then false
    else if s[..|t|] == t then assert OccursAt(s, t, 0); true
    else
      var r := Contains(s[1..], t);
      assert r ==> exists i: nat :: OccursAt(s, t, i) by {
        if r {
          var i: nat :| OccursAt(s[1..], t, i);
          assert s[1..][i..i + |t|] == s[i + 1..i + 1 + |t|];
          assert OccursAt(s, t, i + 1);
        }
      }
      assert (exists i: nat :: OccursAt(s, t, i)) ==> r by {
        if exists i: nat :: OccursAt(s, t, i) {
          var i: nat :| OccursAt(s, t, i);
          assert i != 0;
          assert s[1..][i - 1..i - 1 + |t|] == s[i..i + |t|];
          assert OccursAt(s[1..], t, i - 1);
        }
      }
      r
  }

  /** Whatever contains `t` still contains it with text added on either side. */
  lemma {:induction false} ContainsWithin(u: string, m: string, v: string, t: string)
    requires Contains(m, t)
    ensures Contains(u + m + v, t)
  {
    var i: nat :| OccursAt(m, t, i);
    assert (u + m + v)[|u| + i..|u| + i + |t|] == m[i..i + |t|];
    assert OccursAt(u + m + v, t, |u| + i);
  }

  /** Index of the first whitespace character at or after `i`. */
  function WordEnd(s: string, i: nat): (j: nat)
    requires i <= |s|
    ensures i <= j <= |s|
    ensures forall k :: i <= k < j ==> !IsSpace(s[k])
    ensures j < |s| ==> IsSpace(s[j])
    decreases |s| - i
  {
    if i < |s| && !IsSpace(s[i]) then WordEnd(s, i + 1) else i
  }

  /** `s.split()`: the maximal runs of non-whitespace characters, in order. */
  function Split(s: string): (r: seq<string>)
    ensures AllTokens(r)
    decreases |s|
  {
    if s == [] then []
    else if IsSpace(s[0]) then Split(s[1..])
    else
      var j := WordEnd(s, 0);
      [s[..j]] + Split(s[j..])
  }

  /** `sep.join(toks)`. */
  function Join(toks: seq<string>, sep: string): string {
    if toks == [] then ""
    else if |toks| == 1 then toks[0]
    else toks[0] + sep + Join(toks[1..], sep)
  }

  /** `''.join(toks)`. */
  function Concat(toks: seq<string>): string {
    if toks == [] then "" else toks[0] + Concat(toks[1..])
  }

  lemma {:induction false} ConcatAppend(a: seq<string>, b: seq<string>)
    ensures Concat(a + b) == Concat(a) + Concat(b)
    decreases |a|
  {
    if a == [] {
      assert a + b == b;
    } else {
      assert (a + b)[1..] == a[1..] + b;
      ConcatAppend(a[1..], b);
      assert Concat(a + b) == a[0] + (Concat(a[1..]) + Concat(b));
      assert Concat(a) == a[0] + Concat(a[1..]);
    }
  }

  /** A prefix of `s` is a prefix of anything `s` begins. */
  lemma StartsWithAppend(s: string, t: string, p: string)
    requires StartsWith(s, p)
    ensures StartsWith(s + t, p)
  {
    assert (s + t)[..|p|] == s[..|p|];
  }

  /** A joined token list starts with its first token. */
  lemma JoinStartsWithHead(toks: seq<string>, sep: string)
    requires toks != []
    ensures StartsWith(Join(toks, sep), toks[0])
  {
    if |toks| > 1 {
      assert Join(toks, sep) == toks[0] + (sep + Join(toks[1..], sep));
    }
  }

  /** Splitting a word followed by whitespace (or nothing) yields the word first. */
  lemma {:induction false} SplitWord(w: string, rest: string)
    requires IsToken(w)
    requires rest == [] || IsSpace(rest[0])
    ensures Split(w + rest) == [w] + Split(rest)
  {
    var s := w + rest;
    var j := WordEnd(s, 0);
    assert s[|w|..] == rest;
    assert forall k :: 0 <= k < |w| ==> s[k] == w[k];
    assert |w| < |s| ==> s[|w|] == rest[0];
    assert j == |w|;
    assert s[..j] == w;
  }

  /** The tokens of upper-cased text are upper-cased. */
  lemma {:induction false} SplitUpperCased(s: string)
    requires IsUpperCased(s)
    ensures forall k :: 0 <= k < |Split(s)| ==> IsUpperCased(Split(s)[k])
    decreases |s|
  {
    if s != [] {
      if IsSpace(s[0]) {
        SplitUpperCased(s[1..]);
      } else {
        var j := WordEnd(s, 0);
        SplitUpperCased(s[j..]);
        var r := Split(s);
        assert r == [s[..j]] + Split(s[j..]);
        forall k | 0 <= k < |r| ensures IsUpperCased(r[k]) {
          if k > 0 {
            assert r[k] == Split(s[j..])[k - 1];
          }
        }
      }
    }
  }

  /** `' '.join(toks).split()` gives the tokens back. */
  lemma {:induction false} SplitJoin(toks: seq<string>)
    requires AllTokens(toks)
    ensures Split(Join(toks, " ")) == toks
  {
    if toks == [] {
    } else if |toks| == 1 {
      assert Join(toks, " ") == toks[0] + "";
      SplitWord(toks[0], "");
      assert toks == [toks[0]];
    } else {
      var tail := toks[1..];
      assert AllTokens(tail) by {
        forall k | 0 <= k < |tail| ensures IsToken(tail[k]) { assert tail[k] == toks[k + 1]; }
      }
      SplitJoin(tail);
      SplitJoinCons(toks[0], tail);
      assert toks == [toks[0]] + tail;
    }
  }

  lemma SplitJoinCons(t: string, tail: seq<string>)
    requires IsToken(t) && tail != []
    requires Split(Join(tail, " ")) == tail
    ensures Split(Join([t] + tail, " ")) == [t] + tail
  {
    var rest := Join(tail, " ");
    var spaced := " " + rest;
    assert Split(spaced) == Split(rest) by {
      assert spaced[1..] == rest;
    }
    SplitWord(t, spaced);
    assert ([t] + tail)[1..] == tail;
    assert Join([t] + tail, " ") == t + spaced;
  }

  function StripLeft(s: string): (r: string)
    ensures r == [] || !IsSpace(r[0])
    decreases |s|
  {
    if s != [] && IsSpace(s[0]) then StripLeft(s[1..]) else s
  }

  function StripRight(s: string): (r: string)
    ensures r == [] || !IsSpace(r[|r| - 1])
    ensures |r| <= |s|
    ensures forall k :: 0 <= k < |r| ==> r[k] == s[k]
    decreases |s|
  {
    if s != [] && IsSpace(s[|s| - 1]) then StripRight(s[..|s| - 1]) else s
  }

  /** `s.strip()`: no whitespace is left at either end. */
  function Strip(s: string): (r: string)
    ensures r == [] || (!IsSpace(r[0]) && !IsSpace(r[|r| - 1]))
  {
    StripRight(StripLeft(s))
  }

  /** A token has no whitespace to strip. */
  lemma StripToken(s: string)
    requires IsToken(s)
    ensures Strip(s) == s
  {
    assert StripLeft(s) == s;
  }

  /** A text that begins and ends with a non-space character has nothing to strip. */
  lemma StripTrimmed(s: string)
    requires s != [] && !IsSpace(s[0]) && !IsSpace(s[|s| - 1])
    ensures Strip(s) == s
  {
    assert StripLeft(s) == s;
  }

  /** The last character of a join is the last character of its last token. */
  lemma {:induction false} JoinLast(toks: seq<string>, sep: string)
    requires toks != [] && toks[|toks| - 1] != []
    ensures var j := Join(toks, sep); j != [] && j[|j| - 1] == toks[|toks| - 1][|toks[|toks| - 1]| - 1]
    decreases |toks|
  {
    if |toks| > 1 {
      JoinLast(toks[1..], sep);
    }
  }

  /** Tokens joined with single spaces are already stripped. */
  lemma StripJoin(toks: seq<string>)
    requires toks != [] && AllTokens(toks)
    ensures Strip(Join(toks, " ")) == Join(toks, " ")
  {
    var j := Join(toks, " ");
    JoinStartsWithHead(toks, " ");
    JoinLast(toks, " ");
    assert j[0] == j[..|toks[0]|][0] == toks[0][0];
    StripTrimmed(j);
  }

  /** Index of the first '\n' at or after `i`, or `|s|`. */
  function LineEnd(s: string, i: nat): (j: nat)
    requires i <= |s|
    ensures i <= j <= |s|
    ensures forall k :: i <= k < j ==> s[k] != '\n'
    ensures j < |s| ==> s[j] == '\n'
    decreases |s| - i
  {
    if i < |s| && s[i] != '\n' then LineEnd(s, i + 1) else i
  }

  /** `s.splitlines()` for text whose only line break is '\n': the pieces between
      breaks, with no empty piece after a final break. */
  function SplitLines(s: string): seq<string> {
    LinesFrom(s, 0)
  }

  /** The lines of `s` that start at or after index `i`, where `i` is 0 or
      just after a break. */
  function LinesFrom(s: string, i: nat): seq<string>
    requires i <= |s|
    decreases |s| - i
  {
    if i == |s| then []
    else
      var j := LineEnd(s, i);
      if j == |s| then [s[i..]] else [s[i..j]] + LinesFrom(s, j + 1)
  }

  /** The break that `splitlines` drops at the very end of the text. */
  function FinalBreak(s: string): string {
    if s != [] && s[|s| - 1] == '\n' then "\n" else ""
  }

  /** Joining the lines back with '\n' reproduces the text. */
  lemma SplitLinesJoin(s: string)
    ensures Join(SplitLines(s), "\n") + FinalBreak(s) == s
  {
    if s != [] {
      LinesFromJoin(s, 0);
    }
  }

  lemma {:induction false} LinesFromJoin(s: string, i: nat)
    requires i < |s|
    ensures Join(LinesFrom(s, i), "\n") + FinalBreak(s) == s[i..]
    decreases |s| - i
  {
    var j := LineEnd(s, i);
    if j == |s| {
      assert LinesFrom(s, i) == [s[i..]];
      assert s[|s| - 1] != '\n';
    } else if j + 1 == |s| {
      assert LinesFrom(s, i) == [s[i..j]] + LinesFrom(s, |s|);
      CutAtBreak(s, i, j);
      assert FinalBreak(s) == "\n" && s[j + 1..] == [];
    } else {
      LinesFromJoin(s, j + 1);
      LinesFromStep(s, i, j);
    }
  }

  /** The induction step of `LinesFromJoin`: one more line in front. */
  lemma LinesFromStep(s: string, i: nat, j: nat)
    requires i < |s| && j == LineEnd(s, i) && j + 1 < |s|
    requires Join(LinesFrom(s, j + 1), "\n") + FinalBreak(s) == s[j + 1..]
    ensures Join(LinesFrom(s, i), "\n") + FinalBreak(s) == s[i..]
  {
    var lines := LinesFrom(s, j + 1);
    LinesFromUnfold(s, i);
    LinesFromCons(s, j + 1);
    JoinCons(s[i..j], lines, "\n");
    CutAtBreak(s, i, j);
    Regroup(Join(LinesFrom(s, i), "\n"), s[i..j], Join(lines, "\n"), FinalBreak(s), s[j + 1..], s[i..]);
  }

  /** Putting a line and a break in front of text that ends in `tail`. */
  lemma Regroup(joined: string, line: string, rest: string, final: string, tail: string, whole: string)
    requires joined == line + "\n" + rest && rest + final == tail && whole == line + ("\n" + tail)
    ensures joined + final == whole
  {
  }

  lemma LinesFromUnfold(s: string, i: nat)
    requires i < |s| && LineEnd(s, i) < |s|
    ensures LinesFrom(s, i) == [s[i..LineEnd(s, i)]] + LinesFrom(s, LineEnd(s, i) + 1)
  {
  }

  /** Text is cut at a break into the part before, the break and the part after. */
  lemma CutAtBreak(s: string, i: nat, j: nat)
    requires i <= j < |s| && s[j] == '\n'
    ensures s[i..] == s[i..j] + ("\n" + s[j + 1..])
  {
    assert s[j..] == "\n" + s[j + 1..];
    SliceConcat(s, i, j, |s|);
  }

  lemma LinesFromCons(s: string, i: nat)
    requires i < |s|
    ensures LinesFrom(s, i) != []
  {
  }

  /** Joining a list of two or more strings puts the separator after the first. */
  lemma JoinCons(x: string, t: seq<string>, sep: string)
    requires t != []
    ensures Join([x] + t, sep) == x + sep + Join(t, sep)
  {
    assert ([x] + t)[1..] == t;
  }
}
