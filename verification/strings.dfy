/** The handful of Python `str` operations the pipeline relies on, stated over
    `seq<char>`: whitespace stripping, ASCII lower-casing, prefix/suffix/substring
    tests, `join`, `split("\n")` and `splitlines()`.

    Whitespace is ASCII whitespace (Python's `isspace` also accepts Unicode
    spaces), lower-casing is ASCII only, and line breaks are `\n` only. */
module Strings {

  /** `c.isspace()` for ASCII characters: space, tab, the line breaks `\n`,
      `\r`, vertical tab and form feed, and the separators `\x1c`-`\x1f`. */
  predicate IsSpace(c: char) {
    c == ' ' || c == '\t' || c == '\n' || c == '\r' || c == '\U{000B}' || c == '\U{000C}'
    || ('\U{001C}' <= c <= '\U{001F}')
  }

  predicate AllSpace(s: string) {
    forall i :: 0 <= i < |s| ==> IsSpace(s[i])
  }

  predicate IsDigit(c: char) {
    '0' <= c <= '9'
  }

  predicate AllDigits(s: string) {
    forall i :: 0 <= i < |s| ==> IsDigit(s[i])
  }

  /** The length of the run of whitespace that opens `s`. */
  function LeadingSpace(s: string): (k: nat)
    ensures k <= |s| && forall i :: 0 <= i < k ==> IsSpace(s[i])
    ensures k == |s| || !IsSpace(s[k])
  {
    if |s| > 0 && IsSpace(s[0]) then
      var k := 1 + LeadingSpace(s[1..]);
      assert forall i :: 1 <= i < k ==> s[i] == s[1..][i - 1];
      k
    else 0
  }

  /** The length of `s` without the run of whitespace that closes it. */
  function TrailingStart(s: string): (k: nat)
    ensures k <= |s| && forall i :: k <= i < |s| ==> IsSpace(s[i])
    ensures k == 0 || !IsSpace(s[k - 1])
  {
    if |s| > 0 && IsSpace(s[|s| - 1]) then
      TrailingStart(s[..|s| - 1])
    else |s|
  }

  /** `s.lstrip()`: drops the maximal run of leading whitespace. */
  function LStrip(s: string): (r: string)
    ensures |r| <= |s|
    ensures forall i :: 0 <= i < |s| - |r| ==> IsSpace(s[i])
    ensures r == [] || !IsSpace(r[0])
  {
    var k := LeadingSpace(s);
    if k == 0 then s else s[k..]
  }

  /** `s.rstrip()`: drops the maximal run of trailing whitespace. */
  function RStrip(s: string): (r: string)
    ensures |r| <= |s| && r == s[..|r|]
    ensures forall i :: |r| <= i < |s| ==> IsSpace(s[i])
    ensures r == [] || !IsSpace(r[|r| - 1])
  {
    s[..TrailingStart(s)]
  }

  /** `s.strip()`: the infix of `s` left after removing whitespace at both ends. */
  function Strip(s: string): (r: string)
    ensures r == [] <==> AllSpace(s)
    ensures r != [] ==> !IsSpace(r[0]) && !IsSpace(r[|r| - 1])
  {
    LStrip(RStrip(s))
  }

  /** `lstrip()` keeps a suffix of `s`, so every character it keeps is in `s`. */
  lemma LStripKeeps(s: string)
    ensures forall c :: c in LStrip(s) ==> c in s
  {
    var k := LeadingSpace(s);
    forall c | c in s[k..]
      ensures c in s
    {
      var j :| 0 <= j < |s[k..]| && s[k..][j] == c;
      assert s[k + j] == c;
    }
  }

  /** `rstrip()` keeps a prefix of `s`, so every character it keeps is in `s`. */
  lemma RStripKeeps(s: string)
    ensures forall c :: c in RStrip(s) ==> c in s
  {
    var k := TrailingStart(s);
    forall c | c in s[..k]
      ensures c in s
    {
      var j :| 0 <= j < k && s[..k][j] == c;
      assert s[j] == c;
    }
  }

  /** A string whose ends are not whitespace is left alone by `strip()`. */
  lemma StripTrimmed(s: string)
    requires s == [] || (!IsSpace(s[0]) && !IsSpace(s[|s| - 1]))
    ensures Strip(s) == s
  {
  }

  /** Whitespace appended after a non-blank string disappears under `rstrip()`. */
  lemma {:induction false} RStripConcat(a: string, b: string)
    requires a != [] && !IsSpace(a[|a| - 1])
    ensures RStrip(a + b) == a + RStrip(b)
    decreases |b|
  {
    if |b| > 0 && IsSpace(b[|b| - 1]) {
      assert (a + b)[..|a + b| - 1] == a + b[..|b| - 1];
      RStripConcat(a, b[..|b| - 1]);
    } else if |b| == 0 {
      assert a + b == a;
    }
  }

  /** `lstrip()` leaves a string that starts with a non-space character alone. */
  lemma LStripNonSpace(s: string)
    requires s != [] && !IsSpace(s[0])
    ensures LStrip(s) == s
  {
  }

  function LowerChar(c: char): char {
    if 'A' <= c <= 'Z' then (c as int + 32) as char else c
  }

  /** `s.lower()` for ASCII letters. */
  function Lower(s: string): (r: string)
    ensures |r| == |s|
    ensures forall i :: 0 <= i < |s| ==> r[i] == LowerChar(s[i])
  {
    seq(|s|, i requires 0 <= i < |s| => LowerChar(s[i]))
  }

  predicate StartsWith(s: string, p: string) {
    |p| <= |s| && s[..|p|] == p
  }

  predicate EndsWith(s: string, p: string) {
    |p| <= |s| && s[|s| - |p|..] == p
  }

  /** `p in s` for strings: `p` occurs as a contiguous substring of `s`. */
  predicate Contains(s: string, p: string)
    decreases |s|
  {
    StartsWith(s, p) || (s != [] && Contains(s[1..], p))
  }


  /** `sep.join(parts)`. */
  function Join(parts: seq<string>, sep: string): string {
    if |parts| == 0 then ""
    else if |parts| == 1 then parts[0]
    else parts[0] + sep + Join(parts[1..], sep)
  }

  /** Every line followed by a line break: the text of a file whose lines are `ls`. */
  function Unlines(ls: seq<string>): string {
    if ls == [] then "" else ls[0] + "\n" + Unlines(ls[1..])
  }

  lemma {:induction false} UnlinesAppend(a: seq<string>, b: seq<string>)
    ensures Unlines(a + b) == Unlines(a) + Unlines(b)
    decreases |a|
  {
    if a == [] {
      assert a + b == b;
    } else {
      assert (a + b)[1..] == a[1..] + b;
      UnlinesAppend(a[1..], b);
    }
  }

  /** Terminating every line with a break is joining with breaks plus a final break. */
  lemma {:induction false} UnlinesJoin(ls: seq<string>)
    requires ls != []
    ensures Unlines(ls) == Join(ls, "\n") + "\n"
    decreases |ls|
  {
    if |ls| > 1 {
      UnlinesJoin(ls[1..]);
    }
  }

  lemma ConcatAssoc<T>(a: seq<T>, b: seq<T>, c: seq<T>)
    ensures a + (b + c) == a + b + c
  {
  }

  lemma Unlines1(a: string)
    ensures Unlines([a]) == a + "\n"
  {
    assert Unlines([a]) == a + "\n" + Unlines([]);
  }

  lemma UnlinesSnoc(ls: seq<string>, b: string)
    ensures Unlines(ls + [b]) == Unlines(ls) + b + "\n"
  {
    UnlinesAppend(ls, [b]);
    Unlines1(b);
    ConcatAssoc(Unlines(ls), b, "\n");
  }

  lemma Unlines2(a: string, b: string)
    ensures Unlines([a, b]) == a + "\n" + b + "\n"
  {
    assert [a, b] == [a] + [b];
    UnlinesSnoc([a], b);
    Unlines1(a);
  }

  lemma Unlines3(a: string, b: string, c: string)
    ensures Unlines([a, b, c]) == a + "\n" + b + "\n" + c + "\n"
  {
    assert [a, b, c] == [a, b] + [c];
    UnlinesSnoc([a, b], c);
    Unlines2(a, b);
  }

  lemma Unlines4(a: string, b: string, c: string, d: string)
    ensures Unlines([a, b, c, d]) == a + "\n" + b + "\n" + c + "\n" + d + "\n"
  {
    assert [a, b, c, d] == [a, b, c] + [d];
    UnlinesSnoc([a, b, c], d);
    Unlines3(a, b, c);
  }

  lemma Unlines5(a: string, b: string, c: string, d: string, e: string)
    ensures Unlines([a, b, c, d, e]) == a + "\n" + b + "\n" + c + "\n" + d + "\n" + e + "\n"
  {
    assert [a, b, c, d, e] == [a, b, c, d] + [e];
    UnlinesSnoc([a, b, c, d], e);
    Unlines4(a, b, c, d);
  }



  /** The index of the first occurrence of `c` in `s`. */
  function IndexOf(s: string, c: char): (i: nat)
    requires c in s
    ensures i < |s| && s[i] == c && c !in s[..i]
  {
    if s[0] == c then 0 else 1 + IndexOf(s[1..], c)
  }

  /** The text before the first line break (all of `s` when there is none):
      `s.split("\n")[0]`. */
  function FirstLine(s: string): (r: string)
    ensures '\n' !in r && StartsWith(s, r)
    ensures |r| < |s| ==> s[|r|] == '\n'
  {
    if '\n' in s then s[..IndexOf(s, '\n')] else s
  }

  /** `s.splitlines()` for `\n` breaks: a final break does not open an empty line,
      and the empty string has no lines. No line holds a break, and the lines put
      back together give `s`. */
  function SplitLines(s: string): (r: seq<string>)
    ensures forall k :: 0 <= k < |r| ==> '\n' !in r[k]
    ensures s == [] || s[|s| - 1] == '\n' ==> Unlines(r) == s
    ensures s != [] && s[|s| - 1] != '\n' ==> r != [] && Join(r, "\n") == s
    decreases |s|
  {
    if s == [] then []
    else if '\n' in s then
      var i := IndexOf(s, '\n');
      assert s == s[..i] + "\n" + s[i + 1..];
      [s[..i]] + SplitLines(s[i + 1..])
    else
      [s]
  }

  /** Splitting the joined lines gives the lines back, provided none holds a break
      and the last one is not empty. */
  lemma {:induction false} SplitLinesJoin(ls: seq<string>)
    requires ls != [] && ls[|ls| - 1] != []
    requires forall k :: 0 <= k < |ls| ==> '\n' !in ls[k]
    ensures SplitLines(Join(ls, "\n")) == ls
    decreases |ls|
  {
    var s := Join(ls, "\n");
    if |ls| == 1 {
      assert s == ls[0];
    } else {
      var rest := Join(ls[1..], "\n");
      assert s == ls[0] + "\n" + rest;
      assert s[|ls[0]|] == '\n';
      var i := IndexOf(s, '\n');
      assert s[..|ls[0]|] == ls[0];
      assert i == |ls[0]|;
      assert s[i + 1..] == rest;
      SplitLinesJoin(ls[1..]);
    }
  }

  /** No line of `ls` holds a line break. */
  predicate NoBreaks(ls: seq<string>) {
    forall k :: 0 <= k < |ls| ==> '\n' !in ls[k]
  }

  lemma NoBreaksAppend(a: seq<string>, b: seq<string>)
    requires NoBreaks(a) && NoBreaks(b)
    ensures NoBreaks(a + b)
  {
    forall k | 0 <= k < |a + b|
      ensures '\n' !in (a + b)[k]
    {
      if k >= |a| {
        assert (a + b)[k] == b[k - |a|];
      }
    }
  }

  /** Joining with breaks is terminating every line but the last. */
  lemma {:induction false} JoinSnoc(ls: seq<string>, x: string)
    ensures Join(ls + [x], "\n") == Unlines(ls) + x
    decreases |ls|
  {
    if ls == [] {
      assert ls + [x] == [x];
    } else {
      assert (ls + [x])[1..] == ls[1..] + [x];
      JoinSnoc(ls[1..], x);
      ConcatAssoc(ls[0] + "\n", Unlines(ls[1..]), x);
    }
  }

  /** Splitting a text whose lines are `ls` gives `ls` back. */
  lemma {:induction false} SplitLinesUnlines(ls: seq<string>)
    requires forall k :: 0 <= k < |ls| ==> '\n' !in ls[k]
    ensures SplitLines(Unlines(ls)) == ls
    decreases |ls|
  {
    if ls != [] {
      var s := Unlines(ls);
      var rest := Unlines(ls[1..]);
      assert s == ls[0] + "\n" + rest;
      assert s[|ls[0]|] == '\n';
      assert s[..|ls[0]|] == ls[0];
      assert IndexOf(s, '\n') == |ls[0]|;
      assert s[|ls[0]| + 1..] == rest;
      SplitLinesUnlines(ls[1..]);
    }
  }

  /** A trailing line break does not survive `strip()`. */
  lemma StripDropsFinalBreak(s: string)
    ensures Strip(s + "\n") == Strip(s)
  {
    var t := s + "\n";
    assert t[..|t| - 1] == s;
    assert TrailingStart(t) == TrailingStart(s);
    assert RStrip(t) == RStrip(s) by {
      assert t[..TrailingStart(s)] == s[..TrailingStart(s)];
    }
  }

  /** The value of a run of decimal digits, as Python's `int()` reads it. */
  function DigitsValue(ds: string): nat
    requires AllDigits(ds)
  {
    if ds == [] then 0 else DigitsValue(ds[..|ds| - 1]) * 10 + (ds[|ds| - 1] as int - '0' as int)
  }
}
