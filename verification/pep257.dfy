/** The linter-output classification (`autodocstring/pep257_fixer.py`): each
    line pydocstyle prints is matched against
    `<file>:<line><ws>D<digits><ws><message>`, and every line that matches
    becomes an issue carrying its category and a suggested fix.

    Running pydocstyle itself is not modelled: its standard output is the
    input here. */
module Pep257 {
  import opened Wrappers
  import opened Strings

  /** The category prefixes, in the order `categorize` tries them. */
  const CategoryMap: seq<(string, string)> := [
    ("D10", "Missing Docstrings"),
    ("D20", "Whitespace Issues"),
    ("D30", "Quotes Issues"),
    ("D40", "Docstring Content Issues")
  ]

  const OtherCategory := "Other"

  /** The category of the first prefix of `CategoryMap[i..]` that opens `code`. */
  function FirstCategory(code: string, i: nat): string
    requires i <= |CategoryMap|
    decreases |CategoryMap| - i
  {
    if i == |CategoryMap| then OtherCategory
    else if StartsWith(code, CategoryMap[i].0) then CategoryMap[i].1
    else FirstCategory(code, i + 1)
  }

  /** `categorize(code)`: "Other" exactly when no prefix of the table opens the
      code, and otherwise the category of the prefix that does (the prefixes
      exclude each other, so which one is tried first does not matter). */
  function Categorize(code: string): (r: string)
    ensures r == OtherCategory <==> forall i :: 0 <= i < |CategoryMap| ==> !StartsWith(code, CategoryMap[i].0)
    ensures forall i :: 0 <= i < |CategoryMap| && StartsWith(code, CategoryMap[i].0) ==> r == CategoryMap[i].1
  {
    FirstCategoryFinds(code, 0);
    FirstCategory(code, 0)
  }

  /** No code opens with two different prefixes of the table. */
  lemma PrefixesExclusive(code: string, i: nat, j: nat)
    requires i < j < |CategoryMap|
    requires StartsWith(code, CategoryMap[i].0)
    ensures !StartsWith(code, CategoryMap[j].0)
  {
    assert CategoryMap[i].0[1] != CategoryMap[j].0[1];
    assert code[1] == CategoryMap[i].0[1];
  }

  lemma {:induction false} FirstCategoryFinds(code: string, i: nat)
    requires i <= |CategoryMap|
    ensures FirstCategory(code, i) == OtherCategory <==>
              forall j :: i <= j < |CategoryMap| ==> !StartsWith(code, CategoryMap[j].0)
    ensures forall j :: i <= j < |CategoryMap| && StartsWith(code, CategoryMap[j].0) ==>
              FirstCategory(code, i) == CategoryMap[j].1
    decreases |CategoryMap| - i
  {
    if i < |CategoryMap| {
      FirstCategoryFinds(code, i + 1);
      if StartsWith(code, CategoryMap[i].0) {
        forall j | i < j < |CategoryMap|
          ensures !StartsWith(code, CategoryMap[j].0)
        {
          PrefixesExclusive(code, i, j);
        }
      }
    }
  }

  /** Sample codes from each side of the prefixes: a `D2` code is a whitespace
      issue only when its third character is `0`. */
  lemma CategorizeSamples()
    ensures Categorize("D205") == "Whitespace Issues"
    ensures Categorize("D212") == OtherCategory
    ensures Categorize("D412") == OtherCategory
    ensures Categorize("D300") == "Quotes Issues"
  {
    assert StartsWith("D205", CategoryMap[1].0);
    assert StartsWith("D300", CategoryMap[2].0);
    assert "D212"[2] == '1' && "D412"[2] == '1';
  }

  const ManualFix := "Manual fix required"

  /** The codes with a safe automatic fix and the fix each one suggests. */
  const Fixes: map<string, string> := map[
    "D100" := "Add module docstring at top of file",
    "D101" := "Add class docstring",
    "D102" := "Add method docstring",
    "D103" := "Add function docstring",
    "D205" := "Add blank line after summary",
    "D400" := "End summary with period",
    "D401" := "Use imperative mood",
    "D403" := "Capitalize first word",
    "D404" := "Avoid starting with 'This'"
  ]

  /** `suggest_fix(code)`: a specific suggestion for exactly the nine codes with
      a safe fix, and the manual-fix text for every other code. */
  function SuggestFix(code: string): (r: string)
    ensures r == ManualFix <==>
              code !in {"D100", "D101", "D102", "D103", "D205", "D400", "D401", "D403", "D404"}
  {
    FixedCodes();
    if code in Fixes then Fixes[code] else ManualFix
  }

  lemma FixedCodes()
    ensures Fixes.Keys == {"D100", "D101", "D102", "D103", "D205", "D400", "D401", "D403", "D404"}
    ensures forall c :: c in Fixes ==> Fixes[c] != ManualFix
  {
  }

  /** Every code with a specific fix falls in a named category, and none of
      them is a quotes issue. */
  lemma FixesAreCategorized(code: string)
    requires SuggestFix(code) != ManualFix
    ensures Categorize(code) != OtherCategory
    ensures Categorize(code) != "Quotes Issues"
  {
    var i := if code[1] == '1' then 0 else if code[1] == '2' then 1 else 3;
    assert StartsWith(code, CategoryMap[i].0);
  }

  /** Where the run of decimal digits starting at `i` ends. */
  function DigitsEnd(s: string, i: nat): (j: nat)
    requires i <= |s|
    ensures i <= j <= |s| && forall k :: i <= k < j ==> IsDigit(s[k])
    ensures j == |s| || !IsDigit(s[j])
    decreases |s| - i
  {
    if i < |s| && IsDigit(s[i]) then DigitsEnd(s, i + 1) else i
  }

  /** Where the run of whitespace starting at `i` ends. */
  function SpacesEnd(s: string, i: nat): (j: nat)
    requires i <= |s|
    ensures i <= j <= |s| && forall k :: i <= k < j ==> IsSpace(s[k])
    ensures j == |s| || !IsSpace(s[j])
    decreases |s| - i
  {
    if i < |s| && IsSpace(s[i]) then SpacesEnd(s, i + 1) else i
  }

  /** A run of digits followed by a non-digit is the run `DigitsEnd` finds. */
  lemma {:induction false} DigitsEndIs(s: string, i: nat, j: nat)
    requires i <= j <= |s| && (forall k :: i <= k < j ==> IsDigit(s[k]))
    requires j == |s| || !IsDigit(s[j])
    ensures DigitsEnd(s, i) == j
    decreases j - i
  {
    if i < j {
      DigitsEndIs(s, i + 1, j);
    }
  }

  /** A run of whitespace followed by a non-space is the run `SpacesEnd`
      finds. */
  lemma {:induction false} SpacesEndIs(s: string, i: nat, j: nat)
    requires i <= j <= |s| && (forall k :: i <= k < j ==> IsSpace(s[k]))
    requires j == |s| || !IsSpace(s[j])
    ensures SpacesEnd(s, i) == j
    decreases j - i
  {
    if i < j {
      SpacesEndIs(s, i + 1, j);
    }
  }

  /** What the regex groups after the file's colon: the line number's digits,
      the gap, the code, the second gap and the message. */
  datatype Tail = Tail(digits: string, gap: string, code: string, gap2: string, message: string)

  /** The shape `(\d+)\s+(D\d+)\s+(.*)` gives a line after the colon: the greedy
      runs leave the message starting with something other than whitespace. */
  predicate WellSplit(t: Tail) {
    && t.digits != [] && AllDigits(t.digits)
    && t.gap != [] && AllSpace(t.gap)
    && |t.code| >= 2 && t.code[0] == 'D' && AllDigits(t.code[1..])
    && t.gap2 != [] && AllSpace(t.gap2)
    && (t.message == [] || !IsSpace(t.message[0]))
  }

  function Glue(t: Tail): string {
    t.digits + t.gap + t.code + t.gap2 + t.message
  }

  /** Matching the rest of a line after a colon; what it finds glues back to
      that rest. The runs end at `a`, `b`, `c` and `f`. */
  function MatchTail(s: string): (r: Option<Tail>)
    ensures r.Some? ==> WellSplit(r.value) && Glue(r.value) == s
  {
    var a := DigitsEnd(s, 0);
    var b := SpacesEnd(s, a);
    if a == 0 || b == a || b == |s| || s[b] != 'D' then None
    else
      var c := DigitsEnd(s, b + 1);
      var f := SpacesEnd(s, c);
      if c == b + 1 || f == c then None
      else
        TailAt(s, a, b, c, f);
        Some(Tail(s[..a], s[a..b], s[b..c], s[c..f], s[f..]))
  }

  /** Runs found at those points make a well-split tail that glues back. */
  lemma TailAt(s: string, a: nat, b: nat, c: nat, f: nat)
    requires 0 < a < b < c - 1 && c < f <= |s|
    requires forall k :: 0 <= k < a ==> IsDigit(s[k])
    requires forall k :: a <= k < b ==> IsSpace(s[k])
    requires s[b] == 'D' && forall k :: b + 1 <= k < c ==> IsDigit(s[k])
    requires forall k :: c <= k < f ==> IsSpace(s[k])
    requires f == |s| || !IsSpace(s[f])
    ensures WellSplit(Tail(s[..a], s[a..b], s[b..c], s[c..f], s[f..]))
    ensures Glue(Tail(s[..a], s[a..b], s[b..c], s[c..f], s[f..])) == s
  {
    var code := s[b..c];
    assert forall k :: 0 <= k < |code| - 1 ==> code[1..][k] == s[b + 1 + k];
    CutAt(s, a, b, c, f);
  }

  /** Cutting a string at four ordered points and gluing the pieces back. */
  lemma CutAt(s: string, a: nat, b: nat, c: nat, f: nat)
    requires a <= b <= c <= f <= |s|
    ensures s[..a] + s[a..b] + s[b..c] + s[c..f] + s[f..] == s
  {
    assert s[..a] + s[a..b] == s[..b];
    assert s[..b] + s[b..c] == s[..c];
    assert s[..c] + s[c..f] == s[..f];
    assert s[..f] + s[f..] == s;
  }

  /** The pieces of a glued tail sit at the offsets their lengths give. */
  lemma GluedParts(t: Tail, s: string, a: nat, b: nat, c: nat, f: nat)
    requires s == Glue(t) && a == |t.digits| && b == a + |t.gap|
    requires c == b + |t.code| && f == c + |t.gap2|
    ensures f <= |s| && s[..a] == t.digits && s[a..b] == t.gap && s[b..c] == t.code
    ensures s[c..f] == t.gap2 && s[f..] == t.message
  {
  }

  /** The runs a glued well-split tail is made of, where each one stops. */
  lemma GluedRuns(t: Tail, s: string, a: nat, b: nat, c: nat, f: nat)
    requires WellSplit(t)
    requires s == Glue(t) && a == |t.digits| && b == a + |t.gap|
    requires c == b + |t.code| && f == c + |t.gap2|
    ensures 0 < a < b < c - 1 && c < f <= |s|
    ensures (forall k :: 0 <= k < a ==> IsDigit(s[k])) && !IsDigit(s[a])
    ensures (forall k :: a <= k < b ==> IsSpace(s[k])) && s[b] == 'D'
    ensures (forall k :: b + 1 <= k < c ==> IsDigit(s[k])) && !IsDigit(s[c])
    ensures (forall k :: c <= k < f ==> IsSpace(s[k])) && (f == |s| || !IsSpace(s[f]))
  {
    GluedParts(t, s, a, b, c, f);
    forall k | 0 <= k < a ensures IsDigit(s[k]) {
      assert s[k] == s[..a][k];
    }
    assert s[a] == s[a..b][0];
    forall k | a <= k < b ensures IsSpace(s[k]) {
      assert s[k] == s[a..b][k - a];
    }
    assert s[b] == s[b..c][0];
    forall k | b + 1 <= k < c ensures IsDigit(s[k]) {
      assert s[k] == s[b..c][k - b] == t.code[1..][k - b - 1];
    }
    assert s[c] == s[c..f][0];
    forall k | c <= k < f ensures IsSpace(s[k]) {
      assert s[k] == s[c..f][k - c];
    }
    if f < |s| {
      assert s[f] == s[f..][0];
    }
  }

  /** Every well-split tail is found again: the match is unique. */
  lemma MatchTailComplete(t: Tail)
    requires WellSplit(t)
    ensures MatchTail(Glue(t)) == Some(t)
  {
    var s := Glue(t);
    var a := |t.digits|;
    var b := a + |t.gap|;
    var c := b + |t.code|;
    var f := c + |t.gap2|;
    GluedRuns(t, s, a, b, c, f);
    DigitsEndIs(s, 0, a);
    SpacesEndIs(s, a, b);
    DigitsEndIs(s, b + 1, c);
    SpacesEndIs(s, c, f);
    MatchTailAt(s, a, b, c, f);
    GluedParts(t, s, a, b, c, f);
  }

  /** Where the runs end decides what the match returns. */
  lemma MatchTailAt(s: string, a: nat, b: nat, c: nat, f: nat)
    requires 0 < a < b < c - 1 && c < f <= |s| && s[b] == 'D'
    requires DigitsEnd(s, 0) == a && SpacesEnd(s, a) == b
    requires DigitsEnd(s, b + 1) == c && SpacesEnd(s, c) == f
    ensures MatchTail(s) == Some(Tail(s[..a], s[a..b], s[b..c], s[c..f], s[f..]))
  {
  }

  /** The dictionary built for a matching line. */
  datatype Issue = Issue(file: string, line: nat, code: string, category: string, message: string, fix: string)

  function IssueOf(file: string, t: Tail): Issue
    requires AllDigits(t.digits)
  {
    Issue(file, DigitsValue(t.digits), t.code, Categorize(t.code), t.message, SuggestFix(t.code))
  }

  /** Whether the regex can match with the file group ending at `k`. */
  function MatchAt(line: string, k: nat): Option<Tail>
    requires k < |line|
  {
    if line[k] == ':' then MatchTail(line[k + 1..]) else None
  }

  /** The lazy `(.*?)`: the first colon at or after `k` at which the rest
      matches. */
  function FirstMatch(line: string, k: nat): (r: Option<nat>)
    requires k <= |line|
    ensures r.Some? ==> k <= r.value < |line| && MatchAt(line, r.value).Some?
    ensures r.Some? ==> forall j :: k <= j < r.value ==> MatchAt(line, j).None?
    ensures r.None? ==> forall j :: k <= j < |line| ==> MatchAt(line, j).None?
    decreases |line| - k
  {
    if k == |line| then None
    else if MatchAt(line, k).Some? then Some(k)
    else FirstMatch(line, k + 1)
  }

  /** `re.match(...)` on one line, and the issue built from it: the file is the
      shortest prefix ending before a colon after which the rest matches, the
      other fields come from that match, and no issue comes out exactly when
      there is no such colon. */
  function ParseLine(line: string): (r: Option<Issue>)
    ensures r.None? <==> forall k :: 0 <= k < |line| ==> MatchAt(line, k).None?
    ensures r.Some? ==> |r.value.file| < |line| && line[..|r.value.file|] == r.value.file
                        && line[|r.value.file|] == ':'
    ensures r.Some? ==> FirstMatch(line, 0) == Some(|r.value.file|)
    ensures r.Some? ==> MatchAt(line, |r.value.file|).Some?
                        && r.value == IssueOf(r.value.file, MatchAt(line, |r.value.file|).value)
    ensures r.Some? ==> r.value.category == Categorize(r.value.code) && r.value.fix == SuggestFix(r.value.code)
  {
    match FirstMatch(line, 0)
    case None => None
    case Some(k) =>
      var file := line[..k];
      assert |file| == k;
      Some(IssueOf(file, MatchAt(line, k).value))
  }

  /** The lazy file group: no colon before the end of the issue's file name is
      followed by a matching rest of the line. */
  lemma ParseLineShortest(line: string)
    ensures ParseLine(line).Some? ==>
              forall j :: 0 <= j < |ParseLine(line).value.file| ==> MatchAt(line, j).None?
  {
    if ParseLine(line).Some? {
      assert FirstMatch(line, 0) == Some(|ParseLine(line).value.file|);
    }
  }

  /** A line pydocstyle would print for a file whose name has no colon parses
      back into its parts. */
  lemma ParseLineRoundTrip(file: string, t: Tail)
    requires ':' !in file
    requires WellSplit(t)
    ensures ParseLine(file + ":" + Glue(t)) == Some(IssueOf(file, t))
  {
    var line := file + ":" + Glue(t);
    forall j | 0 <= j < |file|
      ensures MatchAt(line, j).None?
    {
      assert line[j] == file[j] && file[j] in file;
    }
    ParseLineAfter(file, t);
  }

  /** A colon inside the file name does not cut it short: the lazy file group
      grows past any colon after which the rest does not match. */
  lemma ColonInFileName()
    ensures ParseLine("C:\\x.py:12 D100 Missing docstring")
            == Some(Issue("C:\\x.py", 12, "D100", "Missing Docstrings", "Missing docstring",
                          "Add module docstring at top of file"))
  {
    var t := Tail("12", " ", "D100", " ", "Missing docstring");
    SampleGlued("C:\\x.py:12 D100 Missing docstring", t);
    SampleTail(t);
    SampleFile("C:\\x.py", t);
  }

  lemma SampleGlued(line: string, t: Tail)
    requires line == "C:\\x.py:12 D100 Missing docstring"
    requires t == Tail("12", " ", "D100", " ", "Missing docstring")
    ensures line == "C:\\x.py" + ":" + Glue(t)
  {
  }

  lemma SampleTail(t: Tail)
    requires t == Tail("12", " ", "D100", " ", "Missing docstring")
    ensures WellSplit(t)
    ensures IssueOf("C:\\x.py", t)
            == Issue("C:\\x.py", 12, "D100", "Missing Docstrings", "Missing docstring",
                     "Add module docstring at top of file")
  {
    assert DigitsValue("12") == 12 by {
      assert "12"[..1] == "1";
    }
    assert StartsWith("D100", CategoryMap[0].0);
  }

  lemma SampleFile(file: string, t: Tail)
    requires file == "C:\\x.py" && WellSplit(t)
    ensures ParseLine(file + ":" + Glue(t)) == Some(IssueOf(file, t))
  {
    var line := file + ":" + Glue(t);
    forall j | 0 <= j < |file|
      ensures MatchAt(line, j).None?
    {
      if j == 1 {
        assert line[j + 1..][0] == '\\';
      } else {
        assert line[j] == file[j];
      }
    }
    ParseLineAfter(file, t);
  }

  /** The line parses at the colon after `file` when no earlier colon works. */
  lemma ParseLineAfter(file: string, t: Tail)
    requires WellSplit(t)
    requires forall j :: 0 <= j < |file| ==> MatchAt(file + ":" + Glue(t), j).None?
    ensures ParseLine(file + ":" + Glue(t)) == Some(IssueOf(file, t))
  {
    var line := file + ":" + Glue(t);
    assert line[|file| + 1..] == Glue(t);
    MatchTailComplete(t);
    FirstMatchAt(line, |file|);
    assert line[..|file|] == file;
  }

  /** The first matching colon is the one before which nothing matches. */
  lemma FirstMatchAt(line: string, p: nat)
    requires p < |line| && MatchAt(line, p).Some?
    requires forall j :: 0 <= j < p ==> MatchAt(line, j).None?
    ensures FirstMatch(line, 0) == Some(p)
  {
  }

  /** What `f` finds in each line of `ls`, in line order; a line where it
      finds nothing contributes nothing. */
  function Gather<T>(f: string -> Option<T>, ls: seq<string>): (r: seq<T>)
    ensures |r| <= |ls|
  {
    if ls == [] then []
    else
      (match f(ls[0]) case Some(x) => [x] case None => []) + Gather(f, ls[1..])
  }

  lemma {:induction false} GatherAppend<T>(f: string -> Option<T>, a: seq<string>, b: seq<string>)
    ensures Gather(f, a + b) == Gather(f, a) + Gather(f, b)
    decreases |a|
  {
    if a == [] {
      assert a + b == b;
    } else {
      assert (a + b)[0] == a[0];
      assert (a + b)[1..] == a[1..] + b;
      GatherAppend(f, a[1..], b);
    }
  }

  lemma {:induction false} GatherSound<T>(f: string -> Option<T>, ls: seq<string>, x: T)
    requires x in Gather(f, ls)
    ensures exists l :: l in ls && f(l) == Some(x)
    decreases |ls|
  {
    if f(ls[0]) == Some(x) {
      assert ls[0] in ls;
    } else {
      GatherSound(f, ls[1..], x);
      var l :| l in ls[1..] && f(l) == Some(x);
      assert l in ls;
    }
  }

  /** The issues of a sequence of lines, in line order. */
  function Collect(ls: seq<string>): (r: seq<Issue>)
    ensures |r| <= |ls|
  {
    Gather(ParseLine, ls)
  }

  /** Collecting distributes over concatenation: each line contributes its own
      issue, in place. */
  lemma CollectAppend(a: seq<string>, b: seq<string>)
    ensures Collect(a + b) == Collect(a) + Collect(b)
  {
    GatherAppend(ParseLine, a, b);
  }

  /** Every issue comes from some line that parses to it. */
  lemma CollectSound(ls: seq<string>, i: Issue)
    requires i in Collect(ls)
    ensures exists l :: l in ls && ParseLine(l) == Some(i)
  {
    GatherSound(ParseLine, ls, i);
  }

  /** `run_full_pep257` after the subprocess: the issues of pydocstyle's
      standard output, one per matching line, in order. */
  function ParseReport(stdout: string): (r: seq<Issue>)
    ensures |r| <= |SplitLines(stdout)|
  {
    Collect(SplitLines(stdout))
  }
}
