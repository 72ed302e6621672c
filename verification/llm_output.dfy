/** What `autodocstring/llm_generator.py` does with a model's reply: the style
    name it puts in the prompt, the cleaning `clean_docstring` applies to the
    reply, and the checks `generate_docstring_llm` makes before returning it.

    The HTTP request itself is not modelled: the reply (or the failure) is a
    parameter. The regular expressions of `clean_docstring` are written out as
    functions on strings. */
module LlmOutput {
  import opened Wrappers
  import opened Strings

  // ----- style name -----

  /** `build_prompt`'s style normalisation: lower-cased, with the two spellings
      of reStructuredText mapped to `reST`. */
  function NormalizeStyle(style: string): (r: string)
    ensures r == "reST" <==> Lower(style) == "rst" || Lower(style) == "restructuredtext"
    ensures r != "reST" ==> r == Lower(style)
  {
    var s := Lower(style);
    LowerIsNotReST(style);
    if s == "rst" || s == "restructuredtext" then "reST" else s
  }

  /** A lower-cased string holds no `S`, so it is never `reST`. */
  lemma LowerIsNotReST(style: string)
    ensures Lower(style) != "reST"
  {
    if |style| == 4 {
      assert Lower(style)[3] == LowerChar(style[3]) != 'S';
    }
  }

  /** Normalising is not idempotent: the `reST` it produces lower-cases to
      `rest`, which is not one of the two recognised spellings. */
  lemma NormalizeStyleNotIdempotent()
    ensures NormalizeStyle("rst") == "reST"
    ensures NormalizeStyle(NormalizeStyle("rst")) == "rest"
  {
    assert Lower("rst") == "rst";
    assert Lower("reST") == "rest";
  }

  // ----- the text between the fences and quotes -----

  const TripleDouble := "\"\"\""

  /** Three backticks at `s[i..i + 3]`. */
  predicate FenceAt(s: string, i: nat)
    requires i + 3 <= |s|
  {
    s[i] == '`' && s[i + 1] == '`' && s[i + 2] == '`'
  }

  /** `\"\"\"` or `'''` at `s[i..i + 3]`. */
  predicate QuoteAt(s: string, i: nat)
    requires i + 3 <= |s|
  {
    (s[i] == '"' && s[i + 1] == '"' && s[i + 2] == '"')
    || (s[i] == '\'' && s[i + 1] == '\'' && s[i + 2] == '\'')
  }

  predicate OpensFence(s: string) {
    |s| >= 3 && FenceAt(s, 0)
  }

  predicate ClosesFence(s: string) {
    |s| >= 3 && FenceAt(s, |s| - 3)
  }

  predicate StartsTriple(s: string) {
    |s| >= 3 && QuoteAt(s, 0)
  }

  predicate EndsTriple(s: string) {
    |s| >= 3 && QuoteAt(s, |s| - 3)
  }

  /** `t` opens with `tag`, compared case-insensitively. */
  predicate TagIs(t: string, tag: string) {
    |tag| <= |t| && forall i :: 0 <= i < |tag| ==> LowerChar(t[i]) == tag[i]
  }

  /** The length of the optional `python`/`py` tag after an opening fence; the
      longer tag is tried first. */
  function TagLength(t: string): (n: nat)
    ensures n <= |t|
    ensures n == 6 <==> TagIs(t, "python")
    ensures n == 2 <==> !TagIs(t, "python") && TagIs(t, "py")
  {
    if TagIs(t, "python") then 6
    else if TagIs(t, "py") then 2
    else 0
  }

  /** ``re.sub(r"^```(?:python|py)?\s*", "", raw, flags=re.IGNORECASE)``: an
      opening fence, its tag and the whitespace after them are removed. */
  function OpenFence(s: string): (r: string)
    ensures |r| <= |s|
    ensures !OpensFence(s) ==> r == s
    ensures OpensFence(s) ==> |r| <= |s| - 3 && (r == [] || !IsSpace(r[0]))
  {
    if OpensFence(s) then LStrip(s[3 + TagLength(s[3..])..]) else s
  }

  /** ``re.sub(r"\s*```$", "", raw)``: a closing fence and the whitespace before
      it are removed. */
  function CloseFence(s: string): (r: string)
    ensures |r| <= |s| && r == s[..|r|]
    ensures !ClosesFence(s) ==> r == s
    ensures ClosesFence(s) ==> |r| <= |s| - 3 && (r == [] || !IsSpace(r[|r| - 1]))
  {
    if ClosesFence(s) then RStrip(s[..|s| - 3]) else s
  }

  /** What the opening-fence substitution removes: a prefix made of the three
      backticks, the `python`/`py` tag `TagLength` finds, and whitespace only;
      what it keeps is the rest of `s`. */
  lemma OpenFenceRemoves(s: string)
    requires OpensFence(s)
    ensures var r := OpenFence(s);
            3 + TagLength(s[3..]) <= |s| - |r| && s == s[..|s| - |r|] + r
    ensures var r := OpenFence(s);
            forall i :: 3 + TagLength(s[3..]) <= i < |s| - |r| ==> IsSpace(s[i])
  {
    var n := 3 + TagLength(s[3..]);
    var u := s[n..];
    var r := OpenFence(s);
    LStripIndexed(u);
    var m := n + LeadingSpace(u);
    assert forall j :: 0 <= j < |r| ==> r[j] == s[m + j];
    SuffixAt(s, r, m);
    forall i | n <= i < m
      ensures IsSpace(s[i])
    {
      assert s[i] == u[i - n];
    }
  }

  /** What `lstrip()` keeps sits right after the whitespace run it drops. */
  lemma LStripIndexed(u: string)
    ensures |LStrip(u)| == |u| - LeadingSpace(u)
    ensures forall j :: 0 <= j < |LStrip(u)| ==> LStrip(u)[j] == u[LeadingSpace(u) + j]
  {
  }

  /** A string that matches `s` from offset `m` to the end is the suffix of `s`
      after its first `m` characters. */
  lemma SuffixAt(s: string, r: string, m: nat)
    requires m + |r| == |s|
    requires forall j :: 0 <= j < |r| ==> r[j] == s[m + j]
    ensures s == s[..m] + r
  {
    assert forall j :: 0 <= j < |s| ==> s[j] == (s[..m] + r)[j];
  }

  /** What the closing-fence substitution removes: a suffix made of whitespace
      followed by the three backticks; what it keeps is the rest of `s`. */
  lemma CloseFenceRemoves(s: string)
    requires ClosesFence(s)
    ensures var r := CloseFence(s);
            |r| <= |s| - 3 && s == r + s[|r|..] && FenceAt(s, |s| - 3)
    ensures var r := CloseFence(s);
            forall i :: |r| <= i < |s| - 3 ==> IsSpace(s[i])
  {
    var t := s[..|s| - 3];
    var r := CloseFence(s);
    assert r == RStrip(t);
    forall i | |r| <= i < |s| - 3
      ensures IsSpace(s[i])
    {
      assert s[i] == t[i];
    }
  }

  /** A run of triple quotes: what `("\"\"\""|''')+` matches, or nothing. */
  predicate QuoteRun(s: string)
    decreases |s|
  {
    s == [] || (StartsTriple(s) && QuoteRun(s[3..]))
  }

  lemma {:induction false} QuoteRunSnoc(s: string, q: string)
    requires QuoteRun(s) && |q| == 3 && QuoteAt(q, 0)
    ensures QuoteRun(s + q)
    decreases |s|
  {
    if s == [] {
      assert s + q == q;
      assert q[3..] == [];
    } else {
      assert (s + q)[..3] == s[..3];
      assert (s + q)[3..] == s[3..] + q;
      QuoteRunSnoc(s[3..], q);
    }
  }

  /** ``re.sub(r'^("\"\"\""|''')+', "", raw)``: the removed prefix is a run
      of triple quotes and what is left does not open with another one. */
  function DropLeadingQuotes(s: string): (r: string)
    ensures |r| <= |s| && s == s[..|s| - |r|] + r
    ensures QuoteRun(s[..|s| - |r|])
    ensures !StartsTriple(r)
    decreases |s|
  {
    if StartsTriple(s) then
      var r := DropLeadingQuotes(s[3..]);
      assert s[..|s| - |r|][3..] == s[3..][..|s[3..]| - |r|];
      r
    else
      assert s[..0] == [];
      s
  }

  /** ``re.sub(r'("\"\"\""|''')+$', "", raw)``: the removed suffix is a run
      of triple quotes and what is left does not close with another one. */
  function DropTrailingQuotes(s: string): (r: string)
    ensures |r| <= |s| && r == s[..|r|]
    ensures QuoteRun(s[|r|..])
    ensures !EndsTriple(r)
    decreases |s|
  {
    if EndsTriple(s) then
      var r := DropTrailingQuotes(s[..|s| - 3]);
      QuoteRunSnoc(s[..|s| - 3][|r|..], s[|s| - 3..]);
      assert s[|r|..] == s[..|s| - 3][|r|..] + s[|s| - 3..];
      r
    else
      assert s[|s|..] == [];
      s
  }

  /** The text `clean_docstring` keeps before splitting it into lines. */
  function Payload(raw: string): string {
    DropTrailingQuotes(DropLeadingQuotes(CloseFence(OpenFence(Strip(raw)))))
  }

  /** The payload neither opens nor closes with triple quotes. */
  lemma PayloadUnquoted(raw: string)
    ensures !StartsTriple(Payload(raw)) && !EndsTriple(Payload(raw))
  {
    TrailingKeepsHead(DropLeadingQuotes(CloseFence(OpenFence(Strip(raw)))));
  }

  /** Dropping closing quotes cannot create opening ones. */
  lemma TrailingKeepsHead(t: string)
    requires !StartsTriple(t)
    ensures !StartsTriple(DropTrailingQuotes(t))
  {
    var r := DropTrailingQuotes(t);
    if |r| >= 3 {
      assert r[0] == t[0] && r[1] == t[1] && r[2] == t[2];
    }
  }

  /** A stripped text that neither opens nor closes with a quote or backtick is
      its own payload. */
  predicate Bare(d: string) {
    d != [] && !IsSpace(d[0]) && !IsSpace(d[|d| - 1])
    && d[0] !in "\"'`" && d[|d| - 1] !in "\"'`"
  }

  lemma BarePayload(d: string)
    requires Bare(d)
    ensures Payload(d) == d
  {
    StripTrimmed(d);
    assert !OpensFence(d) && !ClosesFence(d);
    assert !StartsTriple(d) && !EndsTriple(d);
  }

  /** The quotes-only stages see through a pair of triple quotes. */
  lemma QuoteStagesUnquote(d: string)
    requires Bare(d)
    ensures DropTrailingQuotes(DropLeadingQuotes(TripleDouble + d + TripleDouble)) == d
  {
    var t := d + TripleDouble;
    var s := TripleDouble + d + TripleDouble;
    assert StartsTriple(s) && s[3..] == t;
    assert !StartsTriple(t) by {
      assert t[0] == d[0];
    }
    assert DropLeadingQuotes(s) == t;
    assert EndsTriple(t) && t[..|t| - 3] == d;
    assert !EndsTriple(d);
  }

  /** Triple quotes the model wrapped around its answer are removed. */
  lemma PayloadUnquotes(d: string)
    requires Bare(d)
    ensures Payload(TripleDouble + d + TripleDouble) == d
  {
    var s := TripleDouble + d + TripleDouble;
    assert s[0] == '"' && s[|s| - 1] == '"';
    StripTrimmed(s);
    assert !OpensFence(s) && !ClosesFence(s);
    QuoteStagesUnquote(d);
  }

  /** The fence stages see through a `python` code fence. */
  lemma FenceStagesUnfence(d: string)
    requires Bare(d)
    ensures CloseFence(OpenFence("```python\n" + d + "\n```")) == d
  {
    OpenFenceOf(d);
    CloseFenceOf(d);
  }

  lemma OpenFenceOf(d: string)
    requires Bare(d)
    ensures OpenFence("```python\n" + d + "\n```") == d + "\n```"
  {
    var u := d + "\n```";
    var t := "python\n" + u;
    var s := "```python\n" + d + "\n```";
    assert s == "```" + t;
    assert OpensFence(s) && s[3..] == t;
    assert TagIs(t, "python");
    assert t[6..] == "\n" + u;
    LStripPrefix("\n", u);
  }

  lemma CloseFenceOf(d: string)
    requires Bare(d)
    ensures CloseFence(d + "\n```") == d
  {
    var u := d + "\n```";
    assert ClosesFence(u) && u[..|u| - 3] == d + "\n";
    RStripPrefix(d, "\n");
  }

  /** A Markdown code fence the model wrapped around its answer is removed. */
  lemma PayloadUnfences(d: string)
    requires Bare(d)
    ensures Payload("```python\n" + d + "\n```") == d
  {
    var s := "```python\n" + d + "\n```";
    assert s[0] == '`' && s[|s| - 1] == '`';
    StripTrimmed(s);
    FenceStagesUnfence(d);
    QuoteStagesBare(d);
  }

  lemma QuoteStagesBare(d: string)
    requires Bare(d)
    ensures DropTrailingQuotes(DropLeadingQuotes(d)) == d
  {
    assert !StartsTriple(d) && !EndsTriple(d);
  }

  /** Whitespace before a non-space character disappears under `lstrip()`. */
  lemma {:induction false} LStripPrefix(w: string, x: string)
    requires AllSpace(w) && (x == [] || !IsSpace(x[0]))
    ensures LStrip(w + x) == x
    decreases |w|
  {
    LeadingSpaceOf(w, x);
  }

  lemma {:induction false} LeadingSpaceOf(w: string, x: string)
    requires AllSpace(w) && (x == [] || !IsSpace(x[0]))
    ensures LeadingSpace(w + x) == |w|
    decreases |w|
  {
    if w == [] {
      assert w + x == x;
    } else {
      assert (w + x)[1..] == w[1..] + x;
      LeadingSpaceOf(w[1..], x);
    }
  }

  /** Whitespace after a non-space character disappears under `rstrip()`. */
  lemma RStripPrefix(x: string, w: string)
    requires AllSpace(w) && x != [] && !IsSpace(x[|x| - 1])
    ensures RStrip(x + w) == x
  {
    RStripConcat(x, w);
    assert RStrip(w) == [];
    assert x + [] == x;
  }

  // ----- lines -----

  /** `[line.rstrip() for line in raw.splitlines()]`. */
  function RStripAll(ls: seq<string>): (r: seq<string>)
    ensures |r| == |ls|
  {
    seq(|ls|, i requires 0 <= i < |ls| => RStrip(ls[i]))
  }

  predicate Blank(line: string) {
    AllSpace(line)
  }

  /** How many blank lines open `ls`. */
  function LeadingBlank(ls: seq<string>): (k: nat)
    ensures k <= |ls|
    ensures forall i :: 0 <= i < k ==> Blank(ls[i])
    ensures k == |ls| || !Blank(ls[k])
  {
    if ls != [] && Blank(ls[0]) then 1 + LeadingBlank(ls[1..]) else 0
  }

  /** Where the blank lines that close `ls` begin, looking no further left
      than `i`. */
  function TrailingBlank(ls: seq<string>, i: nat): (k: nat)
    requires i <= |ls|
    ensures i <= k <= |ls|
    ensures forall j :: k <= j < |ls| ==> Blank(ls[j])
    ensures k == i || !Blank(ls[k - 1])
    decreases |ls| - i
  {
    if i == |ls| then i
    else
      var k := TrailingBlank(ls, i + 1);
      if k == i + 1 && Blank(ls[i]) then i else k
  }

  /** The two `while` loops: leading blank lines, then trailing ones, are
      popped. What is left is the run of lines of `ls` that starts after the
      leading blank lines and has only blank lines after it; it opens and
      closes with a non-blank line, and it is empty exactly when every line is
      blank. */
  function TrimBlank(ls: seq<string>): (r: seq<string>)
    ensures r == [] <==> forall i :: 0 <= i < |ls| ==> Blank(ls[i])
    ensures r != [] ==> !Blank(r[0]) && !Blank(r[|r| - 1])
    ensures LeadingBlank(ls) + |r| <= |ls|
    ensures forall k :: 0 <= k < |r| ==> r[k] == ls[LeadingBlank(ls) + k]
    ensures forall k :: LeadingBlank(ls) + |r| <= k < |ls| ==> Blank(ls[k])
  {
    var i := LeadingBlank(ls);
    var j := TrailingBlank(ls, i);
    assert i < j ==> ls[i..j][0] == ls[i] && ls[i..j][j - i - 1] == ls[j - 1];
    ls[i..j]
  }

  /** A line's `rstrip()` is empty exactly when the line is blank. */
  lemma RStripBlank(line: string)
    ensures Blank(RStrip(line)) <==> Blank(line)
  {
    var r := RStrip(line);
    if r != [] {
      assert r[|r| - 1] == line[|r| - 1];
      assert !IsSpace(r[|r| - 1]);
    }
  }

  lemma AllSpaceAround(head: string, tail: string)
    ensures AllSpace(head + "\n" + tail) <==> AllSpace(head) && AllSpace(tail)
  {
    var s := head + "\n" + tail;
    if AllSpace(s) {
      forall k | 0 <= k < |head|
        ensures IsSpace(head[k])
      {
        assert head[k] == s[k];
      }
      forall k | 0 <= k < |tail|
        ensures IsSpace(tail[k])
      {
        assert tail[k] == s[|head| + 1 + k];
      }
    }
    if AllSpace(head) && AllSpace(tail) {
      forall k | 0 <= k < |s|
        ensures IsSpace(s[k])
      {
        if k < |head| {
          assert s[k] == head[k];
        } else if k > |head| {
          assert s[k] == tail[k - |head| - 1];
        }
      }
    }
  }

  predicate AllBlank(ls: seq<string>) {
    forall k :: 0 <= k < |ls| ==> Blank(ls[k])
  }

  lemma AllBlankCons(head: string, more: seq<string>)
    ensures AllBlank([head] + more) <==> Blank(head) && AllBlank(more)
  {
    var ls := [head] + more;
    assert ls[0] == head;
    if AllBlank(more) && Blank(head) {
      forall k | 0 <= k < |ls|
        ensures Blank(ls[k])
      {
        if k > 0 {
          assert ls[k] == more[k - 1];
        }
      }
    }
    if AllBlank(ls) {
      forall k | 0 <= k < |more|
        ensures Blank(more[k])
      {
        assert ls[k + 1] == more[k];
      }
    }
  }

  /** A text is blank exactly when each of its lines is. */
  lemma {:induction false} BlankLines(s: string)
    ensures AllSpace(s) <==> AllBlank(SplitLines(s))
    decreases |s|
  {
    if s != [] && '\n' in s {
      var i := IndexOf(s, '\n');
      var head := s[..i];
      var tail := s[i + 1..];
      assert s == head + "\n" + tail;
      assert SplitLines(s) == [head] + SplitLines(tail);
      BlankLines(tail);
      AllSpaceAround(head, tail);
      AllBlankCons(head, SplitLines(tail));
    } else if s != [] {
      assert SplitLines(s) == [s];
    }
  }

  /** The lines of a text, right-stripped, with the blank lines around them
      removed. */
  function Trimmed(p: string): seq<string> {
    TrimBlank(RStripAll(SplitLines(p)))
  }

  /** The lines `clean_docstring` formats. */
  function Kept(raw: string): seq<string> {
    Trimmed(Payload(raw))
  }

  /** Nothing is kept exactly when the text is blank. */
  lemma TrimmedEmpty(p: string)
    ensures Trimmed(p) == [] <==> AllSpace(p)
  {
    var lines := SplitLines(p);
    var stripped := RStripAll(lines);
    BlankLines(p);
    forall k | 0 <= k < |lines|
      ensures Blank(stripped[k]) <==> Blank(lines[k])
    {
      assert stripped[k] == RStrip(lines[k]);
      RStripBlank(lines[k]);
    }
    assert AllBlank(stripped) <==> AllBlank(lines);
    TrimBlankEmpty(stripped);
  }

  lemma TrimBlankEmpty(ls: seq<string>)
    ensures TrimBlank(ls) == [] <==> AllBlank(ls)
  {
  }

  /** The kept lines hold no breaks. */
  lemma TrimmedNoBreaks(p: string)
    ensures NoBreaks(Trimmed(p))
  {
    var lines := SplitLines(p);
    RStripAllNoBreaks(lines);
    TrimBlankNoBreaks(RStripAll(lines));
  }

  lemma RStripAllNoBreaks(lines: seq<string>)
    requires NoBreaks(lines)
    ensures NoBreaks(RStripAll(lines))
  {
    var stripped := RStripAll(lines);
    forall k | 0 <= k < |stripped|
      ensures '\n' !in stripped[k]
    {
      RStripNoBreak(lines[k]);
    }
  }

  lemma TrimBlankNoBreaks(ls: seq<string>)
    requires NoBreaks(ls)
    ensures NoBreaks(TrimBlank(ls))
  {
    var r := TrimBlank(ls);
    var i := LeadingBlank(ls);
    forall k | 0 <= k < |r|
      ensures '\n' !in r[k]
    {
      assert r[k] == ls[i + k];
    }
  }

  /** Nothing is kept exactly when the payload is blank; the kept lines hold no
      breaks and open and close with a non-blank line. */
  lemma KeptShape(raw: string)
    ensures Kept(raw) == [] <==> AllSpace(Payload(raw))
    ensures NoBreaks(Kept(raw))
    ensures NonBlankEnds(Kept(raw))
  {
    var p := Payload(raw);
    TrimmedEmpty(p);
    TrimmedNoBreaks(p);
    TrimmedEnds(p);
  }

  /** Neither the first nor the last line is blank. */
  predicate NonBlankEnds(ls: seq<string>) {
    ls != [] ==> !Blank(ls[0]) && !Blank(ls[|ls| - 1])
  }

  lemma TrimmedEnds(p: string)
    ensures NonBlankEnds(Trimmed(p))
  {
  }

  lemma RStripNoBreak(line: string)
    requires '\n' !in line
    ensures '\n' !in RStrip(line)
  {
    RStripKeeps(line);
  }

  // ----- formatting -----

  /** The section names `clean_docstring` recognises as headers. */
  const HeaderNames: seq<string> := ["Args", "Parameters", "Returns", "Raises", "Yields"]

  /** Whether `text` opens with one of `names` followed by a colon. */
  predicate OpensWithHeader(text: string, names: seq<string>)
    decreases |names|
  {
    names != [] && (StartsWith(text, names[0] + ":") || OpensWithHeader(text, names[1..]))
  }

  /** `re.match(r"^(Args|Parameters|Returns|Raises|Yields):", text)`. */
  predicate IsHeader(text: string) {
    OpensWithHeader(text, HeaderNames)
  }

  /** A blank line is never a header. */
  lemma {:induction false} BlankIsNoHeader(names: seq<string>)
    ensures !OpensWithHeader([], names)
    decreases |names|
  {
    if names != [] {
      BlankIsNoHeader(names[1..]);
    }
  }

  const Indent := "    "

  /** One body line of the result: a section header is kept as it is (right-
      stripped, its own indentation included), any other text is re-indented by
      four spaces, and a blank line becomes four spaces. */
  function FormatLine(line: string): string {
    var stripped := RStrip(line);
    if stripped != [] then
      if IsHeader(Strip(stripped)) then stripped else Indent + LStrip(stripped)
    else Indent
  }

  /** Two lines carry the same text when they agree once stripped. */
  predicate SameText(a: string, b: string) {
    Strip(a) == Strip(b)
  }

  /** Formatting a line keeps its text. */
  lemma FormatLineText(line: string)
    ensures SameText(FormatLine(line), line)
  {
    StripOfRStrip(line);
    if RStrip(line) == [] {
      FormatBlank(line);
    } else if IsHeader(Strip(RStrip(line))) {
      FormatHeader(line);
    } else {
      FormatText(line);
    }
  }

  /** Formatting a line adds no break. */
  lemma FormatLineNoBreak(line: string)
    requires '\n' !in line
    ensures '\n' !in FormatLine(line)
  {
    if RStrip(line) == [] {
      FormatBlank(line);
    } else if IsHeader(Strip(RStrip(line))) {
      FormatHeader(line);
    } else {
      FormatText(line);
    }
  }

  /** A header keeps its indentation; anything else is indented by four
      spaces. */
  lemma FormatLineIndent(line: string)
    ensures IsHeader(Strip(line)) ==> FormatLine(line) == RStrip(line)
    ensures !IsHeader(Strip(line)) ==> StartsWith(FormatLine(line), Indent)
  {
    StripOfRStrip(line);
    if RStrip(line) == [] {
      FormatBlank(line);
      BlankIsNoHeader(HeaderNames);
      assert StartsWith(Indent, Indent);
    } else if IsHeader(Strip(RStrip(line))) {
      FormatHeader(line);
    } else {
      var t := LStrip(RStrip(line));
      FormatText(line);
      assert (Indent + t)[..|Indent|] == Indent;
    }
  }

  lemma FormatBlank(line: string)
    requires RStrip(line) == []
    ensures FormatLine(line) == Indent && Strip(Indent) == [] && '\n' !in Indent
  {
    assert forall c :: 0 <= c < |Indent| ==> IsSpace(Indent[c]) && Indent[c] != '\n';
  }

  lemma FormatHeader(line: string)
    requires RStrip(line) != [] && IsHeader(Strip(RStrip(line)))
    ensures FormatLine(line) == RStrip(line)
    ensures '\n' !in line ==> '\n' !in RStrip(line)
  {
    if '\n' !in line {
      RStripNoBreak(line);
    }
  }

  lemma FormatText(line: string)
    requires RStrip(line) != [] && !IsHeader(Strip(RStrip(line)))
    ensures FormatLine(line) == Indent + LStrip(RStrip(line))
    ensures Strip(Indent + LStrip(RStrip(line))) == LStrip(RStrip(line))
    ensures '\n' !in line ==> '\n' !in Indent + LStrip(RStrip(line))
  {
    var stripped := RStrip(line);
    var t := LStrip(stripped);
    IndentedStrip(t);
    if '\n' !in line {
      RStripKeeps(line);
      LStripKeeps(stripped);
      assert '\n' !in Indent;
    }
  }

  /** Re-indenting a stripped text leaves its stripped text alone and adds no
      break. */
  lemma IndentedStrip(t: string)
    requires t != [] && !IsSpace(t[0]) && !IsSpace(t[|t| - 1])
    ensures Strip(Indent + t) == t
  {
    var s := Indent + t;
    assert s[|s| - 1] == t[|t| - 1];
    StripTrimmed(t);
    assert RStrip(s) == s;
    LStripPrefix(Indent, t);
  }

  /** `strip()` ignores a preceding `rstrip()`. */
  lemma StripOfRStrip(line: string)
    ensures Strip(RStrip(line)) == Strip(line)
    ensures RStrip(line) == [] <==> Strip(line) == []
  {
    var r := RStrip(line);
    assert RStrip(r) == r;
    if r == [] {
      assert AllSpace(line);
    }
  }

  /** `[f(line) for line in ls]`. */
  function MapLines(f: string -> string, ls: seq<string>): (r: seq<string>)
    ensures |r| == |ls|
  {
    if ls == [] then [] else [f(ls[0])] + MapLines(f, ls[1..])
  }

  lemma {:induction false} MapLinesAt(f: string -> string, ls: seq<string>, j: nat)
    requires j < |ls|
    ensures MapLines(f, ls)[j] == f(ls[j])
  {
    if j > 0 {
      MapLinesAt(f, ls[1..], j - 1);
    }
  }

  const Fallback := TripleDouble + "\n" + "No description available." + "\n" + TripleDouble

  /** The lines of the result for kept lines `ls`: a line of quotes, the
      stripped first line, a blank line, the formatted remaining lines and a
      closing line of quotes. */
  function Framed(ls: seq<string>): seq<string>
    requires ls != []
  {
    [TripleDouble, Strip(ls[0]), ""] + MapLines(FormatLine, ls[1..]) + [TripleDouble]
  }

  /** The result for kept lines `ls`. */
  function Render(ls: seq<string>): string {
    if ls == [] then Fallback else Join(Framed(ls), "\n")
  }

  /** `clean_docstring(raw)`. */
  function CleanDocstring(raw: string): string {
    Render(Kept(raw))
  }

  /** A join of two or more lines opens with the first line and a break and
      closes with a break and the last line. */
  lemma {:induction false} JoinFrame(ls: seq<string>)
    requires |ls| >= 2
    ensures StartsWith(Join(ls, "\n"), ls[0] + "\n")
    ensures EndsWith(Join(ls, "\n"), "\n" + ls[|ls| - 1])
    decreases |ls|
  {
    var rest := Join(ls[1..], "\n");
    assert Join(ls, "\n") == ls[0] + "\n" + rest;
    if |ls| == 2 {
      assert rest == ls[1];
    } else {
      JoinFrame(ls[1..]);
      assert ls[1..][|ls[1..]| - 1] == ls[|ls| - 1];
    }
  }

  /** The result always opens and closes with a line of triple quotes. */
  predicate Quoted(r: string) {
    StartsWith(r, TripleDouble + "\n") && EndsWith(r, "\n" + TripleDouble)
  }

  lemma RenderQuoted(ls: seq<string>)
    ensures Quoted(Render(ls))
  {
    if ls != [] {
      JoinFrame(Framed(ls));
    } else {
      assert Fallback == TripleDouble + "\n" + ("No description available." + "\n" + TripleDouble);
    }
  }

  /** Whatever the reply, the cleaned docstring opens and closes with a line of
      triple quotes. */
  lemma CleanDocstringQuoted(raw: string)
    ensures Quoted(CleanDocstring(raw))
  {
    RenderQuoted(Kept(raw));
  }

  /** The lines of a rendering: a line of quotes, the stripped first kept line
      as summary, a blank line, each further kept line formatted, and a closing
      line of quotes. */
  predicate LinesOf(out: seq<string>, ls: seq<string>)
    requires ls != []
  {
    |out| == |ls| + 3 && out[0] == TripleDouble && out[|out| - 1] == TripleDouble
    && out[1] == Strip(ls[0]) && out[1] != [] && out[2] == ""
    && forall i :: 1 <= i < |ls| ==> out[i + 2] == FormatLine(ls[i])
  }

  /** Each body line of a rendering carries the text of its kept line. */
  lemma LinesKeepText(out: seq<string>, ls: seq<string>, i: nat)
    requires ls != [] && LinesOf(out, ls) && 1 <= i < |ls|
    ensures SameText(out[i + 2], ls[i])
  {
    FormatLineText(ls[i]);
  }

  lemma RenderLines(ls: seq<string>)
    requires ls != [] && NoBreaks(ls) && NonBlankEnds(ls)
    ensures LinesOf(SplitLines(Render(ls)), ls)
  {
    FramedNoBreaks(ls);
    SplitLinesJoin(Framed(ls));
    FramedLines(ls);
  }

  lemma FramedLines(ls: seq<string>)
    requires ls != [] && !Blank(ls[0])
    ensures LinesOf(Framed(ls), ls)
  {
    StripEmpty(ls[0]);
    FramedText(ls);
  }

  /** The line of the frame that carries the `k - 2`-th kept line. */
  lemma FramedAt(ls: seq<string>, k: nat)
    requires 3 <= k < |ls| + 2
    ensures |Framed(ls)| == |ls| + 3
    ensures Framed(ls)[k] == FormatLine(ls[k - 2])
  {
    var body := MapLines(FormatLine, ls[1..]);
    assert Framed(ls)[k] == body[k - 3];
    MapLinesAt(FormatLine, ls[1..], k - 3);
    assert ls[1..][k - 3] == ls[k - 2];
  }

  lemma FramedNoBreaks(ls: seq<string>)
    requires ls != [] && NoBreaks(ls)
    ensures NoBreaks(Framed(ls)) && Framed(ls)[|Framed(ls)| - 1] != []
  {
    var lines := Framed(ls);
    StripNoBreak(ls[0]);
    forall k | 0 <= k < |lines|
      ensures '\n' !in lines[k]
    {
      if 3 <= k < |lines| - 1 {
        FramedAt(ls, k);
        FormatLineNoBreak(ls[k - 2]);
      }
    }
  }

  lemma FramedText(ls: seq<string>)
    requires ls != []
    ensures forall i :: 1 <= i < |ls| ==> Framed(ls)[i + 2] == FormatLine(ls[i])
  {
    forall i | 1 <= i < |ls|
      ensures Framed(ls)[i + 2] == FormatLine(ls[i])
    {
      FramedAt(ls, i + 2);
    }
  }

  lemma StripEmpty(s: string)
    ensures Strip(s) == [] <==> Blank(s)
  {
  }

  lemma StripNoBreak(s: string)
    requires '\n' !in s
    ensures '\n' !in Strip(s)
  {
    RStripKeeps(s);
    LStripKeeps(RStrip(s));
  }

  /** The line structure of a cleaned docstring: a blank payload gives the
      placeholder, any other gives the lines `LinesOf` describes for the kept
      lines. */
  lemma CleanDocstringLines(raw: string)
    ensures AllSpace(Payload(raw)) ==> CleanDocstring(raw) == Fallback
    ensures !AllSpace(Payload(raw)) ==> Kept(raw) != [] && LinesOf(SplitLines(CleanDocstring(raw)), Kept(raw))
  {
    KeptShape(raw);
    if Kept(raw) != [] {
      RenderLines(Kept(raw));
    }
  }

  /** Cleaning already-stripped text is cleaning the text. */
  lemma CleanStripped(raw: string)
    ensures CleanDocstring(Strip(raw)) == CleanDocstring(raw)
  {
    var s := Strip(raw);
    if s != [] {
      StripTrimmed(s);
    }
    assert Strip(s) == s;
    assert Payload(s) == Payload(raw);
  }

  /** Cleaning sees through the quotes and the fence a model puts around its
      answer. */
  lemma CleanUnwraps(d: string)
    requires Bare(d)
    ensures CleanDocstring(TripleDouble + d + TripleDouble) == CleanDocstring(d)
    ensures CleanDocstring("```python\n" + d + "\n```") == CleanDocstring(d)
  {
    BarePayload(d);
    PayloadUnquotes(d);
    PayloadUnfences(d);
  }

  // ----- the request -----

  /** What the HTTP exchange produced: the `response` field of the JSON reply
      (`None` when absent), a failed request, or any other failure. */
  datatype Reply = Response(field: Option<string>) | RequestFailed(message: string) | OtherFailure(message: string)

  const Placeholder := TripleDouble + "\n" + "Generated docstring." + "\n" + TripleDouble

  /** `generate_docstring_llm` after the request: a blank reply gives the
      placeholder, any other reply is cleaned and then checked for its opening
      and closing quotes, and failures become the two `RuntimeError` messages. */
  function GenerateFromReply(reply: Reply): (r: Result<string, string>)
    ensures reply.RequestFailed? ==> r == Failure("Ollama connection failed: " + reply.message)
    ensures reply.OtherFailure? ==> r == Failure("Docstring generation failed: " + reply.message)
    ensures reply.Response? <==> r.Success?
  {
    match reply
    case RequestFailed(m) => Failure("Ollama connection failed: " + m)
    case OtherFailure(m) => Failure("Docstring generation failed: " + m)
    case Response(field) =>
      var raw := Strip(field.GetOr(""));
      if raw == [] then Success(Placeholder)
      else
        var cleaned := CleanDocstring(raw);
        var headed := if !StartsWith(cleaned, TripleDouble) then TripleDouble + "\n" + LStrip(cleaned) else cleaned;
        Success(if !EndsWith(headed, TripleDouble) then RStrip(headed) + "\n" + TripleDouble else headed)
  }

  /** The final safety checks never fire: a non-blank reply comes back exactly
      as `clean_docstring` left it, a blank one as the placeholder, and either
      way the docstring opens and closes with a line of triple quotes. */
  lemma GenerateIsClean(field: Option<string>)
    ensures AllSpace(field.GetOr("")) ==> GenerateFromReply(Response(field)) == Success(Placeholder)
    ensures !AllSpace(field.GetOr("")) ==> GenerateFromReply(Response(field)) == Success(CleanDocstring(field.GetOr("")))
    ensures Quoted(GenerateFromReply(Response(field)).value)
  {
    var text := field.GetOr("");
    if AllSpace(text) {
      GenerateBlank(field);
    } else {
      GenerateCleaned(field);
    }
  }

  lemma GenerateBlank(field: Option<string>)
    requires AllSpace(field.GetOr(""))
    ensures GenerateFromReply(Response(field)) == Success(Placeholder)
    ensures Quoted(Placeholder)
  {
    assert Placeholder == TripleDouble + "\n" + ("Generated docstring." + "\n" + TripleDouble);
  }

  lemma GenerateCleaned(field: Option<string>)
    requires !AllSpace(field.GetOr(""))
    ensures GenerateFromReply(Response(field)) == Success(CleanDocstring(field.GetOr("")))
    ensures Quoted(CleanDocstring(field.GetOr("")))
  {
    var text := field.GetOr("");
    var raw := Strip(text);
    CleanStripped(text);
    CleanDocstringQuoted(text);
    QuotedEnds(CleanDocstring(raw));
  }

  /** A quoted docstring passes both safety checks. */
  lemma QuotedEnds(r: string)
    requires Quoted(r)
    ensures StartsWith(r, TripleDouble) && EndsWith(r, TripleDouble)
  {
    assert r[..3] == (r[..4])[..3];
    assert r[|r| - 3..] == (r[|r| - 4..])[1..];
  }
}
