/** The PEP 257 compliance analyzer (`autodocstring/compliance.py`): which
    sections a docstring lacks, whether it has a summary line, and the summary
    and style warnings.

    The report's strings are drawn from fixed sets of messages; each set is a
    datatype here, and `Title`/`Text` give the exact message. */
module Compliance {
  import opened Wrappers
  import opened Strings
  import opened Records

  /** The section names `missing_sections` can hold, in reporting order. */
  datatype Section = ParametersSection | ReturnsSection | RaisesSection | YieldsSection | AttributesSection

  function Title(s: Section): string {
    match s
    case ParametersSection => "Parameters"
    case ReturnsSection => "Returns"
    case RaisesSection => "Raises"
    case YieldsSection => "Yields"
    case AttributesSection => "Attributes"
  }

  function Rank(s: Section): nat {
    match s
    case ParametersSection => 0
    case ReturnsSection => 1
    case RaisesSection => 2
    case YieldsSection => 3
    case AttributesSection => 4
  }

  /** The entries of `formatting_issues`. */
  datatype Issue = MissingSummary | EmptySummary

  function IssueText(i: Issue): string {
    match i
    case MissingSummary => "Missing summary line"
    case EmptySummary => "Empty summary line"
  }

  /** The entries of `warnings`. */
  datatype Warning = NoPeriod | TooLong | NotImperative | NoGoogleArgs | NoNumpyParameters | NoRestParam

  function WarningText(w: Warning): string {
    match w
    case NoPeriod => "Summary line should end with a period"
    case TooLong => "Summary line is too long"
    case NotImperative => "Summary line not in imperative mood"
    case NoGoogleArgs => "Google style expects 'Args:' section"
    case NoNumpyParameters => "NumPy style expects 'Parameters' section"
    case NoRestParam => "reST style expects ':param:' fields"
  }

  predicate IsSummaryWarning(w: Warning) {
    w == NoPeriod || w == TooLong || w == NotImperative
  }

  /** The dictionary `analyze_docstring` returns. */
  datatype Report = Report(missing: seq<Section>, formatting: seq<Issue>, warnings: seq<Warning>, compliant: bool)

  /** `func.get("docstring") or ""`. */
  function RawDoc(item: DocItem): string {
    if item.docstring.Some? then item.docstring.value else ""
  }

  /** `raw_doc.strip().split("\n")[0].strip()`. */
  function SummaryLine(raw: string): string {
    Strip(FirstLine(Strip(raw)))
  }

  /** Whether the check for a section fires, on the lower-cased docstring. */
  predicate Lacks(item: DocItem, doc: string, s: Section) {
    match s
    case ParametersSection =>
      |item.params| > 0 && !(Contains(doc, "param") || Contains(doc, "args") || Contains(doc, "parameters"))
    case ReturnsSection => Truthy(item.returnType) && !Contains(doc, "return")
    case RaisesSection => |item.raises| > 0 && !Contains(doc, "raise")
    case YieldsSection => item.isGenerator && !Contains(doc, "yield")
    case AttributesSection => Truthy(item.owner) && |item.attributes| > 0 && !Contains(doc, "attribute")
  }

  /** Every section, in reporting order. */
  const AllSections := [ParametersSection, ReturnsSection, RaisesSection, YieldsSection, AttributesSection]

  /** Each section ranks above the one before it. */
  predicate Ranked(ss: seq<Section>)
    decreases |ss|
  {
    |ss| <= 1 || (Rank(ss[0]) < Rank(ss[1]) && Ranked(ss[1..]))
  }

  /** The candidates a test keeps, in their order. */
  function Select(cands: seq<Section>, keep: Section -> bool): (r: seq<Section>)
    ensures forall s :: s in r <==> s in cands && keep(s)
  {
    if cands == [] then []
    else (if keep(cands[0]) then [cands[0]] else []) + Select(cands[1..], keep)
  }

  /** Selecting keeps the candidates' order, and what it selects first ranks no
      lower than the first candidate. */
  lemma {:induction false} SelectKeepsOrder(cands: seq<Section>, keep: Section -> bool)
    requires Ranked(cands)
    ensures Ranked(Select(cands, keep))
    ensures Select(cands, keep) != [] ==> cands != [] && Rank(cands[0]) <= Rank(Select(cands, keep)[0])
    decreases |cands|
  {
    if cands != [] {
      var c := cands[0];
      var rest := Select(cands[1..], keep);
      SelectKeepsOrder(cands[1..], keep);
      assert rest != [] ==> Rank(c) < Rank(rest[0]);
      if keep(c) {
        var r := [c] + rest;
        assert Select(cands, keep) == r;
        assert r[1..] == rest;
      } else {
        assert Select(cands, keep) == rest;
      }
    }
  }

  /** The section completeness check: every section whose check fires, once, in
      reporting order. */
  function MissingSections(item: DocItem, doc: string): (r: seq<Section>)
    ensures forall s :: s in r <==> Lacks(item, doc, s)
    ensures Ranked(r)
  {
    AllSectionsListed();
    SelectKeepsOrder(AllSections, s => Lacks(item, doc, s));
    Select(AllSections, s => Lacks(item, doc, s))
  }

  lemma AllSectionsListed()
    ensures forall s :: s in AllSections
    ensures Ranked(AllSections)
  {
    forall s
      ensures s in AllSections
    {
      match s
      case ParametersSection => assert AllSections[0] == s;
      case ReturnsSection => assert AllSections[1] == s;
      case RaisesSection => assert AllSections[2] == s;
      case YieldsSection => assert AllSections[3] == s;
      case AttributesSection => assert AllSections[4] == s;
    }
  }

  predicate DescriptivePrefix(s: string) {
    StartsWith(s, "returns") || StartsWith(s, "does") || StartsWith(s, "divides") || StartsWith(s, "calculates")
  }

  /** The summary check's formatting issue. */
  function SummaryFormatting(raw: string): (r: seq<Issue>)
    ensures raw == [] ==> r == [MissingSummary]
    ensures raw != [] && AllSpace(raw) ==> r == [EmptySummary]
    ensures !AllSpace(raw) ==> r == []
  {
    SummaryLineEmpty(raw);
    if raw == [] then [MissingSummary]
    else if SummaryLine(raw) == [] then [EmptySummary]
    else []
  }

  /** The summary check's warning: the first failing test of period, length and
      mood, for a docstring that has a summary line. */
  function SummaryWarnings(raw: string): (r: seq<Warning>)
    ensures |r| <= 1
    ensures forall w :: w in r ==> IsSummaryWarning(w)
  {
    var first := SummaryLine(raw);
    if raw == [] || first == [] then []
    else if !EndsWith(first, ".") then [NoPeriod]
    else if |first| > 72 then [TooLong]
    else if DescriptivePrefix(Lower(first)) then [NotImperative]
    else []
  }

  /** Which summary warning fires: no period on a non-blank docstring, else a
      summary over 72 characters, else a descriptive opening word. */
  lemma SummaryWarningCases(raw: string)
    ensures NoPeriod in SummaryWarnings(raw) <==> !AllSpace(raw) && !EndsWith(SummaryLine(raw), ".")
    ensures TooLong in SummaryWarnings(raw) <==>
              !AllSpace(raw) && EndsWith(SummaryLine(raw), ".") && |SummaryLine(raw)| > 72
    ensures NotImperative in SummaryWarnings(raw) <==>
              EndsWith(SummaryLine(raw), ".") && |SummaryLine(raw)| <= 72 && DescriptivePrefix(Lower(SummaryLine(raw)))
  {
    SummaryLineEmpty(raw);
  }

  /** The style check, made only for a truthy style and a non-empty docstring. */
  function StyleWarnings(style: Option<string>, raw: string, doc: string): (r: seq<Warning>)
    ensures |r| <= 1
    ensures forall w :: w in r ==> !IsSummaryWarning(w)
  {
    if Truthy(style) && raw != [] then
      (if style.value == "Google" && !Contains(doc, "args:") then [NoGoogleArgs] else [])
      + (if style.value == "NumPy" && !Contains(doc, "parameters") then [NoNumpyParameters] else [])
      + (if style.value == "reST" && !Contains(doc, ":param") then [NoRestParam] else [])
    else []
  }

  /** Each style looks for its own marker, and only its own. */
  lemma StyleWarningCases(style: Option<string>, raw: string, doc: string)
    ensures NoGoogleArgs in StyleWarnings(style, raw, doc) <==>
              style == Some("Google") && raw != [] && !Contains(doc, "args:")
    ensures NoNumpyParameters in StyleWarnings(style, raw, doc) <==>
              style == Some("NumPy") && raw != [] && !Contains(doc, "parameters")
    ensures NoRestParam in StyleWarnings(style, raw, doc) <==>
              style == Some("reST") && raw != [] && !Contains(doc, ":param")
  {
  }

  /** `analyze_docstring(func, style)`: the sections missing, the summary check's
      formatting issue, the summary warning followed by the style warning, and
      compliance exactly when no section is missing and the summary line is
      present. */
  function Analyze(item: DocItem, style: Option<string>): (r: Report)
    ensures r.compliant <==> r.missing == [] && r.formatting == []
    ensures r.compliant <==> !AllSpace(RawDoc(item)) && forall s :: !Lacks(item, Lower(RawDoc(item)), s)
    ensures forall s :: s in r.missing <==> Lacks(item, Lower(RawDoc(item)), s)
    ensures Ranked(r.missing)
    ensures r.warnings == SummaryWarnings(RawDoc(item)) + StyleWarnings(style, RawDoc(item), Lower(RawDoc(item)))
    ensures r.formatting == SummaryFormatting(RawDoc(item))
    ensures |r.warnings| <= 2
    ensures |r.warnings| == 2 ==> IsSummaryWarning(r.warnings[0]) && !IsSummaryWarning(r.warnings[1])
  {
    var raw := RawDoc(item);
    var doc := Lower(raw);
    var missing := MissingSections(item, doc);
    NothingMissing(item, doc);
    var formatting := SummaryFormatting(raw);
    var summary := SummaryWarnings(raw);
    var styled := StyleWarnings(style, raw, doc);
    WarningsInOrder(summary, styled);
    var warnings := summary + styled;
    var compliant := |missing| == 0 && |formatting| == 0;
    assert formatting == [] <==> !AllSpace(raw);
    assert compliant <==> !AllSpace(raw) && forall s :: !Lacks(item, doc, s);
    Report(missing, formatting, warnings, compliant)
  }

  /** The report's formatting issue: a missing summary for no docstring, an
      empty one for a blank docstring, and none otherwise. */
  lemma AnalyzeFormatting(item: DocItem, style: Option<string>)
    ensures Analyze(item, style).formatting == [MissingSummary] <==> RawDoc(item) == []
    ensures Analyze(item, style).formatting == [EmptySummary] <==> RawDoc(item) != [] && AllSpace(RawDoc(item))
    ensures Analyze(item, style).formatting == [] <==> !AllSpace(RawDoc(item))
  {
  }

  /** Each summary and style warning is in the report exactly when its check
      fires. */
  lemma AnalyzeWarnings(item: DocItem, style: Option<string>)
    ensures NoPeriod in Analyze(item, style).warnings <==>
              !AllSpace(RawDoc(item)) && !EndsWith(SummaryLine(RawDoc(item)), ".")
    ensures TooLong in Analyze(item, style).warnings <==>
              !AllSpace(RawDoc(item)) && EndsWith(SummaryLine(RawDoc(item)), ".")
              && |SummaryLine(RawDoc(item))| > 72
    ensures NotImperative in Analyze(item, style).warnings <==>
              EndsWith(SummaryLine(RawDoc(item)), ".") && |SummaryLine(RawDoc(item))| <= 72
              && DescriptivePrefix(Lower(SummaryLine(RawDoc(item))))
    ensures NoGoogleArgs in Analyze(item, style).warnings <==>
              style == Some("Google") && RawDoc(item) != [] && !Contains(Lower(RawDoc(item)), "args:")
    ensures NoNumpyParameters in Analyze(item, style).warnings <==>
              style == Some("NumPy") && RawDoc(item) != [] && !Contains(Lower(RawDoc(item)), "parameters")
    ensures NoRestParam in Analyze(item, style).warnings <==>
              style == Some("reST") && RawDoc(item) != [] && !Contains(Lower(RawDoc(item)), ":param")
  {
    var raw := RawDoc(item);
    SummaryWarningCases(raw);
    StyleWarningCases(style, raw, Lower(raw));
    var summary := SummaryWarnings(raw);
    var styled := StyleWarnings(style, raw, Lower(raw));
    forall w
      ensures w in summary + styled <==> (IsSummaryWarning(w) && w in summary) || (!IsSummaryWarning(w) && w in styled)
    {
    }
  }

  /** At most one summary warning followed by at most one style warning. */
  lemma WarningsInOrder(summary: seq<Warning>, styled: seq<Warning>)
    requires |summary| <= 1 && |styled| <= 1
    requires forall w :: w in summary ==> IsSummaryWarning(w)
    requires forall w :: w in styled ==> !IsSummaryWarning(w)
    ensures |summary + styled| <= 2
    ensures |summary + styled| == 2 ==>
              IsSummaryWarning((summary + styled)[0]) && !IsSummaryWarning((summary + styled)[1])
  {
    if |summary + styled| == 2 {
      assert summary[0] in summary && styled[0] in styled;
      assert (summary + styled)[0] == summary[0];
      assert (summary + styled)[1] == styled[0];
    }
  }

  /** No section is missing exactly when every section passes its check. */
  lemma NothingMissing(item: DocItem, doc: string)
    ensures MissingSections(item, doc) == [] <==> forall s :: !Lacks(item, doc, s)
  {
    var m := MissingSections(item, doc);
    if m != [] {
      assert m[0] in m;
      assert Lacks(item, doc, m[0]);
    }
  }

  /** The summary line is empty exactly when the whole docstring is blank. */
  lemma SummaryLineEmpty(raw: string)
    ensures SummaryLine(raw) == [] <==> AllSpace(raw)
  {
    var t := Strip(raw);
    if !AllSpace(raw) {
      var f := FirstLine(t);
      assert t[0] != '\n';
      assert f != [] && f[0] == t[0];
      assert !AllSpace(f);
    }
  }

  /** A function record has no `attributes` key, so the attributes check never
      fires for it, whatever its docstring. */
  lemma FunctionsNeverLackAttributes(f: FunctionInfo, doc: string)
    ensures AttributesSection !in MissingSections(ItemOf(f), doc)
  {
  }
}
