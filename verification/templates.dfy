/** The template docstring generator (`autodocstring/generator.py`): Google,
    NumPy and reST bodies rendered from a function record.

    Each generator is written as the source writes it: a summary line and a blank
    line, then one string fragment per applicable section, then `strip()`. The
    layout is also described independently as a list of lines, built from the
    applicable sections in their fixed order; `GoogleLayout`, `NumpyLayout` and
    `RestLayout` prove the two descriptions agree. */
module Templates {
  import opened Wrappers
  import opened Strings
  import opened Records

  // ---------- summary ----------

  /** The name `_summary` puts in the summary: `C.n` under a truthy class name,
      `n` without one, `Object` for an item that has no name. */
  function QualifiedName(item: DocItem, className: Option<string>): string {
    if item.name.None? then "Object"
    else if Truthy(className) then className.value + "." + item.name.value
    else item.name.value
  }

  const SummaryPrefix := "Generate documentation for "

  /** `_summary(item, class_name)`. */
  function Summary(item: DocItem, className: Option<string>): (r: string)
    ensures r != [] && r[0] == 'G' && r[|r| - 1] == '.'
  {
    SummaryPrefix + QualifiedName(item, className) + "."
  }

  /** The three shapes of the summary line. */
  lemma SummaryForms(item: DocItem, className: Option<string>)
    ensures item.name.None? ==> Summary(item, className) == "Generate documentation for Object."
    ensures item.name.Some? && Truthy(className) ==>
              Summary(item, className) == "Generate documentation for " + className.value + "." + item.name.value + "."
    ensures item.name.Some? && !Truthy(className) ==>
              Summary(item, className) == "Generate documentation for " + item.name.value + "."
  {
  }

  // ---------- sections, independently of any style ----------

  datatype Section = Params | Returns | Raises | Yields

  function Rank(s: Section): nat {
    match s
    case Params => 0
    case Returns => 1
    case Raises => 2
    case Yields => 3
  }

  /** Whether a section is written for the item: parameters exist, the return
      annotation is truthy, something is raised, or the item is a generator. */
  predicate Applies(item: DocItem, s: Section) {
    match s
    case Params => |item.params| > 0
    case Returns => Truthy(item.returnType)
    case Raises => |item.raises| > 0
    case Yields => item.isGenerator
  }

  /** The sections written for an item: exactly the applicable ones, each once, in
      the order parameters, returns, raises, yields. */
  function Applicable(item: DocItem): (r: seq<Section>)
    ensures forall s :: s in r <==> Applies(item, s)
    ensures forall i, j :: 0 <= i < j < |r| ==> Rank(r[i]) < Rank(r[j])
  {
    var p := OptSection(item, Params);
    var q := OptSection(item, Returns);
    var x := OptSection(item, Raises);
    var y := OptSection(item, Yields);
    OptsFacts(item, p, q, x, y);
    p + q + x + y
  }

  /** The four optional sections, joined, hold each applicable section once,
      in rank order. */
  lemma OptsFacts(item: DocItem, p: seq<Section>, q: seq<Section>, x: seq<Section>, y: seq<Section>)
    requires p == OptSection(item, Params) && q == OptSection(item, Returns)
    requires x == OptSection(item, Raises) && y == OptSection(item, Yields)
    ensures forall s :: s in p + q + x + y <==> Applies(item, s)
    ensures Ranked(p + q + x + y)
  {
    RankedAppend(p, q);
    RankedAppend(p + q, x);
    RankedAppend(p + q + x, y);
  }

  predicate Ranked(ss: seq<Section>) {
    forall i, j :: 0 <= i < j < |ss| ==> Rank(ss[i]) < Rank(ss[j])
  }

  /** Two ranked runs, the first all ranked below the second, make one. */
  lemma RankedAppend(a: seq<Section>, b: seq<Section>)
    requires Ranked(a) && Ranked(b)
    requires forall u, v :: u in a && v in b ==> Rank(u) < Rank(v)
    ensures Ranked(a + b)
  {
    forall i, j | 0 <= i < j < |a + b|
      ensures Rank((a + b)[i]) < Rank((a + b)[j])
    {
      if j < |a| {
        assert (a + b)[i] == a[i] && (a + b)[j] == a[j];
      } else if i >= |a| {
        assert (a + b)[i] == b[i - |a|] && (a + b)[j] == b[j - |a|];
      } else {
        assert (a + b)[i] == a[i] && a[i] in a;
        assert (a + b)[j] == b[j - |a|] && b[j - |a|] in b;
      }
    }
  }

  /** With no applicable section every test a generator makes fails. */
  lemma NothingApplies(item: DocItem)
    ensures Applicable(item) == [] ==>
              |item.params| == 0 && !Truthy(item.returnType) && |item.raises| == 0 && !item.isGenerator
  {
    if Applicable(item) == [] {
      assert !Applies(item, Params) && !Applies(item, Returns);
      assert !Applies(item, Raises) && !Applies(item, Yields);
    }
  }

  lemma GoogleNone(item: DocItem)
    ensures Applicable(item) == [] ==> GoogleSections(item) == ""
  {
    NothingApplies(item);
  }

  lemma NumpyNone(item: DocItem)
    ensures Applicable(item) == [] ==> NumpySections(item) == ""
  {
    NothingApplies(item);
  }

  lemma RestNone(item: DocItem)
    ensures Applicable(item) == [] ==> RestSections(item) == ""
  {
    NothingApplies(item);
  }

  function OptSection(item: DocItem, s: Section): seq<Section> {
    if Applies(item, s) then [s] else []
  }

  datatype Style = Google | NumPy | ReST

  /** The lines one parameter contributes in a style. */
  function ParamLines(style: Style, p: Param): seq<string> {
    match style
    case Google => ["    " + p.name + " (" + TypeOrAny(p) + "): Description."]
    case NumPy => [p.name + " : " + TypeOrAny(p), "    Description."]
    case ReST => [":param " + p.name + ": Description.", ":type " + p.name + ": " + TypeOrAny(p)]
  }

  /** The lines one raised exception contributes in a style. */
  function RaiseLines(style: Style, r: string): seq<string> {
    match style
    case Google => ["    " + r + ": Description."]
    case NumPy => [r, "    Description."]
    case ReST => [":raises " + r + ": Description."]
  }

  function AllParamLines(style: Style, ps: seq<Param>): seq<string> {
    if ps == [] then [] else ParamLines(style, ps[0]) + AllParamLines(style, ps[1..])
  }

  function AllRaiseLines(style: Style, rs: seq<string>): seq<string> {
    if rs == [] then [] else RaiseLines(style, rs[0]) + AllRaiseLines(style, rs[1..])
  }

  /** The lines of one section in a style: its header (Google `Args:` and friends,
      NumPy dash-underlined titles, none in reST) and its entries. Google and NumPy
      open every section after the parameters with a blank line. */
  function Block(style: Style, item: DocItem, s: Section): seq<string> {
    var ret := if item.returnType.Some? then item.returnType.value else "";
    match (style, s)
    case (Google, Params) => ["Args:"] + AllParamLines(Google, item.params)
    case (Google, Returns) => ["", "Returns:", "    " + ret + ": Description."]
    case (Google, Raises) => ["", "Raises:"] + AllRaiseLines(Google, item.raises)
    case (Google, Yields) => ["", "Yields:", "    value: Generated value."]
    case (NumPy, Params) => ["Parameters", "----------"] + AllParamLines(NumPy, item.params)
    case (NumPy, Returns) => ["", "Returns", "-------", ret, "    Description."]
    case (NumPy, Raises) => ["", "Raises", "------"] + AllRaiseLines(NumPy, item.raises)
    case (NumPy, Yields) => ["", "Yields", "------", "value", "    Generated value."]
    case (ReST, Params) => AllParamLines(ReST, item.params)
    case (ReST, Returns) => [":return: " + ret + "."]
    case (ReST, Raises) => AllRaiseLines(ReST, item.raises)
    case (ReST, Yields) => [":yields: Generated value."]
  }

  function Blocks(style: Style, item: DocItem, secs: seq<Section>): seq<string> {
    if secs == [] then [] else Block(style, item, secs[0]) + Blocks(style, item, secs[1..])
  }

  /** The docstring as lines: summary, blank line, then the applicable sections. */
  function Layout(style: Style, item: DocItem, className: Option<string>): seq<string> {
    [Summary(item, className), ""] + Blocks(style, item, Applicable(item))
  }

  // ---------- the generators, as the source builds them ----------
  // The source's string literals are written here broken at their line breaks,
  // so that every line of text is visibly followed by its `\n`.

  function GoogleArgs(ps: seq<Param>): string {
    if ps == [] then ""
    else
      "    " + ps[0].name + " (" + TypeOrAny(ps[0]) + "): Description." + "\n" + GoogleArgs(ps[1..])
  }

  function GoogleRaises(rs: seq<string>): string {
    if rs == [] then "" else "    " + rs[0] + ": Description." + "\n" + GoogleRaises(rs[1..])
  }

  /** What `generate_google` appends after the summary and the blank line. */
  function GoogleSections(item: DocItem): string {
    (if |item.params| > 0 then "Args:" + "\n" + GoogleArgs(item.params) else "")
    + (if Truthy(item.returnType)
       then "\n" + "Returns:" + "\n" + ("    " + item.returnType.value + ": Description.") + "\n"
       else "")
    + (if |item.raises| > 0 then "\n" + "Raises:" + "\n" + GoogleRaises(item.raises) else "")
    + (if item.isGenerator then "\n" + "Yields:" + "\n" + "    value: Generated value." + "\n" else "")
  }

  /** Neither end of the text is whitespace: what `strip()` leaves. */
  predicate SpaceFreeEnds(s: string) {
    s == [] || (!IsSpace(s[0]) && !IsSpace(s[|s| - 1]))
  }

  /** The ending every generator shares: summary, blank line, sections, stripped.
      The summary survives at the front, and with no section it is all there is. */
  function Render(summary: string, sections: string): (r: string)
    requires summary != [] && !IsSpace(summary[0]) && !IsSpace(summary[|summary| - 1])
    ensures StartsWith(r, summary)
    ensures sections == "" ==> r == summary
    ensures SpaceFreeEnds(r)
  {
    SummaryKept(summary, "\n\n" + sections);
    Strip(summary + ("\n\n" + sections))
  }

  /** `generate_google`. */
  function GenerateGoogle(item: DocItem, className: Option<string>): (r: string)
    ensures StartsWith(r, Summary(item, className))
    ensures Applicable(item) == [] ==> r == Summary(item, className)
    ensures SpaceFreeEnds(r)
  {
    GoogleNone(item);
    Render(Summary(item, className), GoogleSections(item))
  }

  function NumpyParams(ps: seq<Param>): string {
    if ps == [] then ""
    else
      ps[0].name + " : " + TypeOrAny(ps[0]) + "\n" + "    Description." + "\n" + NumpyParams(ps[1..])
  }

  function NumpyRaises(rs: seq<string>): string {
    if rs == [] then "" else rs[0] + "\n" + "    Description." + "\n" + NumpyRaises(rs[1..])
  }

  /** What `generate_numpy` appends after the summary and the blank line. */
  function NumpySections(item: DocItem): string {
    (if |item.params| > 0 then "Parameters" + "\n" + "----------" + "\n" + NumpyParams(item.params) else "")
    + (if Truthy(item.returnType)
       then "\n" + "Returns" + "\n" + "-------" + "\n" + item.returnType.value + "\n" + "    Description." + "\n"
       else "")
    + (if |item.raises| > 0 then "\n" + "Raises" + "\n" + "------" + "\n" + NumpyRaises(item.raises) else "")
    + (if item.isGenerator
       then "\n" + "Yields" + "\n" + "------" + "\n" + "value" + "\n" + "    Generated value." + "\n"
       else "")
  }

  /** `generate_numpy`. */
  function GenerateNumpy(item: DocItem, className: Option<string>): (r: string)
    ensures StartsWith(r, Summary(item, className))
    ensures Applicable(item) == [] ==> r == Summary(item, className)
    ensures SpaceFreeEnds(r)
  {
    NumpyNone(item);
    Render(Summary(item, className), NumpySections(item))
  }

  function RestParams(ps: seq<Param>): string {
    if ps == [] then ""
    else
      ":param " + ps[0].name + ": Description." + "\n"
      + (":type " + ps[0].name + ": " + TypeOrAny(ps[0])) + "\n"
      + RestParams(ps[1..])
  }

  function RestRaises(rs: seq<string>): string {
    if rs == [] then "" else ":raises " + rs[0] + ": Description." + "\n" + RestRaises(rs[1..])
  }

  /** What `generate_rest` appends after the summary and the blank line. */
  function RestSections(item: DocItem): string {
    RestParams(item.params)
    + (if Truthy(item.returnType) then ":return: " + item.returnType.value + "." + "\n" else "")
    + RestRaises(item.raises)
    + (if item.isGenerator then ":yields: Generated value." + "\n" else "")
  }

  /** `generate_rest`. */
  function GenerateRest(item: DocItem, className: Option<string>): (r: string)
    ensures StartsWith(r, Summary(item, className))
    ensures Applicable(item) == [] ==> r == Summary(item, className)
    ensures SpaceFreeEnds(r)
  {
    RestNone(item);
    Render(Summary(item, className), RestSections(item))
  }

  /** The style a style name selects: `NumPy` and `reST` exactly, Google for
      every other string. */
  function StyleNamed(style: string): Style {
    if style == "NumPy" then NumPy else if style == "reST" then ReST else Google
  }

  /** `generate_docstring`: the docstring laid out in the style the name selects. */
  function GenerateDocstring(item: DocItem, className: Option<string>, style: string): (r: string)
    ensures r == Strip(Join(Layout(StyleNamed(style), item, className), "\n"))
  {
    if style == "NumPy" then
      NumpyLayout(item, className);
      GenerateNumpy(item, className)
    else if style == "reST" then
      RestLayout(item, className);
      GenerateRest(item, className)
    else
      GoogleLayout(item, className);
      GenerateGoogle(item, className)
  }

  // ---------- proofs ----------

  /** Stripping text that starts with the summary keeps the summary: it begins and
      ends with non-space characters; and a summary followed by only blank lines
      strips to the summary alone. */
  lemma SummaryKept(summary: string, rest: string)
    requires summary != [] && !IsSpace(summary[0]) && !IsSpace(summary[|summary| - 1])
    ensures StartsWith(Strip(summary + rest), summary)
    ensures AllSpace(rest) ==> Strip(summary + rest) == summary
  {
    RStripConcat(summary, rest);
    var t := summary + RStrip(rest);
    assert t[0] == summary[0];
    LStripNonSpace(t);
    if AllSpace(rest) {
      assert RStrip(rest) == [];
      assert t == summary;
    }
  }

  lemma {:induction false} BlocksAppend(style: Style, item: DocItem, a: seq<Section>, b: seq<Section>)
    ensures Blocks(style, item, a + b) == Blocks(style, item, a) + Blocks(style, item, b)
    decreases |a|
  {
    if a == [] {
      assert a + b == b;
    } else {
      var head := Block(style, item, a[0]);
      assert (a + b)[0] == a[0];
      assert (a + b)[1..] == a[1..] + b;
      assert Blocks(style, item, a + b) == head + Blocks(style, item, a[1..] + b);
      BlocksAppend(style, item, a[1..], b);
      assert head + (Blocks(style, item, a[1..]) + Blocks(style, item, b))
          == (head + Blocks(style, item, a[1..])) + Blocks(style, item, b);
    }
  }

  /** The text of the optional block of section `s`: its lines when it applies. */
  function OptBlock(style: Style, item: DocItem, s: Section): seq<string> {
    if Applies(item, s) then Block(style, item, s) else []
  }

  lemma LayoutBlocks(style: Style, item: DocItem)
    ensures Blocks(style, item, Applicable(item)) ==
              OptBlock(style, item, Params) + OptBlock(style, item, Returns)
              + OptBlock(style, item, Raises) + OptBlock(style, item, Yields)
  {
    var p, r, x, y := OptSection(item, Params), OptSection(item, Returns),
                      OptSection(item, Raises), OptSection(item, Yields);
    BlocksAppend(style, item, p + r + x, y);
    BlocksAppend(style, item, p + r, x);
    BlocksAppend(style, item, p, r);
    OptBlockSection(style, item, Params);
    OptBlockSection(style, item, Returns);
    OptBlockSection(style, item, Raises);
    OptBlockSection(style, item, Yields);
  }

  lemma OptBlockSection(style: Style, item: DocItem, s: Section)
    ensures Blocks(style, item, OptSection(item, s)) == OptBlock(style, item, s)
  {
    if Applies(item, s) {
      assert Blocks(style, item, [s]) == Block(style, item, s) + Blocks(style, item, []);
    }
  }

  /** Summary, blank line and four blocks of lines, each line followed by a break:
      stripped, that is the lines joined by breaks, stripped. */
  lemma LinesText(s: string, bp: seq<string>, br: seq<string>, bx: seq<string>, bY: seq<string>)
    ensures Strip(s + ("\n\n" + (Unlines(bp) + Unlines(br) + Unlines(bx) + Unlines(bY))))
              == Strip(Join([s, ""] + bp + br + bx + bY, "\n"))
  {
    var lines := [s, ""] + bp + br + bx + bY;
    LinesUnlines(s, bp, br, bx, bY);
    UnlinesJoin(lines);
    StripDropsFinalBreak(Join(lines, "\n"));
  }

  lemma LinesUnlines(s: string, bp: seq<string>, br: seq<string>, bx: seq<string>, bY: seq<string>)
    ensures Unlines([s, ""] + bp + br + bx + bY) == s + ("\n\n" + (Unlines(bp) + Unlines(br) + Unlines(bx) + Unlines(bY)))
  {
    var p, r, x, y := Unlines(bp), Unlines(br), Unlines(bx), Unlines(bY);
    var h := s + "\n\n";
    UnlinesAppend([s, ""] + bp + br + bx, bY);
    UnlinesAppend([s, ""] + bp + br, bx);
    UnlinesAppend([s, ""] + bp, br);
    UnlinesAppend([s, ""], bp);
    Unlines2(s, "");
    assert Unlines([s, ""]) == h;
    assert Unlines([s, ""] + bp + br + bx + bY) == h + p + r + x + y;
    ConcatAssoc(s, "\n\n", p + r + x + y);
    ConcatAssoc(h, p + r + x, y);
    ConcatAssoc(h, p + r, x);
    ConcatAssoc(h, p, r);
  }



  /** The layout's lines, section by section. */
  lemma LayoutLines(style: Style, item: DocItem, className: Option<string>)
    ensures Layout(style, item, className) ==
              [Summary(item, className), ""] + OptBlock(style, item, Params) + OptBlock(style, item, Returns)
              + OptBlock(style, item, Raises) + OptBlock(style, item, Yields)
  {
    var h := [Summary(item, className), ""];
    var p, r, x, y := OptBlock(style, item, Params), OptBlock(style, item, Returns),
                      OptBlock(style, item, Raises), OptBlock(style, item, Yields);
    LayoutBlocks(style, item);
    ConcatAssoc(h, p + r + x, y);
    ConcatAssoc(h, p + r, x);
    ConcatAssoc(h, p, r);
  }

  // Google fragments.

  lemma {:induction false} GoogleArgsLines(ps: seq<Param>)
    ensures GoogleArgs(ps) == Unlines(AllParamLines(Google, ps))
    decreases |ps|
  {
    if ps != [] {
      GoogleArgsLines(ps[1..]);
      UnlinesAppend(ParamLines(Google, ps[0]), AllParamLines(Google, ps[1..]));
      Unlines1("    " + ps[0].name + " (" + TypeOrAny(ps[0]) + "): Description.");
    }
  }

  lemma {:induction false} GoogleRaisesLines(rs: seq<string>)
    ensures GoogleRaises(rs) == Unlines(AllRaiseLines(Google, rs))
    decreases |rs|
  {
    if rs != [] {
      GoogleRaisesLines(rs[1..]);
      UnlinesAppend(RaiseLines(Google, rs[0]), AllRaiseLines(Google, rs[1..]));
      Unlines1("    " + rs[0] + ": Description.");
    }
  }

  lemma GoogleParamsBlock(item: DocItem)
    ensures (if |item.params| > 0 then "Args:" + "\n" + GoogleArgs(item.params) else "")
              == Unlines(OptBlock(Google, item, Params))
  {
    if |item.params| > 0 {
      GoogleArgsLines(item.params);
      UnlinesAppend(["Args:"], AllParamLines(Google, item.params));
      Unlines1("Args:");
    }
  }

  lemma GoogleReturnsBlock(item: DocItem)
    ensures (if Truthy(item.returnType)
             then "\n" + "Returns:" + "\n" + ("    " + item.returnType.value + ": Description.") + "\n"
             else "")
              == Unlines(OptBlock(Google, item, Returns))
  {
    if Truthy(item.returnType) {
      Unlines3("", "Returns:", "    " + item.returnType.value + ": Description.");
    }
  }

  lemma GoogleRaisesBlock(item: DocItem)
    ensures (if |item.raises| > 0 then "\n" + "Raises:" + "\n" + GoogleRaises(item.raises) else "")
              == Unlines(OptBlock(Google, item, Raises))
  {
    if |item.raises| > 0 {
      GoogleRaisesLines(item.raises);
      UnlinesAppend(["", "Raises:"], AllRaiseLines(Google, item.raises));
      Unlines2("", "Raises:");
    }
  }

  lemma GoogleYieldsBlock(item: DocItem)
    ensures (if item.isGenerator then "\n" + "Yields:" + "\n" + "    value: Generated value." + "\n" else "")
              == Unlines(OptBlock(Google, item, Yields))
  {
    if item.isGenerator {
      Unlines3("", "Yields:", "    value: Generated value.");
    }
  }



  /** `generate_google` renders exactly the Google layout. */
  lemma GoogleLayout(item: DocItem, className: Option<string>)
    ensures GenerateGoogle(item, className) == Strip(Join(Layout(Google, item, className), "\n"))
  {
    var summary := Summary(item, className);
    var bp, br, bx, bY := OptBlock(Google, item, Params), OptBlock(Google, item, Returns),
                          OptBlock(Google, item, Raises), OptBlock(Google, item, Yields);
    GoogleParamsBlock(item);
    GoogleReturnsBlock(item);
    GoogleRaisesBlock(item);
    GoogleYieldsBlock(item);
    assert GoogleSections(item) == Unlines(bp) + Unlines(br) + Unlines(bx) + Unlines(bY);
    assert GenerateGoogle(item, className) == Strip(summary + ("\n\n" + GoogleSections(item)));
    LinesText(summary, bp, br, bx, bY);
    LayoutLines(Google, item, className);
  }


  // NumPy fragments.

  lemma {:induction false} NumpyParamsLines(ps: seq<Param>)
    ensures NumpyParams(ps) == Unlines(AllParamLines(NumPy, ps))
    decreases |ps|
  {
    if ps != [] {
      NumpyParamsLines(ps[1..]);
      UnlinesAppend(ParamLines(NumPy, ps[0]), AllParamLines(NumPy, ps[1..]));
      Unlines2(ps[0].name + " : " + TypeOrAny(ps[0]), "    Description.");
    }
  }

  lemma {:induction false} NumpyRaisesLines(rs: seq<string>)
    ensures NumpyRaises(rs) == Unlines(AllRaiseLines(NumPy, rs))
    decreases |rs|
  {
    if rs != [] {
      NumpyRaisesLines(rs[1..]);
      UnlinesAppend(RaiseLines(NumPy, rs[0]), AllRaiseLines(NumPy, rs[1..]));
      Unlines2(rs[0], "    Description.");
    }
  }

  lemma NumpyParamsBlock(item: DocItem)
    ensures (if |item.params| > 0 then "Parameters" + "\n" + "----------" + "\n" + NumpyParams(item.params) else "")
              == Unlines(OptBlock(NumPy, item, Params))
  {
    if |item.params| > 0 {
      NumpyParamsLines(item.params);
      UnlinesAppend(["Parameters", "----------"], AllParamLines(NumPy, item.params));
      Unlines2("Parameters", "----------");
    }
  }

  lemma NumpyReturnsBlock(item: DocItem)
    ensures (if Truthy(item.returnType)
             then "\n" + "Returns" + "\n" + "-------" + "\n" + item.returnType.value + "\n" + "    Description." + "\n"
             else "")
              == Unlines(OptBlock(NumPy, item, Returns))
  {
    if Truthy(item.returnType) {
      Unlines5("", "Returns", "-------", item.returnType.value, "    Description.");
    }
  }

  lemma NumpyRaisesBlock(item: DocItem)
    ensures (if |item.raises| > 0 then "\n" + "Raises" + "\n" + "------" + "\n" + NumpyRaises(item.raises) else "")
              == Unlines(OptBlock(NumPy, item, Raises))
  {
    if |item.raises| > 0 {
      NumpyRaisesLines(item.raises);
      UnlinesAppend(["", "Raises", "------"], AllRaiseLines(NumPy, item.raises));
      Unlines3("", "Raises", "------");
    }
  }

  lemma NumpyYieldsBlock(item: DocItem)
    ensures (if item.isGenerator
             then "\n" + "Yields" + "\n" + "------" + "\n" + "value" + "\n" + "    Generated value." + "\n"
             else "")
              == Unlines(OptBlock(NumPy, item, Yields))
  {
    if item.isGenerator {
      Unlines5("", "Yields", "------", "value", "    Generated value.");
    }
  }



  /** `generate_numpy` renders exactly the NumPy layout. */
  lemma NumpyLayout(item: DocItem, className: Option<string>)
    ensures GenerateNumpy(item, className) == Strip(Join(Layout(NumPy, item, className), "\n"))
  {
    var summary := Summary(item, className);
    var bp, br, bx, bY := OptBlock(NumPy, item, Params), OptBlock(NumPy, item, Returns),
                          OptBlock(NumPy, item, Raises), OptBlock(NumPy, item, Yields);
    NumpyParamsBlock(item);
    NumpyReturnsBlock(item);
    NumpyRaisesBlock(item);
    NumpyYieldsBlock(item);
    assert NumpySections(item) == Unlines(bp) + Unlines(br) + Unlines(bx) + Unlines(bY);
    assert GenerateNumpy(item, className) == Strip(summary + ("\n\n" + NumpySections(item)));
    LinesText(summary, bp, br, bx, bY);
    LayoutLines(NumPy, item, className);
  }


  // reST fragments.

  lemma {:induction false} RestParamsLines(ps: seq<Param>)
    ensures RestParams(ps) == Unlines(AllParamLines(ReST, ps))
    decreases |ps|
  {
    if ps != [] {
      RestParamsLines(ps[1..]);
      UnlinesAppend(ParamLines(ReST, ps[0]), AllParamLines(ReST, ps[1..]));
      Unlines2(":param " + ps[0].name + ": Description.", ":type " + ps[0].name + ": " + TypeOrAny(ps[0]));
    }
  }

  lemma {:induction false} RestRaisesLines(rs: seq<string>)
    ensures RestRaises(rs) == Unlines(AllRaiseLines(ReST, rs))
    decreases |rs|
  {
    if rs != [] {
      RestRaisesLines(rs[1..]);
      UnlinesAppend(RaiseLines(ReST, rs[0]), AllRaiseLines(ReST, rs[1..]));
      Unlines1(":raises " + rs[0] + ": Description.");
    }
  }

  /** Each fragment `generate_rest` appends is its section's block of lines. */
  lemma RestBlocks(item: DocItem)
    ensures RestParams(item.params) == Unlines(OptBlock(ReST, item, Params))
    ensures (if Truthy(item.returnType) then ":return: " + item.returnType.value + "." + "\n" else "")
              == Unlines(OptBlock(ReST, item, Returns))
    ensures RestRaises(item.raises) == Unlines(OptBlock(ReST, item, Raises))
    ensures (if item.isGenerator then ":yields: Generated value." + "\n" else "")
              == Unlines(OptBlock(ReST, item, Yields))
  {
    RestParamsLines(item.params);
    RestRaisesLines(item.raises);
    if Truthy(item.returnType) {
      Unlines1(":return: " + item.returnType.value + ".");
    }
    if item.isGenerator {
      Unlines1(":yields: Generated value.");
    }
  }

  /** `generate_rest` renders exactly the reST layout. */
  lemma RestLayout(item: DocItem, className: Option<string>)
    ensures GenerateRest(item, className) == Strip(Join(Layout(ReST, item, className), "\n"))
  {
    var summary := Summary(item, className);
    var bp, br, bx, bY := OptBlock(ReST, item, Params), OptBlock(ReST, item, Returns),
                          OptBlock(ReST, item, Raises), OptBlock(ReST, item, Yields);
    RestBlocks(item);
    assert RestSections(item) == Unlines(bp) + Unlines(br) + Unlines(bx) + Unlines(bY);
    assert GenerateRest(item, className) == Strip(summary + ("\n\n" + RestSections(item)));
    LinesText(summary, bp, br, bx, bY);
    LayoutLines(ReST, item, className);
  }

}
