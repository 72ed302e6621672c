/** The first-generation template generator (`src/generator.py`): a docstring
    with a title line, a `Parameters:` list and a `Returns:` entry, wrapped in
    triple quotes. */
module LegacyTemplate {
  import opened Wrappers
  import opened Strings
  import opened Records

  const Quotes := "\"\"\""

  /** `C.n` under a truthy class name, `n` otherwise. */
  function Title(f: FunctionInfo, className: Option<string>): string {
    if Truthy(className) then className.value + "." + f.name else f.name
  }

  /** `func['returns'] or 'None'`. */
  function ReturnsOrNone(f: FunctionInfo): string {
    if Truthy(f.returnType) then f.returnType.value else "None"
  }

  /** The loop over the parameters, one `name : type` entry each. */
  function ParamsText(ps: seq<Param>): string {
    if ps == [] then ""
    else "    " + ps[0].name + " : " + TypeOrAny(ps[0]) + "\n" + ParamsText(ps[1..])
  }

  /** `generate_docstring(func, class_name)`. The source's literals are written
      broken at their line breaks. */
  function LegacyDocstring(f: FunctionInfo, className: Option<string>): (r: string)
    ensures StartsWith(r, Quotes + "\n") && EndsWith(r, "\n" + Quotes)
  {
    var head := Quotes + "\n" + (Title(f, className) + " function.") + "\n" + "\n" + "Parameters:" + "\n";
    var withParams := head + (if |f.params| > 0 then ParamsText(f.params) else "    None" + "\n");
    var withReturns := withParams + "\n" + "Returns:" + "\n" + ("    " + ReturnsOrNone(f) + "\n");
    var r := withReturns + Quotes;
    assert r[..4] == Quotes + "\n";
    assert r[|r| - 4..] == "\n" + Quotes;
    r
  }

  /** The lines of the generated docstring, described independently: opening
      quotes, title, blank line, `Parameters:`, one entry per parameter (or
      `None`), blank line, `Returns:`, the return entry, closing quotes. */
  function LegacyLines(f: FunctionInfo, className: Option<string>): seq<string> {
    [Quotes, Title(f, className) + " function.", "", "Parameters:"]
    + (if |f.params| > 0 then ParamEntries(f.params) else ["    None"])
    + ["", "Returns:", "    " + ReturnsOrNone(f), Quotes]
  }

  function ParamEntries(ps: seq<Param>): (r: seq<string>)
    ensures |r| == |ps|
  {
    seq(|ps|, i requires 0 <= i < |ps| => "    " + ps[i].name + " : " + TypeOrAny(ps[i]))
  }

  lemma {:induction false} ParamsTextLines(ps: seq<Param>)
    ensures ParamsText(ps) == Unlines(ParamEntries(ps))
    decreases |ps|
  {
    if ps != [] {
      var line := "    " + ps[0].name + " : " + TypeOrAny(ps[0]);
      assert ParamEntries(ps) == [line] + ParamEntries(ps[1..]);
      ParamsTextLines(ps[1..]);
      UnlinesAppend([line], ParamEntries(ps[1..]));
      Unlines1(line);
    }
  }

  lemma HeadLines(t: string)
    ensures Quotes + "\n" + t + "\n" + "\n" + "Parameters:" + "\n" == Unlines([Quotes, t, "", "Parameters:"])
  {
    Unlines4(Quotes, t, "", "Parameters:");
    var x := Quotes + "\n" + t + "\n";
    assert x + "" == x;
  }

  lemma TailLines(before: string, ls: seq<string>, ret: string)
    requires before == Unlines(ls)
    ensures before + "\n" + "Returns:" + "\n" + (ret + "\n") == Unlines(ls + ["", "Returns:", ret])
  {
    UnlinesSnoc(ls, "");
    assert before + "" == before;
    UnlinesSnoc(ls + [""], "Returns:");
    UnlinesSnoc(ls + ["", "Returns:"], ret);
    assert ls + [""] + ["Returns:"] == ls + ["", "Returns:"];
    assert ls + ["", "Returns:"] + [ret] == ls + ["", "Returns:", ret];
    ConcatAssoc(before + "\n" + "Returns:" + "\n", ret, "\n");
  }

  /** `generate_docstring` writes exactly the lines of `LegacyLines`, joined by
      line breaks. */
  lemma LegacyLayout(f: FunctionInfo, className: Option<string>)
    ensures LegacyDocstring(f, className) == Join(LegacyLines(f, className), "\n")
  {
    var t := Title(f, className) + " function.";
    var h := [Quotes, t, "", "Parameters:"];
    var p := if |f.params| > 0 then ParamEntries(f.params) else ["    None"];
    var ret := "    " + ReturnsOrNone(f);
    var head := Quotes + "\n" + t + "\n" + "\n" + "Parameters:" + "\n";
    var params := if |f.params| > 0 then ParamsText(f.params) else "    None" + "\n";
    HeadLines(t);
    if |f.params| > 0 {
      ParamsTextLines(f.params);
    } else {
      Unlines1("    None");
    }
    UnlinesAppend(h, p);
    TailLines(head + params, h + p, ret);
    JoinSnoc(h + p + ["", "Returns:", ret], Quotes);
    assert LegacyLines(f, className) == h + p + ["", "Returns:", ret] + [Quotes];
  }

  /** With no line break inside the title, the names, the types or the return
      annotation, the docstring splits back into exactly those lines: eight
      fixed lines plus one per parameter, or plus the `None` entry. */
  lemma LegacyLineCount(f: FunctionInfo, className: Option<string>)
    requires '\n' !in Title(f, className) && '\n' !in ReturnsOrNone(f)
    requires forall i :: 0 <= i < |f.params| ==> '\n' !in f.params[i].name && '\n' !in TypeOrAny(f.params[i])
    ensures SplitLines(LegacyDocstring(f, className)) == LegacyLines(f, className)
    ensures |SplitLines(LegacyDocstring(f, className))| == 8 + (if |f.params| > 0 then |f.params| else 1)
  {
    var t := Title(f, className) + " function.";
    var h := [Quotes, t, "", "Parameters:"];
    var p := if |f.params| > 0 then ParamEntries(f.params) else ["    None"];
    var tail := ["", "Returns:", "    " + ReturnsOrNone(f), Quotes];
    var ls := LegacyLines(f, className);
    assert ls == h + p + tail;
    assert NoBreaks(h);
    assert NoBreaks(p) by {
      if |f.params| > 0 {
        forall i | 0 <= i < |p|
          ensures '\n' !in p[i]
        {
          assert p[i] == "    " + f.params[i].name + " : " + TypeOrAny(f.params[i]);
        }
      }
    }
    assert NoBreaks(tail);
    NoBreaksAppend(h, p);
    NoBreaksAppend(h + p, tail);
    LegacyLayout(f, className);
    SplitLinesJoin(ls);
  }
}
