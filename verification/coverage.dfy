/** The docstring coverage report (`coverage.py`): how many of the parsed
    functions, methods and classes carry a docstring, as counts and as
    percentages. */
module Coverage {
  import opened Wrappers
  import opened Records

  /** The dictionary `coverage_report` reads; a key it lacks reads as `[]`. */
  datatype ParsedData = ParsedData(functions: Option<seq<FunctionInfo>>, classes: Option<seq<ClassInfo>>)

  /** The parse result as that dictionary: both keys present. */
  function DataOf(m: ParsedModule): ParsedData {
    ParsedData(Some(m.functions), Some(m.classes))
  }

  /** The dictionary `coverage_report` returns. */
  datatype Report = Report(
    totalItems: nat, documented: nat, missing: int, coverage: real,
    totalFunctions: nat, documentedFunctions: nat, functionCoverage: real,
    totalMethods: nat, documentedMethods: nat, methodCoverage: real,
    totalClasses: nat, documentedClasses: nat, classCoverage: real)

  predicate AllDocumented(fs: seq<FunctionInfo>) {
    forall i :: 0 <= i < |fs| ==> fs[i].hasDocstring
  }

  predicate AllClassesDocumented(cs: seq<ClassInfo>) {
    forall i :: 0 <= i < |cs| ==> cs[i].hasDocstring
  }

  /** `sum(f["has_docstring"] for f in fs)`: the documented records, at most all
      of them, and all of them exactly when each one is documented. */
  function DocumentedCount(fs: seq<FunctionInfo>): (n: nat)
    ensures n <= |fs|
    ensures n == |fs| <==> AllDocumented(fs)
    ensures n == 0 <==> forall i :: 0 <= i < |fs| ==> !fs[i].hasDocstring
  {
    if fs == [] then 0
    else
      var rest := DocumentedCount(fs[1..]);
      assert forall i :: 1 <= i < |fs| ==> fs[i] == fs[1..][i - 1];
      (if fs[0].hasDocstring then 1 else 0) + rest
  }

  /** The same sum over class records. */
  function DocumentedClassCount(cs: seq<ClassInfo>): (n: nat)
    ensures n <= |cs|
    ensures n == |cs| <==> AllClassesDocumented(cs)
  {
    if cs == [] then 0
    else
      var rest := DocumentedClassCount(cs[1..]);
      assert forall i :: 1 <= i < |cs| ==> cs[i] == cs[1..][i - 1];
      (if cs[0].hasDocstring then 1 else 0) + rest
  }

  /** Every method of every class, class by class. */
  function AllMethods(cs: seq<ClassInfo>): seq<FunctionInfo> {
    if cs == [] then [] else cs[0].methods + AllMethods(cs[1..])
  }

  /** `sum(len(cls["methods"]) for cls in classes)`. */
  function MethodCount(cs: seq<ClassInfo>): (n: nat)
  {
    if cs == [] then 0 else |cs[0].methods| + MethodCount(cs[1..])
  }

  /** The documented count adds up over a concatenation. */
  lemma {:induction false} DocumentedCountAppend(a: seq<FunctionInfo>, b: seq<FunctionInfo>)
    ensures DocumentedCount(a + b) == DocumentedCount(a) + DocumentedCount(b)
    decreases |a|
  {
    if a != [] {
      assert (a + b)[0] == a[0];
      assert (a + b)[1..] == a[1..] + b;
      DocumentedCountAppend(a[1..], b);
    } else {
      assert a + b == b;
    }
  }

  /** Counting methods class by class counts the flattened method list. */
  lemma {:induction false} MethodCountFlat(cs: seq<ClassInfo>)
    ensures MethodCount(cs) == |AllMethods(cs)|
  {
    if cs != [] {
      MethodCountFlat(cs[1..]);
    }
  }

  /** The nested sum over classes and their methods counts the documented
      methods of the flattened list. */
  function DocumentedMethodCount(cs: seq<ClassInfo>): (n: nat)
    ensures n == DocumentedCount(AllMethods(cs))
  {
    if cs == [] then 0
    else
      DocumentedCountAppend(cs[0].methods, AllMethods(cs[1..]));
      DocumentedCount(cs[0].methods) + DocumentedMethodCount(cs[1..])
  }

  /** `(d / t * 100) if t else 0`, in exact arithmetic: `d` as a share of `t`,
      and 0 when there is nothing to count. */
  function Percent(d: nat, t: nat): (p: real)
    ensures t == 0 ==> p == 0.0
    ensures t > 0 ==> p * (t as real) == 100.0 * (d as real)
    ensures d <= t ==> 0.0 <= p <= 100.0
    ensures p == 100.0 <==> t > 0 && d == t
  {
    if t == 0 then 0.0 else (d as real) / (t as real) * 100.0
  }

  /** `coverage_report(parsed_data)`: methods count with functions, each
      documented figure counts the documented records of its category, the
      counts add up, and every coverage is its documented count as a share of
      its total (0 when the total is 0), so 100% exactly when the category is
      non-empty and fully documented. */
  function CoverageReport(data: ParsedData): (r: Report)
    ensures r.totalFunctions == |data.functions.GetOr([])|
    ensures r.totalMethods == |AllMethods(data.classes.GetOr([]))|
    ensures r.totalClasses == |data.classes.GetOr([])|
    ensures r.documentedFunctions == DocumentedCount(data.functions.GetOr([]))
    ensures r.documentedMethods == DocumentedCount(AllMethods(data.classes.GetOr([])))
    ensures r.documentedClasses == DocumentedClassCount(data.classes.GetOr([]))
    ensures r.totalItems == r.totalFunctions + r.totalMethods
    ensures r.documented == r.documentedFunctions + r.documentedMethods
    ensures r.documentedFunctions <= r.totalFunctions && r.documentedMethods <= r.totalMethods
    ensures r.documentedClasses <= r.totalClasses
    ensures 0 <= r.missing && r.documented + r.missing == r.totalItems
    ensures r.coverage == Percent(r.documented, r.totalItems)
    ensures r.functionCoverage == Percent(r.documentedFunctions, r.totalFunctions)
    ensures r.methodCoverage == Percent(r.documentedMethods, r.totalMethods)
    ensures r.classCoverage == Percent(r.documentedClasses, r.totalClasses)
    ensures 0.0 <= r.coverage <= 100.0
    ensures 0.0 <= r.functionCoverage <= 100.0 && 0.0 <= r.methodCoverage <= 100.0
    ensures 0.0 <= r.classCoverage <= 100.0
    ensures r.coverage == 100.0 <==>
              r.totalItems > 0 && AllDocumented(data.functions.GetOr([]))
              && AllDocumented(AllMethods(data.classes.GetOr([])))
    ensures r.functionCoverage == 100.0 <==>
              r.totalFunctions > 0 && AllDocumented(data.functions.GetOr([]))
    ensures r.methodCoverage == 100.0 <==>
              r.totalMethods > 0 && AllDocumented(AllMethods(data.classes.GetOr([])))
    ensures r.classCoverage == 100.0 <==> r.totalClasses > 0 && AllClassesDocumented(data.classes.GetOr([]))
    ensures r.totalItems == 0 ==> r.coverage == 0.0
    ensures r.totalFunctions == 0 ==> r.functionCoverage == 0.0
    ensures r.totalMethods == 0 ==> r.methodCoverage == 0.0
    ensures r.totalClasses == 0 ==> r.classCoverage == 0.0
  {
    var functions := data.functions.GetOr([]);
    var classes := data.classes.GetOr([]);
    var totalFunctions := |functions|;
    var documentedFunctions := DocumentedCount(functions);
    MethodCountFlat(classes);
    var totalMethods := MethodCount(classes);
    var documentedMethods := DocumentedMethodCount(classes);
    var totalClasses := |classes|;
    var documentedClasses := DocumentedClassCount(classes);
    var totalItems := totalFunctions + totalMethods;
    var documented := documentedFunctions + documentedMethods;
    Report(
      totalItems, documented, totalItems - documented, Percent(documented, totalItems),
      totalFunctions, documentedFunctions, Percent(documentedFunctions, totalFunctions),
      totalMethods, documentedMethods, Percent(documentedMethods, totalMethods),
      totalClasses, documentedClasses, Percent(documentedClasses, totalClasses))
  }

  /** Input with neither key, or an empty module, gives a report of zeros:
      every total, count and percentage is 0. */
  lemma EmptyReport(data: ParsedData)
    requires data == ParsedData(None, None) || data == DataOf(ParsedModule([], []))
    ensures CoverageReport(data) == Report(0, 0, 0, 0.0, 0, 0, 0.0, 0, 0, 0.0, 0, 0, 0.0)
  {
    assert data.functions.GetOr([]) == [] && data.classes.GetOr([]) == [];
  }
}
