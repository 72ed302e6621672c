/** The structural parser (`CodeParser` and `parse_file`): a visitor over the
    syntax tree that records functions and classes.

    The visitor's only state besides its two result lists is `current_class`.
    `visit_ClassDef` sets it, scans the class body's direct statements without
    visiting them, and resets it to `None`; nothing is visited while it is set.
    So every `def` the traversal reaches is recorded as a function: defs nested in
    functions, in `if`/`for`/`with`/... blocks and in `async def` bodies included.
    Methods are exactly the direct `def` children of a class body, and nothing
    inside a class body is visited. */
module Parser {
  import opened Wrappers
  import opened Strings
  import opened Syntax
  import opened Records

  predicate NoDuplicates<T(==)>(xs: seq<T>) {
    forall i, j :: 0 <= i < j < |xs| ==> xs[i] != xs[j]
  }

  /** `list(set(xs))`. Python leaves the order to the set; this keeps first
      occurrences, and no contract below depends on the order. */
  function Dedup(xs: seq<string>): (r: seq<string>)
    ensures NoDuplicates(r)
    ensures forall x :: x in r <==> x in xs
  {
    if xs == [] then []
    else
      var init, x := xs[..|xs| - 1], xs[|xs| - 1];
      assert xs == init + [x];
      var rest := Dedup(init);
      if x in rest then rest else rest + [x]
  }

  /** The `params` list: one entry per `args.args` entry, in order. */
  function ParamsOf(args: seq<Arg>): seq<Param> {
    seq(|args|, i requires 0 <= i < |args| => Param(args[i].name, args[i].annotation))
  }

  function ParamNames(ps: seq<Param>): seq<string> {
    seq(|ps|, i requires 0 <= i < |ps| => ps[i].name)
  }

  /** `extract_function`: the record of one definition. Raises and the generator
      flag come from walking the whole definition, nested definitions included. */
  function ExtractFunction(f: FuncDef, owner: Option<string>): FunctionInfo {
    var doc := GetDocstring(f.body);
    var params := ParamsOf(f.args);
    var nodes := WalkStmt(FunctionDef(f));
    FunctionInfo(
      name := f.name,
      owner := owner,
      signature := f.name + "(" + Join(ParamNames(params), ", ") + ")",
      params := params,
      returnType := f.returnType,
      hasDocstring := doc.Some?,
      line := f.line,
      docstring := doc,
      raises := Dedup(RaiseTexts(nodes)),
      isGenerator := AnyYieldNode(nodes))
  }

  /** What the record of a definition holds: its name, owner, line and return
      annotation; one parameter per argument, in order; the signature built from
      the parameter names; the docstring and whether there is one; each raised
      exception once, exactly those raised anywhere in the definition; and the
      generator flag exactly when a `yield` occurs anywhere in it. */
  lemma ExtractedRecord(f: FuncDef, owner: Option<string>, r: FunctionInfo)
    requires r == ExtractFunction(f, owner)
    ensures r.name == f.name && r.owner == owner && r.line == f.line
    ensures r.returnType == f.returnType
    ensures |r.params| == |f.args|
    ensures forall i :: 0 <= i < |f.args| ==>
              r.params[i].name == f.args[i].name && r.params[i].typ == f.args[i].annotation
    ensures r.signature == f.name + "(" + Join(ParamNames(r.params), ", ") + ")"
    ensures r.docstring == GetDocstring(f.body)
    ensures r.hasDocstring <==> r.docstring.Some?
    ensures NoDuplicates(r.raises)
    ensures forall t :: t in r.raises <==> StmtRaises(FunctionDef(f), t)
    ensures r.isGenerator <==> StmtYields(FunctionDef(f))
  {
    var nodes := WalkStmt(FunctionDef(f));
    WalkStmtYields(FunctionDef(f));
    forall t
      ensures t in RaiseTexts(nodes) <==> StmtRaises(FunctionDef(f), t)
    {
      WalkStmtRaises(FunctionDef(f), t);
    }
  }

  /** The plain-name targets of an assignment, in order. */
  function NameTargets(ts: seq<Target>): (names: seq<string>)
    ensures forall x :: x in names <==> NameTarget(x) in ts
  {
    if ts == [] then []
    else (if ts[0].NameTarget? then [ts[0].id] else []) + NameTargets(ts[1..])
  }

  /** `x` is a plain-name target of an assignment statement directly in `body`. */
  predicate IsClassAttribute(body: seq<Stmt>, x: string) {
    exists i :: 0 <= i < |body| && body[i].Assign? && NameTarget(x) in body[i].targets
  }

  /** The definitions that are direct statements of `body`, in order. */
  function DirectDefs(body: seq<Stmt>): (ds: seq<FuncDef>)
    ensures forall f :: f in ds <==> FunctionDef(f) in body
    ensures |ds| <= |body|
  {
    if body == [] then []
    else (if body[0].FunctionDef? then [body[0].fn] else []) + DirectDefs(body[1..])
  }

  /** The loop of `visit_ClassDef` over a class body, with `record` the way a
      direct `def` is recorded: the attribute names and the records, each in
      body order (`ScanBodyAttributes`, `ScanBodyMethods`). */
  function ScanBody<T>(record: FuncDef -> T, body: seq<Stmt>): (seq<string>, seq<T>) {
    if body == [] then ([], [])
    else
      var rest := ScanBody(record, body[1..]);
      var item := body[0];
      ((if item.Assign? then NameTargets(item.targets) else []) + rest.0,
       (if item.FunctionDef? then [record(item.fn)] else []) + rest.1)
  }

  /** The scan collects exactly the names assigned directly in the body. */
  lemma {:induction false} ScanBodyAttributes<T>(record: FuncDef -> T, body: seq<Stmt>)
    ensures forall x :: x in ScanBody(record, body).0 <==> IsClassAttribute(body, x)
    decreases |body|
  {
    if body != [] {
      ScanBodyAttributes(record, body[1..]);
      forall x
        ensures IsClassAttribute(body, x) <==>
          (body[0].Assign? && NameTarget(x) in body[0].targets) || IsClassAttribute(body[1..], x)
      {
        AttributeCons(body, x);
      }
    }
  }

  /** The scan records each direct definition once, in body order. */
  lemma {:induction false} ScanBodyMethods<T>(record: FuncDef -> T, body: seq<Stmt>)
    ensures |ScanBody(record, body).1| == |DirectDefs(body)|
    ensures forall k :: 0 <= k < |DirectDefs(body)| ==> ScanBody(record, body).1[k] == record(DirectDefs(body)[k])
    decreases |body|
  {
    if body != [] {
      ScanBodyMethods(record, body[1..]);
      var ds := DirectDefs(body[1..]);
      if body[0].FunctionDef? {
        assert DirectDefs(body) == [body[0].fn] + ds;
      } else {
        assert DirectDefs(body) == [] + ds;
      }
    }
  }

  /** The loop of `visit_ClassDef` over the class body: the attribute names and the
      method records, each in body order. */
  function ScanClassBody(className: string, body: seq<Stmt>): (r: (seq<string>, seq<FunctionInfo>))
    ensures forall x :: x in r.0 <==> IsClassAttribute(body, x)
    ensures r.1 == MethodRecords(className, DirectDefs(body))
  {
    var record := f => ExtractFunction(f, Some(className));
    ScanBodyAttributes(record, body);
    ScanBodyMethods(record, body);
    ScanBody(record, body)
  }

  /** An attribute of a class body is one of its first statement's or one of
      the rest's. */
  lemma AttributeCons(body: seq<Stmt>, x: string)
    requires body != []
    ensures IsClassAttribute(body, x) <==>
              (body[0].Assign? && NameTarget(x) in body[0].targets) || IsClassAttribute(body[1..], x)
  {
    if IsClassAttribute(body[1..], x) {
      var i :| 0 <= i < |body[1..]| && body[1..][i].Assign? && NameTarget(x) in body[1..][i].targets;
      assert body[i + 1] == body[1..][i];
    }
    if IsClassAttribute(body, x) && !(body[0].Assign? && NameTarget(x) in body[0].targets) {
      var i :| 0 <= i < |body| && body[i].Assign? && NameTarget(x) in body[i].targets;
      assert i > 0 && body[1..][i - 1] == body[i];
    }
  }

  /** The method records of some definitions, in order. */
  function MethodRecords(className: string, ds: seq<FuncDef>): (r: seq<FunctionInfo>)
    ensures |r| == |ds|
    ensures forall k :: 0 <= k < |ds| ==> r[k] == ExtractFunction(ds[k], Some(className))
  {
    if ds == [] then []
    else
      var rest := MethodRecords(className, ds[1..]);
      assert forall k :: 1 <= k < |ds| ==> ds[k] == ds[1..][k - 1];
      [ExtractFunction(ds[0], Some(className))] + rest
  }

  /** The record `visit_ClassDef` appends for a class. */
  function ClassRecord(className: string, body: seq<Stmt>): ClassInfo {
    var doc := GetDocstring(body);
    var scan := ScanClassBody(className, body);
    ClassInfo(className, doc.Some?, doc, scan.0, scan.1)
  }

  /** What the record of a class holds: its name; its docstring and whether
      there is one; exactly the names assigned directly in its body; and one
      method record, owned by the class, per direct `def`, in order. */
  lemma ClassRecorded(className: string, body: seq<Stmt>, c: ClassInfo)
    requires c == ClassRecord(className, body)
    ensures c.className == className
    ensures c.docstring == GetDocstring(body) && (c.hasDocstring <==> c.docstring.Some?)
    ensures forall x :: x in c.attributes <==> IsClassAttribute(body, x)
    ensures |c.methods| == |DirectDefs(body)|
    ensures forall k :: 0 <= k < |c.methods| ==>
              c.methods[k] == ExtractFunction(DirectDefs(body)[k], Some(className))
    ensures forall m :: m in c.methods ==> m.owner == Some(className) && (m.hasDocstring <==> m.docstring.Some?)
  {
    forall m | m in c.methods
      ensures m.owner == Some(className) && (m.hasDocstring <==> m.docstring.Some?)
    {
      var k :| 0 <= k < |c.methods| && c.methods[k] == m;
      ExtractedRecord(DirectDefs(body)[k], Some(className), m);
    }
  }

  /** An assignment's plain-name targets, one entry per target in target
      order: the names of a concatenation are the names of its parts. */
  lemma {:induction false} NameTargetsAppend(a: seq<Target>, b: seq<Target>)
    ensures NameTargets(a + b) == NameTargets(a) + NameTargets(b)
    decreases |a|
  {
    if a == [] {
      assert a + b == b;
    } else {
      assert (a + b)[0] == a[0] && (a + b)[1..] == a[1..] + b;
      NameTargetsAppend(a[1..], b);
    }
  }

  /** One target contributes its name exactly when it is a plain name. */
  lemma NameTargetsOne(t: Target)
    ensures NameTargets([t]) == (if t.NameTarget? then [t.id] else [])
  {
    assert [t][1..] == [];
  }

  /** The direct definitions of a concatenation are those of its parts, in
      order: each direct `def` gives one entry, wherever it stands. */
  lemma {:induction false} DirectDefsAppend(a: seq<Stmt>, b: seq<Stmt>)
    ensures DirectDefs(a + b) == DirectDefs(a) + DirectDefs(b)
    decreases |a|
  {
    if a == [] {
      assert a + b == b;
    } else {
      assert (a + b)[0] == a[0] && (a + b)[1..] == a[1..] + b;
      DirectDefsAppend(a[1..], b);
    }
  }

  /** A `def` statement is one direct definition, any other statement none. */
  lemma DirectDefsOne(s: Stmt)
    ensures DirectDefs([s]) == (if s.FunctionDef? then [s.fn] else [])
  {
    assert [s][1..] == [];
  }

  /** Scanning a concatenated class body appends the second part's attributes
      and method records to the first part's: both lists follow body order,
      with one entry per occurrence. */
  lemma ScanClassBodyAppend(className: string, a: seq<Stmt>, b: seq<Stmt>)
    ensures ScanClassBody(className, a + b).0 == ScanClassBody(className, a).0 + ScanClassBody(className, b).0
    ensures ScanClassBody(className, a + b).1 == ScanClassBody(className, a).1 + ScanClassBody(className, b).1
  {
    ScanBodyAppend(f => ExtractFunction(f, Some(className)), a, b);
  }

  lemma {:induction false} ScanBodyAppend<T>(record: FuncDef -> T, a: seq<Stmt>, b: seq<Stmt>)
    ensures ScanBody(record, a + b).0 == ScanBody(record, a).0 + ScanBody(record, b).0
    ensures ScanBody(record, a + b).1 == ScanBody(record, a).1 + ScanBody(record, b).1
    decreases |a|
  {
    if a == [] {
      assert a + b == b;
    } else {
      var x := a + b;
      assert x[0] == a[0] && x[1..] == a[1..] + b;
      ScanBodyAppend(record, a[1..], b);
      var h := if a[0].Assign? then NameTargets(a[0].targets) else [];
      var m := if a[0].FunctionDef? then [record(a[0].fn)] else [];
      var p, q := ScanBody(record, a[1..]), ScanBody(record, b);
      assert ScanBody(record, x) == (h + ScanBody(record, a[1..] + b).0, m + ScanBody(record, a[1..] + b).1);
      assert ScanBody(record, a) == (h + p.0, m + p.1);
      assert (h + p.0) + q.0 == h + (p.0 + q.0);
      assert (m + p.1) + q.1 == m + (p.1 + q.1);
    }
  }

  /** A single statement of a class body: an assignment contributes its plain-name
      targets in order, a `def` one method record owned by the class, and any
      other statement nothing. */
  lemma ScanClassBodyOne(className: string, s: Stmt)
    ensures ScanClassBody(className, [s]).0 == (if s.Assign? then NameTargets(s.targets) else [])
    ensures ScanClassBody(className, [s]).1 == (if s.FunctionDef? then [ExtractFunction(s.fn, Some(className))] else [])
  {
    ScanBodyOne(f => ExtractFunction(f, Some(className)), s);
  }

  lemma ScanBodyOne<T>(record: FuncDef -> T, s: Stmt)
    ensures ScanBody(record, [s]).0 == (if s.Assign? then NameTargets(s.targets) else [])
    ensures ScanBody(record, [s]).1 == (if s.FunctionDef? then [record(s.fn)] else [])
  {
    assert [s][1..] == [];
    var h := if s.Assign? then NameTargets(s.targets) else [];
    var m := if s.FunctionDef? then [record(s.fn)] else [];
    assert h + [] == h && m + [] == m;
  }

  /** The visitor's state: its two result lists and `current_class`. */
  datatype Visitor = Visitor(functions: seq<FunctionInfo>, classes: seq<ClassInfo>, current: Option<string>)

  const Fresh: Visitor := Visitor([], [], None)

  /** `visit` of one statement. A `def` is recorded when no class is active and its
      children are then visited (`generic_visit`); a class is recorded without
      visiting its body; an `async def` or a compound statement only has its
      children visited. Expressions hold no statements, so visiting them records
      nothing. */
  function VisitStmt(v: Visitor, s: Stmt): (w: Visitor)
    ensures v.functions <= w.functions && v.classes <= w.classes
    ensures v.current.None? ==> w.current.None?
    decreases s
  {
    match s
    case FunctionDef(f) =>
      var v1 := if v.current.None? then v.(functions := v.functions + [ExtractFunction(f, None)]) else v;
      VisitBody(v1, f.body)
    case AsyncFunctionDef(f) => VisitBody(v, f.body)
    case ClassDef(name, _, body) =>
      v.(classes := v.classes + [ClassRecord(name, body)], current := None)
    case OtherStmt(_, body) => VisitBody(v, body)
    case _ => v
  }

  function VisitBody(v: Visitor, ss: seq<Stmt>): (w: Visitor)
    ensures v.functions <= w.functions && v.classes <= w.classes
    ensures v.current.None? ==> w.current.None?
    decreases ss
  {
    if ss == [] then v else VisitBody(VisitStmt(v, ss[0]), ss[1..])
  }

  /** The parse result of a syntax tree: a fresh visitor run over the module. */
  function Traverse(m: Module): (r: ParsedModule)
    ensures m.body == [] ==> r.functions == [] && r.classes == []
  {
    var w := VisitBody(Fresh, m.body);
    ParsedModule(w.functions, w.classes)
  }

  /** `parse_file`: parse, then traverse. A syntax error propagates and no parse
      result exists. */
  function ParseFile(outcome: ParseOutcome): (r: Result<ParsedModule, string>)
    ensures r.Failure? <==> outcome.SyntaxError?
    ensures outcome.SyntaxError? ==> r.error == outcome.message
    ensures outcome.Parsed? && outcome.tree.body == [] ==> r == Success(ParsedModule([], []))
  {
    match outcome
    case SyntaxError(msg) => Failure(msg)
    case Parsed(tree) => Success(Traverse(tree))
  }

  // ---------- which statements the traversal reaches ----------

  /** `t` is a statement the traversal visits when started on `ss`: one of them,
      or one nested in a plain or async `def` or a compound statement it visits.
      Class bodies are never entered. */
  predicate Visits(ss: seq<Stmt>, t: Stmt)
    decreases ss, 1
  {
    exists i :: 0 <= i < |ss| && VisitsFrom(ss[i], t)
  }

  predicate VisitsFrom(s: Stmt, t: Stmt)
    decreases s, 0
  {
    s == t ||
    match s
    case FunctionDef(f) => Visits(f.body, t)
    case AsyncFunctionDef(f) => Visits(f.body, t)
    case OtherStmt(_, body) => Visits(body, t)
    case _ => false
  }

  lemma VisitsCons(ss: seq<Stmt>, t: Stmt)
    requires ss != []
    ensures Visits(ss, t) <==> VisitsFrom(ss[0], t) || Visits(ss[1..], t)
  {
    if Visits(ss[1..], t) {
      var i :| 0 <= i < |ss[1..]| && VisitsFrom(ss[1..][i], t);
      assert VisitsFrom(ss[i + 1], t);
    }
    if Visits(ss, t) {
      var i :| 0 <= i < |ss| && VisitsFrom(ss[i], t);
      if i > 0 { assert VisitsFrom(ss[1..][i - 1], t); }
    }
  }

  /** The function records the traversal of one statement adds are exactly the
      records of the `def`s it reaches from there. */
  lemma {:induction false} VisitStmtFunctions(v: Visitor, s: Stmt, r: FunctionInfo)
    requires v.current.None?
    ensures r in VisitStmt(v, s).functions <==>
              r in v.functions || exists f :: VisitsFrom(s, FunctionDef(f)) && r == ExtractFunction(f, None)
    decreases s, 0
  {
    match s
    case FunctionDef(g) =>
      var v1 := v.(functions := v.functions + [ExtractFunction(g, None)]);
      VisitBodyFunctions(v1, g.body, r);
      if r in VisitStmt(v, s).functions && r !in v.functions {
        if r == ExtractFunction(g, None) {
          assert VisitsFrom(s, FunctionDef(g));
        } else {
          var f :| Visits(g.body, FunctionDef(f)) && r == ExtractFunction(f, None);
          assert VisitsFrom(s, FunctionDef(f));
        }
      }
      if exists f :: VisitsFrom(s, FunctionDef(f)) && r == ExtractFunction(f, None) {
        var f :| VisitsFrom(s, FunctionDef(f)) && r == ExtractFunction(f, None);
        if f != g {
          assert Visits(g.body, FunctionDef(f));
        }
      }
    case AsyncFunctionDef(g) =>
      VisitBodyFunctions(v, g.body, r);
    case ClassDef(_, _, _) =>
    case OtherStmt(_, body) =>
      VisitBodyFunctions(v, body, r);
    case Assign(_, _) =>
    case AnnAssign(_, _, _) =>
    case Raise(_) =>
    case ExprStmt(_) =>
  }

  lemma {:induction false} VisitBodyFunctions(v: Visitor, ss: seq<Stmt>, r: FunctionInfo)
    requires v.current.None?
    ensures r in VisitBody(v, ss).functions <==>
              r in v.functions || exists f :: Visits(ss, FunctionDef(f)) && r == ExtractFunction(f, None)
    decreases ss, 1
  {
    if ss != [] {
      var v1 := VisitStmt(v, ss[0]);
      VisitStmtFunctions(v, ss[0], r);
      VisitBodyFunctions(v1, ss[1..], r);
      forall f { VisitsCons(ss, FunctionDef(f)); }
    }
  }

  /** The class records the traversal of one statement adds are exactly the
      records of the classes it reaches from there. */
  lemma {:induction false} VisitStmtClasses(v: Visitor, s: Stmt, r: ClassInfo)
    requires v.current.None?
    ensures r in VisitStmt(v, s).classes <==>
              r in v.classes || exists n, h, b :: VisitsFrom(s, ClassDef(n, h, b)) && r == ClassRecord(n, b)
    decreases s, 0
  {
    match s
    case FunctionDef(g) =>
      var v1 := v.(functions := v.functions + [ExtractFunction(g, None)]);
      VisitBodyClasses(v1, g.body, r);
    case AsyncFunctionDef(g) =>
      VisitBodyClasses(v, g.body, r);
    case ClassDef(n, h, b) =>
      if exists n', h', b' :: VisitsFrom(s, ClassDef(n', h', b')) && r == ClassRecord(n', b') {
        var n', h', b' :| VisitsFrom(s, ClassDef(n', h', b')) && r == ClassRecord(n', b');
        assert s == ClassDef(n', h', b');
      }
      if r == ClassRecord(n, b) {
        assert VisitsFrom(s, ClassDef(n, h, b));
      }
    case OtherStmt(_, body) =>
      VisitBodyClasses(v, body, r);
    case Assign(_, _) =>
    case AnnAssign(_, _, _) =>
    case Raise(_) =>
    case ExprStmt(_) =>
  }

  lemma {:induction false} VisitBodyClasses(v: Visitor, ss: seq<Stmt>, r: ClassInfo)
    requires v.current.None?
    ensures r in VisitBody(v, ss).classes <==>
              r in v.classes || exists n, h, b :: Visits(ss, ClassDef(n, h, b)) && r == ClassRecord(n, b)
    decreases ss, 1
  {
    if ss != [] {
      var v1 := VisitStmt(v, ss[0]);
      VisitStmtClasses(v, ss[0], r);
      VisitBodyClasses(v1, ss[1..], r);
      forall n, h, b { VisitsCons(ss, ClassDef(n, h, b)); }
    }
  }

  /** `functions` holds exactly the records of the `def`s reachable without
      entering a class body, each with no owning class. */
  lemma FunctionsAreReachedDefs(m: Module, r: FunctionInfo)
    ensures r in Traverse(m).functions <==>
              exists f :: Visits(m.body, FunctionDef(f)) && r == ExtractFunction(f, None)
  {
    VisitBodyFunctions(Fresh, m.body, r);
  }

  /** `classes` holds exactly the records of the classes reachable without entering
      a class body (classes nested in functions included, nested classes not). */
  lemma ClassesAreReachedClasses(m: Module, r: ClassInfo)
    ensures r in Traverse(m).classes <==>
              exists n, h, b :: Visits(m.body, ClassDef(n, h, b)) && r == ClassRecord(n, b)
  {
    VisitBodyClasses(Fresh, m.body, r);
  }

  /** Every record of a parse result keeps `has_docstring == (docstring is not None)`,
      functions have no owning class, and each method is owned by its class. */
  lemma RecordsConsistent(m: Module)
    ensures forall f :: f in Traverse(m).functions ==> f.owner.None? && (f.hasDocstring <==> f.docstring.Some?)
    ensures forall c :: c in Traverse(m).classes ==> (c.hasDocstring <==> c.docstring.Some?)
    ensures forall c, f :: c in Traverse(m).classes && f in c.methods ==>
              f.owner == Some(c.className) && (f.hasDocstring <==> f.docstring.Some?)
  {
    forall f | f in Traverse(m).functions
      ensures f.owner.None? && (f.hasDocstring <==> f.docstring.Some?)
    {
      FunctionsAreReachedDefs(m, f);
      var g :| Visits(m.body, FunctionDef(g)) && f == ExtractFunction(g, None);
      ExtractedRecord(g, None, f);
    }
    forall c | c in Traverse(m).classes
      ensures c.hasDocstring <==> c.docstring.Some?
      ensures forall f :: f in c.methods ==> f.owner == Some(c.className) && (f.hasDocstring <==> f.docstring.Some?)
    {
      ClassesAreReachedClasses(m, c);
      var n, h, b :| Visits(m.body, ClassDef(n, h, b)) && c == ClassRecord(n, b);
      ClassRecorded(n, b, c);
    }
  }

  // ---------- traversal order ----------

  /** The traversal appends to whatever the visitor already holds: what one
      statement contributes does not depend on what came before it. */
  lemma {:induction false} VisitStmtFrame(v: Visitor, s: Stmt)
    requires v.current.None?
    ensures VisitStmt(v, s) == Visitor(v.functions + VisitStmt(Fresh, s).functions,
                                       v.classes + VisitStmt(Fresh, s).classes, None)
    decreases s, 1
  {
    match s
    case FunctionDef(g) =>
      DefFrame(v, g);
    case AsyncFunctionDef(g) =>
      VisitBodyFrame(v, g.body);
    case ClassDef(n, h, b) =>
      ClassFrame(v, n, h, b);
    case OtherStmt(_, body) =>
      VisitBodyFrame(v, body);
    case Assign(_, _) =>
      LeafFrame(v, s);
    case AnnAssign(_, _, _) =>
      LeafFrame(v, s);
    case Raise(_) =>
      LeafFrame(v, s);
    case ExprStmt(_) =>
      LeafFrame(v, s);
  }

  lemma ClassFrame(v: Visitor, n: string, h: seq<Expr>, b: seq<Stmt>)
    requires v.current.None?
    ensures VisitStmt(v, ClassDef(n, h, b)) == Visitor(v.functions + VisitStmt(Fresh, ClassDef(n, h, b)).functions,
                                                       v.classes + VisitStmt(Fresh, ClassDef(n, h, b)).classes, None)
  {
    ClassVisit(n, h, b);
    assert v.functions + [] == v.functions;
  }

  /** A statement that holds no statements records nothing. */
  lemma LeafFrame(v: Visitor, s: Stmt)
    requires v.current.None?
    requires s.Assign? || s.AnnAssign? || s.Raise? || s.ExprStmt?
    ensures VisitStmt(v, s) == Visitor(v.functions + VisitStmt(Fresh, s).functions,
                                       v.classes + VisitStmt(Fresh, s).classes, None)
  {
    assert VisitStmt(v, s) == v && VisitStmt(Fresh, s) == Fresh;
    assert v.functions + [] == v.functions && v.classes + [] == v.classes;
  }

  lemma {:induction false} DefFrame(v: Visitor, g: FuncDef)
    requires v.current.None?
    ensures VisitStmt(v, FunctionDef(g)) == Visitor(v.functions + VisitStmt(Fresh, FunctionDef(g)).functions,
                                                    v.classes + VisitStmt(Fresh, FunctionDef(g)).classes, None)
    decreases FunctionDef(g), 0
  {
    var e := [ExtractFunction(g, None)];
    var inner := VisitBody(Fresh, g.body);
    DefStep(v, g, e);
    DefStep(Fresh, g, e);
    FrameAfter(v, e, g.body);
    FrameAfter(Fresh, e, g.body);
    assert Fresh.functions + (e + inner.functions) == e + inner.functions;
    assert Fresh.classes + inner.classes == inner.classes;
  }

  /** Visiting a `def` with no class active records it, then visits its body. */
  lemma DefStep(v: Visitor, g: FuncDef, e: seq<FunctionInfo>)
    requires v.current.None? && e == [ExtractFunction(g, None)]
    ensures VisitStmt(v, FunctionDef(g)) == VisitBody(v.(functions := v.functions + e), g.body)
  {
  }

  /** Records added before a body is visited stay in front of the body's own. */
  lemma {:induction false} FrameAfter(v: Visitor, e: seq<FunctionInfo>, body: seq<Stmt>)
    requires v.current.None?
    ensures VisitBody(v.(functions := v.functions + e), body)
            == Visitor(v.functions + (e + VisitBody(Fresh, body).functions),
                       v.classes + VisitBody(Fresh, body).classes, None)
    decreases body, 3
  {
    VisitBodyFrame(v.(functions := v.functions + e), body);
    assert v.functions + e + VisitBody(Fresh, body).functions
        == v.functions + (e + VisitBody(Fresh, body).functions);
  }

  lemma {:induction false} VisitBodyFrame(v: Visitor, ss: seq<Stmt>)
    requires v.current.None?
    ensures VisitBody(v, ss) == Visitor(v.functions + VisitBody(Fresh, ss).functions,
                                        v.classes + VisitBody(Fresh, ss).classes, None)
    decreases ss, 2
  {
    if ss != [] {
      VisitStmtFrame(v, ss[0]);
      VisitBodyFrame(VisitStmt(v, ss[0]), ss[1..]);
      VisitBodyFrame(VisitStmt(Fresh, ss[0]), ss[1..]);
    }
  }

  /** Functions are recorded in pre-order: a module-level `def` comes first, then
      every `def` recorded from inside its body, as module-level functions. */
  lemma NestedDefsFollowTheirParent(f: FuncDef, rest: seq<Stmt>)
    ensures Traverse(Module([FunctionDef(f)] + rest)).functions ==
              [ExtractFunction(f, None)] + Traverse(Module(f.body)).functions + Traverse(Module(rest)).functions
  {
    var ss := [FunctionDef(f)] + rest;
    var e := [ExtractFunction(f, None)];
    assert ss[1..] == rest;
    assert Fresh.(functions := Fresh.functions + e) == Fresh.(functions := e);
    VisitBodyFrame(Fresh.(functions := e), f.body);
    var v1 := VisitStmt(Fresh, ss[0]);
    assert v1.functions == e + Traverse(Module(f.body)).functions;
    assert VisitBody(Fresh, ss) == VisitBody(v1, rest);
    VisitBodyFrame(v1, rest);
  }

  /** A class contributes one record and nothing else: its methods, and any `def`
      nested inside them, never reach `functions`. */
  lemma ClassBodiesAreNotEntered(name: string, header: seq<Expr>, body: seq<Stmt>, rest: seq<Stmt>)
    ensures Traverse(Module([ClassDef(name, header, body)] + rest)) ==
              ParsedModule(Traverse(Module(rest)).functions,
                           [ClassRecord(name, body)] + Traverse(Module(rest)).classes)
  {
    var c := ClassDef(name, header, body);
    var tail := VisitBody(Fresh, rest);
    ClassVisit(name, header, body);
    VisitBodyCons(Fresh, c, rest);
    VisitBodyFrame(VisitStmt(Fresh, c), rest);
    assert [] + tail.functions == tail.functions;
  }

  /** Visiting a class from a fresh visitor records the class and nothing else. */
  lemma ClassVisit(name: string, header: seq<Expr>, body: seq<Stmt>)
    ensures VisitStmt(Fresh, ClassDef(name, header, body)) == Visitor([], [ClassRecord(name, body)], None)
  {
  }

  /** Visiting a body visits its first statement, then the rest. */
  lemma VisitBodyCons(v: Visitor, s: Stmt, rest: seq<Stmt>)
    ensures VisitBody(v, [s] + rest) == VisitBody(VisitStmt(v, s), rest)
  {
    assert ([s] + rest)[1..] == rest;
  }
}
