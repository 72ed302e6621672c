/** The docstring injector (`autodocstring/injector.py`): every plain `def` of
    a module, at any depth, gets the docstring the model produces for it, in
    place of the one it had or in front of its body.

    The model is a parameter: `reply(f)` is what the HTTP exchange for the
    source of `f` produced. `f` is the definition after its own nested
    definitions were rewritten, which is what `ast.unparse` sees. Printing the
    new tree back to source is not modelled. */
module Injector {
  import opened Wrappers
  import opened Strings
  import opened Syntax
  import opened LlmOutput

  const TripleSingle := "'''"

  /** `body[len(q):-len(q)]` on a body that opens and closes with `q`; Python's
      slice is empty once the two ends overlap. */
  function Inner(b: string, q: string): string {
    if |b| >= 2 * |q| then b[|q|..|b| - |q|] else []
  }

  /** One turn of the `for q in [...]` loop. */
  function Unwrap(b: string, q: string): string {
    if StartsWith(b, q) && EndsWith(b, q) then Strip(Inner(b, q)) else b
  }

  /** The docstring text taken from the generated docstring: stripped, one
      layer of `"""` and then one of `'''` removed when they wrap it, and
      stripped again. */
  function CleanBody(raw: string): string {
    Strip(Unwrap(Unwrap(Strip(raw), TripleDouble), TripleSingle))
  }

  /** `f"\n{body}\n    "`: the docstring constant's value. */
  function DocConstant(body: string): string {
    "\n" + body + "\n" + "    "
  }

  /** The text taken from a generated docstring is stripped: `strip()` leaves it
      as it is. */
  lemma CleanBodyStripped(raw: string)
    ensures Strip(CleanBody(raw)) == CleanBody(raw)
  {
    var r := CleanBody(raw);
    if r != [] {
      StripTrimmed(r);
    }
  }

  /** Text wrapped once in `"""` comes back stripped and unwrapped, unless
      what is inside is also wrapped in `'''`. */
  lemma CleanBodyUnwraps(x: string)
    requires !(StartsWith(Strip(x), TripleSingle) && EndsWith(Strip(x), TripleSingle))
    ensures CleanBody(TripleDouble + x + TripleDouble) == Strip(x)
  {
    var b := TripleDouble + x + TripleDouble;
    assert b[0] == '"' && b[|b| - 1] == '"';
    StripTrimmed(b);
    assert StartsWith(b, TripleDouble) && EndsWith(b, TripleDouble);
    assert Inner(b, TripleDouble) == x;
    StripIdempotent(x);
  }

  lemma StripIdempotent(x: string)
    ensures Strip(Strip(x)) == Strip(x)
  {
    if Strip(x) != [] {
      StripTrimmed(Strip(x));
    }
  }

  /** A stripped text wrapped in neither kind of triple quotes is kept as it is. */
  lemma CleanBodyKeeps(x: string)
    requires Strip(x) == x
    requires !(StartsWith(x, TripleDouble) && EndsWith(x, TripleDouble))
    requires !(StartsWith(x, TripleSingle) && EndsWith(x, TripleSingle))
    ensures CleanBody(x) == x
  {
  }

  /** What lands in the tree for a blank reply. */
  lemma CleanBodyOfPlaceholder()
    ensures CleanBody(Placeholder) == "Generated docstring."
  {
    var t := "Generated docstring.";
    assert Placeholder == TripleDouble + ("\n" + t + "\n") + TripleDouble;
    StripAround(t);
    CleanBodyUnwraps("\n" + t + "\n");
  }

  /** What lands in the tree for a reply with no text in it. */
  lemma CleanBodyOfFallback()
    ensures CleanBody(Fallback) == "No description available."
  {
    var t := "No description available.";
    assert Fallback == TripleDouble + ("\n" + t + "\n") + TripleDouble;
    StripAround(t);
    CleanBodyUnwraps("\n" + t + "\n");
  }

  /** A break on either side of a stripped text disappears under `strip()`. */
  lemma StripAround(t: string)
    requires t != [] && !IsSpace(t[0]) && !IsSpace(t[|t| - 1])
    ensures Strip("\n" + t + "\n") == t
  {
    var s := "\n" + t + "\n";
    assert s == "\n" + (t + "\n");
    assert (t + "\n")[..|t|] == t;
    RStripConcat("\n" + t, "\n");
    assert RStrip("\n") == [];
    assert "\n" + t + [] == "\n" + t;
    assert RStrip(s) == "\n" + t;
    LStripPrefix("\n", t);
  }

  // ----- placing the docstring -----

  /** The body without its docstring statement, if it has one. */
  function WithoutDocstring(body: seq<Stmt>): seq<Stmt> {
    if GetDocstring(body).Some? then body[1..] else body
  }

  /** Replace the existing docstring statement or insert one in front: the
      body then has exactly that docstring and nothing else changes. */
  function PlaceDocstring(body: seq<Stmt>, doc: string): (r: seq<Stmt>)
    ensures GetDocstring(r) == Some(doc)
    ensures r[1..] == WithoutDocstring(body)
    ensures |r| == |WithoutDocstring(body)| + 1
  {
    var docNode := ExprStmt(Str(doc));
    if |body| > 0 && body[0].ExprStmt? then
      if body[0].value.Str? then [docNode] + body[1..] else [docNode] + body
    else [docNode] + body
  }

  /** `visit_FunctionDef` after its children are visited: on success the
      definition gets the cleaned text as its docstring; on any failure it is
      left as it is. */
  function Document(f: FuncDef, reply: FuncDef -> Reply): (g: FuncDef)
    ensures g.name == f.name && g.args == f.args && g.otherArgs == f.otherArgs
    ensures g.returnType == f.returnType && g.header == f.header && g.line == f.line
    ensures GenerateFromReply(reply(f)).Failure? ==> g == f
    ensures GenerateFromReply(reply(f)).Success? ==>
              GetDocstring(g.body) == Some(DocConstant(CleanBody(GenerateFromReply(reply(f)).value)))
    ensures WithoutDocstring(g.body) == WithoutDocstring(f.body)
  {
    match GenerateFromReply(reply(f))
    case Success(raw) =>
      var b := PlaceDocstring(f.body, DocConstant(CleanBody(raw)));
      WithoutPlaced(f.body, DocConstant(CleanBody(raw)));
      f.(body := b)
    case Failure(_) => f
  }

  lemma WithoutPlaced(body: seq<Stmt>, doc: string)
    ensures WithoutDocstring(PlaceDocstring(body, doc)) == WithoutDocstring(body)
  {
  }

  // ----- the walk -----

  /** The transformer on one statement: a `def` has its body transformed and
      is then documented; an `async def`, a class or a compound statement only
      has its body transformed; nothing else holds a `def`. */
  function InjectStmt(s: Stmt, reply: FuncDef -> Reply): Stmt
    decreases s
  {
    match s
    case FunctionDef(f) => FunctionDef(Document(f.(body := InjectStmts(f.body, reply)), reply))
    case AsyncFunctionDef(f) => AsyncFunctionDef(f.(body := InjectStmts(f.body, reply)))
    case ClassDef(name, header, body) => ClassDef(name, header, InjectStmts(body, reply))
    case OtherStmt(exprs, body) => OtherStmt(exprs, InjectStmts(body, reply))
    case _ => s
  }

  function InjectStmts(ss: seq<Stmt>, reply: FuncDef -> Reply): (r: seq<Stmt>)
    ensures |r| == |ss|
    decreases ss
  {
    if ss == [] then [] else [InjectStmt(ss[0], reply)] + InjectStmts(ss[1..], reply)
  }

  /** `inject_docstrings` up to printing: a syntax error is reported with the
      parser's message, any other module is transformed. */
  function InjectDocstrings(outcome: ParseOutcome, reply: FuncDef -> Reply): (r: Result<Module, string>)
    ensures outcome.SyntaxError? <==> r.Failure?
    ensures outcome.SyntaxError? ==> r.error == "Invalid Python code: " + outcome.message
    ensures outcome.Parsed? ==> |r.value.body| == |outcome.tree.body|
  {
    match outcome
    case SyntaxError(msg) => Failure("Invalid Python code: " + msg)
    case Parsed(tree) => Success(Module(InjectStmts(tree.body, reply)))
  }

  // ----- what the transformation changes -----

  /** A statement with every `def` docstring removed, at any depth. */
  function EraseStmt(s: Stmt): Stmt
    decreases s
  {
    match s
    case FunctionDef(f) => FunctionDef(f.(body := EraseStmts(WithoutDocstring(f.body))))
    case AsyncFunctionDef(f) => AsyncFunctionDef(f.(body := EraseStmts(f.body)))
    case ClassDef(name, header, body) => ClassDef(name, header, EraseStmts(body))
    case OtherStmt(exprs, body) => OtherStmt(exprs, EraseStmts(body))
    case _ => s
  }

  function EraseStmts(ss: seq<Stmt>): (r: seq<Stmt>)
    decreases ss
  {
    if ss == [] then [] else [EraseStmt(ss[0])] + EraseStmts(ss[1..])
  }

  /** The transformation keeps whether a body opens with a docstring, and
      commutes with removing it. */
  lemma InjectKeepsDocstringSlot(ss: seq<Stmt>, reply: FuncDef -> Reply)
    ensures WithoutDocstring(InjectStmts(ss, reply)) == InjectStmts(WithoutDocstring(ss), reply)
  {
    if ss != [] {
      var r := InjectStmts(ss, reply);
      assert r[0] == InjectStmt(ss[0], reply);
      assert r[1..] == InjectStmts(ss[1..], reply);
    }
  }

  /** Apart from `def` docstrings, the transformation changes nothing. */
  lemma {:induction false} InjectOnlyDocuments(s: Stmt, reply: FuncDef -> Reply)
    ensures EraseStmt(InjectStmt(s, reply)) == EraseStmt(s)
    decreases s, 0
  {
    match s
    case FunctionDef(f) =>
      var inner := InjectStmts(f.body, reply);
      var g := Document(f.(body := inner), reply);
      InjectKeepsDocstringSlot(f.body, reply);
      InjectOnlyDocumentsAll(WithoutDocstring(f.body), reply);
      assert WithoutDocstring(g.body) == InjectStmts(WithoutDocstring(f.body), reply);
    case AsyncFunctionDef(f) => InjectOnlyDocumentsAll(f.body, reply);
    case ClassDef(_, _, body) => InjectOnlyDocumentsAll(body, reply);
    case OtherStmt(_, body) => InjectOnlyDocumentsAll(body, reply);
    case _ =>
  }

  lemma {:induction false} InjectOnlyDocumentsAll(ss: seq<Stmt>, reply: FuncDef -> Reply)
    ensures EraseStmts(InjectStmts(ss, reply)) == EraseStmts(ss)
    decreases ss, 1
  {
    if ss != [] {
      InjectOnlyDocuments(ss[0], reply);
      InjectOnlyDocumentsAll(ss[1..], reply);
      var r := InjectStmts(ss, reply);
      assert r[0] == InjectStmt(ss[0], reply);
      assert r[1..] == InjectStmts(ss[1..], reply);
    }
  }

  /** Every `def` at any depth has a docstring. */
  predicate Documented(s: Stmt)
    decreases s
  {
    match s
    case FunctionDef(f) => GetDocstring(f.body).Some? && AllDocumented(f.body)
    case AsyncFunctionDef(f) => AllDocumented(f.body)
    case ClassDef(_, _, body) => AllDocumented(body)
    case OtherStmt(_, body) => AllDocumented(body)
    case _ => true
  }

  predicate AllDocumented(ss: seq<Stmt>)
    decreases ss
  {
    ss == [] || (Documented(ss[0]) && AllDocumented(ss[1..]))
  }

  /** A reply that never fails. */
  ghost predicate AlwaysAnswers(reply: FuncDef -> Reply) {
    forall f :: reply(f).Response?
  }

  /** A reply that always fails. */
  ghost predicate NeverAnswers(reply: FuncDef -> Reply) {
    forall f :: !reply(f).Response?
  }

  lemma PlacedDocumented(body: seq<Stmt>, doc: string)
    requires AllDocumented(body)
    ensures AllDocumented(PlaceDocstring(body, doc))
  {
    var r := PlaceDocstring(body, doc);
    assert r[1..] == WithoutDocstring(body);
    if GetDocstring(body).Some? {
      assert body != [];
    }
  }

  /** When the model always answers, every `def` ends up documented. */
  lemma {:induction false} InjectDocuments(s: Stmt, reply: FuncDef -> Reply)
    requires AlwaysAnswers(reply)
    ensures Documented(InjectStmt(s, reply))
    decreases s, 0
  {
    match s
    case FunctionDef(f) =>
      var inner := InjectStmts(f.body, reply);
      InjectDocumentsAll(f.body, reply);
      var h := f.(body := inner);
      assert reply(h).Response?;
      var raw := GenerateFromReply(reply(h)).value;
      PlacedDocumented(inner, DocConstant(CleanBody(raw)));
    case AsyncFunctionDef(f) => InjectDocumentsAll(f.body, reply);
    case ClassDef(_, _, body) => InjectDocumentsAll(body, reply);
    case OtherStmt(_, body) => InjectDocumentsAll(body, reply);
    case _ =>
  }

  lemma {:induction false} InjectDocumentsAll(ss: seq<Stmt>, reply: FuncDef -> Reply)
    requires AlwaysAnswers(reply)
    ensures AllDocumented(InjectStmts(ss, reply))
    decreases ss, 1
  {
    if ss != [] {
      InjectDocuments(ss[0], reply);
      InjectDocumentsAll(ss[1..], reply);
      var r := InjectStmts(ss, reply);
      assert r[0] == InjectStmt(ss[0], reply);
      assert r[1..] == InjectStmts(ss[1..], reply);
    }
  }

  /** When the model always fails, the tree comes back unchanged. */
  lemma {:induction false} InjectUnchanged(s: Stmt, reply: FuncDef -> Reply)
    requires NeverAnswers(reply)
    ensures InjectStmt(s, reply) == s
    decreases s, 0
  {
    match s
    case FunctionDef(f) =>
      InjectUnchangedAll(f.body, reply);
      assert f.(body := InjectStmts(f.body, reply)) == f;
      assert !reply(f).Response?;
    case AsyncFunctionDef(f) => InjectUnchangedAll(f.body, reply);
    case ClassDef(_, _, body) => InjectUnchangedAll(body, reply);
    case OtherStmt(_, body) => InjectUnchangedAll(body, reply);
    case _ =>
  }

  lemma {:induction false} InjectUnchangedAll(ss: seq<Stmt>, reply: FuncDef -> Reply)
    requires NeverAnswers(reply)
    ensures InjectStmts(ss, reply) == ss
    decreases ss, 1
  {
    if ss != [] {
      InjectUnchanged(ss[0], reply);
      InjectUnchangedAll(ss[1..], reply);
      assert ss == [ss[0]] + ss[1..];
    }
  }
}
