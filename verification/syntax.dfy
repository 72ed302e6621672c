/** An abstract Python syntax tree, reduced to what the docstring pipeline looks at.

    Annotation and exception expressions are kept only as their source text (what
    `ast.unparse` would print); a parse either yields a `Module` or a syntax error.
    The module also gives `ast.walk` (every node of a subtree) and
    `ast.get_docstring` (the leading string-constant statement of a body). */
module Syntax {
  import opened Wrappers

  /** An expression. Only string constants (docstrings) and `yield` /
      `yield from` are told apart; every other expression keeps just its
      sub-expressions, so that a walk can still find yields nested in it. */
  datatype Expr =
    | Str(value: string)
    | Yield(operand: Option<Expr>)
    | YieldFrom(source: Expr)
    | OtherExpr(children: seq<Expr>)

  /** An assignment target: a plain name, or anything else (tuple, list,
      attribute path, subscript, starred). */
  datatype Target = NameTarget(id: string) | OtherTarget

  /** One entry of a definition's `args.args`: its name and annotation text. */
  datatype Arg = Arg(name: string, annotation: Option<string>)

  /** The parts of a `def` (plain or `async`). `args` are the positional-or-keyword
      parameters; `otherArgs` the positional-only, `*args`, keyword-only and
      `**kwargs` ones; `header` the decorator and default-value expressions. */
  datatype FuncDef = FuncDef(
    name: string,
    line: int,
    args: seq<Arg>,
    otherArgs: seq<Arg>,
    returnType: Option<string>,
    header: seq<Expr>,
    body: seq<Stmt>)

  /** A statement. `OtherStmt` stands for every statement kind the pipeline does
      not inspect (`return`, `if`, `for`, `while`, `with`, `try`, `import`, ...),
      keeping its expressions and all statements nested in it, in order. */
  datatype Stmt =
    | FunctionDef(fn: FuncDef)
    | AsyncFunctionDef(fn: FuncDef)
    | ClassDef(name: string, header: seq<Expr>, body: seq<Stmt>)
    | Assign(targets: seq<Target>, value: Expr)
    | AnnAssign(target: Target, annotation: string, rhs: Option<Expr>)
    | Raise(exc: Option<string>)
    | ExprStmt(value: Expr)
    | OtherStmt(exprs: seq<Expr>, body: seq<Stmt>)

  datatype Module = Module(body: seq<Stmt>)

  /** What `ast.parse` gives back for a source text. */
  datatype ParseOutcome = Parsed(tree: Module) | SyntaxError(message: string)

  /** A statement that is a bare string constant: what a docstring looks like. */
  predicate IsDocstringStmt(s: Stmt) {
    s.ExprStmt? && s.value.Str?
  }

  /** `ast.get_docstring` of a definition with this body, without the `cleandoc`
      dedent: the text of a leading string-constant statement, if there is one. */
  function GetDocstring(body: seq<Stmt>): Option<string> {
    if |body| > 0 && IsDocstringStmt(body[0]) then Some(body[0].value.value) else None
  }

  /** A node of the tree, as `ast.walk` hands them out. */
  datatype Node = StmtNode(stmt: Stmt) | ExprNode(expr: Expr)

  /** `ast.walk(s)`: the statement itself and every node below it, nested
      definitions and classes included. (Python walks breadth-first; the order is
      irrelevant to every use made of it here.) */
  function WalkStmt(s: Stmt): seq<Node> {
    [StmtNode(s)] +
    match s
    case FunctionDef(f) => WalkExprs(f.header) + WalkStmts(f.body)
    case AsyncFunctionDef(f) => WalkExprs(f.header) + WalkStmts(f.body)
    case ClassDef(_, header, body) => WalkExprs(header) + WalkStmts(body)
    case Assign(_, value) => WalkExpr(value)
    case AnnAssign(_, _, value) => if value.Some? then WalkExpr(value.value) else []
    case Raise(_) => []
    case ExprStmt(value) => WalkExpr(value)
    case OtherStmt(exprs, body) => WalkExprs(exprs) + WalkStmts(body)
  }

  function WalkStmts(ss: seq<Stmt>): seq<Node> {
    if ss == [] then [] else WalkStmt(ss[0]) + WalkStmts(ss[1..])
  }

  function WalkExpr(e: Expr): seq<Node> {
    [ExprNode(e)] +
    match e
    case Str(_) => []
    case Yield(operand) => if operand.Some? then WalkExpr(operand.value) else []
    case YieldFrom(operand) => WalkExpr(operand)
    case OtherExpr(children) => WalkExprs(children)
  }

  function WalkExprs(es: seq<Expr>): seq<Node> {
    if es == [] then [] else WalkExpr(es[0]) + WalkExprs(es[1..])
  }

  /** A `yield` or `yield from` occurs somewhere in the expression. */
  predicate ExprYields(e: Expr) {
    match e
    case Str(_) => false
    case Yield(_) => true
    case YieldFrom(_) => true
    case OtherExpr(children) => exists i :: 0 <= i < |children| && ExprYields(children[i])
  }

  predicate AnyExprYields(es: seq<Expr>) {
    exists i :: 0 <= i < |es| && ExprYields(es[i])
  }

  /** A `yield` or `yield from` occurs somewhere in the statement, including in
      nested definitions and classes. */
  predicate StmtYields(s: Stmt) {
    match s
    case FunctionDef(f) => AnyExprYields(f.header) || AnyStmtYields(f.body)
    case AsyncFunctionDef(f) => AnyExprYields(f.header) || AnyStmtYields(f.body)
    case ClassDef(_, header, body) => AnyExprYields(header) || AnyStmtYields(body)
    case Assign(_, value) => ExprYields(value)
    case AnnAssign(_, _, value) => value.Some? && ExprYields(value.value)
    case Raise(_) => false
    case ExprStmt(value) => ExprYields(value)
    case OtherStmt(exprs, body) => AnyExprYields(exprs) || AnyStmtYields(body)
  }

  predicate AnyStmtYields(ss: seq<Stmt>) {
    exists i :: 0 <= i < |ss| && StmtYields(ss[i])
  }

  /** The text a `raise` statement contributes: its exception expression, or
      `Exception` for a bare `raise`. */
  function RaiseText(exc: Option<string>): string {
    exc.GetOr("Exception")
  }

  /** Some `raise` statement contributing text `t` occurs somewhere in the
      statement, including in nested definitions and classes. */
  predicate StmtRaises(s: Stmt, t: string) {
    match s
    case FunctionDef(f) => AnyStmtRaises(f.body, t)
    case AsyncFunctionDef(f) => AnyStmtRaises(f.body, t)
    case ClassDef(_, _, body) => AnyStmtRaises(body, t)
    case Raise(exc) => RaiseText(exc) == t
    case OtherStmt(_, body) => AnyStmtRaises(body, t)
    case _ => false
  }

  predicate AnyStmtRaises(ss: seq<Stmt>, t: string) {
    exists i :: 0 <= i < |ss| && StmtRaises(ss[i], t)
  }

  /** The raise texts of the walked nodes, in walk order, duplicates kept. */
  function RaiseTexts(nodes: seq<Node>): seq<string> {
    if nodes == [] then []
    else
      (if nodes[0].StmtNode? && nodes[0].stmt.Raise? then [RaiseText(nodes[0].stmt.exc)] else [])
      + RaiseTexts(nodes[1..])
  }

  predicate IsYieldNode(n: Node) {
    n.ExprNode? && (n.expr.Yield? || n.expr.YieldFrom?)
  }

  /** Whether any walked node is a `yield` or `yield from`. */
  function AnyYieldNode(nodes: seq<Node>): bool {
    if nodes == [] then false else IsYieldNode(nodes[0]) || AnyYieldNode(nodes[1..])
  }

  lemma {:induction false} RaiseTextsAppend(a: seq<Node>, b: seq<Node>)
    ensures RaiseTexts(a + b) == RaiseTexts(a) + RaiseTexts(b)
    decreases |a|
  {
    if a != [] {
      assert (a + b)[1..] == a[1..] + b;
      RaiseTextsAppend(a[1..], b);
    } else {
      assert a + b == b;
    }
  }

  lemma {:induction false} AnyYieldAppend(a: seq<Node>, b: seq<Node>)
    ensures AnyYieldNode(a + b) == (AnyYieldNode(a) || AnyYieldNode(b))
    decreases |a|
  {
    if a != [] {
      assert (a + b)[1..] == a[1..] + b;
      AnyYieldAppend(a[1..], b);
    } else {
      assert a + b == b;
    }
  }

  /** Expressions hold no statements, so walking one meets no `raise`. */
  lemma {:induction false} WalkExprNoRaise(e: Expr)
    ensures RaiseTexts(WalkExpr(e)) == []
    decreases e, 1
  {
    match e
    case Str(_) =>
    case Yield(operand) =>
      if operand.Some? { WalkExprNoRaise(operand.value); }
      RaiseTextsAppend([ExprNode(e)], if operand.Some? then WalkExpr(operand.value) else []);
    case YieldFrom(operand) =>
      WalkExprNoRaise(operand);
      RaiseTextsAppend([ExprNode(e)], WalkExpr(operand));
    case OtherExpr(children) =>
      WalkExprsNoRaise(children);
      RaiseTextsAppend([ExprNode(e)], WalkExprs(children));
  }

  lemma {:induction false} WalkExprsNoRaise(es: seq<Expr>)
    ensures RaiseTexts(WalkExprs(es)) == []
    decreases es, 0
  {
    if es != [] {
      WalkExprNoRaise(es[0]);
      WalkExprsNoRaise(es[1..]);
      RaiseTextsAppend(WalkExpr(es[0]), WalkExprs(es[1..]));
    }
  }

  /** The raise texts `ast.walk` finds below a statement are exactly those of the
      `raise` statements occurring in it at any depth. */
  lemma {:induction false} WalkStmtRaises(s: Stmt, t: string)
    ensures t in RaiseTexts(WalkStmt(s)) <==> StmtRaises(s, t)
    decreases s, 1
  {
    var self := [StmtNode(s)];
    match s
    case FunctionDef(f) =>
      WalkExprsNoRaise(f.header);
      WalkStmtsRaises(f.body, t);
      RaiseTextsAppend(WalkExprs(f.header), WalkStmts(f.body));
      RaiseTextsAppend(self, WalkExprs(f.header) + WalkStmts(f.body));
    case AsyncFunctionDef(f) =>
      WalkExprsNoRaise(f.header);
      WalkStmtsRaises(f.body, t);
      RaiseTextsAppend(WalkExprs(f.header), WalkStmts(f.body));
      RaiseTextsAppend(self, WalkExprs(f.header) + WalkStmts(f.body));
    case ClassDef(_, header, body) =>
      WalkExprsNoRaise(header);
      WalkStmtsRaises(body, t);
      RaiseTextsAppend(WalkExprs(header), WalkStmts(body));
      RaiseTextsAppend(self, WalkExprs(header) + WalkStmts(body));
    case Assign(_, value) =>
      WalkExprNoRaise(value);
      RaiseTextsAppend(self, WalkExpr(value));
    case AnnAssign(_, _, value) =>
      if value.Some? {
        WalkExprNoRaise(value.value);
        RaiseTextsAppend(self, WalkExpr(value.value));
      }
    case Raise(_) =>
    case ExprStmt(value) =>
      WalkExprNoRaise(value);
      RaiseTextsAppend(self, WalkExpr(value));
    case OtherStmt(exprs, body) =>
      WalkExprsNoRaise(exprs);
      WalkStmtsRaises(body, t);
      RaiseTextsAppend(WalkExprs(exprs), WalkStmts(body));
      RaiseTextsAppend(self, WalkExprs(exprs) + WalkStmts(body));
  }

  lemma {:induction false} WalkStmtsRaises(ss: seq<Stmt>, t: string)
    ensures t in RaiseTexts(WalkStmts(ss)) <==> AnyStmtRaises(ss, t)
    decreases ss, 0
  {
    if ss != [] {
      WalkStmtRaises(ss[0], t);
      WalkStmtsRaises(ss[1..], t);
      RaiseTextsAppend(WalkStmt(ss[0]), WalkStmts(ss[1..]));
      if AnyStmtRaises(ss[1..], t) {
        var i :| 0 <= i < |ss[1..]| && StmtRaises(ss[1..][i], t);
        assert StmtRaises(ss[i + 1], t);
      }
      if AnyStmtRaises(ss, t) {
        var i :| 0 <= i < |ss| && StmtRaises(ss[i], t);
        if i > 0 { assert StmtRaises(ss[1..][i - 1], t); }
      }
    }
  }

  /** `ast.walk` meets a `yield` node below an expression exactly when the
      expression contains one. */
  lemma {:induction false} WalkExprYields(e: Expr)
    ensures AnyYieldNode(WalkExpr(e)) <==> ExprYields(e)
    decreases e, 1
  {
    var self := [ExprNode(e)];
    match e
    case Str(_) =>
    case Yield(operand) =>
    case YieldFrom(operand) =>
    case OtherExpr(children) =>
      WalkExprsYields(children);
      AnyYieldAppend(self, WalkExprs(children));
  }

  lemma {:induction false} WalkExprsYields(es: seq<Expr>)
    ensures AnyYieldNode(WalkExprs(es)) <==> AnyExprYields(es)
    decreases es, 0
  {
    if es != [] {
      WalkExprYields(es[0]);
      WalkExprsYields(es[1..]);
      AnyYieldAppend(WalkExpr(es[0]), WalkExprs(es[1..]));
      if AnyExprYields(es[1..]) {
        var i :| 0 <= i < |es[1..]| && ExprYields(es[1..][i]);
        assert ExprYields(es[i + 1]);
      }
      if AnyExprYields(es) {
        var i :| 0 <= i < |es| && ExprYields(es[i]);
        if i > 0 { assert ExprYields(es[1..][i - 1]); }
      }
    }
  }

  /** `ast.walk` meets a `yield` node below a statement exactly when a `yield`
      occurs in it at any depth, nested definitions included. */
  lemma {:induction false} WalkStmtYields(s: Stmt)
    ensures AnyYieldNode(WalkStmt(s)) <==> StmtYields(s)
    decreases s, 1
  {
    var self := [StmtNode(s)];
    match s
    case FunctionDef(f) =>
      WalkExprsYields(f.header);
      WalkStmtsYields(f.body);
      AnyYieldAppend(WalkExprs(f.header), WalkStmts(f.body));
      AnyYieldAppend(self, WalkExprs(f.header) + WalkStmts(f.body));
    case AsyncFunctionDef(f) =>
      WalkExprsYields(f.header);
      WalkStmtsYields(f.body);
      AnyYieldAppend(WalkExprs(f.header), WalkStmts(f.body));
      AnyYieldAppend(self, WalkExprs(f.header) + WalkStmts(f.body));
    case ClassDef(_, header, body) =>
      WalkExprsYields(header);
      WalkStmtsYields(body);
      AnyYieldAppend(WalkExprs(header), WalkStmts(body));
      AnyYieldAppend(self, WalkExprs(header) + WalkStmts(body));
    case Assign(_, value) =>
      WalkExprYields(value);
      AnyYieldAppend(self, WalkExpr(value));
    case AnnAssign(_, _, value) =>
      if value.Some? {
        WalkExprYields(value.value);
        AnyYieldAppend(self, WalkExpr(value.value));
      }
    case Raise(_) =>
    case ExprStmt(value) =>
      WalkExprYields(value);
      AnyYieldAppend(self, WalkExpr(value));
    case OtherStmt(exprs, body) =>
      WalkExprsYields(exprs);
      WalkStmtsYields(body);
      AnyYieldAppend(WalkExprs(exprs), WalkStmts(body));
      AnyYieldAppend(self, WalkExprs(exprs) + WalkStmts(body));
  }

  lemma {:induction false} WalkStmtsYields(ss: seq<Stmt>)
    ensures AnyYieldNode(WalkStmts(ss)) <==> AnyStmtYields(ss)
    decreases ss, 0
  {
    if ss != [] {
      WalkStmtYields(ss[0]);
      WalkStmtsYields(ss[1..]);
      AnyYieldAppend(WalkStmt(ss[0]), WalkStmts(ss[1..]));
      if AnyStmtYields(ss[1..]) {
        var i :| 0 <= i < |ss[1..]| && StmtYields(ss[1..][i]);
        assert StmtYields(ss[i + 1]);
      }
      if AnyStmtYields(ss) {
        var i :| 0 <= i < |ss| && StmtYields(ss[i]);
        if i > 0 { assert StmtYields(ss[1..][i - 1]); }
      }
    }
  }
}
