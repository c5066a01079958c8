/** `utils/statement.rs`: the operands the statement builders accept and
    the builders themselves, each producing one statement of the reduced
    syntax tree. */
module Statements {
  import opened Base
  import opened Syntax
  import opened Paths
  import opened UseTrees

  const NotAnExpression := "Statement is not an expression"
  const NotAStatement := "Expression is not a statement"
  const TooFewCalls := "Chaining calls require to have at least two calls"
  const ExpectedStart := "Expected 'Start' call"
  const ExpectedChained := "Expected 'Chained' call"
  const ExpectedExpression := "Expected expression statement"

  /** The crate's `statement::Expr`: an expression, a statement or a path,
      each of which a builder can turn into an expression. */
  datatype Operand = OfExpr(expr: Expr) | OfStmt(stmt: Stmt) | OfPath(path: Path)

  /** One link of a method chain: the first names its receiver, the others
      take the previous call as theirs. */
  datatype ChainCall =
    | Start(receiver: Operand, methodPath: Path, arguments: seq<Operand>)
    | Chained(methodPath: Path, arguments: seq<Operand>)

  /** A path as a path expression. */
  function PathOf(p: Path): (r: Expr)
    ensures r.PathExpr? && r.qself.None? && !r.path.leadingColon && r.path.segments == p.segments
  {
    PathExpr(None, ToSynPath(p))
  }

  /** A statement the builders can read an expression back from. */
  predicate Expressive(s: Stmt) {
    s.ExprStmt? || s.MacroStmt?
  }

  /** `to_expr`: the expression an operand stands for. A `let` or an item
      statement is not an expression and aborts. */
  function ToExpr(o: Operand): (r: Result<Expr>)
    ensures r.Ok? <==> !o.OfStmt? || Expressive(o.stmt)
    ensures r.Abort? ==> r.reason == NotAnExpression
    ensures o.OfExpr? ==> r == Ok(o.expr)
    ensures o.OfPath? ==> r == Ok(PathOf(o.path))
    ensures o.OfStmt? && o.stmt.ExprStmt? ==> r == Ok(o.stmt.expr)
    ensures o.OfStmt? && o.stmt.MacroStmt? ==> r == Ok(MacroExpr(o.stmt.attrs, o.stmt.mac))
  {
    match o
    case OfExpr(e) => Ok(e)
    case OfStmt(s) =>
      (match s
       case ExprStmt(e, _) => Ok(e)
       case MacroStmt(attrs, mac, _) => Ok(MacroExpr(attrs, mac))
       case _ => Abort(NotAnExpression))
    case OfPath(p) => Ok(PathOf(p))
  }

  /** `to_stmt`: only a statement operand is a statement. */
  function ToStmt(o: Operand): (r: Result<Stmt>)
    ensures r.Ok? <==> o.OfStmt?
    ensures r.Ok? ==> r.value == o.stmt
    ensures r.Abort? ==> r.reason == NotAStatement
  {
    if o.OfStmt? then Ok(o.stmt) else Abort(NotAStatement)
  }

  /** Wrapping a statement and unwrapping it again gives it back, and an
      expression statement's expression survives the trip through an
      operand whatever its semicolon. */
  lemma OperandRoundTrip(s: Stmt, e: Expr, semi: bool)
    ensures ToStmt(OfStmt(s)) == Ok(s)
    ensures ToExpr(OfExpr(e)) == Ok(e)
    ensures ToExpr(OfStmt(ExprStmt(e, semi))) == ToExpr(OfExpr(e))
  {
  }

  /** Each operand's expression, in order; the first operand that is not an
      expression aborts. */
  function ToExprs(os: seq<Operand>): (r: Result<seq<Expr>>)
    ensures r.Ok? <==> forall i :: 0 <= i < |os| ==> ToExpr(os[i]).Ok?
    ensures r.Ok? ==> |r.value| == |os| && forall i :: 0 <= i < |os| ==> r.value[i] == ToExpr(os[i]).value
    ensures r.Abort? ==> r.reason == NotAnExpression
  {
    if |os| == 0 then Ok([])
    else
      var e :- ToExpr(os[0]);
      var rest :- ToExprs(os[1..]);
      Ok([e] + rest)
  }

  lemma {:induction false} ToExprsAppend(a: seq<Operand>, b: seq<Operand>)
    ensures ToExprs(a + b).Ok? <==> ToExprs(a).Ok? && ToExprs(b).Ok?
    ensures ToExprs(a + b).Ok? ==> ToExprs(a + b).value == ToExprs(a).value + ToExprs(b).value
  {
    var ab := a + b;
    assert forall i :: 0 <= i < |a| ==> ab[i] == a[i];
    assert forall i :: 0 <= i < |b| ==> ab[|a| + i] == b[i];
    if ToExprs(ab).Ok? {
      assert forall i :: 0 <= i < |b| ==> ToExpr(b[i]).Ok? by {
        forall i | 0 <= i < |b| ensures ToExpr(b[i]).Ok? {
          assert ToExpr(ab[|a| + i]).Ok?;
        }
      }
      var l := ToExprs(ab).value;
      var r := ToExprs(a).value + ToExprs(b).value;
      assert |l| == |r|;
      forall i | 0 <= i < |l| ensures l[i] == r[i] {
        if i >= |a| {
          assert ab[i] == b[i - |a|];
        }
      }
    }
  }

  /** The name of a path's last segment; an empty path aborts as the
      `unwrap` of `last()` does. */
  function LastName(p: Path): (r: Result<Ident>)
    ensures r.Ok? <==> |p.segments| > 0
    ensures r.Ok? ==> r.value == p.segments[|p.segments| - 1].name
    ensures r.Abort? ==> r.reason == UnwrapNone
  {
    if |p.segments| == 0 then Abort(UnwrapNone) else Ok(Last(p).name)
  }

  // ---------------------------------------------------------------------
  // Field access and assignment

  /** `access_field`: `receiver.member`, no semicolon; only the member
      path's last name is used. */
  function AccessField(receiver: Path, member: Path): (r: Result<Stmt>)
    ensures r.Ok? <==> |member.segments| > 0
    ensures r.Ok? ==> r.value == ExprStmt(FieldAccess(PathOf(receiver), Named(LastName(member).value)), false)
  {
    var name :- LastName(member);
    Ok(ExprStmt(FieldAccess(PathOf(receiver), Named(name)), false))
  }

  /** `access_field_as_ref`: `(&receiver).member`, no semicolon. */
  function AccessFieldAsRef(receiver: Path, member: Path): (r: Result<Stmt>)
    ensures r.Ok? <==> |member.segments| > 0
    ensures r.Ok? ==> r.value == ExprStmt(FieldAccess(Wrapped(ReferenceExpr, PathOf(receiver)), Named(LastName(member).value)), false)
  {
    var name :- LastName(member);
    Ok(ExprStmt(FieldAccess(Wrapped(ReferenceExpr, PathOf(receiver)), Named(name)), false))
  }

  /** Two member paths ending in the same name give the same access. */
  lemma AccessFieldUsesLastName(receiver: Path, m1: Path, m2: Path)
    requires |m1.segments| > 0 && |m2.segments| > 0
    requires m1.segments[|m1.segments| - 1].name == m2.segments[|m2.segments| - 1].name
    ensures AccessField(receiver, m1) == AccessField(receiver, m2)
    ensures AccessFieldAsRef(receiver, m1) == AccessFieldAsRef(receiver, m2)
  {
  }

  /** `assign_field`: `receiver.member = right;`. The member is read before
      the right-hand side, so an empty member path aborts first. */
  function AssignField(receiver: Path, member: Path, right: Operand): (r: Result<Stmt>)
    ensures r.Ok? <==> |member.segments| > 0 && ToExpr(right).Ok?
    ensures |member.segments| == 0 ==> r == Abort(UnwrapNone)
    ensures r.Ok? ==> r.value.ExprStmt? && r.value.semi && r.value.expr.Assign?
    ensures r.Ok? ==> Ok(ExprStmt(r.value.expr.left, false)) == AccessField(receiver, member)
    ensures r.Ok? ==> r.value.expr.right == ToExpr(right).value
  {
    var access :- AccessField(receiver, member);
    var left := ToExpr(OfStmt(access)).value;
    var value :- ToExpr(right);
    Ok(ExprStmt(Assign(left, value), true))
  }

  /** `assign`: `left = right;`, the left side converted first. */
  function AssignTo(left: Operand, right: Operand): (r: Result<Stmt>)
    ensures r.Ok? <==> ToExpr(left).Ok? && ToExpr(right).Ok?
    ensures r.Ok? ==> r.value == ExprStmt(Assign(ToExpr(left).value, ToExpr(right).value), true)
  {
    var l :- ToExpr(left);
    var e :- ToExpr(right);
    Ok(ExprStmt(Assign(l, e), true))
  }

  /** `implicit_return`: the operand's expression with no semicolon, so it
      is the value of the enclosing block. */
  function ImplicitReturn(o: Operand): (r: Result<Stmt>)
    ensures r.Ok? <==> ToExpr(o).Ok?
    ensures r.Ok? ==> r.value == ExprStmt(ToExpr(o).value, false)
  {
    var e :- ToExpr(o);
    Ok(ExprStmt(e, false))
  }

  /** `let_assign`: `let <name> = right;`. `printPath` is the path's printed
      form, which the crate turns into the bound identifier. */
  function LetAssign(name: Path, right: Operand, printPath: Path -> string): (r: Result<Stmt>)
    ensures r.Ok? <==> ToExpr(right).Ok?
    ensures r.Ok? ==> r.value == Local(IdentPat(CreateIdent(printPath(name)), None), Some(LocalInit(ToExpr(right).value, None)))
  {
    var e :- ToExpr(right);
    Ok(Local(IdentPat(CreateIdent(printPath(name)), None), Some(LocalInit(e, None))))
  }

  // ---------------------------------------------------------------------
  // Conditions

  /** `let_some_condition`: `if let Some(<value>) = condition { then }`,
      with `else or` when given; no semicolon. */
  function LetSomeCondition(condition: Operand, value: Path, then_: seq<Stmt>, orElse: Option<Operand>, printPath: Path -> string): (r: Result<Stmt>)
    ensures r.Ok? <==> ToExpr(condition).Ok? && (orElse.Some? ==> ToExpr(orElse.value).Ok?)
    ensures r.Ok? ==> r.value.ExprStmt? && !r.value.semi && r.value.expr.If?
    ensures r.Ok? ==> r.value.expr.cond == Let(TupleStructPat(None, ToSynPath(NewPath("Some")), [IdentPat(CreateIdent(printPath(value)), None)]), ToExpr(condition).value)
    ensures r.Ok? ==> r.value.expr.thenBranch == then_
    ensures r.Ok? ==> r.value.expr.elseBranch.Some? == orElse.Some?
    ensures r.Ok? && orElse.Some? ==> r.value.expr.elseBranch.value == ToExpr(orElse.value).value
  {
    var pat := TupleStructPat(None, ToSynPath(NewPath("Some")), [IdentPat(CreateIdent(printPath(value)), None)]);
    var cond :- ToExpr(condition);
    if orElse.None? then Ok(ExprStmt(If(Let(pat, cond), then_, None), false))
    else
      var e :- ToExpr(orElse.value);
      Ok(ExprStmt(If(Let(pat, cond), then_, Some(e)), false))
  }

  /** `let_none_condition`: `if let None = path { then }`, no semicolon. */
  function LetNoneCondition(path: Operand, then_: seq<Stmt>): (r: Result<Stmt>)
    ensures r.Ok? <==> ToExpr(path).Ok?
    ensures r.Ok? ==> r.value == ExprStmt(If(Let(IdentPat(CreateIdent("None"), None), ToExpr(path).value), then_, None), false)
  {
    var e :- ToExpr(path);
    Ok(ExprStmt(If(Let(IdentPat(CreateIdent("None"), None), e), then_, None), false))
  }

  // ---------------------------------------------------------------------
  // Calls

  /** `call`: `path(arguments..);`. */
  function CallTo(path: Path, arguments: seq<Operand>): (r: Result<Stmt>)
    ensures r.Ok? <==> ToExprs(arguments).Ok?
    ensures r.Ok? ==> r.value == ExprStmt(Call(PathOf(path), ToExprs(arguments).value), true)
  {
    var args :- ToExprs(arguments);
    Ok(ExprStmt(Call(PathOf(path), args), true))
  }

  /** `method_call`: `receiver.method(arguments..);`. The arguments are
      converted first, then the receiver, then the method path's last name
      is taken; the first of these to fail aborts. */
  function MethodCallOn(receiver: Operand, methodPath: Path, arguments: seq<Operand>): (r: Result<Stmt>)
    ensures r.Ok? <==> ToExprs(arguments).Ok? && ToExpr(receiver).Ok? && |methodPath.segments| > 0
    ensures ToExprs(arguments).Abort? ==> r == Abort(NotAnExpression)
    ensures ToExprs(arguments).Ok? && ToExpr(receiver).Ok? && |methodPath.segments| == 0 ==> r == Abort(UnwrapNone)
    ensures r.Ok? ==> r.value == ExprStmt(MethodCall(ToExpr(receiver).value, LastName(methodPath).value, None, ToExprs(arguments).value), true)
  {
    var args :- ToExprs(arguments);
    var recv :- ToExpr(receiver);
    var name :- LastName(methodPath);
    Ok(ExprStmt(MethodCall(recv, name, None, args), true))
  }

  /** Two method paths ending in the same name give the same call. */
  lemma MethodCallUsesLastName(receiver: Operand, m1: Path, m2: Path, arguments: seq<Operand>)
    requires |m1.segments| > 0 && |m2.segments| > 0
    requires m1.segments[|m1.segments| - 1].name == m2.segments[|m2.segments| - 1].name
    ensures MethodCallOn(receiver, m1, arguments) == MethodCallOn(receiver, m2, arguments)
  {
  }

  /** Follows `n` method-call receivers inwards. */
  function Peel(e: Expr, n: nat): Option<Expr> {
    if n == 0 then Some(e)
    else if e.MethodCall? then Peel(e.receiver, n - 1)
    else None
  }

  lemma {:induction false} PeelStep(e: Expr, n: nat, x: Expr)
    requires Peel(e, n) == Some(x)
    ensures Peel(e, n + 1) == Peel(x, 1)
    decreases n
  {
    if n > 0 {
      PeelStep(e.receiver, n - 1, x);
    }
  }

  /** The rest of a chain, each `Chained` call taking the previous call as
      its receiver. */
  function ChainFrom(prev: Stmt, calls: seq<ChainCall>): (r: Result<Stmt>)
    requires prev.ExprStmt? && prev.semi && prev.expr.MethodCall?
    ensures r.Ok? <==> forall i :: 0 <= i < |calls| ==> ChainLinkOk(calls[i])
    ensures r.Ok? ==> r.value.ExprStmt? && r.value.semi && r.value.expr.MethodCall?
    ensures r.Ok? ==> Peel(r.value.expr, |calls|) == Some(prev.expr)
    ensures r.Ok? && |calls| > 0 ==> r.value.expr.methodName == LastName(calls[|calls| - 1].methodPath).value
    ensures r.Ok? && |calls| > 0 ==> r.value.expr.args == ToExprs(calls[|calls| - 1].arguments).value
    decreases |calls|
  {
    if |calls| == 0 then Ok(prev)
    else if calls[0].Start? then Abort(ExpectedChained)
    else
      var next :- MethodCallOn(OfStmt(prev), calls[0].methodPath, calls[0].arguments);
      var r :- ChainFrom(next, calls[1..]);
      assert forall i :: 1 <= i < |calls| ==> calls[1..][i - 1] == calls[i];
      PeelStep(r.expr, |calls| - 1, next.expr);
      Ok(r)
  }

  /** A `Chained` link whose arguments and method path convert. */
  predicate ChainLinkOk(c: ChainCall) {
    c.Chained? && ToExprs(c.arguments).Ok? && |c.methodPath.segments| > 0
  }

  /** A `Start` link whose receiver, arguments and method path convert. */
  predicate StartOk(c: ChainCall) {
    c.Start? && ToExprs(c.arguments).Ok? && ToExpr(c.receiver).Ok? && |c.methodPath.segments| > 0
  }

  /** `method_chain_call`: at least two calls, a `Start` followed by
      `Chained` ones; the last call is outermost and the start's receiver
      sits innermost, one method call per link below it. */
  function MethodChainCall(calls: seq<ChainCall>): (r: Result<Stmt>)
    ensures |calls| <= 1 ==> r == Abort(TooFewCalls)
    ensures |calls| > 1 && calls[0].Chained? ==> r == Abort(ExpectedStart)
    ensures r.Ok? <==> |calls| > 1 && StartOk(calls[0]) && forall i :: 1 <= i < |calls| ==> ChainLinkOk(calls[i])
    ensures r.Ok? ==> r.value.ExprStmt? && r.value.semi && r.value.expr.MethodCall?
    ensures r.Ok? ==> Peel(r.value.expr, |calls|) == Some(ToExpr(calls[0].receiver).value)
    ensures r.Ok? ==> r.value.expr.methodName == LastName(calls[|calls| - 1].methodPath).value
  {
    if |calls| <= 1 then Abort(TooFewCalls)
    else if calls[0].Chained? then Abort(ExpectedStart)
    else
      var first :- MethodCallOn(calls[0].receiver, calls[0].methodPath, calls[0].arguments);
      var r :- ChainFrom(first, calls[1..]);
      assert forall i :: 1 <= i < |calls| ==> calls[1..][i - 1] == calls[i];
      PeelStep(r.expr, |calls| - 1, first.expr);
      Ok(r)
  }

  /** Adding a `Chained` call to a chain wraps the chain's call in one more
      method call. */
  lemma {:induction false} ChainFromSnoc(prev: Stmt, calls: seq<ChainCall>, c: ChainCall)
    requires prev.ExprStmt? && prev.semi && prev.expr.MethodCall?
    requires ChainFrom(prev, calls).Ok?
    ensures ChainFrom(prev, calls + [c]) == MethodCallOn(OfStmt(ChainFrom(prev, calls).value), c.methodPath, c.arguments)
      || (c.Start? && ChainFrom(prev, calls + [c]) == Abort(ExpectedChained))
    decreases |calls|
  {
    if |calls| == 0 {
      assert [c][1..] == [];
    } else {
      assert (calls + [c])[1..] == calls[1..] + [c];
      var next := MethodCallOn(OfStmt(prev), calls[0].methodPath, calls[0].arguments).value;
      ChainFromSnoc(next, calls[1..], c);
    }
  }

  lemma MethodChainCallSnoc(calls: seq<ChainCall>, methodPath: Path, arguments: seq<Operand>)
    requires MethodChainCall(calls).Ok?
    ensures MethodChainCall(calls + [Chained(methodPath, arguments)])
         == MethodCallOn(OfStmt(MethodChainCall(calls).value), methodPath, arguments)
  {
    var c := Chained(methodPath, arguments);
    var first := MethodCallOn(calls[0].receiver, calls[0].methodPath, calls[0].arguments).value;
    assert (calls + [c])[1..] == calls[1..] + [c];
    ChainFromSnoc(first, calls[1..], c);
  }

  /** `struct_literal`: `path { field: value, .. };`. The fields come in
      the order the caller's hash map yields them. */
  function StructLiteral(path: Path, fields: seq<(string, Operand)>): (r: Result<Stmt>)
    ensures r.Ok? <==> forall i :: 0 <= i < |fields| ==> ToExpr(fields[i].1).Ok?
    ensures r.Ok? ==> r.value.ExprStmt? && r.value.semi && r.value.expr.StructLit?
    ensures r.Ok? ==> r.value.expr.path == ToSynPath(path) && r.value.expr.rest.None?
    ensures r.Ok? ==> |r.value.expr.fields| == |fields| && forall i :: 0 <= i < |fields| ==>
      r.value.expr.fields[i] == FieldValue(Named(CreateIdent(fields[i].0)), ToExpr(fields[i].1).value)
  {
    var values :- FieldValues(fields);
    Ok(ExprStmt(StructLit(None, ToSynPath(path), values, None), true))
  }

  function FieldValues(fields: seq<(string, Operand)>): (r: Result<seq<FieldValue>>)
    ensures r.Ok? <==> forall i :: 0 <= i < |fields| ==> ToExpr(fields[i].1).Ok?
    ensures r.Ok? ==> |r.value| == |fields| && forall i :: 0 <= i < |fields| ==>
      r.value[i] == FieldValue(Named(CreateIdent(fields[i].0)), ToExpr(fields[i].1).value)
  {
    if |fields| == 0 then Ok([])
    else
      var e :- ToExpr(fields[0].1);
      var rest :- FieldValues(fields[1..]);
      Ok([FieldValue(Named(CreateIdent(fields[0].0)), e)] + rest)
  }

  // ---------------------------------------------------------------------
  // Macros, blocks, paths, closures

  /** `macro_invocation`: a block holding the one statement
      `name!(arguments..);`. */
  function MacroInvocation(name: Path, delimiter: Delimiter, arguments: seq<Operand>): (r: Result<Stmt>)
    ensures r.Ok? <==> ToExprs(arguments).Ok?
    ensures r.Ok? ==> r.value == ExprStmt(BlockExpr(None, [MacroStmt([], Macro(ToSynPath(name), delimiter, ToExprs(arguments).value), true)]), true)
  {
    var args :- ToExprs(arguments);
    Ok(ExprStmt(BlockExpr(None, [MacroStmt([], Macro(ToSynPath(name), delimiter, args), true)]), true))
  }

  /** A string literal; escaping is not represented. */
  function StrLit(s: string): Expr {
    Leaf("\"" + s + "\"")
  }

  /** The macro a `macro_invocation` block holds. */
  function InvokedMacro(s: Stmt): Option<Macro> {
    if s.ExprStmt? && s.expr.BlockExpr? && |s.expr.stmts| == 1 && s.expr.stmts[0].MacroStmt? then Some(s.expr.stmts[0].mac) else None
  }

  /** `panic`: `panic!(format, arguments..)`, the format literal first and
      the caller's arguments after it in order. */
  function Panic(format: string, arguments: seq<Operand>): (r: Result<Stmt>)
    ensures r.Ok? <==> ToExprs(arguments).Ok?
    ensures r.Ok? ==> InvokedMacro(r.value).Some?
    ensures r.Ok? ==> var m := InvokedMacro(r.value).value;
      && m.path == ToSynPath(NewPath("panic")) && m.delimiter == ParenDelimiter
      && |m.args| == |arguments| + 1 && m.args[0] == StrLit(format)
      && m.args[1..] == ToExprs(arguments).value
  {
    ToExprsAppend([OfExpr(StrLit(format))], arguments);
    assert ToExprs([OfExpr(StrLit(format))]) == Ok([StrLit(format)]) by {
      assert [OfExpr(StrLit(format))][1..] == [];
      assert ToExprs([]) == Ok([]);
      assert [StrLit(format)] + [] == [StrLit(format)];
    }
    MacroInvocation(NewPath("panic"), ParenDelimiter, [OfExpr(StrLit(format))] + arguments)
  }

  /** `block`: `{ statements }` followed by a semicolon. */
  function BlockOf(statements: seq<Stmt>): (r: Stmt)
    ensures r.ExprStmt? && r.semi && r.expr == BlockExpr(None, statements)
  {
    ExprStmt(BlockExpr(None, statements), true)
  }

  /** `path`: the path as an expression statement with a semicolon. */
  function PathStmt(path: Path): (r: Stmt)
    ensures r.ExprStmt? && r.semi && r.expr == PathOf(path)
  {
    ExprStmt(PathOf(path), true)
  }

  /** `closure`: `|arguments| -> returnType body;`. */
  function ClosureOf(arguments: seq<Pat>, returnType: Option<Type>, body: Operand): (r: Result<Stmt>)
    ensures r.Ok? <==> ToExpr(body).Ok?
    ensures r.Ok? ==> r.value == ExprStmt(Closure(arguments, returnType, ToExpr(body).value), true)
  {
    var e :- ToExpr(body);
    Ok(ExprStmt(Closure(arguments, returnType, e), true))
  }

  /** `without_trailling_semi_colon`: the same expression statement without
      its semicolon; any other statement aborts. */
  function WithoutTrailingSemicolon(s: Stmt): (r: Result<Stmt>)
    ensures r.Ok? <==> s.ExprStmt?
    ensures r.Abort? ==> r.reason == ExpectedExpression
    ensures r.Ok? ==> r.value.ExprStmt? && !r.value.semi
  {
    if s.ExprStmt? then Ok(ExprStmt(s.expr, false)) else Abort(ExpectedExpression)
  }

  /** Dropping the semicolon keeps the expression the statement stands for,
      and doing it twice changes nothing more. */
  lemma WithoutTrailingSemicolonKeepsExpr(s: Stmt)
    requires s.ExprStmt?
    ensures ToExpr(OfStmt(WithoutTrailingSemicolon(s).value)) == ToExpr(OfStmt(s))
    ensures WithoutTrailingSemicolon(WithoutTrailingSemicolon(s).value) == WithoutTrailingSemicolon(s)
    ensures !s.semi ==> WithoutTrailingSemicolon(s) == Ok(s)
  {
  }

  /** Which builders end their statement with a semicolon: every expression
      statement built to be used on its own does; the field accesses, the
      implicit return and the conditions, which are meant as values, do
      not. */
  lemma SemicolonFlags(p: Path, m: Path, o: Operand, os: seq<Operand>, stmts: seq<Stmt>, printPath: Path -> string)
    requires |m.segments| > 0 && ToExpr(o).Ok? && ToExprs(os).Ok?
    ensures AccessField(p, m).value.semi == false
    ensures AccessFieldAsRef(p, m).value.semi == false
    ensures ImplicitReturn(o).value.semi == false
    ensures LetSomeCondition(o, p, stmts, None, printPath).value.semi == false
    ensures LetNoneCondition(o, stmts).value.semi == false
    ensures AssignField(p, m, o).value.semi && AssignTo(o, o).value.semi
    ensures CallTo(p, os).value.semi && MethodCallOn(o, m, os).value.semi
    ensures MacroInvocation(p, ParenDelimiter, os).value.semi && Panic("", os).value.semi
    ensures BlockOf(stmts).semi && PathStmt(p).semi && ClosureOf([], None, o).value.semi
  {
  }
}
