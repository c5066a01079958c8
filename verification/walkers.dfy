/** The walker engine of `src/walkers`: a `Context` of five optional
    predicates and one walker per syntax kind. A predicate sees a node, may
    rewrite it, and answers whether it handled it; for types, expressions and
    statements a handled node is not descended into. Predicates are `FnMut`
    closures in the crate: here they are pure functions that thread an
    explicit state `S`, which the walk carries from call to call.

    The path slot is either a caller-supplied function or the crate's own
    prefix trimmer (`functions/trim_path.rs`), written out as `TrimPrefix`
    because that closure calls `Path::trim_start`, which walks nested types
    again; `TrimStart` therefore lives here too.

    `Abort` stands for the `todo!` on an item statement. */
module Walkers {
  import opened Base
  import opened Syntax
  import opened Paths

  /** A predicate's answer: whether it handled the node, the node as it left
      it, and its state afterwards. */
  datatype Step<S, N> = Step(handled: bool, node: N, state: S)

  /** A walk's result: the final predicate state and the rewritten node. */
  datatype Walked<S, N> = Walked(state: S, node: N)

  datatype PathPredicate<!S> =
    | Custom(f: (S, SynPath) -> Step<S, SynPath>)
      /** The predicate `trim_path::create_context(prefix)` installs. */
    | TrimPrefix(prefix: Path)

  datatype Context<!S> = Context(
    typePredicate: Option<(S, Type) -> Step<S, Type>>,
    exprPredicate: Option<(S, Expr) -> Step<S, Expr>>,
    stmtPredicate: Option<(S, Stmt) -> Step<S, Stmt>>,
    pathPredicate: Option<PathPredicate<S>>,
    identPredicate: Option<(S, Ident) -> Step<S, Ident>>)

  /** A predicate that declines a node never returns a larger one, so the
      walk, which descends into the node the predicate returned, ends. */
  ghost predicate Shrinking<S(!new)>(cx: Context<S>) {
    && (cx.typePredicate.Some? ==>
          forall s, t :: !cx.typePredicate.value(s, t).handled ==> SizeType(cx.typePredicate.value(s, t).node) <= SizeType(t))
    && (cx.exprPredicate.Some? ==>
          forall s, e :: !cx.exprPredicate.value(s, e).handled ==> SizeExpr(cx.exprPredicate.value(s, e).node) <= SizeExpr(e))
    && (cx.stmtPredicate.Some? ==>
          forall s, st :: !cx.stmtPredicate.value(s, st).handled ==> SizeStmt(cx.stmtPredicate.value(s, st).node) <= SizeStmt(st))
  }

  const ItemStatementAbort := "not yet implemented: item statement"

  // ---------------------------------------------------------------------
  // `Context::predict_*`: an empty slot answers false and changes nothing.

  function PredictType<S(!new)>(cx: Context<S>, s: S, t: Type): (r: Step<S, Type>)
    ensures cx.typePredicate.None? ==> r == Step(false, t, s)
    ensures cx.typePredicate.Some? ==> r == cx.typePredicate.value(s, t)
  {
    if cx.typePredicate.None? then Step(false, t, s) else cx.typePredicate.value(s, t)
  }

  function PredictExpr<S(!new)>(cx: Context<S>, s: S, e: Expr): (r: Step<S, Expr>)
    ensures cx.exprPredicate.None? ==> r == Step(false, e, s)
    ensures cx.exprPredicate.Some? ==> r == cx.exprPredicate.value(s, e)
  {
    if cx.exprPredicate.None? then Step(false, e, s) else cx.exprPredicate.value(s, e)
  }

  function PredictStmt<S(!new)>(cx: Context<S>, s: S, st: Stmt): (r: Step<S, Stmt>)
    ensures cx.stmtPredicate.None? ==> r == Step(false, st, s)
    ensures cx.stmtPredicate.Some? ==> r == cx.stmtPredicate.value(s, st)
  {
    if cx.stmtPredicate.None? then Step(false, st, s) else cx.stmtPredicate.value(s, st)
  }

  function PredictIdent<S(!new)>(cx: Context<S>, s: S, id: Ident): (r: Step<S, Ident>)
    ensures cx.identPredicate.None? ==> r == Step(false, id, s)
    ensures cx.identPredicate.Some? ==> r == cx.identPredicate.value(s, id)
  {
    if cx.identPredicate.None? then Step(false, id, s) else cx.identPredicate.value(s, id)
  }

  /** Hands an identifier to the ident predicate; the answer is ignored. */
  function WalkIdent<S(!new)>(cx: Context<S>, s: S, id: Ident): Walked<S, Ident> {
    var st := PredictIdent(cx, s, id);
    Walked(st.state, st.node)
  }

  function WalkOptIdent<S(!new)>(cx: Context<S>, s: S, o: Option<Ident>): (r: Walked<S, Option<Ident>>)
    ensures o.None? ==> r == Walked(s, None)
    ensures o.Some? <==> r.node.Some?
  {
    if o.None? then Walked(s, None)
    else
      var w := WalkIdent(cx, s, o.value);
      Walked(w.state, Some(w.node))
  }

  function WalkIdents<S(!new)>(cx: Context<S>, s: S, ids: seq<Ident>): (r: Walked<S, seq<Ident>>)
    ensures |r.node| == |ids|
  {
    if |ids| == 0 then Walked(s, [])
    else
      var a := WalkIdent(cx, s, ids[0]);
      var b := WalkIdents(cx, a.state, ids[1..]);
      Walked(b.state, [a.node] + b.node)
  }

  // ---------------------------------------------------------------------
  // Expressions (`ExprWalker`)

  /** Asks the expression predicate first; a handled expression is returned
      as the predicate left it, without visiting any child. */
  function WalkExpr<S(!new)>(cx: Context<S>, s: S, e: Expr): (r: Result<Walked<S, Expr>>)
    requires Shrinking(cx)
    ensures PredictExpr(cx, s, e).handled ==> r == Ok(Walked(PredictExpr(cx, s, e).state, PredictExpr(cx, s, e).node))
    decreases SizeExpr(e), 2
  {
    var st := PredictExpr(cx, s, e);
    if st.handled then Ok(Walked(st.state, st.node))
    else
      assert SizeExpr(st.node) <= SizeExpr(e);
      WalkExprChildren(cx, st.state, st.node)
  }

  /** Expressions made of operands: the operators, calls, casts, indexing
      and the bracketed forms. */
  predicate IsOperation(e: Expr) {
    e.ArrayExpr? || e.Assign? || e.Binary? || e.Scoped? || e.Wrapped? || e.Call? || e.Cast? ||
    e.Index? || e.Range? || e.Repeat? || e.Jump? || e.TupleExpr?
  }

  /** Expressions that bind labels or patterns, or branch. */
  predicate IsControl(e: Expr) {
    e.BlockExpr? || e.Break? || e.Closure? || e.Continue? || e.ForLoop? || e.If? ||
    e.Let? || e.Loop? || e.Match? || e.While?
  }

  /** The children of an expression, in the order `ExprWalker` visits them. */
  function WalkExprChildren<S(!new)>(cx: Context<S>, s: S, e: Expr): (r: Result<Walked<S, Expr>>)
    requires Shrinking(cx)
    ensures e.Leaf? ==> r == Ok(Walked(s, e))
    decreases SizeExpr(e), 1
  {
    if IsOperation(e) then WalkOperation(cx, s, e)
    else if IsControl(e) then WalkControl(cx, s, e)
    else WalkAccess(cx, s, e)
  }

  function WalkOperation<S(!new)>(cx: Context<S>, s: S, e: Expr): (r: Result<Walked<S, Expr>>)
    requires Shrinking(cx) && IsOperation(e)
    ensures r.Ok? ==> IsOperation(r.value.node)
    decreases SizeExpr(e), 0
  {
    match e
    case ArrayExpr(elems) =>
      var a :- WalkExprs(cx, s, elems);
      Ok(Walked(a.state, ArrayExpr(a.node)))
    case Assign(l, r) =>
      var a :- WalkExpr(cx, s, l);
      var b :- WalkExpr(cx, a.state, r);
      Ok(Walked(b.state, Assign(a.node, b.node)))
    case Binary(op, l, r) =>
      var a :- WalkExpr(cx, s, l);
      var b :- WalkExpr(cx, a.state, r);
      Ok(Walked(b.state, Binary(op, a.node, b.node)))
    case Scoped(scope, stmts) =>
      var a :- WalkStmts(cx, s, stmts);
      Ok(Walked(a.state, Scoped(scope, a.node)))
    case Wrapped(wrapper, inner) =>
      var a :- WalkExpr(cx, s, inner);
      Ok(Walked(a.state, Wrapped(wrapper, a.node)))
    case Call(callee, args) =>
      var a :- WalkExprs(cx, s, args);
      var b :- WalkExpr(cx, a.state, callee);
      Ok(Walked(b.state, Call(b.node, a.node)))
    case Cast(operand, ty) =>
      var a :- WalkType(cx, s, ty);
      var b :- WalkExpr(cx, a.state, operand);
      Ok(Walked(b.state, Cast(b.node, a.node)))
    case Index(base, index) =>
      var a :- WalkExpr(cx, s, index);
      var b :- WalkExpr(cx, a.state, base);
      Ok(Walked(b.state, Index(b.node, a.node)))
    case Range(start, end) =>
      var a :- WalkOptExpr(cx, s, start);
      var b :- WalkOptExpr(cx, a.state, end);
      Ok(Walked(b.state, Range(a.node, b.node)))
    case Repeat(elem, len) =>
      var a :- WalkExpr(cx, s, elem);
      var b :- WalkExpr(cx, a.state, len);
      Ok(Walked(b.state, Repeat(a.node, b.node)))
    case Jump(jump, value) =>
      var a :- WalkOptExpr(cx, s, value);
      Ok(Walked(a.state, Jump(jump, a.node)))
    case TupleExpr(elems) =>
      var a :- WalkExprs(cx, s, elems);
      Ok(Walked(a.state, TupleExpr(a.node)))
  }

  function WalkControl<S(!new)>(cx: Context<S>, s: S, e: Expr): (r: Result<Walked<S, Expr>>)
    requires Shrinking(cx) && IsControl(e)
    ensures r.Ok? ==> IsControl(r.value.node)
    decreases SizeExpr(e), 0
  {
    match e
    case BlockExpr(lbl, stmts) =>
      var a :- WalkStmts(cx, s, stmts);
      var b := WalkOptIdent(cx, a.state, lbl);
      Ok(Walked(b.state, BlockExpr(b.node, a.node)))
    case Break(lbl, value) =>
      var a := WalkOptIdent(cx, s, lbl);
      var b :- WalkOptExpr(cx, a.state, value);
      Ok(Walked(b.state, Break(a.node, b.node)))
    case Closure(inputs, output, body) =>
      var a :- WalkExpr(cx, s, body);
      var b :- WalkPats(cx, a.state, inputs);
      var c :- WalkOptType(cx, b.state, output);
      Ok(Walked(c.state, Closure(b.node, c.node, a.node)))
    case Continue(lbl) =>
      var a := WalkOptIdent(cx, s, lbl);
      Ok(Walked(a.state, Continue(a.node)))
    case ForLoop(lbl, pat, iterated, body) =>
      var a := WalkOptIdent(cx, s, lbl);
      var b :- WalkPat(cx, a.state, pat);
      var c :- WalkExpr(cx, b.state, iterated);
      var d :- WalkStmts(cx, c.state, body);
      Ok(Walked(d.state, ForLoop(a.node, b.node, c.node, d.node)))
    case If(cond, thenBranch, elseBranch) =>
      var a :- WalkExpr(cx, s, cond);
      var b :- WalkStmts(cx, a.state, thenBranch);
      var c :- WalkOptExpr(cx, b.state, elseBranch);
      Ok(Walked(c.state, If(a.node, b.node, c.node)))
    case Let(pat, scrutinee) =>
      var a :- WalkPat(cx, s, pat);
      var b :- WalkExpr(cx, a.state, scrutinee);
      Ok(Walked(b.state, Let(a.node, b.node)))
    case Loop(lbl, body) =>
      var a := WalkOptIdent(cx, s, lbl);
      var b :- WalkStmts(cx, a.state, body);
      Ok(Walked(b.state, Loop(a.node, b.node)))
    case Match(scrutinee, arms) =>
      var a :- WalkExpr(cx, s, scrutinee);
      var b :- WalkArms(cx, a.state, arms);
      Ok(Walked(b.state, Match(a.node, b.node)))
    case While(lbl, cond, body) =>
      var a := WalkOptIdent(cx, s, lbl);
      var b :- WalkExpr(cx, a.state, cond);
      var c :- WalkStmts(cx, b.state, body);
      Ok(Walked(c.state, While(a.node, b.node, c.node)))
  }

  /** Field and method access, macros, paths, struct literals and leaves. */
  function WalkAccess<S(!new)>(cx: Context<S>, s: S, e: Expr): (r: Result<Walked<S, Expr>>)
    requires Shrinking(cx) && !IsOperation(e) && !IsControl(e)
    ensures e.Leaf? ==> r == Ok(Walked(s, e))
    decreases SizeExpr(e), 0
  {
    match e
    case FieldAccess(base, member) =>
      var a :- WalkExpr(cx, s, base);
      var b := WalkMember(cx, a.state, member);
      Ok(Walked(b.state, FieldAccess(a.node, b.node)))
    case MacroExpr(attrs, mac) =>
      var a :- WalkMacro(cx, s, mac);
      Ok(Walked(a.state, MacroExpr(attrs, a.node)))
    case MethodCall(receiver, methodName, turbofish, args) =>
      var a := WalkIdent(cx, s, methodName);
      var b :- WalkExpr(cx, a.state, receiver);
      var c :- WalkExprs(cx, b.state, args);
      Ok(Walked(c.state, MethodCall(b.node, a.node, turbofish, c.node)))
    case PathExpr(qself, path) =>
      var a :- WalkOptType(cx, s, qself);
      var b :- WalkPath(cx, a.state, path);
      Ok(Walked(b.state, PathExpr(a.node, b.node)))
    case StructLit(qself, path, fields, rest) =>
      var a :- WalkOptType(cx, s, qself);
      var b :- WalkPath(cx, a.state, path);
      var c :- WalkFieldValues(cx, b.state, fields);
      var d :- WalkOptExpr(cx, c.state, rest);
      Ok(Walked(d.state, StructLit(a.node, b.node, c.node, d.node)))
    case Leaf(_) => Ok(Walked(s, e))
  }

  /** A named member goes to the ident predicate; a numeric one is kept. */
  function WalkMember<S(!new)>(cx: Context<S>, s: S, member: Member): (r: Walked<S, Member>)
    ensures member.Unnamed? ==> r == Walked(s, member)
  {
    match member
    case Named(name) =>
      var a := WalkIdent(cx, s, name);
      Walked(a.state, Named(a.node))
    case Unnamed(_) => Walked(s, member)
  }

  function WalkExprs<S(!new)>(cx: Context<S>, s: S, es: seq<Expr>): (r: Result<Walked<S, seq<Expr>>>)
    requires Shrinking(cx)
    ensures r.Ok? ==> |r.value.node| == |es|
    decreases SizeExprs(es), 0
  {
    if |es| == 0 then Ok(Walked(s, []))
    else
      var a :- WalkExpr(cx, s, es[0]);
      var b :- WalkExprs(cx, a.state, es[1..]);
      Ok(Walked(b.state, [a.node] + b.node))
  }

  function WalkOptExpr<S(!new)>(cx: Context<S>, s: S, o: Option<Expr>): (r: Result<Walked<S, Option<Expr>>>)
    requires Shrinking(cx)
    ensures o.None? ==> r == Ok(Walked(s, None))
    ensures r.Ok? ==> (o.Some? <==> r.value.node.Some?)
    decreases SizeOptExpr(o), 0
  {
    if o.None? then Ok(Walked(s, None))
    else
      var a :- WalkExpr(cx, s, o.value);
      Ok(Walked(a.state, Some(a.node)))
  }

  /** Each arm: its pattern, then its body, then its guard. */
  function WalkArms<S(!new)>(cx: Context<S>, s: S, arms: seq<Arm>): (r: Result<Walked<S, seq<Arm>>>)
    requires Shrinking(cx)
    ensures r.Ok? ==> |r.value.node| == |arms|
    decreases SizeArms(arms), 0
  {
    if |arms| == 0 then Ok(Walked(s, []))
    else
      var arm := arms[0];
      assert SizeArm(arm) < SizeArms(arms);
      var a :- WalkPat(cx, s, arm.pat);
      var b :- WalkExpr(cx, a.state, arm.body);
      var c :- WalkOptExpr(cx, b.state, arm.guard);
      var d :- WalkArms(cx, c.state, arms[1..]);
      Ok(Walked(d.state, [Arm(a.node, c.node, b.node)] + d.node))
  }

  /** A struct literal's field values; member names are not visited. */
  function WalkFieldValues<S(!new)>(cx: Context<S>, s: S, fields: seq<FieldValue>): (r: Result<Walked<S, seq<FieldValue>>>)
    requires Shrinking(cx)
    ensures r.Ok? ==> |r.value.node| == |fields|
    ensures r.Ok? ==> forall i :: 0 <= i < |fields| ==> r.value.node[i].member == fields[i].member
    decreases SizeFieldValues(fields), 0
  {
    if |fields| == 0 then Ok(Walked(s, []))
    else
      assert SizeFieldValue(fields[0]) < SizeFieldValues(fields);
      var a :- WalkExpr(cx, s, fields[0].value);
      var b :- WalkFieldValues(cx, a.state, fields[1..]);
      Ok(Walked(b.state, [FieldValue(fields[0].member, a.node)] + b.node))
  }

  /** `MacroWalker`: the macro's path, then each argument expression. */
  function WalkMacro<S(!new)>(cx: Context<S>, s: S, mac: Macro): (r: Result<Walked<S, Macro>>)
    requires Shrinking(cx)
    ensures r.Ok? ==> r.value.node.delimiter == mac.delimiter && |r.value.node.args| == |mac.args|
    decreases SizeMacro(mac), 0
  {
    var a :- WalkPath(cx, s, mac.path);
    var b :- WalkExprs(cx, a.state, mac.args);
    Ok(Walked(b.state, Macro(a.node, mac.delimiter, b.node)))
  }

  // ---------------------------------------------------------------------
  // Statements (`StatementWalker`)

  function WalkStmt<S(!new)>(cx: Context<S>, s: S, st: Stmt): (r: Result<Walked<S, Stmt>>)
    requires Shrinking(cx)
    ensures PredictStmt(cx, s, st).handled ==> r == Ok(Walked(PredictStmt(cx, s, st).state, PredictStmt(cx, s, st).node))
    decreases SizeStmt(st), 1
  {
    var step := PredictStmt(cx, s, st);
    if step.handled then Ok(Walked(step.state, step.node))
    else
      assert SizeStmt(step.node) <= SizeStmt(st);
      WalkStmtChildren(cx, step.state, step.node)
  }

  /** A `let` visits its pattern, initialiser and `else` branch; an item
      statement aborts; an expression statement keeps its semicolon. */
  function WalkStmtChildren<S(!new)>(cx: Context<S>, s: S, st: Stmt): (r: Result<Walked<S, Stmt>>)
    requires Shrinking(cx)
    ensures st.ItemStmt? ==> r == Abort(ItemStatementAbort)
    ensures r.Ok? && st.ExprStmt? ==> r.value.node.ExprStmt? && r.value.node.semi == st.semi
    decreases SizeStmt(st), 0
  {
    match st
    case Local(pat, init) =>
      var a :- WalkPat(cx, s, pat);
      if init.None? then Ok(Walked(a.state, Local(a.node, None)))
      else
        var b :- WalkExpr(cx, a.state, init.value.expr);
        var c :- WalkOptExpr(cx, b.state, init.value.diverge);
        Ok(Walked(c.state, Local(a.node, Some(LocalInit(b.node, c.node)))))
    case ItemStmt(_) => Abort(ItemStatementAbort)
    case ExprStmt(expr, semi) =>
      var a :- WalkExpr(cx, s, expr);
      Ok(Walked(a.state, ExprStmt(a.node, semi)))
    case MacroStmt(attrs, mac, semi) =>
      var a :- WalkMacro(cx, s, mac);
      Ok(Walked(a.state, MacroStmt(attrs, a.node, semi)))
  }

  function WalkStmts<S(!new)>(cx: Context<S>, s: S, ss: seq<Stmt>): (r: Result<Walked<S, seq<Stmt>>>)
    requires Shrinking(cx)
    ensures r.Ok? ==> |r.value.node| == |ss|
    decreases SizeStmts(ss), 0
  {
    if |ss| == 0 then Ok(Walked(s, []))
    else
      var a :- WalkStmt(cx, s, ss[0]);
      var b :- WalkStmts(cx, a.state, ss[1..]);
      Ok(Walked(b.state, [a.node] + b.node))
  }

  // ---------------------------------------------------------------------
  // Patterns (`PatternWalker`): no predicate is asked on entry.

  function WalkPat<S(!new)>(cx: Context<S>, s: S, p: Pat): (r: Result<Walked<S, Pat>>)
    requires Shrinking(cx)
    ensures p.OtherPat? ==> r == Ok(Walked(s, p))
    decreases SizePat(p), 0
  {
    match p
    case ConstPat(stmts) =>
      var a :- WalkStmts(cx, s, stmts);
      Ok(Walked(a.state, ConstPat(a.node)))
    case IdentPat(name, subpat) =>
      var a := WalkIdent(cx, s, name);
      Ok(Walked(a.state, IdentPat(a.node, subpat)))
    case MacroPat(mac) =>
      var a :- WalkMacro(cx, s, mac);
      Ok(Walked(a.state, MacroPat(a.node)))
    case OrPat(cases) =>
      var a :- WalkPats(cx, s, cases);
      Ok(Walked(a.state, OrPat(a.node)))
    case ParenPat(inner) =>
      var a :- WalkPat(cx, s, inner);
      Ok(Walked(a.state, ParenPat(a.node)))
    case PathPat(qself, path) =>
      var a :- WalkOptType(cx, s, qself);
      var b :- WalkPath(cx, a.state, path);
      Ok(Walked(b.state, PathPat(a.node, b.node)))
    case RangePat(start, end) =>
      var a :- WalkOptExpr(cx, s, start);
      var b :- WalkOptExpr(cx, a.state, end);
      Ok(Walked(b.state, RangePat(a.node, b.node)))
    case ReferencePat(inner) =>
      var a :- WalkPat(cx, s, inner);
      Ok(Walked(a.state, ReferencePat(a.node)))
    case SlicePat(elems) =>
      var a :- WalkPats(cx, s, elems);
      Ok(Walked(a.state, SlicePat(a.node)))
    case StructPat(qself, path, fields) =>
      var a :- WalkOptType(cx, s, qself);
      var b :- WalkPath(cx, a.state, path);
      var c :- WalkFieldPats(cx, b.state, fields);
      Ok(Walked(c.state, StructPat(a.node, b.node, c.node)))
    case TuplePat(elems) =>
      var a :- WalkPats(cx, s, elems);
      Ok(Walked(a.state, TuplePat(a.node)))
    case TupleStructPat(qself, path, elems) =>
      var a :- WalkOptType(cx, s, qself);
      var b :- WalkPats(cx, a.state, elems);
      var c :- WalkPath(cx, b.state, path);
      Ok(Walked(c.state, TupleStructPat(a.node, c.node, b.node)))
    case TypedPat(inner, ty) =>
      var a :- WalkPat(cx, s, inner);
      var b :- WalkType(cx, a.state, ty);
      Ok(Walked(b.state, TypedPat(a.node, b.node)))
    case OtherPat(_) => Ok(Walked(s, p))
  }

  function WalkPats<S(!new)>(cx: Context<S>, s: S, ps: seq<Pat>): (r: Result<Walked<S, seq<Pat>>>)
    requires Shrinking(cx)
    ensures r.Ok? ==> |r.value.node| == |ps|
    decreases SizePats(ps), 0
  {
    if |ps| == 0 then Ok(Walked(s, []))
    else
      var a :- WalkPat(cx, s, ps[0]);
      var b :- WalkPats(cx, a.state, ps[1..]);
      Ok(Walked(b.state, [a.node] + b.node))
  }

  /** Each field: its subpattern, then its member name. */
  function WalkFieldPats<S(!new)>(cx: Context<S>, s: S, fields: seq<FieldPat>): (r: Result<Walked<S, seq<FieldPat>>>)
    requires Shrinking(cx)
    ensures r.Ok? ==> |r.value.node| == |fields|
    decreases SizeFieldPats(fields), 0
  {
    if |fields| == 0 then Ok(Walked(s, []))
    else
      assert SizeFieldPat(fields[0]) < SizeFieldPats(fields);
      var a :- WalkPat(cx, s, fields[0].pat);
      var b := WalkMember(cx, a.state, fields[0].member);
      var c :- WalkFieldPats(cx, b.state, fields[1..]);
      Ok(Walked(c.state, [FieldPat(b.node, a.node)] + c.node))
  }

  // ---------------------------------------------------------------------
  // Types (`TypeWalker`)

  function WalkType<S(!new)>(cx: Context<S>, s: S, t: Type): (r: Result<Walked<S, Type>>)
    requires Shrinking(cx)
    ensures PredictType(cx, s, t).handled ==> r == Ok(Walked(PredictType(cx, s, t).state, PredictType(cx, s, t).node))
    decreases SizeType(t), 1
  {
    var st := PredictType(cx, s, t);
    if st.handled then Ok(Walked(st.state, st.node))
    else
      assert SizeType(st.node) <= SizeType(t);
      WalkTypeChildren(cx, st.state, st.node)
  }

  function WalkTypeChildren<S(!new)>(cx: Context<S>, s: S, t: Type): (r: Result<Walked<S, Type>>)
    requires Shrinking(cx)
    ensures t.OtherType? ==> r == Ok(Walked(s, t))
    decreases SizeType(t), 0
  {
    match t
    case ArrayType(elem, len) =>
      var a :- WalkType(cx, s, elem);
      var b :- WalkExpr(cx, a.state, len);
      Ok(Walked(b.state, ArrayType(a.node, b.node)))
    case BareFn(lifetimes, inputs, variadic, output) =>
      var a :- WalkBoundLifetimes(cx, s, lifetimes);
      var b := WalkBareVariadic(cx, a.state, variadic);
      var c :- WalkBareFnArgs(cx, b.state, inputs);
      var d :- WalkOptType(cx, c.state, output);
      Ok(Walked(d.state, BareFn(a.node, c.node, b.node, d.node)))
    case WrappedType(wrapper, elem) =>
      var a :- WalkType(cx, s, elem);
      Ok(Walked(a.state, WrappedType(wrapper, a.node)))
    case BoundedType(kind, bounds) =>
      var a :- WalkBounds(cx, s, bounds);
      Ok(Walked(a.state, BoundedType(kind, a.node)))
    case MacroType(mac) =>
      var a :- WalkMacro(cx, s, mac);
      Ok(Walked(a.state, MacroType(a.node)))
    case PathType(qself, path) =>
      var a :- WalkOptType(cx, s, qself);
      var b :- WalkPath(cx, a.state, path);
      Ok(Walked(b.state, PathType(a.node, b.node)))
    case ReferenceType(lifetime, elem) =>
      var a :- WalkType(cx, s, elem);
      var b := WalkOptIdent(cx, a.state, lifetime);
      Ok(Walked(b.state, ReferenceType(b.node, a.node)))
    case TupleType(elems) =>
      var a :- WalkTypes(cx, s, elems);
      Ok(Walked(a.state, TupleType(a.node)))
    case OtherType(_) => Ok(Walked(s, t))
  }

  function WalkBareVariadic<S(!new)>(cx: Context<S>, s: S, variadic: Option<BareVariadic>): Walked<S, Option<BareVariadic>> {
    if variadic.None? then Walked(s, None)
    else
      var a := WalkOptIdent(cx, s, variadic.value.name);
      Walked(a.state, Some(BareVariadic(a.node)))
  }

  /** Each input: its name, then its type. */
  function WalkBareFnArgs<S(!new)>(cx: Context<S>, s: S, inputs: seq<BareFnArg>): (r: Result<Walked<S, seq<BareFnArg>>>)
    requires Shrinking(cx)
    ensures r.Ok? ==> |r.value.node| == |inputs|
    decreases SizeBareFnArgs(inputs), 0
  {
    if |inputs| == 0 then Ok(Walked(s, []))
    else
      assert SizeBareFnArg(inputs[0]) < SizeBareFnArgs(inputs);
      var a := WalkOptIdent(cx, s, inputs[0].name);
      var b :- WalkType(cx, a.state, inputs[0].ty);
      var c :- WalkBareFnArgs(cx, b.state, inputs[1..]);
      Ok(Walked(c.state, [BareFnArg(a.node, b.node)] + c.node))
  }

  function WalkTypes<S(!new)>(cx: Context<S>, s: S, ts: seq<Type>): (r: Result<Walked<S, seq<Type>>>)
    requires Shrinking(cx)
    ensures r.Ok? ==> |r.value.node| == |ts|
    decreases SizeTypes(ts), 0
  {
    if |ts| == 0 then Ok(Walked(s, []))
    else
      var a :- WalkType(cx, s, ts[0]);
      var b :- WalkTypes(cx, a.state, ts[1..]);
      Ok(Walked(b.state, [a.node] + b.node))
  }

  function WalkOptType<S(!new)>(cx: Context<S>, s: S, o: Option<Type>): (r: Result<Walked<S, Option<Type>>>)
    requires Shrinking(cx)
    ensures o.None? ==> r == Ok(Walked(s, None))
    ensures r.Ok? ==> (o.Some? <==> r.value.node.Some?)
    decreases SizeOptType(o), 0
  {
    if o.None? then Ok(Walked(s, None))
    else
      var a :- WalkType(cx, s, o.value);
      Ok(Walked(a.state, Some(a.node)))
  }

  // ---------------------------------------------------------------------
  // Bounds and generic parameters

  /** `TypeParamBoundWalker`: a trait bound's `for<..>` lifetimes, then its
      path; lifetime and captured names go to the ident predicate. */
  function WalkBound<S(!new)>(cx: Context<S>, s: S, b: TypeParamBound): (r: Result<Walked<S, TypeParamBound>>)
    requires Shrinking(cx)
    ensures b.VerbatimBound? ==> r == Ok(Walked(s, b))
    decreases SizeBound(b), 0
  {
    match b
    case TraitBound(lifetimes, path) =>
      var a :- WalkBoundLifetimes(cx, s, lifetimes);
      var c :- WalkPath(cx, a.state, path);
      Ok(Walked(c.state, TraitBound(a.node, c.node)))
    case LifetimeBound(name) =>
      var a := WalkIdent(cx, s, name);
      Ok(Walked(a.state, LifetimeBound(a.node)))
    case PreciseCapture(params) =>
      var a := WalkCaptured(cx, s, params);
      Ok(Walked(a.state, PreciseCapture(a.node)))
    case VerbatimBound(_) => Ok(Walked(s, b))
  }

  function WalkCaptured<S(!new)>(cx: Context<S>, s: S, params: seq<CapturedParam>): (r: Walked<S, seq<CapturedParam>>)
    ensures |r.node| == |params|
  {
    if |params| == 0 then Walked(s, [])
    else
      var a := WalkIdent(cx, s, params[0].name);
      var head := if params[0].CapturedLifetime? then CapturedLifetime(a.node) else CapturedIdent(a.node);
      var b := WalkCaptured(cx, a.state, params[1..]);
      Walked(b.state, [head] + b.node)
  }

  function WalkBounds<S(!new)>(cx: Context<S>, s: S, bounds: seq<TypeParamBound>): (r: Result<Walked<S, seq<TypeParamBound>>>)
    requires Shrinking(cx)
    ensures r.Ok? ==> |r.value.node| == |bounds|
    decreases SizeBounds(bounds), 0
  {
    if |bounds| == 0 then Ok(Walked(s, []))
    else
      var a :- WalkBound(cx, s, bounds[0]);
      var b :- WalkBounds(cx, a.state, bounds[1..]);
      Ok(Walked(b.state, [a.node] + b.node))
  }

  /** `GenericParamWalker`: a lifetime's bounds then its name; a type
      parameter's default, then its name, then its bounds; a const parameter's
      type only. */
  function WalkParam<S(!new)>(cx: Context<S>, s: S, p: GenericParam): (r: Result<Walked<S, GenericParam>>)
    requires Shrinking(cx)
    ensures r.Ok? && p.ConstParam? ==> r.value.node.ConstParam? && r.value.node.name == p.name && r.value.node.defaultValue == p.defaultValue
    decreases SizeParam(p), 0
  {
    match p
    case LifetimeParam(name, bounds) =>
      var a := WalkIdents(cx, s, bounds);
      var b := WalkIdent(cx, a.state, name);
      Ok(Walked(b.state, LifetimeParam(b.node, a.node)))
    case TypeParam(name, bounds, defaultType) =>
      var a :- WalkOptType(cx, s, defaultType);
      var b := WalkIdent(cx, a.state, name);
      var c :- WalkBounds(cx, b.state, bounds);
      Ok(Walked(c.state, TypeParam(b.node, c.node, a.node)))
    case ConstParam(name, ty, defaultValue) =>
      var a :- WalkType(cx, s, ty);
      Ok(Walked(a.state, ConstParam(name, a.node, defaultValue)))
  }

  function WalkParams<S(!new)>(cx: Context<S>, s: S, ps: seq<GenericParam>): (r: Result<Walked<S, seq<GenericParam>>>)
    requires Shrinking(cx)
    ensures r.Ok? ==> |r.value.node| == |ps|
    decreases SizeParams(ps), 0
  {
    if |ps| == 0 then Ok(Walked(s, []))
    else
      var a :- WalkParam(cx, s, ps[0]);
      var b :- WalkParams(cx, a.state, ps[1..]);
      Ok(Walked(b.state, [a.node] + b.node))
  }

  function WalkBoundLifetimes<S(!new)>(cx: Context<S>, s: S, o: Option<BoundLifetimes>): (r: Result<Walked<S, Option<BoundLifetimes>>>)
    requires Shrinking(cx)
    ensures o.None? ==> r == Ok(Walked(s, None))
    decreases SizeOptParams(o), 0
  {
    if o.None? then Ok(Walked(s, None))
    else
      assert SizeBoundLifetimes(o.value) < SizeOptParams(o);
      var a :- WalkParams(cx, s, o.value.lifetimes);
      Ok(Walked(a.state, Some(BoundLifetimes(a.node))))
  }

  // ---------------------------------------------------------------------
  // Paths (`PathWalker`)

  /** With a path predicate, the predicate sees the whole path once and
      nothing inside it is walked. Without one, each segment's generic
      arguments are walked; the per-segment `predict_path` that follows
      always answers false there, as the slot is empty, so it is not
      modelled. */
  function WalkPath<S(!new)>(cx: Context<S>, s: S, p: SynPath): (r: Result<Walked<S, SynPath>>)
    requires Shrinking(cx)
    ensures cx.pathPredicate.None? && r.Ok? ==> r.value.node.leadingColon == p.leadingColon
    ensures cx.pathPredicate.None? && r.Ok? ==> Names(r.value.node.segments) == Names(p.segments)
    decreases SizePath(p), 2
  {
    if cx.pathPredicate.Some? then
      var st :- PredictPath(cx, s, p);
      Ok(Walked(st.state, st.node))
    else
      var a :- WalkSegments(cx, s, p.segments);
      Ok(Walked(a.state, SynPath(p.leadingColon, a.node)))
  }

  function WalkSegments<S(!new)>(cx: Context<S>, s: S, segments: seq<Segment>): (r: Result<Walked<S, seq<Segment>>>)
    requires Shrinking(cx)
    ensures r.Ok? ==> Names(r.value.node) == Names(segments)
    decreases SizeSegments(segments), 0
  {
    if |segments| == 0 then Ok(Walked(s, []))
    else
      var a :- WalkPathArgs(cx, s, segments[0].args);
      var b :- WalkSegments(cx, a.state, segments[1..]);
      Ok(Walked(b.state, [Segment(segments[0].name, a.node)] + b.node))
  }

  /** `walk_in_generic_arguments`: the angle list, or the output type and then
      the inputs of a parenthesised list. */
  function WalkPathArgs<S(!new)>(cx: Context<S>, s: S, args: PathArgs): (r: Result<Walked<S, PathArgs>>)
    requires Shrinking(cx)
    ensures args.NoArgs? ==> r == Ok(Walked(s, args))
    decreases SizePathArgs(args), 0
  {
    match args
    case NoArgs => Ok(Walked(s, args))
    case Angle(list) =>
      var a :- WalkAngleArgs(cx, s, list);
      Ok(Walked(a.state, Angle(a.node)))
    case Parenthesized(inputs, output) =>
      var a :- WalkOptType(cx, s, output);
      var b :- WalkTypes(cx, a.state, inputs);
      Ok(Walked(b.state, Parenthesized(b.node, a.node)))
  }

  /** `AngleBracketedGenericArgumentsWalker`: only type arguments are walked;
      the list keeps its length and every other argument. */
  function WalkAngleArgs<S(!new)>(cx: Context<S>, s: S, args: seq<GenericArgument>): (r: Result<Walked<S, seq<GenericArgument>>>)
    requires Shrinking(cx)
    ensures r.Ok? ==> |r.value.node| == |args|
    ensures r.Ok? ==> forall i :: 0 <= i < |args| ==> (r.value.node[i].TypeArg? <==> args[i].TypeArg?)
    ensures r.Ok? ==> forall i :: 0 <= i < |args| && !args[i].TypeArg? ==> r.value.node[i] == args[i]
    decreases SizeGenericArgs(args), 0
  {
    if |args| == 0 then Ok(Walked(s, []))
    else
      assert SizeGenericArg(args[0]) < SizeGenericArgs(args);
      var a :- match args[0]
        case TypeArg(ty) =>
          var w :- WalkType(cx, s, ty);
          Ok(Walked(w.state, TypeArg(w.node)))
        case _ => Ok(Walked(s, args[0]));
      var b :- WalkAngleArgs(cx, a.state, args[1..]);
      Ok(Walked(b.state, [a.node] + b.node))
  }

  /** `predict_path`: an empty slot answers false and changes nothing. */
  function PredictPath<S(!new)>(cx: Context<S>, s: S, p: SynPath): (r: Result<Step<S, SynPath>>)
    requires Shrinking(cx)
    ensures cx.pathPredicate.None? ==> r == Ok(Step(false, p, s))
    ensures cx.pathPredicate.Some? && cx.pathPredicate.value.Custom? ==> r == Ok(cx.pathPredicate.value.f(s, p))
    decreases SizePath(p), 1
  {
    match cx.pathPredicate
    case None => Ok(Step(false, p, s))
    case Some(Custom(f)) => Ok(f(s, p))
    case Some(TrimPrefix(prefix)) => TrimPathPredicate(prefix, s, p)
  }

  // ---------------------------------------------------------------------
  // Prefix trimming (`trim_path::create_context` and `Path::trim_start`)

  /** The context `trim_path::create_context(prefix)` builds. */
  function TrimPathContext(prefix: Path): (cx: Context<()>)
    ensures Shrinking(cx)
  {
    Context(None, None, None, Some(TrimPrefix(prefix)), None)
  }

  /** The trimming path predicate: a one-segment path is left alone and the
      answer is false; otherwise the path is written back, without a leading
      `::`, exactly when `trim_start` reports a trim. The state is untouched. */
  function TrimPathPredicate<S(!new)>(prefix: Path, s: S, p: SynPath): (r: Result<Step<S, SynPath>>)
    ensures |p.segments| == 1 ==> r == Ok(Step(false, p, s))
    ensures r.Ok? ==> r.value.state == s
    ensures r.Ok? && !r.value.handled ==> r.value.node == p
    ensures r.Ok? && r.value.handled ==> !r.value.node.leadingColon
    decreases SizePath(p), 0
  {
    if |p.segments| == 1 then Ok(Step(false, p, s))
    else
      var t :- TrimStart(FromSynPath(p), prefix);
      if !t.trimmed then Ok(Step(false, p, s))
      else Ok(Step(true, ToSynPath(t.path), s))
  }

  /** `trim_start`'s answer and the path it leaves behind. */
  datatype Trim = Trim(trimmed: bool, path: Path)

  /** `Path::trim_start`: scans the segments against the prefix names; see
      `TrimScan`. */
  function TrimStart(p: Path, prefix: Path): (r: Result<Trim>)
    ensures r.Ok? && !r.value.trimmed ==> Names(r.value.path.segments) == Names(p.segments)
    decreases SizeSegments(p.segments), 1
  {
    TrimScan(prefix, [], p.segments, Names(prefix.segments), 1)
  }

  /** One step of `trim_start`'s loop per segment. `done` holds the segments
      already visited (their nested arguments trimmed), `rest` the ones still
      to come, `queue` the prefix names not yet popped, `count` the number of
      leading segments a successful match drops. Each segment first has the
      type arguments of its angle list trimmed. Then, unless the queue is
      empty, one prefix name is popped: a match with names left counts the
      segment, a match of the last name drops `count` segments and reports a
      trim, and a mismatch just consumes the name. */
  function TrimScan(prefix: Path, done: seq<Segment>, rest: seq<Segment>, queue: seq<Ident>, count: nat): (r: Result<Trim>)
    requires 1 <= count <= |done| + 1
    ensures r.Ok? && !r.value.trimmed ==> Names(r.value.path.segments) == Names(done) + Names(rest)
    decreases SizeSegments(rest), 0
  {
    if |rest| == 0 then Ok(Trim(false, Path(done)))
    else
      var segment :- TrimSegmentArgs(prefix, rest[0]);
      if |queue| == 0 then
        NamesAppend(done, [segment]);
        NamesAppend([rest[0]], rest[1..]);
        assert rest == [rest[0]] + rest[1..];
        TrimScan(prefix, done + [segment], rest[1..], queue, count)
      else if segment.name == queue[0] && |queue| > 1 then
        NamesAppend(done, [segment]);
        NamesAppend([rest[0]], rest[1..]);
        assert rest == [rest[0]] + rest[1..];
        TrimScan(prefix, done + [segment], rest[1..], queue[1..], count + 1)
      else if segment.name == queue[0] then
        Ok(Trim(true, Path((done + [segment] + rest[1..])[count..])))
      else
        NamesAppend(done, [segment]);
        NamesAppend([rest[0]], rest[1..]);
        assert rest == [rest[0]] + rest[1..];
        TrimScan(prefix, done + [segment], rest[1..], queue[1..], count)
  }

  /** `trim_path_segment_in_generic_arguments`: each type argument of an
      angle list goes through `trim_path::from_type` with the same prefix;
      the segment's name never changes. */
  function TrimSegmentArgs(prefix: Path, segment: Segment): (r: Result<Segment>)
    ensures r.Ok? ==> r.value.name == segment.name
    ensures !segment.args.Angle? ==> r == Ok(segment)
    decreases SizePathArgs(segment.args), 1
  {
    match segment.args
    case Angle(list) =>
      var trimmed :- TrimTypeArgs(prefix, list);
      Ok(Segment(segment.name, Angle(trimmed)))
    case _ => Ok(segment)
  }

  function TrimTypeArgs(prefix: Path, args: seq<GenericArgument>): (r: Result<seq<GenericArgument>>)
    ensures r.Ok? ==> |r.value| == |args|
    decreases SizeGenericArgs(args), 0
  {
    if |args| == 0 then Ok([])
    else
      assert SizeGenericArg(args[0]) < SizeGenericArgs(args);
      var head :- match args[0]
        case TypeArg(ty) =>
          var w :- WalkType(TrimPathContext(prefix), (), ty);
          Ok(TypeArg(w.node))
        case _ => Ok(args[0]);
      var tail :- TrimTypeArgs(prefix, args[1..]);
      Ok([head] + tail)
  }
}
