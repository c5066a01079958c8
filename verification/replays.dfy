/** A walk with a passive context is its visit list replayed: the walk
    aborts exactly when the list does, with the same reason; otherwise the
    node comes back unchanged and the state is the fold of the predicates
    over the list. One lemma per walker, by the same recursion. */
module Replays {
  import opened Base
  import opened Syntax
  import opened Walkers
  import opened Visits

  /** Whether paths are visited as a whole. */
  function Opaque<S(!new)>(cx: Context<S>): bool {
    cx.pathPredicate.Some?
  }

  lemma Fold3<S(!new)>(cx: Context<S>, s: S, a: seq<Visit>, b: seq<Visit>, c: seq<Visit>)
    ensures Fold(cx, s, a + b + c) == Fold(cx, Fold(cx, Fold(cx, s, a), b), c)
  {
    FoldAppend(cx, s, a + b, c);
    FoldAppend(cx, s, a, b);
  }

  lemma Fold4<S(!new)>(cx: Context<S>, s: S, a: seq<Visit>, b: seq<Visit>, c: seq<Visit>, d: seq<Visit>)
    ensures Fold(cx, s, a + b + c + d) == Fold(cx, Fold(cx, Fold(cx, Fold(cx, s, a), b), c), d)
  {
    FoldAppend(cx, s, a + b + c, d);
    Fold3(cx, s, a, b, c);
  }

  lemma FoldOne<S(!new)>(cx: Context<S>, s: S, v: Visit, rest: seq<Visit>)
    ensures Fold(cx, s, [v] + rest) == Fold(cx, Apply(cx, s, v), rest)
  {
    assert ([v] + rest)[1..] == rest;
  }

  // ---------------------------------------------------------------------
  // Identifiers

  lemma IdentReplays<S(!new)>(cx: Context<S>, s: S, id: Ident)
    requires Passive(cx)
    ensures WalkIdent(cx, s, id) == Walked(Fold(cx, s, [IdentVisit(id)]), id)
  {
    FoldOne(cx, s, IdentVisit(id), []);
  }

  lemma OptIdentReplays<S(!new)>(cx: Context<S>, s: S, o: Option<Ident>)
    requires Passive(cx)
    ensures WalkOptIdent(cx, s, o) == Walked(Fold(cx, s, OptIdentOrder(o)), o)
  {
    if o.Some? {
      IdentReplays(cx, s, o.value);
    }
  }

  lemma {:induction false} IdentsReplays<S(!new)>(cx: Context<S>, s: S, ids: seq<Ident>)
    requires Passive(cx)
    ensures WalkIdents(cx, s, ids) == Walked(Fold(cx, s, IdentsOrder(ids)), ids)
    decreases |ids|
  {
    if |ids| > 0 {
      IdentReplays(cx, s, ids[0]);
      IdentsReplays(cx, Apply(cx, s, IdentVisit(ids[0])), ids[1..]);
      FoldOne(cx, s, IdentVisit(ids[0]), IdentsOrder(ids[1..]));
      Uncons(ids);
    }
  }

  lemma MemberReplays<S(!new)>(cx: Context<S>, s: S, m: Member)
    requires Passive(cx)
    ensures WalkMember(cx, s, m) == Walked(Fold(cx, s, MemberOrder(m)), m)
  {
    if m.Named? {
      IdentReplays(cx, s, m.name);
    }
  }

  lemma {:induction false} CapturedReplays<S(!new)>(cx: Context<S>, s: S, params: seq<CapturedParam>)
    requires Passive(cx)
    ensures WalkCaptured(cx, s, params) == Walked(Fold(cx, s, CapturedOrder(params)), params)
    decreases |params|
  {
    if |params| > 0 {
      IdentReplays(cx, s, params[0].name);
      CapturedReplays(cx, Apply(cx, s, IdentVisit(params[0].name)), params[1..]);
      FoldOne(cx, s, IdentVisit(params[0].name), CapturedOrder(params[1..]));
      Uncons(params);
    }
  }

  lemma BareVariadicReplays<S(!new)>(cx: Context<S>, s: S, v: Option<BareVariadic>)
    requires Passive(cx)
    ensures WalkBareVariadic(cx, s, v) == Walked(Fold(cx, s, BareVariadicOrder(v)), v)
  {
    if v.Some? {
      OptIdentReplays(cx, s, v.value.name);
    }
  }

  // ---------------------------------------------------------------------
  // Expressions

  lemma {:induction false} ExprReplays<S(!new)>(cx: Context<S>, s: S, e: Expr)
    requires Passive(cx)
    ensures WalkExpr(cx, s, e) == Replay(cx, s, ExprOrder(Opaque(cx), e), e)
    decreases SizeExpr(e), 4
  {
    var s1 := Apply(cx, s, ExprVisit(e));
    ExprChildrenReplays(cx, s1, e);
    var c := ExprChildrenOrder(Opaque(cx), e);
    if c.Ok? {
      FoldOne(cx, s, ExprVisit(e), c.value);
    }
  }

  lemma {:induction false} ExprChildrenReplays<S(!new)>(cx: Context<S>, s: S, e: Expr)
    requires Passive(cx)
    ensures WalkExprChildren(cx, s, e) == Replay(cx, s, ExprChildrenOrder(Opaque(cx), e), e)
    decreases SizeExpr(e), 3
  {
    if IsOperation(e) {
      OperationReplays(cx, s, e);
    } else if IsControl(e) {
      ControlReplays(cx, s, e);
    } else {
      AccessReplays(cx, s, e);
    }
  }

  lemma {:induction false} OperationReplays<S(!new)>(cx: Context<S>, s: S, e: Expr)
    requires Passive(cx) && IsOperation(e)
    ensures WalkOperation(cx, s, e) == Replay(cx, s, OperationOrder(Opaque(cx), e), e)
    decreases SizeExpr(e), 2
  {
    if e.ArrayExpr? || e.Scoped? || e.Wrapped? || e.Jump? || e.TupleExpr? {
      OneChildReplays(cx, s, e);
    } else {
      TwoChildrenReplays(cx, s, e);
    }
  }

  /** The operations with a single child or a single list of children. */
  lemma {:induction false} OneChildReplays<S(!new)>(cx: Context<S>, s: S, e: Expr)
    requires Passive(cx) && (e.ArrayExpr? || e.Scoped? || e.Wrapped? || e.Jump? || e.TupleExpr?)
    ensures WalkOperation(cx, s, e) == Replay(cx, s, OperationOrder(Opaque(cx), e), e)
    decreases SizeExpr(e), 1
  {
    if e.ArrayExpr? {
      ExprsReplays(cx, s, e.elems);
    } else if e.Scoped? {
      StmtsReplays(cx, s, e.stmts);
    } else if e.Wrapped? {
      ExprReplays(cx, s, e.inner);
    } else if e.Jump? {
      OptExprReplays(cx, s, e.value);
    } else {
      ExprsReplays(cx, s, e.elems);
    }
  }

  /** The operations with two children, walked one after the other. */
  lemma {:induction false} TwoChildrenReplays<S(!new)>(cx: Context<S>, s: S, e: Expr)
    requires Passive(cx) && (e.Assign? || e.Binary? || e.Call? || e.Cast? || e.Index? || e.Range? || e.Repeat?)
    ensures WalkOperation(cx, s, e) == Replay(cx, s, OperationOrder(Opaque(cx), e), e)
    decreases SizeExpr(e), 1
  {
    if e.Assign? {
      ExprPairReplays(cx, s, e.left, e.right);
    } else if e.Binary? {
      ExprPairReplays(cx, s, e.left, e.right);
    } else if e.Call? {
      CallReplays(cx, s, e);
    } else if e.Cast? {
      CastReplays(cx, s, e);
    } else if e.Index? {
      ExprPairReplays(cx, s, e.index, e.base);
    } else if e.Range? {
      RangeReplays(cx, s, e);
    } else {
      ExprPairReplays(cx, s, e.elem, e.len);
    }
  }

  lemma {:induction false} CallReplays<S(!new)>(cx: Context<S>, s: S, e: Expr)
    requires Passive(cx) && e.Call?
    ensures WalkOperation(cx, s, e) == Replay(cx, s, OperationOrder(Opaque(cx), e), e)
    decreases SizeExpr(e), 0
  {
    var o := Opaque(cx);
    var Call(callee, args) := e;
    ExprsReplays(cx, s, args);
    var a := ExprsOrder(o, args);
    if a.Ok? {
      ExprReplays(cx, Fold(cx, s, a.value), callee);
      var b := ExprOrder(o, callee);
      if b.Ok? { FoldAppend(cx, s, a.value, b.value); }
    }
  }

  lemma {:induction false} CastReplays<S(!new)>(cx: Context<S>, s: S, e: Expr)
    requires Passive(cx) && e.Cast?
    ensures WalkOperation(cx, s, e) == Replay(cx, s, OperationOrder(Opaque(cx), e), e)
    decreases SizeExpr(e), 0
  {
    var o := Opaque(cx);
    var Cast(operand, ty) := e;
    TypeReplays(cx, s, ty);
    var a := TypeOrder(o, ty);
    if a.Ok? {
      ExprReplays(cx, Fold(cx, s, a.value), operand);
      var b := ExprOrder(o, operand);
      if b.Ok? { FoldAppend(cx, s, a.value, b.value); }
    }
  }

  lemma {:induction false} RangeReplays<S(!new)>(cx: Context<S>, s: S, e: Expr)
    requires Passive(cx) && e.Range?
    ensures WalkOperation(cx, s, e) == Replay(cx, s, OperationOrder(Opaque(cx), e), e)
    decreases SizeExpr(e), 0
  {
    var o := Opaque(cx);
    var Range(start, end) := e;
    OptExprReplays(cx, s, start);
    var a := OptExprOrder(o, start);
    if a.Ok? {
      OptExprReplays(cx, Fold(cx, s, a.value), end);
      var b := OptExprOrder(o, end);
      if b.Ok? { FoldAppend(cx, s, a.value, b.value); }
    }
  }

  /** Two expressions walked one after the other. */
  lemma {:induction false} ExprPairReplays<S(!new)>(cx: Context<S>, s: S, l: Expr, r: Expr)
    requires Passive(cx)
    ensures var vl := ExprOrder(Opaque(cx), l);
      && WalkExpr(cx, s, l) == Replay(cx, s, vl, l)
      && (vl.Ok? ==> WalkExpr(cx, Fold(cx, s, vl.value), r) == Replay(cx, Fold(cx, s, vl.value), ExprOrder(Opaque(cx), r), r))
      && (vl.Ok? && ExprOrder(Opaque(cx), r).Ok? ==>
            Fold(cx, s, vl.value + ExprOrder(Opaque(cx), r).value) == Fold(cx, Fold(cx, s, vl.value), ExprOrder(Opaque(cx), r).value))
    decreases SizeExpr(l) + SizeExpr(r), 5
  {
    ExprReplays(cx, s, l);
    var vl := ExprOrder(Opaque(cx), l);
    if vl.Ok? {
      ExprReplays(cx, Fold(cx, s, vl.value), r);
      var vr := ExprOrder(Opaque(cx), r);
      if vr.Ok? { FoldAppend(cx, s, vl.value, vr.value); }
    }
  }

  lemma {:induction false} ControlReplays<S(!new)>(cx: Context<S>, s: S, e: Expr)
    requires Passive(cx) && IsControl(e)
    ensures WalkControl(cx, s, e) == Replay(cx, s, ControlOrder(Opaque(cx), e), e)
    decreases SizeExpr(e), 2
  {
    if e.BlockExpr? || e.Break? || e.Continue? || e.Loop? || e.While? {
      LabelledReplays(cx, s, e);
    } else {
      BindingReplays(cx, s, e);
    }
  }

  /** The control expressions that carry an optional label. */
  lemma {:induction false} LabelledReplays<S(!new)>(cx: Context<S>, s: S, e: Expr)
    requires Passive(cx) && (e.BlockExpr? || e.Break? || e.Continue? || e.Loop? || e.While?)
    ensures WalkControl(cx, s, e) == Replay(cx, s, ControlOrder(Opaque(cx), e), e)
    decreases SizeExpr(e), 1
  {
    if e.BlockExpr? {
      BlockReplays(cx, s, e);
    } else if e.Break? {
      BreakReplays(cx, s, e);
    } else if e.Continue? {
      OptIdentReplays(cx, s, e.labelName);
    } else if e.Loop? {
      LoopReplays(cx, s, e);
    } else {
      WhileReplays(cx, s, e);
    }
  }

  /** The control expressions that bind patterns or branch. */
  lemma {:induction false} BindingReplays<S(!new)>(cx: Context<S>, s: S, e: Expr)
    requires Passive(cx) && (e.Closure? || e.ForLoop? || e.If? || e.Let? || e.Match?)
    ensures WalkControl(cx, s, e) == Replay(cx, s, ControlOrder(Opaque(cx), e), e)
    decreases SizeExpr(e), 1
  {
    if e.Closure? {
      ClosureReplays(cx, s, e);
    } else if e.ForLoop? {
      ForLoopReplays(cx, s, e);
    } else if e.If? {
      IfReplays(cx, s, e);
    } else if e.Let? {
      LetReplays(cx, s, e);
    } else {
      MatchReplays(cx, s, e);
    }
  }

  lemma {:induction false} BlockReplays<S(!new)>(cx: Context<S>, s: S, e: Expr)
    requires Passive(cx) && e.BlockExpr?
    ensures WalkControl(cx, s, e) == Replay(cx, s, ControlOrder(Opaque(cx), e), e)
    decreases SizeExpr(e), 0
  {
    var BlockExpr(lbl, stmts) := e;
    StmtsReplays(cx, s, stmts);
    var a := StmtsOrder(Opaque(cx), stmts);
    if a.Ok? {
      OptIdentReplays(cx, Fold(cx, s, a.value), lbl);
      FoldAppend(cx, s, a.value, OptIdentOrder(lbl));
    }
  }

  lemma {:induction false} BreakReplays<S(!new)>(cx: Context<S>, s: S, e: Expr)
    requires Passive(cx) && e.Break?
    ensures WalkControl(cx, s, e) == Replay(cx, s, ControlOrder(Opaque(cx), e), e)
    decreases SizeExpr(e), 0
  {
    var Break(lbl, value) := e;
    OptIdentReplays(cx, s, lbl);
    var a := OptIdentOrder(lbl);
    OptExprReplays(cx, Fold(cx, s, a), value);
    var b := OptExprOrder(Opaque(cx), value);
    if b.Ok? { FoldAppend(cx, s, a, b.value); }
  }

  lemma {:induction false} LetReplays<S(!new)>(cx: Context<S>, s: S, e: Expr)
    requires Passive(cx) && e.Let?
    ensures WalkControl(cx, s, e) == Replay(cx, s, ControlOrder(Opaque(cx), e), e)
    decreases SizeExpr(e), 0
  {
    var o := Opaque(cx);
    var Let(pat, scrutinee) := e;
    PatReplays(cx, s, pat);
    var a := PatOrder(o, pat);
    if a.Ok? {
      ExprReplays(cx, Fold(cx, s, a.value), scrutinee);
      var b := ExprOrder(o, scrutinee);
      if b.Ok? { FoldAppend(cx, s, a.value, b.value); }
    }
  }

  lemma {:induction false} LoopReplays<S(!new)>(cx: Context<S>, s: S, e: Expr)
    requires Passive(cx) && e.Loop?
    ensures WalkControl(cx, s, e) == Replay(cx, s, ControlOrder(Opaque(cx), e), e)
    decreases SizeExpr(e), 0
  {
    var Loop(lbl, body) := e;
    OptIdentReplays(cx, s, lbl);
    var a := OptIdentOrder(lbl);
    StmtsReplays(cx, Fold(cx, s, a), body);
    var b := StmtsOrder(Opaque(cx), body);
    if b.Ok? { FoldAppend(cx, s, a, b.value); }
  }

  lemma {:induction false} MatchReplays<S(!new)>(cx: Context<S>, s: S, e: Expr)
    requires Passive(cx) && e.Match?
    ensures WalkControl(cx, s, e) == Replay(cx, s, ControlOrder(Opaque(cx), e), e)
    decreases SizeExpr(e), 0
  {
    var o := Opaque(cx);
    var Match(scrutinee, arms) := e;
    ExprReplays(cx, s, scrutinee);
    var a := ExprOrder(o, scrutinee);
    if a.Ok? {
      ArmsReplays(cx, Fold(cx, s, a.value), arms);
      var b := ArmsOrder(o, arms);
      if b.Ok? { FoldAppend(cx, s, a.value, b.value); }
    }
  }

  lemma {:induction false} ClosureReplays<S(!new)>(cx: Context<S>, s: S, e: Expr)
    requires Passive(cx) && e.Closure?
    ensures WalkControl(cx, s, e) == Replay(cx, s, ControlOrder(Opaque(cx), e), e)
    decreases SizeExpr(e), 0
  {
    var o := Opaque(cx);
    var Closure(inputs, output, body) := e;
    ExprReplays(cx, s, body);
    var a := ExprOrder(o, body);
    if a.Ok? {
      var s1 := Fold(cx, s, a.value);
      PatsReplays(cx, s1, inputs);
      var b := PatsOrder(o, inputs);
      if b.Ok? {
        var s2 := Fold(cx, s1, b.value);
        OptTypeReplays(cx, s2, output);
        var c := OptTypeOrder(o, output);
        if c.Ok? { Fold3(cx, s, a.value, b.value, c.value); }
      }
    }
  }

  lemma {:induction false} ForLoopReplays<S(!new)>(cx: Context<S>, s: S, e: Expr)
    requires Passive(cx) && e.ForLoop?
    ensures WalkControl(cx, s, e) == Replay(cx, s, ControlOrder(Opaque(cx), e), e)
    decreases SizeExpr(e), 0
  {
    var o := Opaque(cx);
    var ForLoop(lbl, pat, iterated, body) := e;
    OptIdentReplays(cx, s, lbl);
    var a := OptIdentOrder(lbl);
    var s1 := Fold(cx, s, a);
    PatReplays(cx, s1, pat);
    var b := PatOrder(o, pat);
    if b.Ok? {
      var s2 := Fold(cx, s1, b.value);
      ExprReplays(cx, s2, iterated);
      var c := ExprOrder(o, iterated);
      if c.Ok? {
        var s3 := Fold(cx, s2, c.value);
        StmtsReplays(cx, s3, body);
        var d := StmtsOrder(o, body);
        if d.Ok? { Fold4(cx, s, a, b.value, c.value, d.value); }
      }
    }
  }

  lemma {:induction false} IfReplays<S(!new)>(cx: Context<S>, s: S, e: Expr)
    requires Passive(cx) && e.If?
    ensures WalkControl(cx, s, e) == Replay(cx, s, ControlOrder(Opaque(cx), e), e)
    decreases SizeExpr(e), 0
  {
    var o := Opaque(cx);
    var If(cond, thenBranch, elseBranch) := e;
    ExprReplays(cx, s, cond);
    var a := ExprOrder(o, cond);
    if a.Ok? {
      var s1 := Fold(cx, s, a.value);
      StmtsReplays(cx, s1, thenBranch);
      var b := StmtsOrder(o, thenBranch);
      if b.Ok? {
        var s2 := Fold(cx, s1, b.value);
        OptExprReplays(cx, s2, elseBranch);
        var c := OptExprOrder(o, elseBranch);
        if c.Ok? { Fold3(cx, s, a.value, b.value, c.value); }
      }
    }
  }

  lemma {:induction false} WhileReplays<S(!new)>(cx: Context<S>, s: S, e: Expr)
    requires Passive(cx) && e.While?
    ensures WalkControl(cx, s, e) == Replay(cx, s, ControlOrder(Opaque(cx), e), e)
    decreases SizeExpr(e), 0
  {
    var o := Opaque(cx);
    var While(lbl, cond, body) := e;
    OptIdentReplays(cx, s, lbl);
    var a := OptIdentOrder(lbl);
    var s1 := Fold(cx, s, a);
    ExprReplays(cx, s1, cond);
    var b := ExprOrder(o, cond);
    if b.Ok? {
      var s2 := Fold(cx, s1, b.value);
      StmtsReplays(cx, s2, body);
      var c := StmtsOrder(o, body);
      if c.Ok? { Fold3(cx, s, a, b.value, c.value); }
    }
  }

  lemma {:induction false} AccessReplays<S(!new)>(cx: Context<S>, s: S, e: Expr)
    requires Passive(cx) && !IsOperation(e) && !IsControl(e)
    ensures WalkAccess(cx, s, e) == Replay(cx, s, AccessOrder(Opaque(cx), e), e)
    decreases SizeExpr(e), 1
  {
    match e
    case FieldAccess(_, _) => FieldAccessReplays(cx, s, e);
    case MacroExpr(_, mac) => MacroReplays(cx, s, mac);
    case MethodCall(_, _, _, _) => MethodCallReplays(cx, s, e);
    case PathExpr(_, _) => PathExprReplays(cx, s, e);
    case StructLit(_, _, _, _) => StructLitReplays(cx, s, e);
    case Leaf(_) =>
  }

  lemma {:induction false} FieldAccessReplays<S(!new)>(cx: Context<S>, s: S, e: Expr)
    requires Passive(cx) && e.FieldAccess?
    ensures WalkAccess(cx, s, e) == Replay(cx, s, AccessOrder(Opaque(cx), e), e)
    decreases SizeExpr(e), 0
  {
    var FieldAccess(base, member) := e;
    ExprReplays(cx, s, base);
    var a := ExprOrder(Opaque(cx), base);
    if a.Ok? {
      MemberReplays(cx, Fold(cx, s, a.value), member);
      FoldAppend(cx, s, a.value, MemberOrder(member));
    }
  }

  lemma {:induction false} MethodCallReplays<S(!new)>(cx: Context<S>, s: S, e: Expr)
    requires Passive(cx) && e.MethodCall?
    ensures WalkAccess(cx, s, e) == Replay(cx, s, AccessOrder(Opaque(cx), e), e)
    decreases SizeExpr(e), 0
  {
    var o := Opaque(cx);
    var MethodCall(receiver, methodName, _, args) := e;
    IdentReplays(cx, s, methodName);
    var a := [IdentVisit(methodName)];
    var s1 := Fold(cx, s, a);
    ExprReplays(cx, s1, receiver);
    var b := ExprOrder(o, receiver);
    if b.Ok? {
      var s2 := Fold(cx, s1, b.value);
      ExprsReplays(cx, s2, args);
      var c := ExprsOrder(o, args);
      if c.Ok? { Fold3(cx, s, a, b.value, c.value); }
    }
  }

  lemma {:induction false} PathExprReplays<S(!new)>(cx: Context<S>, s: S, e: Expr)
    requires Passive(cx) && e.PathExpr?
    ensures WalkAccess(cx, s, e) == Replay(cx, s, AccessOrder(Opaque(cx), e), e)
    decreases SizeExpr(e), 0
  {
    var o := Opaque(cx);
    var PathExpr(qself, path) := e;
    OptTypeReplays(cx, s, qself);
    var a := OptTypeOrder(o, qself);
    if a.Ok? {
      PathReplays(cx, Fold(cx, s, a.value), path);
      var b := PathOrder(o, path);
      if b.Ok? { FoldAppend(cx, s, a.value, b.value); }
    }
  }

  lemma {:induction false} StructLitReplays<S(!new)>(cx: Context<S>, s: S, e: Expr)
    requires Passive(cx) && e.StructLit?
    ensures WalkAccess(cx, s, e) == Replay(cx, s, AccessOrder(Opaque(cx), e), e)
    decreases SizeExpr(e), 0
  {
    var o := Opaque(cx);
    var StructLit(qself, path, fields, rest) := e;
    OptTypeReplays(cx, s, qself);
    var a := OptTypeOrder(o, qself);
    if a.Ok? {
      var s1 := Fold(cx, s, a.value);
      PathReplays(cx, s1, path);
      var b := PathOrder(o, path);
      if b.Ok? {
        var s2 := Fold(cx, s1, b.value);
        FieldValuesReplays(cx, s2, fields);
        var c := FieldValuesOrder(o, fields);
        if c.Ok? {
          var s3 := Fold(cx, s2, c.value);
          OptExprReplays(cx, s3, rest);
          var d := OptExprOrder(o, rest);
          if d.Ok? { Fold4(cx, s, a.value, b.value, c.value, d.value); }
        }
      }
    }
  }

  lemma {:induction false} ExprsReplays<S(!new)>(cx: Context<S>, s: S, es: seq<Expr>)
    requires Passive(cx)
    ensures WalkExprs(cx, s, es) == Replay(cx, s, ExprsOrder(Opaque(cx), es), es)
    decreases SizeExprs(es), 0
  {
    if |es| > 0 {
      ExprReplays(cx, s, es[0]);
      var a := ExprOrder(Opaque(cx), es[0]);
      if a.Ok? {
        ExprsReplays(cx, Fold(cx, s, a.value), es[1..]);
        var b := ExprsOrder(Opaque(cx), es[1..]);
        if b.Ok? {
          FoldAppend(cx, s, a.value, b.value);
          Uncons(es);
        }
      }
    }
  }

  lemma {:induction false} OptExprReplays<S(!new)>(cx: Context<S>, s: S, opt: Option<Expr>)
    requires Passive(cx)
    ensures WalkOptExpr(cx, s, opt) == Replay(cx, s, OptExprOrder(Opaque(cx), opt), opt)
    decreases SizeOptExpr(opt), 0
  {
    if opt.Some? {
      ExprReplays(cx, s, opt.value);
    }
  }

  lemma {:induction false} ArmsReplays<S(!new)>(cx: Context<S>, s: S, arms: seq<Arm>)
    requires Passive(cx)
    ensures WalkArms(cx, s, arms) == Replay(cx, s, ArmsOrder(Opaque(cx), arms), arms)
    decreases SizeArms(arms), 0
  {
    var o := Opaque(cx);
    if |arms| > 0 {
      var arm := arms[0];
      assert SizeArm(arm) < SizeArms(arms);
      PatReplays(cx, s, arm.pat);
      var a := PatOrder(o, arm.pat);
      if a.Ok? {
        var s1 := Fold(cx, s, a.value);
        ExprReplays(cx, s1, arm.body);
        var b := ExprOrder(o, arm.body);
        if b.Ok? {
          var s2 := Fold(cx, s1, b.value);
          OptExprReplays(cx, s2, arm.guard);
          var c := OptExprOrder(o, arm.guard);
          if c.Ok? {
            var s3 := Fold(cx, s2, c.value);
            ArmsReplays(cx, s3, arms[1..]);
            var d := ArmsOrder(o, arms[1..]);
            if d.Ok? {
              Fold4(cx, s, a.value, b.value, c.value, d.value);
              Uncons(arms);
            }
          }
        }
      }
    }
  }

  lemma {:induction false} FieldValuesReplays<S(!new)>(cx: Context<S>, s: S, fields: seq<FieldValue>)
    requires Passive(cx)
    ensures WalkFieldValues(cx, s, fields) == Replay(cx, s, FieldValuesOrder(Opaque(cx), fields), fields)
    decreases SizeFieldValues(fields), 0
  {
    if |fields| > 0 {
      assert SizeFieldValue(fields[0]) < SizeFieldValues(fields);
      ExprReplays(cx, s, fields[0].value);
      var a := ExprOrder(Opaque(cx), fields[0].value);
      if a.Ok? {
        FieldValuesReplays(cx, Fold(cx, s, a.value), fields[1..]);
        var b := FieldValuesOrder(Opaque(cx), fields[1..]);
        if b.Ok? {
          FoldAppend(cx, s, a.value, b.value);
          Uncons(fields);
        }
      }
    }
  }

  lemma {:induction false} MacroReplays<S(!new)>(cx: Context<S>, s: S, mac: Macro)
    requires Passive(cx)
    ensures WalkMacro(cx, s, mac) == Replay(cx, s, MacroOrder(Opaque(cx), mac), mac)
    decreases SizeMacro(mac), 0
  {
    PathReplays(cx, s, mac.path);
    var a := PathOrder(Opaque(cx), mac.path);
    if a.Ok? {
      ExprsReplays(cx, Fold(cx, s, a.value), mac.args);
      var b := ExprsOrder(Opaque(cx), mac.args);
      if b.Ok? { FoldAppend(cx, s, a.value, b.value); }
    }
  }

  // ---------------------------------------------------------------------
  // Statements

  lemma {:induction false} StmtReplays<S(!new)>(cx: Context<S>, s: S, st: Stmt)
    requires Passive(cx)
    ensures WalkStmt(cx, s, st) == Replay(cx, s, StmtOrder(Opaque(cx), st), st)
    decreases SizeStmt(st), 1
  {
    var s1 := Apply(cx, s, StmtVisit(st));
    StmtChildrenReplays(cx, s1, st);
    var c := StmtChildrenOrder(Opaque(cx), st);
    if c.Ok? {
      FoldOne(cx, s, StmtVisit(st), c.value);
    }
  }

  lemma {:induction false} StmtChildrenReplays<S(!new)>(cx: Context<S>, s: S, st: Stmt)
    requires Passive(cx)
    ensures WalkStmtChildren(cx, s, st) == Replay(cx, s, StmtChildrenOrder(Opaque(cx), st), st)
    decreases SizeStmt(st), 0
  {
    var o := Opaque(cx);
    match st
    case Local(pat, init) =>
      PatReplays(cx, s, pat);
      var a := PatOrder(o, pat);
      if a.Ok? && init.Some? {
        var s1 := Fold(cx, s, a.value);
        ExprReplays(cx, s1, init.value.expr);
        var b := ExprOrder(o, init.value.expr);
        if b.Ok? {
          var s2 := Fold(cx, s1, b.value);
          OptExprReplays(cx, s2, init.value.diverge);
          var c := OptExprOrder(o, init.value.diverge);
          if c.Ok? { Fold3(cx, s, a.value, b.value, c.value); }
        }
      }
    case ItemStmt(_) =>
    case ExprStmt(expr, _) => ExprReplays(cx, s, expr);
    case MacroStmt(_, mac, _) => MacroReplays(cx, s, mac);
  }

  lemma {:induction false} StmtsReplays<S(!new)>(cx: Context<S>, s: S, ss: seq<Stmt>)
    requires Passive(cx)
    ensures WalkStmts(cx, s, ss) == Replay(cx, s, StmtsOrder(Opaque(cx), ss), ss)
    decreases SizeStmts(ss), 0
  {
    if |ss| > 0 {
      StmtReplays(cx, s, ss[0]);
      var a := StmtOrder(Opaque(cx), ss[0]);
      if a.Ok? {
        StmtsReplays(cx, Fold(cx, s, a.value), ss[1..]);
        var b := StmtsOrder(Opaque(cx), ss[1..]);
        if b.Ok? {
          FoldAppend(cx, s, a.value, b.value);
          Uncons(ss);
        }
      }
    }
  }

  // ---------------------------------------------------------------------
  // Patterns

  lemma {:induction false} PatReplays<S(!new)>(cx: Context<S>, s: S, p: Pat)
    requires Passive(cx)
    ensures WalkPat(cx, s, p) == Replay(cx, s, PatOrder(Opaque(cx), p), p)
    decreases SizePat(p), 2
  {
    if p.OrPat? || p.ParenPat? || p.ReferencePat? || p.SlicePat? || p.TuplePat? {
      NestedPatReplays(cx, s, p);
    } else if p.PathPat? || p.RangePat? || p.StructPat? || p.TupleStructPat? || p.TypedPat? {
      CompoundPatReplays(cx, s, p);
    } else {
      LeafPatReplays(cx, s, p);
    }
  }

  /** Patterns made only of other patterns. */
  lemma {:induction false} NestedPatReplays<S(!new)>(cx: Context<S>, s: S, p: Pat)
    requires Passive(cx) && (p.OrPat? || p.ParenPat? || p.ReferencePat? || p.SlicePat? || p.TuplePat?)
    ensures WalkPat(cx, s, p) == Replay(cx, s, PatOrder(Opaque(cx), p), p)
    decreases SizePat(p), 1
  {
    if p.OrPat? {
      PatsReplays(cx, s, p.cases);
    } else if p.ParenPat? || p.ReferencePat? {
      PatReplays(cx, s, p.pat);
    } else {
      PatsReplays(cx, s, p.elems);
    }
  }

  /** Patterns with a qualified path, a range or a type. */
  lemma {:induction false} CompoundPatReplays<S(!new)>(cx: Context<S>, s: S, p: Pat)
    requires Passive(cx) && (p.PathPat? || p.RangePat? || p.StructPat? || p.TupleStructPat? || p.TypedPat?)
    ensures WalkPat(cx, s, p) == Replay(cx, s, PatOrder(Opaque(cx), p), p)
    decreases SizePat(p), 1
  {
    if p.PathPat? {
      PathPatReplays(cx, s, p);
    } else if p.RangePat? {
      RangePatReplays(cx, s, p);
    } else if p.StructPat? {
      StructPatReplays(cx, s, p);
    } else if p.TupleStructPat? {
      TupleStructPatReplays(cx, s, p);
    } else {
      TypedPatReplays(cx, s, p);
    }
  }

  /** Patterns with no nested pattern. */
  lemma {:induction false} LeafPatReplays<S(!new)>(cx: Context<S>, s: S, p: Pat)
    requires Passive(cx) && (p.ConstPat? || p.IdentPat? || p.MacroPat? || p.OtherPat?)
    ensures WalkPat(cx, s, p) == Replay(cx, s, PatOrder(Opaque(cx), p), p)
    decreases SizePat(p), 1
  {
    if p.ConstPat? {
      StmtsReplays(cx, s, p.stmts);
    } else if p.IdentPat? {
      IdentReplays(cx, s, p.name);
    } else if p.MacroPat? {
      MacroReplays(cx, s, p.mac);
    }
  }

  lemma {:induction false} PathPatReplays<S(!new)>(cx: Context<S>, s: S, p: Pat)
    requires Passive(cx) && p.PathPat?
    ensures WalkPat(cx, s, p) == Replay(cx, s, PatOrder(Opaque(cx), p), p)
    decreases SizePat(p), 0
  {
    var o := Opaque(cx);
    var PathPat(qself, path) := p;
    OptTypeReplays(cx, s, qself);
    var a := OptTypeOrder(o, qself);
    if a.Ok? {
      PathReplays(cx, Fold(cx, s, a.value), path);
      var b := PathOrder(o, path);
      if b.Ok? { FoldAppend(cx, s, a.value, b.value); }
    }
  }

  lemma {:induction false} RangePatReplays<S(!new)>(cx: Context<S>, s: S, p: Pat)
    requires Passive(cx) && p.RangePat?
    ensures WalkPat(cx, s, p) == Replay(cx, s, PatOrder(Opaque(cx), p), p)
    decreases SizePat(p), 0
  {
    var o := Opaque(cx);
    var RangePat(start, end) := p;
    OptExprReplays(cx, s, start);
    var a := OptExprOrder(o, start);
    if a.Ok? {
      OptExprReplays(cx, Fold(cx, s, a.value), end);
      var b := OptExprOrder(o, end);
      if b.Ok? { FoldAppend(cx, s, a.value, b.value); }
    }
  }

  lemma {:induction false} StructPatReplays<S(!new)>(cx: Context<S>, s: S, p: Pat)
    requires Passive(cx) && p.StructPat?
    ensures WalkPat(cx, s, p) == Replay(cx, s, PatOrder(Opaque(cx), p), p)
    decreases SizePat(p), 0
  {
    var o := Opaque(cx);
    var StructPat(qself, path, fields) := p;
    OptTypeReplays(cx, s, qself);
    var a := OptTypeOrder(o, qself);
    if a.Ok? {
      var s1 := Fold(cx, s, a.value);
      PathReplays(cx, s1, path);
      var b := PathOrder(o, path);
      if b.Ok? {
        var s2 := Fold(cx, s1, b.value);
        FieldPatsReplays(cx, s2, fields);
        var c := FieldPatsOrder(o, fields);
        if c.Ok? { Fold3(cx, s, a.value, b.value, c.value); }
      }
    }
  }

  lemma {:induction false} TupleStructPatReplays<S(!new)>(cx: Context<S>, s: S, p: Pat)
    requires Passive(cx) && p.TupleStructPat?
    ensures WalkPat(cx, s, p) == Replay(cx, s, PatOrder(Opaque(cx), p), p)
    decreases SizePat(p), 0
  {
    var o := Opaque(cx);
    var TupleStructPat(qself, path, elems) := p;
    OptTypeReplays(cx, s, qself);
    var a := OptTypeOrder(o, qself);
    if a.Ok? {
      var s1 := Fold(cx, s, a.value);
      PatsReplays(cx, s1, elems);
      var b := PatsOrder(o, elems);
      if b.Ok? {
        var s2 := Fold(cx, s1, b.value);
        PathReplays(cx, s2, path);
        var c := PathOrder(o, path);
        if c.Ok? { Fold3(cx, s, a.value, b.value, c.value); }
      }
    }
  }

  lemma {:induction false} TypedPatReplays<S(!new)>(cx: Context<S>, s: S, p: Pat)
    requires Passive(cx) && p.TypedPat?
    ensures WalkPat(cx, s, p) == Replay(cx, s, PatOrder(Opaque(cx), p), p)
    decreases SizePat(p), 0
  {
    var o := Opaque(cx);
    var TypedPat(inner, ty) := p;
    PatReplays(cx, s, inner);
    var a := PatOrder(o, inner);
    if a.Ok? {
      TypeReplays(cx, Fold(cx, s, a.value), ty);
      var b := TypeOrder(o, ty);
      if b.Ok? { FoldAppend(cx, s, a.value, b.value); }
    }
  }

  lemma {:induction false} PatsReplays<S(!new)>(cx: Context<S>, s: S, ps: seq<Pat>)
    requires Passive(cx)
    ensures WalkPats(cx, s, ps) == Replay(cx, s, PatsOrder(Opaque(cx), ps), ps)
    decreases SizePats(ps), 0
  {
    if |ps| > 0 {
      PatReplays(cx, s, ps[0]);
      var a := PatOrder(Opaque(cx), ps[0]);
      if a.Ok? {
        PatsReplays(cx, Fold(cx, s, a.value), ps[1..]);
        var b := PatsOrder(Opaque(cx), ps[1..]);
        if b.Ok? {
          FoldAppend(cx, s, a.value, b.value);
          Uncons(ps);
        }
      }
    }
  }

  lemma {:induction false} FieldPatsReplays<S(!new)>(cx: Context<S>, s: S, fields: seq<FieldPat>)
    requires Passive(cx)
    ensures WalkFieldPats(cx, s, fields) == Replay(cx, s, FieldPatsOrder(Opaque(cx), fields), fields)
    decreases SizeFieldPats(fields), 0
  {
    if |fields| > 0 {
      assert SizeFieldPat(fields[0]) < SizeFieldPats(fields);
      PatReplays(cx, s, fields[0].pat);
      var a := PatOrder(Opaque(cx), fields[0].pat);
      if a.Ok? {
        var s1 := Fold(cx, s, a.value);
        MemberReplays(cx, s1, fields[0].member);
        var b := MemberOrder(fields[0].member);
        var s2 := Fold(cx, s1, b);
        FieldPatsReplays(cx, s2, fields[1..]);
        var c := FieldPatsOrder(Opaque(cx), fields[1..]);
        if c.Ok? {
          Fold3(cx, s, a.value, b, c.value);
          Uncons(fields);
        }
      }
    }
  }

  // ---------------------------------------------------------------------
  // Types

  lemma {:induction false} TypeReplays<S(!new)>(cx: Context<S>, s: S, t: Type)
    requires Passive(cx)
    ensures WalkType(cx, s, t) == Replay(cx, s, TypeOrder(Opaque(cx), t), t)
    decreases SizeType(t), 3
  {
    var s1 := Apply(cx, s, TypeVisit(t));
    TypeChildrenReplays(cx, s1, t);
    var c := TypeChildrenOrder(Opaque(cx), t);
    if c.Ok? {
      FoldOne(cx, s, TypeVisit(t), c.value);
    }
  }

  lemma {:induction false} TypeChildrenReplays<S(!new)>(cx: Context<S>, s: S, t: Type)
    requires Passive(cx)
    ensures WalkTypeChildren(cx, s, t) == Replay(cx, s, TypeChildrenOrder(Opaque(cx), t), t)
    decreases SizeType(t), 2
  {
    if t.ArrayType? || t.BareFn? || t.PathType? || t.ReferenceType? {
      CompoundTypeReplays(cx, s, t);
    } else if t.WrappedType? {
      TypeReplays(cx, s, t.elem);
    } else if t.BoundedType? {
      BoundsReplays(cx, s, t.bounds);
    } else if t.MacroType? {
      MacroReplays(cx, s, t.mac);
    } else if t.TupleType? {
      TypesReplays(cx, s, t.elems);
    }
  }

  /** Types with more than one kind of child. */
  lemma {:induction false} CompoundTypeReplays<S(!new)>(cx: Context<S>, s: S, t: Type)
    requires Passive(cx) && (t.ArrayType? || t.BareFn? || t.PathType? || t.ReferenceType?)
    ensures WalkTypeChildren(cx, s, t) == Replay(cx, s, TypeChildrenOrder(Opaque(cx), t), t)
    decreases SizeType(t), 1
  {
    if t.ArrayType? {
      ArrayTypeReplays(cx, s, t);
    } else if t.BareFn? {
      BareFnReplays(cx, s, t);
    } else if t.PathType? {
      PathTypeReplays(cx, s, t);
    } else {
      ReferenceTypeReplays(cx, s, t);
    }
  }

  lemma {:induction false} ArrayTypeReplays<S(!new)>(cx: Context<S>, s: S, t: Type)
    requires Passive(cx) && t.ArrayType?
    ensures WalkTypeChildren(cx, s, t) == Replay(cx, s, TypeChildrenOrder(Opaque(cx), t), t)
    decreases SizeType(t), 0
  {
    var o := Opaque(cx);
    var ArrayType(elem, len) := t;
    TypeReplays(cx, s, elem);
    var a := TypeOrder(o, elem);
    if a.Ok? {
      ExprReplays(cx, Fold(cx, s, a.value), len);
      var b := ExprOrder(o, len);
      if b.Ok? { FoldAppend(cx, s, a.value, b.value); }
    }
  }

  lemma {:induction false} BareFnReplays<S(!new)>(cx: Context<S>, s: S, t: Type)
    requires Passive(cx) && t.BareFn?
    ensures WalkTypeChildren(cx, s, t) == Replay(cx, s, TypeChildrenOrder(Opaque(cx), t), t)
    decreases SizeType(t), 0
  {
    var o := Opaque(cx);
    var BareFn(lifetimes, inputs, variadic, output) := t;
    BoundLifetimesReplays(cx, s, lifetimes);
    var a := BoundLifetimesOrder(o, lifetimes);
    if a.Ok? {
      var s1 := Fold(cx, s, a.value);
      BareVariadicReplays(cx, s1, variadic);
      var b := BareVariadicOrder(variadic);
      var s2 := Fold(cx, s1, b);
      BareFnArgsReplays(cx, s2, inputs);
      var c := BareFnArgsOrder(o, inputs);
      if c.Ok? {
        var s3 := Fold(cx, s2, c.value);
        OptTypeReplays(cx, s3, output);
        var d := OptTypeOrder(o, output);
        if d.Ok? { Fold4(cx, s, a.value, b, c.value, d.value); }
      }
    }
  }

  lemma {:induction false} PathTypeReplays<S(!new)>(cx: Context<S>, s: S, t: Type)
    requires Passive(cx) && t.PathType?
    ensures WalkTypeChildren(cx, s, t) == Replay(cx, s, TypeChildrenOrder(Opaque(cx), t), t)
    decreases SizeType(t), 0
  {
    var o := Opaque(cx);
    var PathType(qself, path) := t;
    OptTypeReplays(cx, s, qself);
    var a := OptTypeOrder(o, qself);
    if a.Ok? {
      PathReplays(cx, Fold(cx, s, a.value), path);
      var b := PathOrder(o, path);
      if b.Ok? { FoldAppend(cx, s, a.value, b.value); }
    }
  }

  lemma {:induction false} ReferenceTypeReplays<S(!new)>(cx: Context<S>, s: S, t: Type)
    requires Passive(cx) && t.ReferenceType?
    ensures WalkTypeChildren(cx, s, t) == Replay(cx, s, TypeChildrenOrder(Opaque(cx), t), t)
    decreases SizeType(t), 0
  {
    var ReferenceType(lifetime, elem) := t;
    TypeReplays(cx, s, elem);
    var a := TypeOrder(Opaque(cx), elem);
    if a.Ok? {
      OptIdentReplays(cx, Fold(cx, s, a.value), lifetime);
      FoldAppend(cx, s, a.value, OptIdentOrder(lifetime));
    }
  }

  lemma {:induction false} BareFnArgsReplays<S(!new)>(cx: Context<S>, s: S, inputs: seq<BareFnArg>)
    requires Passive(cx)
    ensures WalkBareFnArgs(cx, s, inputs) == Replay(cx, s, BareFnArgsOrder(Opaque(cx), inputs), inputs)
    decreases SizeBareFnArgs(inputs), 0
  {
    if |inputs| > 0 {
      assert SizeBareFnArg(inputs[0]) < SizeBareFnArgs(inputs);
      OptIdentReplays(cx, s, inputs[0].name);
      var a := OptIdentOrder(inputs[0].name);
      var s1 := Fold(cx, s, a);
      TypeReplays(cx, s1, inputs[0].ty);
      var b := TypeOrder(Opaque(cx), inputs[0].ty);
      if b.Ok? {
        var s2 := Fold(cx, s1, b.value);
        BareFnArgsReplays(cx, s2, inputs[1..]);
        var c := BareFnArgsOrder(Opaque(cx), inputs[1..]);
        if c.Ok? {
          Fold3(cx, s, a, b.value, c.value);
          Uncons(inputs);
        }
      }
    }
  }

  lemma {:induction false} TypesReplays<S(!new)>(cx: Context<S>, s: S, ts: seq<Type>)
    requires Passive(cx)
    ensures WalkTypes(cx, s, ts) == Replay(cx, s, TypesOrder(Opaque(cx), ts), ts)
    decreases SizeTypes(ts), 0
  {
    if |ts| > 0 {
      TypeReplays(cx, s, ts[0]);
      var a := TypeOrder(Opaque(cx), ts[0]);
      if a.Ok? {
        TypesReplays(cx, Fold(cx, s, a.value), ts[1..]);
        var b := TypesOrder(Opaque(cx), ts[1..]);
        if b.Ok? {
          FoldAppend(cx, s, a.value, b.value);
          Uncons(ts);
        }
      }
    }
  }

  lemma {:induction false} OptTypeReplays<S(!new)>(cx: Context<S>, s: S, opt: Option<Type>)
    requires Passive(cx)
    ensures WalkOptType(cx, s, opt) == Replay(cx, s, OptTypeOrder(Opaque(cx), opt), opt)
    decreases SizeOptType(opt), 0
  {
    if opt.Some? {
      TypeReplays(cx, s, opt.value);
    }
  }

  // ---------------------------------------------------------------------
  // Bounds and generic parameters

  lemma {:induction false} BoundReplays<S(!new)>(cx: Context<S>, s: S, b: TypeParamBound)
    requires Passive(cx)
    ensures WalkBound(cx, s, b) == Replay(cx, s, BoundOrder(Opaque(cx), b), b)
    decreases SizeBound(b), 0
  {
    match b
    case TraitBound(lifetimes, path) =>
      BoundLifetimesReplays(cx, s, lifetimes);
      var a := BoundLifetimesOrder(Opaque(cx), lifetimes);
      if a.Ok? {
        PathReplays(cx, Fold(cx, s, a.value), path);
        var c := PathOrder(Opaque(cx), path);
        if c.Ok? { FoldAppend(cx, s, a.value, c.value); }
      }
    case LifetimeBound(name) => IdentReplays(cx, s, name);
    case PreciseCapture(params) => CapturedReplays(cx, s, params);
    case VerbatimBound(_) =>
  }

  lemma {:induction false} BoundsReplays<S(!new)>(cx: Context<S>, s: S, bounds: seq<TypeParamBound>)
    requires Passive(cx)
    ensures WalkBounds(cx, s, bounds) == Replay(cx, s, BoundsOrder(Opaque(cx), bounds), bounds)
    decreases SizeBounds(bounds), 0
  {
    if |bounds| > 0 {
      BoundReplays(cx, s, bounds[0]);
      var a := BoundOrder(Opaque(cx), bounds[0]);
      if a.Ok? {
        BoundsReplays(cx, Fold(cx, s, a.value), bounds[1..]);
        var b := BoundsOrder(Opaque(cx), bounds[1..]);
        if b.Ok? {
          FoldAppend(cx, s, a.value, b.value);
          Uncons(bounds);
        }
      }
    }
  }

  lemma {:induction false} ParamReplays<S(!new)>(cx: Context<S>, s: S, p: GenericParam)
    requires Passive(cx)
    ensures WalkParam(cx, s, p) == Replay(cx, s, ParamOrder(Opaque(cx), p), p)
    decreases SizeParam(p), 0
  {
    match p
    case LifetimeParam(name, bounds) =>
      IdentsReplays(cx, s, bounds);
      IdentReplays(cx, Fold(cx, s, IdentsOrder(bounds)), name);
      FoldAppend(cx, s, IdentsOrder(bounds), [IdentVisit(name)]);
    case TypeParam(name, bounds, defaultType) =>
      OptTypeReplays(cx, s, defaultType);
      var a := OptTypeOrder(Opaque(cx), defaultType);
      if a.Ok? {
        var s1 := Fold(cx, s, a.value);
        IdentReplays(cx, s1, name);
        var s2 := Fold(cx, s1, [IdentVisit(name)]);
        BoundsReplays(cx, s2, bounds);
        var c := BoundsOrder(Opaque(cx), bounds);
        if c.Ok? { Fold3(cx, s, a.value, [IdentVisit(name)], c.value); }
      }
    case ConstParam(_, ty, _) => TypeReplays(cx, s, ty);
  }

  lemma {:induction false} ParamsReplays<S(!new)>(cx: Context<S>, s: S, ps: seq<GenericParam>)
    requires Passive(cx)
    ensures WalkParams(cx, s, ps) == Replay(cx, s, ParamsOrder(Opaque(cx), ps), ps)
    decreases SizeParams(ps), 0
  {
    if |ps| > 0 {
      ParamReplays(cx, s, ps[0]);
      var a := ParamOrder(Opaque(cx), ps[0]);
      if a.Ok? {
        ParamsReplays(cx, Fold(cx, s, a.value), ps[1..]);
        var b := ParamsOrder(Opaque(cx), ps[1..]);
        if b.Ok? {
          FoldAppend(cx, s, a.value, b.value);
          Uncons(ps);
        }
      }
    }
  }

  lemma {:induction false} BoundLifetimesReplays<S(!new)>(cx: Context<S>, s: S, opt: Option<BoundLifetimes>)
    requires Passive(cx)
    ensures WalkBoundLifetimes(cx, s, opt) == Replay(cx, s, BoundLifetimesOrder(Opaque(cx), opt), opt)
    decreases SizeOptParams(opt), 0
  {
    if opt.Some? {
      assert SizeBoundLifetimes(opt.value) < SizeOptParams(opt);
      ParamsReplays(cx, s, opt.value.lifetimes);
    }
  }

  // ---------------------------------------------------------------------
  // Paths

  lemma {:induction false} PathReplays<S(!new)>(cx: Context<S>, s: S, p: SynPath)
    requires Passive(cx)
    ensures WalkPath(cx, s, p) == Replay(cx, s, PathOrder(Opaque(cx), p), p)
    decreases SizePath(p), 2
  {
    if cx.pathPredicate.Some? {
      PredictedPathReplays(cx, s, p);
    } else {
      SegmentsReplays(cx, s, p.segments);
    }
  }

  /** With a path predicate the path is one visit. */
  lemma PredictedPathReplays<S(!new)>(cx: Context<S>, s: S, p: SynPath)
    requires Passive(cx) && cx.pathPredicate.Some?
    ensures WalkPath(cx, s, p) == Replay(cx, s, PathOrder(Opaque(cx), p), p)
  {
    var st := cx.pathPredicate.value.f(s, p);
    assert PredictPath(cx, s, p) == Ok(st);
    assert st.node == p;
    FoldOne(cx, s, PathVisit(p), []);
    assert Fold(cx, s, [PathVisit(p)]) == st.state;
  }

  lemma {:induction false} SegmentsReplays<S(!new)>(cx: Context<S>, s: S, segments: seq<Segment>)
    requires Passive(cx)
    ensures WalkSegments(cx, s, segments) == Replay(cx, s, SegmentsOrder(Opaque(cx), segments), segments)
    decreases SizeSegments(segments), 0
  {
    if |segments| > 0 {
      PathArgsReplays(cx, s, segments[0].args);
      var a := PathArgsOrder(Opaque(cx), segments[0].args);
      if a.Ok? {
        SegmentsReplays(cx, Fold(cx, s, a.value), segments[1..]);
        var b := SegmentsOrder(Opaque(cx), segments[1..]);
        if b.Ok? {
          FoldAppend(cx, s, a.value, b.value);
          Uncons(segments);
        }
      }
    }
  }

  lemma {:induction false} PathArgsReplays<S(!new)>(cx: Context<S>, s: S, args: PathArgs)
    requires Passive(cx)
    ensures WalkPathArgs(cx, s, args) == Replay(cx, s, PathArgsOrder(Opaque(cx), args), args)
    decreases SizePathArgs(args), 0
  {
    match args
    case NoArgs =>
    case Angle(list) => AngleArgsReplays(cx, s, list);
    case Parenthesized(inputs, output) =>
      OptTypeReplays(cx, s, output);
      var a := OptTypeOrder(Opaque(cx), output);
      if a.Ok? {
        TypesReplays(cx, Fold(cx, s, a.value), inputs);
        var b := TypesOrder(Opaque(cx), inputs);
        if b.Ok? { FoldAppend(cx, s, a.value, b.value); }
      }
  }

  lemma {:induction false} AngleArgsReplays<S(!new)>(cx: Context<S>, s: S, args: seq<GenericArgument>)
    requires Passive(cx)
    ensures WalkAngleArgs(cx, s, args) == Replay(cx, s, AngleArgsOrder(Opaque(cx), args), args)
    decreases SizeGenericArgs(args), 0
  {
    if |args| > 0 {
      assert SizeGenericArg(args[0]) < SizeGenericArgs(args);
      var a: Result<seq<Visit>> := Ok([]);
      if args[0].TypeArg? {
        TypeReplays(cx, s, args[0].ty);
        a := TypeOrder(Opaque(cx), args[0].ty);
      }
      if a.Ok? {
        AngleArgsReplays(cx, Fold(cx, s, a.value), args[1..]);
        var b := AngleArgsOrder(Opaque(cx), args[1..]);
        if b.Ok? {
          FoldAppend(cx, s, a.value, b.value);
          Uncons(args);
        }
      }
    }
  }

  // ---------------------------------------------------------------------
  // Consequences

  /** The context with every slot empty. */
  function EmptyContext<S(!new)>(): (cx: Context<S>)
    ensures Passive(cx) && Shrinking(cx)
  {
    Context(None, None, None, None, None)
  }

  lemma {:induction false} FoldEmpty<S(!new)>(s: S, vs: seq<Visit>)
    ensures Fold(EmptyContext(), s, vs) == s
    decreases |vs|
  {
    if |vs| > 0 {
      FoldEmpty(s, vs[1..]);
    }
  }

  /** An empty context walks an expression without changing it or the state;
      it aborts exactly where an item statement is reached. */
  lemma EmptyContextKeepsExpr<S(!new)>(s: S, e: Expr)
    ensures var order := ExprOrder(false, e);
      WalkExpr(EmptyContext(), s, e) == (if order.Ok? then Ok(Walked(s, e)) else Abort(order.reason))
  {
    ExprReplays(EmptyContext<S>(), s, e);
    var order := ExprOrder(false, e);
    if order.Ok? {
      FoldEmpty(s, order.value);
    }
  }

  /** The same for types. */
  lemma EmptyContextKeepsType<S(!new)>(s: S, t: Type)
    ensures var order := TypeOrder(false, t);
      WalkType(EmptyContext(), s, t) == (if order.Ok? then Ok(Walked(s, t)) else Abort(order.reason))
  {
    TypeReplays(EmptyContext<S>(), s, t);
    var order := TypeOrder(false, t);
    if order.Ok? {
      FoldEmpty(s, order.value);
    }
  }
}
