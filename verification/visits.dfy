/** The order in which the walkers consult the context, written once as a
    plain list of visits per node. A predicate that never handles and never
    rewrites (`Passive`) turns a walk into a left fold of its state over that
    list, and leaves the node as it was. */
module Visits {
  import opened Base
  import opened Syntax
  import opened Walkers

  /** One call of a predicate, with the node it was given. */
  datatype Visit =
    | TypeVisit(t: Type)
    | ExprVisit(e: Expr)
    | StmtVisit(st: Stmt)
    | PathVisit(p: SynPath)
    | IdentVisit(id: Ident)

  /** The state after one visit. */
  function Apply<S(!new)>(cx: Context<S>, s: S, v: Visit): S {
    match v
    case TypeVisit(t) => PredictType(cx, s, t).state
    case ExprVisit(e) => PredictExpr(cx, s, e).state
    case StmtVisit(st) => PredictStmt(cx, s, st).state
    case PathVisit(p) =>
      if cx.pathPredicate.Some? && cx.pathPredicate.value.Custom? then cx.pathPredicate.value.f(s, p).state else s
    case IdentVisit(id) => PredictIdent(cx, s, id).state
  }

  /** The state after a list of visits, first to last. */
  function Fold<S(!new)>(cx: Context<S>, s: S, vs: seq<Visit>): S
    decreases |vs|
  {
    if |vs| == 0 then s else Fold(cx, Apply(cx, s, vs[0]), vs[1..])
  }

  lemma {:induction false} FoldAppend<S(!new)>(cx: Context<S>, s: S, a: seq<Visit>, b: seq<Visit>)
    ensures Fold(cx, s, a + b) == Fold(cx, Fold(cx, s, a), b)
    decreases |a|
  {
    if |a| > 0 {
      assert (a + b)[1..] == a[1..] + b;
      FoldAppend(cx, Apply(cx, s, a[0]), a[1..], b);
    } else {
      assert a + b == b;
    }
  }

  /** Predicates that never handle a node and give every node back as they
      got it; they may still change their state. The path slot, if set, is a
      caller's predicate of that kind. */
  ghost predicate Passive<S(!new)>(cx: Context<S>) {
    && (cx.typePredicate.Some? ==>
          forall s, t :: !cx.typePredicate.value(s, t).handled && cx.typePredicate.value(s, t).node == t)
    && (cx.exprPredicate.Some? ==>
          forall s, e :: !cx.exprPredicate.value(s, e).handled && cx.exprPredicate.value(s, e).node == e)
    && (cx.stmtPredicate.Some? ==>
          forall s, st :: !cx.stmtPredicate.value(s, st).handled && cx.stmtPredicate.value(s, st).node == st)
    && (cx.identPredicate.Some? ==>
          forall s, id :: cx.identPredicate.value(s, id).node == id)
    && (cx.pathPredicate.Some? ==>
          cx.pathPredicate.value.Custom? && forall s, p :: cx.pathPredicate.value.f(s, p).node == p)
  }

  /** What a passive walk returns, given the visit list of the node. */
  function Replay<S(!new), N>(cx: Context<S>, s: S, vs: Result<seq<Visit>>, node: N): Result<Walked<S, N>> {
    if vs.Ok? then Ok(Walked(Fold(cx, s, vs.value), node)) else Abort(vs.reason)
  }

  // ---------------------------------------------------------------------
  // The visit lists. `opaque` is set when a path predicate is installed:
  // a path is then one visit and nothing inside it is visited.

  function OptIdentOrder(o: Option<Ident>): seq<Visit> {
    if o.None? then [] else [IdentVisit(o.value)]
  }

  function IdentsOrder(ids: seq<Ident>): seq<Visit> {
    if |ids| == 0 then [] else [IdentVisit(ids[0])] + IdentsOrder(ids[1..])
  }

  function MemberOrder(m: Member): seq<Visit> {
    if m.Named? then [IdentVisit(m.name)] else []
  }

  function CapturedOrder(params: seq<CapturedParam>): seq<Visit> {
    if |params| == 0 then [] else [IdentVisit(params[0].name)] + CapturedOrder(params[1..])
  }

  function BareVariadicOrder(v: Option<BareVariadic>): seq<Visit> {
    if v.None? then [] else OptIdentOrder(v.value.name)
  }

  function ExprOrder(o: bool, e: Expr): Result<seq<Visit>>
    decreases SizeExpr(e), 2
  {
    var c :- ExprChildrenOrder(o, e);
    Ok([ExprVisit(e)] + c)
  }

  function ExprChildrenOrder(o: bool, e: Expr): Result<seq<Visit>>
    decreases SizeExpr(e), 1
  {
    if IsOperation(e) then OperationOrder(o, e)
    else if IsControl(e) then ControlOrder(o, e)
    else AccessOrder(o, e)
  }

  function OperationOrder(o: bool, e: Expr): Result<seq<Visit>>
    requires IsOperation(e)
    decreases SizeExpr(e), 0
  {
    match e
    case ArrayExpr(elems) => ExprsOrder(o, elems)
    case Assign(l, r) =>
      var a :- ExprOrder(o, l);
      var b :- ExprOrder(o, r);
      Ok(a + b)
    case Binary(_, l, r) =>
      var a :- ExprOrder(o, l);
      var b :- ExprOrder(o, r);
      Ok(a + b)
    case Scoped(_, stmts) => StmtsOrder(o, stmts)
    case Wrapped(_, inner) => ExprOrder(o, inner)
    case Call(callee, args) =>
      var a :- ExprsOrder(o, args);
      var b :- ExprOrder(o, callee);
      Ok(a + b)
    case Cast(operand, ty) =>
      var a :- TypeOrder(o, ty);
      var b :- ExprOrder(o, operand);
      Ok(a + b)
    case Index(base, index) =>
      var a :- ExprOrder(o, index);
      var b :- ExprOrder(o, base);
      Ok(a + b)
    case Range(start, end) =>
      var a :- OptExprOrder(o, start);
      var b :- OptExprOrder(o, end);
      Ok(a + b)
    case Repeat(elem, len) =>
      var a :- ExprOrder(o, elem);
      var b :- ExprOrder(o, len);
      Ok(a + b)
    case Jump(_, value) => OptExprOrder(o, value)
    case TupleExpr(elems) => ExprsOrder(o, elems)
  }

  function ControlOrder(o: bool, e: Expr): Result<seq<Visit>>
    requires IsControl(e)
    decreases SizeExpr(e), 0
  {
    match e
    case BlockExpr(lbl, stmts) =>
      var a :- StmtsOrder(o, stmts);
      Ok(a + OptIdentOrder(lbl))
    case Break(lbl, value) =>
      var b :- OptExprOrder(o, value);
      Ok(OptIdentOrder(lbl) + b)
    case Closure(inputs, output, body) =>
      var a :- ExprOrder(o, body);
      var b :- PatsOrder(o, inputs);
      var c :- OptTypeOrder(o, output);
      Ok(a + b + c)
    case Continue(lbl) => Ok(OptIdentOrder(lbl))
    case ForLoop(lbl, pat, iterated, body) =>
      var b :- PatOrder(o, pat);
      var c :- ExprOrder(o, iterated);
      var d :- StmtsOrder(o, body);
      Ok(OptIdentOrder(lbl) + b + c + d)
    case If(cond, thenBranch, elseBranch) =>
      var a :- ExprOrder(o, cond);
      var b :- StmtsOrder(o, thenBranch);
      var c :- OptExprOrder(o, elseBranch);
      Ok(a + b + c)
    case Let(pat, scrutinee) =>
      var a :- PatOrder(o, pat);
      var b :- ExprOrder(o, scrutinee);
      Ok(a + b)
    case Loop(lbl, body) =>
      var b :- StmtsOrder(o, body);
      Ok(OptIdentOrder(lbl) + b)
    case Match(scrutinee, arms) =>
      var a :- ExprOrder(o, scrutinee);
      var b :- ArmsOrder(o, arms);
      Ok(a + b)
    case While(lbl, cond, body) =>
      var b :- ExprOrder(o, cond);
      var c :- StmtsOrder(o, body);
      Ok(OptIdentOrder(lbl) + b + c)
  }

  function AccessOrder(o: bool, e: Expr): Result<seq<Visit>>
    requires !IsOperation(e) && !IsControl(e)
    decreases SizeExpr(e), 0
  {
    match e
    case FieldAccess(base, member) =>
      var a :- ExprOrder(o, base);
      Ok(a + MemberOrder(member))
    case MacroExpr(_, mac) => MacroOrder(o, mac)
    case MethodCall(receiver, methodName, _, args) =>
      var b :- ExprOrder(o, receiver);
      var c :- ExprsOrder(o, args);
      Ok([IdentVisit(methodName)] + b + c)
    case PathExpr(qself, path) =>
      var a :- OptTypeOrder(o, qself);
      var b :- PathOrder(o, path);
      Ok(a + b)
    case StructLit(qself, path, fields, rest) =>
      var a :- OptTypeOrder(o, qself);
      var b :- PathOrder(o, path);
      var c :- FieldValuesOrder(o, fields);
      var d :- OptExprOrder(o, rest);
      Ok(a + b + c + d)
    case Leaf(_) => Ok([])
  }

  function ExprsOrder(o: bool, es: seq<Expr>): Result<seq<Visit>>
    decreases SizeExprs(es), 0
  {
    if |es| == 0 then Ok([])
    else
      var a :- ExprOrder(o, es[0]);
      var b :- ExprsOrder(o, es[1..]);
      Ok(a + b)
  }

  function OptExprOrder(o: bool, opt: Option<Expr>): Result<seq<Visit>>
    decreases SizeOptExpr(opt), 0
  {
    if opt.None? then Ok([]) else ExprOrder(o, opt.value)
  }

  function ArmsOrder(o: bool, arms: seq<Arm>): Result<seq<Visit>>
    decreases SizeArms(arms), 0
  {
    if |arms| == 0 then Ok([])
    else
      assert SizeArm(arms[0]) < SizeArms(arms);
      var a :- PatOrder(o, arms[0].pat);
      var b :- ExprOrder(o, arms[0].body);
      var c :- OptExprOrder(o, arms[0].guard);
      var d :- ArmsOrder(o, arms[1..]);
      Ok(a + b + c + d)
  }

  function FieldValuesOrder(o: bool, fields: seq<FieldValue>): Result<seq<Visit>>
    decreases SizeFieldValues(fields), 0
  {
    if |fields| == 0 then Ok([])
    else
      assert SizeFieldValue(fields[0]) < SizeFieldValues(fields);
      var a :- ExprOrder(o, fields[0].value);
      var b :- FieldValuesOrder(o, fields[1..]);
      Ok(a + b)
  }

  function MacroOrder(o: bool, mac: Macro): Result<seq<Visit>>
    decreases SizeMacro(mac), 0
  {
    var a :- PathOrder(o, mac.path);
    var b :- ExprsOrder(o, mac.args);
    Ok(a + b)
  }

  function StmtOrder(o: bool, st: Stmt): Result<seq<Visit>>
    decreases SizeStmt(st), 1
  {
    var c :- StmtChildrenOrder(o, st);
    Ok([StmtVisit(st)] + c)
  }

  function StmtChildrenOrder(o: bool, st: Stmt): Result<seq<Visit>>
    decreases SizeStmt(st), 0
  {
    match st
    case Local(pat, init) =>
      var a :- PatOrder(o, pat);
      if init.None? then Ok(a)
      else
        var b :- ExprOrder(o, init.value.expr);
        var c :- OptExprOrder(o, init.value.diverge);
        Ok(a + b + c)
    case ItemStmt(_) => Abort(ItemStatementAbort)
    case ExprStmt(expr, _) => ExprOrder(o, expr)
    case MacroStmt(_, mac, _) => MacroOrder(o, mac)
  }

  function StmtsOrder(o: bool, ss: seq<Stmt>): Result<seq<Visit>>
    decreases SizeStmts(ss), 0
  {
    if |ss| == 0 then Ok([])
    else
      var a :- StmtOrder(o, ss[0]);
      var b :- StmtsOrder(o, ss[1..]);
      Ok(a + b)
  }

  function PatOrder(o: bool, p: Pat): Result<seq<Visit>>
    decreases SizePat(p), 0
  {
    match p
    case ConstPat(stmts) => StmtsOrder(o, stmts)
    case IdentPat(name, _) => Ok([IdentVisit(name)])
    case MacroPat(mac) => MacroOrder(o, mac)
    case OrPat(cases) => PatsOrder(o, cases)
    case ParenPat(inner) => PatOrder(o, inner)
    case PathPat(qself, path) =>
      var a :- OptTypeOrder(o, qself);
      var b :- PathOrder(o, path);
      Ok(a + b)
    case RangePat(start, end) =>
      var a :- OptExprOrder(o, start);
      var b :- OptExprOrder(o, end);
      Ok(a + b)
    case ReferencePat(inner) => PatOrder(o, inner)
    case SlicePat(elems) => PatsOrder(o, elems)
    case StructPat(qself, path, fields) =>
      var a :- OptTypeOrder(o, qself);
      var b :- PathOrder(o, path);
      var c :- FieldPatsOrder(o, fields);
      Ok(a + b + c)
    case TuplePat(elems) => PatsOrder(o, elems)
    case TupleStructPat(qself, path, elems) =>
      var a :- OptTypeOrder(o, qself);
      var b :- PatsOrder(o, elems);
      var c :- PathOrder(o, path);
      Ok(a + b + c)
    case TypedPat(inner, ty) =>
      var a :- PatOrder(o, inner);
      var b :- TypeOrder(o, ty);
      Ok(a + b)
    case OtherPat(_) => Ok([])
  }

  function PatsOrder(o: bool, ps: seq<Pat>): Result<seq<Visit>>
    decreases SizePats(ps), 0
  {
    if |ps| == 0 then Ok([])
    else
      var a :- PatOrder(o, ps[0]);
      var b :- PatsOrder(o, ps[1..]);
      Ok(a + b)
  }

  function FieldPatsOrder(o: bool, fields: seq<FieldPat>): Result<seq<Visit>>
    decreases SizeFieldPats(fields), 0
  {
    if |fields| == 0 then Ok([])
    else
      assert SizeFieldPat(fields[0]) < SizeFieldPats(fields);
      var a :- PatOrder(o, fields[0].pat);
      var c :- FieldPatsOrder(o, fields[1..]);
      Ok(a + MemberOrder(fields[0].member) + c)
  }

  function TypeOrder(o: bool, t: Type): Result<seq<Visit>>
    decreases SizeType(t), 1
  {
    var c :- TypeChildrenOrder(o, t);
    Ok([TypeVisit(t)] + c)
  }

  function TypeChildrenOrder(o: bool, t: Type): Result<seq<Visit>>
    decreases SizeType(t), 0
  {
    match t
    case ArrayType(elem, len) =>
      var a :- TypeOrder(o, elem);
      var b :- ExprOrder(o, len);
      Ok(a + b)
    case BareFn(lifetimes, inputs, variadic, output) =>
      var a :- BoundLifetimesOrder(o, lifetimes);
      var c :- BareFnArgsOrder(o, inputs);
      var d :- OptTypeOrder(o, output);
      Ok(a + BareVariadicOrder(variadic) + c + d)
    case WrappedType(_, elem) => TypeOrder(o, elem)
    case BoundedType(_, bounds) => BoundsOrder(o, bounds)
    case MacroType(mac) => MacroOrder(o, mac)
    case PathType(qself, path) =>
      var a :- OptTypeOrder(o, qself);
      var b :- PathOrder(o, path);
      Ok(a + b)
    case ReferenceType(lifetime, elem) =>
      var a :- TypeOrder(o, elem);
      Ok(a + OptIdentOrder(lifetime))
    case TupleType(elems) => TypesOrder(o, elems)
    case OtherType(_) => Ok([])
  }

  function BareFnArgsOrder(o: bool, inputs: seq<BareFnArg>): Result<seq<Visit>>
    decreases SizeBareFnArgs(inputs), 0
  {
    if |inputs| == 0 then Ok([])
    else
      assert SizeBareFnArg(inputs[0]) < SizeBareFnArgs(inputs);
      var b :- TypeOrder(o, inputs[0].ty);
      var c :- BareFnArgsOrder(o, inputs[1..]);
      Ok(OptIdentOrder(inputs[0].name) + b + c)
  }

  function TypesOrder(o: bool, ts: seq<Type>): Result<seq<Visit>>
    decreases SizeTypes(ts), 0
  {
    if |ts| == 0 then Ok([])
    else
      var a :- TypeOrder(o, ts[0]);
      var b :- TypesOrder(o, ts[1..]);
      Ok(a + b)
  }

  function OptTypeOrder(o: bool, opt: Option<Type>): Result<seq<Visit>>
    decreases SizeOptType(opt), 0
  {
    if opt.None? then Ok([]) else TypeOrder(o, opt.value)
  }

  function BoundOrder(o: bool, b: TypeParamBound): Result<seq<Visit>>
    decreases SizeBound(b), 0
  {
    match b
    case TraitBound(lifetimes, path) =>
      var a :- BoundLifetimesOrder(o, lifetimes);
      var c :- PathOrder(o, path);
      Ok(a + c)
    case LifetimeBound(name) => Ok([IdentVisit(name)])
    case PreciseCapture(params) => Ok(CapturedOrder(params))
    case VerbatimBound(_) => Ok([])
  }

  function BoundsOrder(o: bool, bounds: seq<TypeParamBound>): Result<seq<Visit>>
    decreases SizeBounds(bounds), 0
  {
    if |bounds| == 0 then Ok([])
    else
      var a :- BoundOrder(o, bounds[0]);
      var b :- BoundsOrder(o, bounds[1..]);
      Ok(a + b)
  }

  function ParamOrder(o: bool, p: GenericParam): Result<seq<Visit>>
    decreases SizeParam(p), 0
  {
    match p
    case LifetimeParam(name, bounds) => Ok(IdentsOrder(bounds) + [IdentVisit(name)])
    case TypeParam(name, bounds, defaultType) =>
      var a :- OptTypeOrder(o, defaultType);
      var c :- BoundsOrder(o, bounds);
      Ok(a + [IdentVisit(name)] + c)
    case ConstParam(_, ty, _) => TypeOrder(o, ty)
  }

  function ParamsOrder(o: bool, ps: seq<GenericParam>): Result<seq<Visit>>
    decreases SizeParams(ps), 0
  {
    if |ps| == 0 then Ok([])
    else
      var a :- ParamOrder(o, ps[0]);
      var b :- ParamsOrder(o, ps[1..]);
      Ok(a + b)
  }

  function BoundLifetimesOrder(o: bool, opt: Option<BoundLifetimes>): Result<seq<Visit>>
    decreases SizeOptParams(opt), 0
  {
    if opt.None? then Ok([])
    else
      assert SizeBoundLifetimes(opt.value) < SizeOptParams(opt);
      ParamsOrder(o, opt.value.lifetimes)
  }

  function PathOrder(o: bool, p: SynPath): Result<seq<Visit>>
    decreases SizePath(p), 2
  {
    if o then Ok([PathVisit(p)]) else SegmentsOrder(o, p.segments)
  }

  function SegmentsOrder(o: bool, segments: seq<Segment>): Result<seq<Visit>>
    decreases SizeSegments(segments), 0
  {
    if |segments| == 0 then Ok([])
    else
      var a :- PathArgsOrder(o, segments[0].args);
      var b :- SegmentsOrder(o, segments[1..]);
      Ok(a + b)
  }

  function PathArgsOrder(o: bool, args: PathArgs): Result<seq<Visit>>
    decreases SizePathArgs(args), 0
  {
    match args
    case NoArgs => Ok([])
    case Angle(list) => AngleArgsOrder(o, list)
    case Parenthesized(inputs, output) =>
      var a :- OptTypeOrder(o, output);
      var b :- TypesOrder(o, inputs);
      Ok(a + b)
  }

  function AngleArgsOrder(o: bool, args: seq<GenericArgument>): Result<seq<Visit>>
    decreases SizeGenericArgs(args), 0
  {
    if |args| == 0 then Ok([])
    else
      assert SizeGenericArg(args[0]) < SizeGenericArgs(args);
      var a :- if args[0].TypeArg? then TypeOrder(o, args[0].ty) else Ok([]);
      var b :- AngleArgsOrder(o, args[1..]);
      Ok(a + b)
  }
}
