/** The reduced `syn` syntax tree the crate rewrites. Only the parts the
    walkers and builders read or write are represented; tokens that are never
    visited (mutability flags, attributes on fields, visibility, spans,
    punctuation) are left out. Identifiers are strings, and a raw identifier
    carries its `r#` prefix, as `Ident::to_string` prints it. */
module Syntax {
  import opened Base

  type Ident = string

  // ---------------------------------------------------------------------
  // Paths and generic arguments

  /** `syn::Path`: an optional leading `::` and the segments. */
  datatype SynPath = SynPath(leadingColon: bool, segments: seq<Segment>)

  datatype Segment = Segment(name: Ident, args: PathArgs)

  /** `syn::PathArguments`: none, `<..>` or `(..) -> ..`. */
  datatype PathArgs =
    | NoArgs
    | Angle(args: seq<GenericArgument>)
    | Parenthesized(inputs: seq<Type>, output: Option<Type>)

  /** `syn::AngleBracketedGenericArguments`, where it stands alone. */
  datatype AngleArgs = AngleArgs(args: seq<GenericArgument>)

  /** `syn::BoundLifetimes`: the parameters of a `for<..>`. */
  datatype BoundLifetimes = BoundLifetimes(lifetimes: seq<GenericParam>)

  datatype GenericArgument =
    | LifetimeArg(name: Ident)
    | TypeArg(ty: Type)
    | ConstArg(value: Expr)
    | AssocType(name: Ident, generics: Option<AngleArgs>, ty: Type)
    | AssocConst(name: Ident, generics: Option<AngleArgs>, value: Expr)
    | Constraint(name: Ident, generics: Option<AngleArgs>, bounds: seq<TypeParamBound>)

  datatype TypeParamBound =
    | TraitBound(lifetimes: Option<BoundLifetimes>, path: SynPath)
    | LifetimeBound(name: Ident)
    | PreciseCapture(params: seq<CapturedParam>)
    | VerbatimBound(text: string)

  datatype CapturedParam = CapturedLifetime(name: Ident) | CapturedIdent(name: Ident)

  datatype GenericParam =
    | LifetimeParam(name: Ident, lifetimeBounds: seq<Ident>)
    | TypeParam(name: Ident, bounds: seq<TypeParamBound>, defaultType: Option<Type>)
    | ConstParam(name: Ident, ty: Type, defaultValue: Option<Expr>)

  // ---------------------------------------------------------------------
  // Types

  datatype TypeWrapper = GroupType | ParenType | PointerType | SliceType
  datatype BoundedKind = ImplTrait | TraitObject

  datatype BareFnArg = BareFnArg(name: Option<Ident>, ty: Type)
  datatype BareVariadic = BareVariadic(name: Option<Ident>)

  datatype Type =
    | ArrayType(elem: Type, len: Expr)
    | BareFn(lifetimes: Option<BoundLifetimes>, inputs: seq<BareFnArg>, variadic: Option<BareVariadic>, output: Option<Type>)
    | WrappedType(wrapper: TypeWrapper, elem: Type)
    | BoundedType(kind: BoundedKind, bounds: seq<TypeParamBound>)
    | MacroType(mac: Macro)
    | PathType(qself: Option<Type>, path: SynPath)
    | ReferenceType(lifetime: Option<Ident>, elem: Type)
    | TupleType(elems: seq<Type>)
      /** Infer, never and verbatim types: the walker does not descend. */
    | OtherType(text: string)

  // ---------------------------------------------------------------------
  // Expressions

  datatype Scope = AsyncBlock | ConstBlock | TryBlock | UnsafeBlock
  datatype ExprWrapper = Await | GroupExpr | ParenExpr | RawAddr | ReferenceExpr | TryExpr | Unary(op: string)
  datatype JumpKind = Return | Yield
  datatype Member = Named(name: Ident) | Unnamed(index: nat)
  datatype Delimiter = ParenDelimiter | BraceDelimiter | BracketDelimiter

  /** A macro invocation; its arguments are the comma-separated expressions
      the crate re-parses them into. */
  datatype Macro = Macro(path: SynPath, delimiter: Delimiter, args: seq<Expr>)

  datatype Arm = Arm(pat: Pat, guard: Option<Expr>, body: Expr)
  datatype FieldValue = FieldValue(member: Member, value: Expr)

  datatype Expr =
    | ArrayExpr(elems: seq<Expr>)
    | Assign(left: Expr, right: Expr)
    | Binary(op: string, left: Expr, right: Expr)
    | Scoped(scope: Scope, stmts: seq<Stmt>)
    | Wrapped(wrapper: ExprWrapper, inner: Expr)
    | BlockExpr(labelName: Option<Ident>, stmts: seq<Stmt>)
    | Break(labelName: Option<Ident>, value: Option<Expr>)
    | Call(callee: Expr, args: seq<Expr>)
    | Cast(operand: Expr, ty: Type)
    | Closure(inputs: seq<Pat>, output: Option<Type>, closureBody: Expr)
    | Continue(labelName: Option<Ident>)
    | FieldAccess(base: Expr, member: Member)
    | ForLoop(labelName: Option<Ident>, pat: Pat, iterated: Expr, body: seq<Stmt>)
    | If(cond: Expr, thenBranch: seq<Stmt>, elseBranch: Option<Expr>)
    | Index(base: Expr, index: Expr)
    | Let(pat: Pat, scrutinee: Expr)
    | Loop(labelName: Option<Ident>, body: seq<Stmt>)
    | MacroExpr(attrs: seq<string>, mac: Macro)
    | Match(scrutinee: Expr, arms: seq<Arm>)
    | MethodCall(receiver: Expr, methodName: Ident, turbofish: Option<AngleArgs>, args: seq<Expr>)
    | PathExpr(qself: Option<Type>, path: SynPath)
    | Range(start: Option<Expr>, end: Option<Expr>)
    | Repeat(elem: Expr, len: Expr)
    | Jump(jump: JumpKind, value: Option<Expr>)
    | StructLit(qself: Option<Type>, path: SynPath, fields: seq<FieldValue>, rest: Option<Expr>)
    | TupleExpr(elems: seq<Expr>)
    | While(labelName: Option<Ident>, cond: Expr, body: seq<Stmt>)
      /** Literals, `_`, verbatim tokens: the walker does not descend. */
    | Leaf(text: string)

  // ---------------------------------------------------------------------
  // Patterns and statements

  datatype FieldPat = FieldPat(member: Member, pat: Pat)

  datatype Pat =
    | ConstPat(stmts: seq<Stmt>)
    | IdentPat(name: Ident, subpat: Option<Pat>)
    | MacroPat(mac: Macro)
    | OrPat(cases: seq<Pat>)
    | ParenPat(pat: Pat)
    | PathPat(qself: Option<Type>, path: SynPath)
    | RangePat(start: Option<Expr>, end: Option<Expr>)
    | ReferencePat(pat: Pat)
    | SlicePat(elems: seq<Pat>)
    | StructPat(qself: Option<Type>, path: SynPath, fields: seq<FieldPat>)
    | TuplePat(elems: seq<Pat>)
    | TupleStructPat(qself: Option<Type>, path: SynPath, elems: seq<Pat>)
    | TypedPat(pat: Pat, ty: Type)
      /** Literal, wildcard, rest and verbatim patterns. */
    | OtherPat(text: string)

  datatype LocalInit = LocalInit(expr: Expr, diverge: Option<Expr>)

  datatype Stmt =
    | Local(pat: Pat, init: Option<LocalInit>)
      /** An item nested in a block; its contents are not represented. */
    | ItemStmt(text: string)
    | ExprStmt(expr: Expr, semi: bool)
    | MacroStmt(attrs: seq<string>, mac: Macro, semi: bool)

  // ---------------------------------------------------------------------
  // Declarations' parts walked by the item walkers

  datatype WherePredicate =
    | LifetimePredicate(name: Ident, lifetimeBounds: seq<Ident>)
    | TypePredicate(lifetimes: Option<BoundLifetimes>, bounded: Type, bounds: seq<TypeParamBound>)

  datatype Generics = Generics(params: seq<GenericParam>, whereClause: Option<seq<WherePredicate>>)

  datatype Field = Field(name: Option<Ident>, ty: Type)

  datatype Fields = NamedFields(named: seq<Field>) | UnnamedFields(unnamed: seq<Field>) | UnitFields

  /** The `&` or `&'a` of a `self` receiver. */
  datatype Borrow = Borrow(lifetime: Option<Ident>)

  datatype FnArg = Receiver(reference: Option<Borrow>, ty: Type) | Typed(pat: Pat, ty: Type)

  datatype Variadic = Variadic(pat: Option<Pat>)

  datatype Signature = Signature(name: Ident, generics: Generics, inputs: seq<FnArg>, variadic: Option<Variadic>, output: Option<Type>)

  const NoGenerics := Generics([], None)

  // ---------------------------------------------------------------------
  // Sizes: every node counts one, every sequence and option counts one more
  // than its parts, so each child is strictly smaller than its parent.

  ghost function SizeExpr(e: Expr): nat
    decreases e
  {
    1 + match e
      case ArrayExpr(elems) => SizeExprs(elems)
      case Assign(l, r) => SizeExpr(l) + SizeExpr(r)
      case Binary(_, l, r) => SizeExpr(l) + SizeExpr(r)
      case Scoped(_, stmts) => SizeStmts(stmts)
      case Wrapped(_, inner) => SizeExpr(inner)
      case BlockExpr(_, stmts) => SizeStmts(stmts)
      case Break(_, value) => SizeOptExpr(value)
      case Call(callee, args) => SizeExpr(callee) + SizeExprs(args)
      case Cast(operand, ty) => SizeExpr(operand) + SizeType(ty)
      case Closure(inputs, output, body) => SizePats(inputs) + SizeOptType(output) + SizeExpr(body)
      case Continue(_) => 0
      case FieldAccess(base, _) => SizeExpr(base)
      case ForLoop(_, pat, iterated, body) => SizePat(pat) + SizeExpr(iterated) + SizeStmts(body)
      case If(cond, thenBranch, elseBranch) => SizeExpr(cond) + SizeStmts(thenBranch) + SizeOptExpr(elseBranch)
      case Index(base, index) => SizeExpr(base) + SizeExpr(index)
      case Let(pat, scrutinee) => SizePat(pat) + SizeExpr(scrutinee)
      case Loop(_, body) => SizeStmts(body)
      case MacroExpr(_, mac) => SizeMacro(mac)
      case Match(scrutinee, arms) => SizeExpr(scrutinee) + SizeArms(arms)
      case MethodCall(receiver, _, turbofish, args) => SizeExpr(receiver) + SizeOptArgs(turbofish) + SizeExprs(args)
      case PathExpr(qself, path) => SizeOptType(qself) + SizePath(path)
      case Range(start, end) => SizeOptExpr(start) + SizeOptExpr(end)
      case Repeat(elem, len) => SizeExpr(elem) + SizeExpr(len)
      case Jump(_, value) => SizeOptExpr(value)
      case StructLit(qself, path, fields, rest) => SizeOptType(qself) + SizePath(path) + SizeFieldValues(fields) + SizeOptExpr(rest)
      case TupleExpr(elems) => SizeExprs(elems)
      case While(_, cond, body) => SizeExpr(cond) + SizeStmts(body)
      case Leaf(_) => 0
  }

  ghost function SizeExprs(es: seq<Expr>): nat
    decreases es
  {
    1 + if |es| == 0 then 0 else SizeExpr(es[0]) + SizeExprs(es[1..])
  }

  ghost function SizeOptExpr(o: Option<Expr>): nat
    decreases o
  {
    1 + if o.Some? then SizeExpr(o.value) else 0
  }

  ghost function SizeArms(arms: seq<Arm>): nat
    decreases arms
  {
    1 + if |arms| == 0 then 0
        else SizeArm(arms[0]) + SizeArms(arms[1..])
  }

  ghost function SizeArm(arm: Arm): nat
    decreases arm
  {
    1 + SizePat(arm.pat) + SizeOptExpr(arm.guard) + SizeExpr(arm.body)
  }

  ghost function SizeFieldValues(fields: seq<FieldValue>): nat
    decreases fields
  {
    1 + if |fields| == 0 then 0 else SizeFieldValue(fields[0]) + SizeFieldValues(fields[1..])
  }

  ghost function SizeFieldValue(field: FieldValue): nat
    decreases field
  {
    1 + SizeExpr(field.value)
  }

  ghost function SizeMacro(mac: Macro): nat
    decreases mac
  {
    1 + SizePath(mac.path) + SizeExprs(mac.args)
  }

  ghost function SizeType(t: Type): nat
    decreases t
  {
    1 + match t
      case ArrayType(elem, len) => SizeType(elem) + SizeExpr(len)
      case BareFn(lifetimes, inputs, _, output) => SizeOptParams(lifetimes) + SizeBareFnArgs(inputs) + SizeOptType(output)
      case WrappedType(_, elem) => SizeType(elem)
      case BoundedType(_, bounds) => SizeBounds(bounds)
      case MacroType(mac) => SizeMacro(mac)
      case PathType(qself, path) => SizeOptType(qself) + SizePath(path)
      case ReferenceType(_, elem) => SizeType(elem)
      case TupleType(elems) => SizeTypes(elems)
      case OtherType(_) => 0
  }

  ghost function SizeTypes(ts: seq<Type>): nat
    decreases ts
  {
    1 + if |ts| == 0 then 0 else SizeType(ts[0]) + SizeTypes(ts[1..])
  }

  ghost function SizeOptType(o: Option<Type>): nat
    decreases o
  {
    1 + if o.Some? then SizeType(o.value) else 0
  }

  ghost function SizeBareFnArgs(inputs: seq<BareFnArg>): nat
    decreases inputs
  {
    1 + if |inputs| == 0 then 0 else SizeBareFnArg(inputs[0]) + SizeBareFnArgs(inputs[1..])
  }

  ghost function SizeBareFnArg(input: BareFnArg): nat
    decreases input
  {
    1 + SizeType(input.ty)
  }

  ghost function SizePat(p: Pat): nat
    decreases p
  {
    1 + match p
      case ConstPat(stmts) => SizeStmts(stmts)
      case IdentPat(_, subpat) => SizeOptPat(subpat)
      case MacroPat(mac) => SizeMacro(mac)
      case OrPat(cases) => SizePats(cases)
      case ParenPat(inner) => SizePat(inner)
      case PathPat(qself, path) => SizeOptType(qself) + SizePath(path)
      case RangePat(start, end) => SizeOptExpr(start) + SizeOptExpr(end)
      case ReferencePat(inner) => SizePat(inner)
      case SlicePat(elems) => SizePats(elems)
      case StructPat(qself, path, fields) => SizeOptType(qself) + SizePath(path) + SizeFieldPats(fields)
      case TuplePat(elems) => SizePats(elems)
      case TupleStructPat(qself, path, elems) => SizeOptType(qself) + SizePath(path) + SizePats(elems)
      case TypedPat(inner, ty) => SizePat(inner) + SizeType(ty)
      case OtherPat(_) => 0
  }

  ghost function SizePats(ps: seq<Pat>): nat
    decreases ps
  {
    1 + if |ps| == 0 then 0 else SizePat(ps[0]) + SizePats(ps[1..])
  }

  ghost function SizeOptPat(o: Option<Pat>): nat
    decreases o
  {
    1 + if o.Some? then SizePat(o.value) else 0
  }

  ghost function SizeFieldPats(fields: seq<FieldPat>): nat
    decreases fields
  {
    1 + if |fields| == 0 then 0 else SizeFieldPat(fields[0]) + SizeFieldPats(fields[1..])
  }

  ghost function SizeFieldPat(field: FieldPat): nat
    decreases field
  {
    1 + SizePat(field.pat)
  }

  ghost function SizeStmt(s: Stmt): nat
    decreases s
  {
    1 + match s
      case Local(pat, init) =>
        SizePat(pat) + (if init.Some? then SizeExpr(init.value.expr) + SizeOptExpr(init.value.diverge) else 0)
      case ItemStmt(_) => 0
      case ExprStmt(expr, _) => SizeExpr(expr)
      case MacroStmt(_, mac, _) => SizeMacro(mac)
  }

  ghost function SizeStmts(ss: seq<Stmt>): nat
    decreases ss
  {
    1 + if |ss| == 0 then 0 else SizeStmt(ss[0]) + SizeStmts(ss[1..])
  }

  ghost function SizePath(p: SynPath): nat
    decreases p
  {
    1 + SizeSegments(p.segments)
  }

  ghost function SizeSegments(segments: seq<Segment>): nat
    decreases segments
  {
    1 + if |segments| == 0 then 0 else SizePathArgs(segments[0].args) + SizeSegments(segments[1..])
  }

  ghost function SizePathArgs(args: PathArgs): nat
    decreases args
  {
    1 + match args
      case NoArgs => 0
      case Angle(list) => SizeGenericArgs(list)
      case Parenthesized(inputs, output) => SizeTypes(inputs) + SizeOptType(output)
  }

  ghost function SizeGenericArg(a: GenericArgument): nat
    decreases a
  {
    1 + match a
      case LifetimeArg(_) => 0
      case TypeArg(ty) => SizeType(ty)
      case ConstArg(value) => SizeExpr(value)
      case AssocType(_, generics, ty) => SizeOptArgs(generics) + SizeType(ty)
      case AssocConst(_, generics, value) => SizeOptArgs(generics) + SizeExpr(value)
      case Constraint(_, generics, bounds) => SizeOptArgs(generics) + SizeBounds(bounds)
  }

  ghost function SizeGenericArgs(args: seq<GenericArgument>): nat
    decreases args
  {
    1 + if |args| == 0 then 0 else SizeGenericArg(args[0]) + SizeGenericArgs(args[1..])
  }

  ghost function SizeOptArgs(o: Option<AngleArgs>): nat
    decreases o
  {
    1 + if o.Some? then SizeAngleArgs(o.value) else 0
  }

  ghost function SizeAngleArgs(a: AngleArgs): nat
    decreases a
  {
    1 + SizeGenericArgs(a.args)
  }

  ghost function SizeBound(b: TypeParamBound): nat
    decreases b
  {
    1 + match b
      case TraitBound(lifetimes, path) => SizeOptParams(lifetimes) + SizePath(path)
      case LifetimeBound(_) => 0
      case PreciseCapture(_) => 0
      case VerbatimBound(_) => 0
  }

  ghost function SizeBounds(bounds: seq<TypeParamBound>): nat
    decreases bounds
  {
    1 + if |bounds| == 0 then 0 else SizeBound(bounds[0]) + SizeBounds(bounds[1..])
  }

  ghost function SizeParam(p: GenericParam): nat
    decreases p
  {
    1 + match p
      case LifetimeParam(_, _) => 0
      case TypeParam(_, bounds, defaultType) => SizeBounds(bounds) + SizeOptType(defaultType)
      case ConstParam(_, ty, defaultValue) => SizeType(ty) + SizeOptExpr(defaultValue)
  }

  ghost function SizeParams(params: seq<GenericParam>): nat
    decreases params
  {
    1 + if |params| == 0 then 0 else SizeParam(params[0]) + SizeParams(params[1..])
  }

  ghost function SizeOptParams(o: Option<BoundLifetimes>): nat
    decreases o
  {
    1 + if o.Some? then SizeBoundLifetimes(o.value) else 0
  }

  ghost function SizeBoundLifetimes(b: BoundLifetimes): nat
    decreases b
  {
    1 + SizeParams(b.lifetimes)
  }
}
