/** The three passes built on the walker engine (`src/functions`): renaming
    an identifier, trimming a path prefix, and a caller's expression rewrite.
    Rename and TrimPath build a fresh context per call, so their predicate
    state is the unit value; Transform threads the caller's state through
    every call that shares its context. */
module Passes {
  import opened Base
  import opened Syntax
  import opened Paths
  import opened Walkers
  import opened Visits
  import opened Replays
  import opened Trimming
  import opened Items
  import opened ItemWalks

  // ---------------------------------------------------------------------
  // Rename (`functions/rename.rs`)

  /** Every top-level segment named `from` is renamed; arguments and other
      segments are kept. */
  function RenameSegments(segments: seq<Segment>, from: string, to: string): (r: seq<Segment>)
    ensures |r| == |segments|
    ensures forall i :: 0 <= i < |segments| ==> r[i].args == segments[i].args
    ensures forall i :: 0 <= i < |segments| ==> r[i].name == (if segments[i].name == from then CreateIdent(to) else segments[i].name)
  {
    if |segments| == 0 then []
    else
      var head := if segments[0].name == from then Segment(CreateIdent(to), segments[0].args) else segments[0];
      [head] + RenameSegments(segments[1..], from, to)
  }

  /** The path predicate: the renamed segments, written back without a
      leading `::`. */
  function RenamePath(from: string, to: string, p: SynPath): (r: SynPath)
    ensures !r.leadingColon
    ensures Names(r.segments) == Names(RenameSegments(p.segments, from, to))
  {
    ToSynPath(FromSynPath(p).(segments := RenameSegments(p.segments, from, to)))
  }

  /** The ident predicate: exactly `from` becomes `to`, and only then is the
      answer true. */
  function RenameIdent(from: string, to: string, id: Ident): (r: Step<(), Ident>)
    ensures r.handled <==> id == from
    ensures r.node == (if id == from then CreateIdent(to) else id)
  {
    if id != from then Step(false, id, ()) else Step(true, CreateIdent(to), ())
  }

  /** `rename::create_context`: the path and ident slots only. */
  function RenameContext(from: string, to: string): (cx: Context<()>)
    ensures Shrinking(cx)
    ensures cx.typePredicate.None? && cx.exprPredicate.None? && cx.stmtPredicate.None?
    ensures cx.pathPredicate.Some? && cx.pathPredicate.value.Custom?
    ensures forall p :: cx.pathPredicate.value.f((), p) == Step(true, RenamePath(from, to, p), ())
    ensures cx.identPredicate.Some? && forall id :: cx.identPredicate.value((), id) == RenameIdent(from, to, id)
  {
    Context(None, None, None,
            Some(Custom((s: (), p: SynPath) => Step(true, RenamePath(from, to, p), s))),
            Some((s: (), id: Ident) => RenameIdent(from, to, id)))
  }

  /** `rename::from_item`, `from_type` and `from_expr`. */
  function RenameItem(item: Item, from: string, to: string): (r: Result<Item>)
    ensures r.Ok? ==> r.value.Struct? == item.Struct? && r.value.Fn? == item.Fn? && r.value.Other? == item.Other?
  {
    var w :- WalkItem(RenameContext(from, to), (), item);
    Ok(w.node)
  }

  function RenameType(t: Type, from: string, to: string): Result<Type> {
    var w :- WalkType(RenameContext(from, to), (), t);
    Ok(w.node)
  }

  function RenameExpr(e: Expr, from: string, to: string): Result<Expr> {
    var w :- WalkExpr(RenameContext(from, to), (), e);
    Ok(w.node)
  }

  /** A path type is renamed as a whole by the path predicate: its top-level
      segments are renamed and nothing inside their arguments is. */
  lemma RenamePathType(p: SynPath, from: string, to: string)
    ensures RenameType(PathType(None, p), from, to) == Ok(PathType(None, RenamePath(from, to, p)))
  {
    var cx := RenameContext(from, to);
    var t := PathType(None, p);
    assert WalkType(cx, (), t) == WalkTypeChildren(cx, (), t);
    assert WalkOptType(cx, (), None) == Ok(Walked((), None));
    assert PredictPath(cx, (), p) == Ok(Step(true, RenamePath(from, to, p), ()));
    assert WalkPath(cx, (), p) == Ok(Walked((), RenamePath(from, to, p)));
  }

  /** So `Option<Foo>` renamed from `Foo` to `Bar` keeps `Foo`. */
  lemma RenameKeepsGenericArguments()
    ensures var foo := PathType(None, SynPath(false, [Segment("Foo", NoArgs)]));
      var option := PathType(None, SynPath(false, [Segment("Option", Angle([TypeArg(foo)]))]));
      RenameType(option, "Foo", "Bar") == Ok(option)
  {
    var foo := PathType(None, SynPath(false, [Segment("Foo", NoArgs)]));
    var p := SynPath(false, [Segment("Option", Angle([TypeArg(foo)]))]);
    RenamePathType(p, "Foo", "Bar");
    assert RenameSegments(p.segments, "Foo", "Bar") == p.segments;
  }

  /** The leading `::` is dropped even when nothing matches. */
  lemma RenameDropsLeadingColon(p: SynPath, from: string, to: string)
    requires forall i :: 0 <= i < |p.segments| ==> p.segments[i].name != from
    ensures RenameType(PathType(None, p), from, to) == Ok(PathType(None, SynPath(false, p.segments)))
  {
    RenamePathType(p, from, to);
    assert RenameSegments(p.segments, from, to) == p.segments;
  }

  /** An identifier pattern gives its name to the ident predicate. */
  lemma RenameLetBinding(name: Ident, to: string, value: Expr)
    requires !StartsWith(to, "r#")
    requires WalkExpr(RenameContext(name, to), (), value).Ok?
    ensures var w := WalkStmt(RenameContext(name, to), (), Local(IdentPat(name, None), Some(LocalInit(value, None))));
      w.Ok? && w.value.node.Local? && w.value.node.pat == IdentPat(to, None)
  {
    var cx := RenameContext(name, to);
    var st := Local(IdentPat(name, None), Some(LocalInit(value, None)));
    assert WalkStmt(cx, (), st) == WalkStmtChildren(cx, (), st);
    assert WalkPat(cx, (), IdentPat(name, None)) == Ok(Walked((), IdentPat(to, None)));
  }

  // ---------------------------------------------------------------------
  // TrimPath (`functions/trim_path.rs`)

  /** `trim_path::from_type` and `from_expr`. */
  function TrimPathType(t: Type, prefix: Path): Result<Type> {
    var w :- WalkType(TrimPathContext(prefix), (), t);
    Ok(w.node)
  }

  function TrimPathExpr(e: Expr, prefix: Path): Result<Expr> {
    var w :- WalkExpr(TrimPathContext(prefix), (), e);
    Ok(w.node)
  }

  function TrimPathItem(item: Item, prefix: Path): Result<Item> {
    var w :- WalkItem(TrimPathContext(prefix), (), item);
    Ok(w.node)
  }

  /** A path type of several segments is trimmed exactly when `TrimsAt`
      holds of its names, losing `Dropped` leading names and its leading
      `::`; otherwise it is given back as it was. */
  lemma TrimPathTypeCloses(p: SynPath, prefix: Path)
    requires |p.segments| >= 2
    requires TrimStart(FromSynPath(p), prefix).Ok?
    ensures var names := Names(p.segments);
      var pre := Names(prefix.segments);
      var r := TrimPathType(PathType(None, p), prefix);
      && r.Ok? && r.value.PathType? && r.value.qself.None?
      && (TrimsAt(names, pre) ==> !r.value.path.leadingColon && Names(r.value.path.segments) == names[Dropped(names, pre)..])
      && (!TrimsAt(names, pre) ==> r.value == PathType(None, p))
  {
    var cx := TrimPathContext(prefix);
    var t := PathType(None, p);
    assert WalkType(cx, (), t) == WalkTypeChildren(cx, (), t);
    assert WalkOptType(cx, (), None) == Ok(Walked((), None));
    var step := TrimPathPredicate(prefix, (), p);
    assert PredictPath(cx, (), p) == step;
    assert step.Ok?;
    assert WalkPath(cx, (), p) == Ok(Walked((), step.value.node));
    assert TrimPathType(t, prefix) == Ok(PathType(None, step.value.node));
    TrimStartCloses(FromSynPath(p), prefix);
  }

  /** A one-segment path is never trimmed, and neither is anything inside its
      arguments: `Option<std::path::PathBuf>` stays as it is. */
  lemma TrimPathSkipsOneSegment(name: Ident, args: PathArgs, prefix: Path)
    ensures var t := PathType(None, SynPath(false, [Segment(name, args)]));
      TrimPathType(t, prefix) == Ok(t)
  {
    var cx := TrimPathContext(prefix);
    var p := SynPath(false, [Segment(name, args)]);
    var t := PathType(None, p);
    assert WalkType(cx, (), t) == WalkTypeChildren(cx, (), t);
    assert WalkOptType(cx, (), None) == Ok(Walked((), None));
    assert PredictPath(cx, (), p) == Ok(Step(false, p, ()));
    assert WalkPath(cx, (), p) == Ok(Walked((), p));
  }

  function Bare(names: seq<Ident>): (r: seq<Segment>)
    ensures |r| == |names| && Names(r) == names
    ensures forall i :: 0 <= i < |names| ==> r[i] == Segment(names[i], NoArgs)
  {
    if |names| == 0 then [] else [Segment(names[0], NoArgs)] + Bare(names[1..])
  }

  /** `std::path::PathBuf` trimmed by `std::path` is `PathBuf`. */
  lemma TrimStdPath()
    ensures TrimPathType(PathType(None, SynPath(false, Bare(["std", "path", "PathBuf"]))), Path(Bare(["std", "path"])))
         == Ok(PathType(None, SynPath(false, Bare(["PathBuf"]))))
  {
    var p := SynPath(false, Bare(["std", "path", "PathBuf"]));
    var prefix := Path(Bare(["std", "path"]));
    var names := Names(p.segments);
    var pre := Names(prefix.segments);
    assert TrimSegmentArgs(prefix, p.segments[0]) == Ok(p.segments[0]);
    assert TrimSegmentArgs(prefix, p.segments[1]) == Ok(p.segments[1]);
    TrimPathTypeCloses(p, prefix);
    assert Dropped(names, pre) == 2;
    var r := TrimPathType(PathType(None, p), prefix).value;
    assert |r.path.segments| == 1 && r.path.segments[0].name == "PathBuf";
    assert r.path.segments[0].args == NoArgs by {
      assert TrimScan(prefix, [p.segments[0]], p.segments[1..], ["path"], 2)
          == Ok(Trim(true, Path(([p.segments[0]] + [p.segments[1]] + p.segments[2..])[2..])));
    }
  }

  /** A mismatch only consumes a prefix name: `x::path::PathBuf` trimmed by
      `std::path` is `path::PathBuf`. */
  lemma TrimMismatchContinues()
    ensures var r := TrimPathType(PathType(None, SynPath(false, Bare(["x", "path", "PathBuf"]))), Path(Bare(["std", "path"])));
      r.Ok? && Names(r.value.path.segments) == ["path", "PathBuf"]
  {
    var p := SynPath(false, Bare(["x", "path", "PathBuf"]));
    var prefix := Path(Bare(["std", "path"]));
    var names := Names(p.segments);
    var pre := Names(prefix.segments);
    assert TrimSegmentArgs(prefix, p.segments[0]) == Ok(p.segments[0]);
    assert TrimSegmentArgs(prefix, p.segments[1]) == Ok(p.segments[1]);
    TrimPathTypeCloses(p, prefix);
    assert Dropped(names, pre) == 1;
  }

  /** `trim_start` on its own empties a one-segment path equal to the
      prefix; only the predicate's guard prevents that. */
  lemma TrimStartEmptiesOneSegment(name: Ident)
    ensures TrimStart(Path([Segment(name, NoArgs)]), Path([Segment(name, NoArgs)])) == Ok(Trim(true, Path([])))
  {
  }

  // ---------------------------------------------------------------------
  // Transform (`functions/transform.rs`)

  /** The rewrite never grows an expression it declines. */
  ghost predicate ShrinkingRewrite<S(!new)>(f: (S, Expr) -> Step<S, Expr>) {
    forall s, e :: !f(s, e).handled ==> SizeExpr(f(s, e).node) <= SizeExpr(e)
  }

  /** `transform::create_context`: the expression slot only. */
  function TransformContext<S(!new)>(f: (S, Expr) -> Step<S, Expr>): (cx: Context<S>)
    requires ShrinkingRewrite(f)
    ensures Shrinking(cx)
    ensures cx.exprPredicate == Some(f)
    ensures cx.typePredicate.None? && cx.stmtPredicate.None? && cx.pathPredicate.None? && cx.identPredicate.None?
  {
    Context(None, Some(f), None, None, None)
  }

  /** `transform::from_expr`: the caller's state goes in and comes out, so it
      persists from one call to the next. A handled expression is the
      rewrite's result as it stands. */
  function TransformExpr<S(!new)>(f: (S, Expr) -> Step<S, Expr>, s: S, e: Expr): (r: Result<Walked<S, Expr>>)
    requires ShrinkingRewrite(f)
    ensures f(s, e).handled ==> r == Ok(Walked(f(s, e).state, f(s, e).node))
  {
    WalkExpr(TransformContext(f), s, e)
  }

  function TransformType<S(!new)>(f: (S, Expr) -> Step<S, Expr>, s: S, t: Type): Result<Walked<S, Type>>
    requires ShrinkingRewrite(f)
  {
    WalkType(TransformContext(f), s, t)
  }

  function TransformStmt<S(!new)>(f: (S, Expr) -> Step<S, Expr>, s: S, st: Stmt): Result<Walked<S, Stmt>>
    requires ShrinkingRewrite(f)
  {
    WalkStmt(TransformContext(f), s, st)
  }

  function TransformItem<S(!new)>(f: (S, Expr) -> Step<S, Expr>, s: S, item: Item): Result<Walked<S, Item>>
    requires ShrinkingRewrite(f)
  {
    WalkItem(TransformContext(f), s, item)
  }

  /** A rewrite that never handles and never rewrites changes nothing: the
      item comes back as it was, and the state is the rewrite folded over the
      expressions the walk visits, in order. */
  lemma TransformPassive<S(!new)>(f: (S, Expr) -> Step<S, Expr>, s: S, item: Item)
    requires forall s, e :: !f(s, e).handled && f(s, e).node == e
    ensures var order := ItemOrder(false, item);
      TransformItem(f, s, item) == (if order.Ok? then Ok(Walked(Fold(TransformContext(f), s, order.value), item)) else Abort(order.reason))
  {
    ItemReplays(TransformContext(f), s, item);
  }

  /** `from_type` with the same passive rewrite. */
  lemma TransformTypePassive<S(!new)>(f: (S, Expr) -> Step<S, Expr>, s: S, t: Type)
    requires forall s, e :: !f(s, e).handled && f(s, e).node == e
    ensures var order := TypeOrder(false, t);
      TransformType(f, s, t) == (if order.Ok? then Ok(Walked(Fold(TransformContext(f), s, order.value), t)) else Abort(order.reason))
  {
    TypeReplays(TransformContext(f), s, t);
  }

  /** `from_stmt` with the same passive rewrite. */
  lemma TransformStmtPassive<S(!new)>(f: (S, Expr) -> Step<S, Expr>, s: S, st: Stmt)
    requires forall s, e :: !f(s, e).handled && f(s, e).node == e
    ensures var order := StmtOrder(false, st);
      TransformStmt(f, s, st) == (if order.Ok? then Ok(Walked(Fold(TransformContext(f), s, order.value), st)) else Abort(order.reason))
  {
    StmtReplays(TransformContext(f), s, st);
  }
}
