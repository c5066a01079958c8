/** The crate's own scoped name, `utils::path::Path`: a list of segments with
    no leading `::`, and the identifier constructor of `utils/mod.rs`. Trimming
    a prefix walks nested types and therefore lives with the walkers. */
module Paths {
  import opened Base
  import opened Syntax

  datatype Path = Path(segments: seq<Segment>)

  /** The segment names, in order. */
  function Names(segments: seq<Segment>): (r: seq<Ident>)
    ensures |r| == |segments|
    ensures forall i :: 0 <= i < |segments| ==> r[i] == segments[i].name
  {
    if |segments| == 0 then [] else [segments[0].name] + Names(segments[1..])
  }

  lemma NamesAppend(a: seq<Segment>, b: seq<Segment>)
    ensures Names(a + b) == Names(a) + Names(b)
  {
  }

  /** `create_ident`: a name starting with `r#` becomes a raw identifier, with
      every `r#` removed from its text first; any other name is kept as it is.
      The printed form of the identifier is the result. */
  function CreateIdent(name: string): (r: Ident)
    ensures StartsWith(r, "r#") <==> StartsWith(name, "r#")
    ensures |r| <= |name|
    ensures !StartsWith(name, "r#") ==> r == name
  {
    if StartsWith(name, "r#") then "r#" + RemoveAll(name, "r#") else name
  }

  /** An identifier's printed form never holds a second `r#`, and
      `create_ident` gives such a form back unchanged. */
  lemma CreateIdentKeepsPrinted(name: string)
    requires StartsWith(name, "r#") ==> !Occurs(name[2..], "r#")
    ensures CreateIdent(name) == name
  {
    if StartsWith(name, "r#") {
      assert name == "r#" + name[2..];
      assert RemoveAll(name, "r#") == RemoveAll(name[2..], "r#");
    }
  }

  /** `Path::new`: exactly one segment, without arguments. */
  function NewPath(name: string): (r: Path)
    ensures |r.segments| == 1
    ensures r.segments[0] == Segment(CreateIdent(name), NoArgs)
  {
    Path([Segment(CreateIdent(name), NoArgs)])
  }

  /** `Path::join`: one bare segment appended, earlier segments unchanged. */
  function JoinSegment(p: Path, name: string): (r: Path)
    ensures |r.segments| == |p.segments| + 1
    ensures r.segments[..|p.segments|] == p.segments
    ensures r.segments[|p.segments|] == Segment(CreateIdent(name), NoArgs)
  {
    Path(p.segments + [Segment(CreateIdent(name), NoArgs)])
  }

  /** `to_syn_path`: the same segments, never a leading `::`. */
  function ToSynPath(p: Path): (r: SynPath)
    ensures !r.leadingColon && r.segments == p.segments
  {
    SynPath(false, p.segments)
  }

  /** `Path::from(syn::Path)`: keeps the segments and drops the leading `::`. */
  function FromSynPath(p: SynPath): (r: Path)
    ensures r.segments == p.segments
  {
    Path(p.segments)
  }

  lemma SynPathRoundTrip(p: Path, q: SynPath)
    ensures FromSynPath(ToSynPath(p)) == p
    ensures ToSynPath(FromSynPath(q)) == q <==> !q.leadingColon
  {
  }

  /** A path used as a type argument: `Type::Path` without a qualified self. */
  function AsType(p: Path): Type {
    PathType(None, ToSynPath(p))
  }

  function Last(p: Path): Segment
    requires |p.segments| > 0
  {
    p.segments[|p.segments| - 1]
  }

  /** The last segment with its arguments replaced. */
  function ReplaceLastArgs(p: Path, args: PathArgs): (r: Path)
    requires |p.segments| > 0
    ensures |r.segments| == |p.segments|
    ensures r.segments[..|p.segments| - 1] == p.segments[..|p.segments| - 1]
    ensures Last(r) == Segment(Last(p).name, args)
  {
    Path(p.segments[|p.segments| - 1 := Segment(Last(p).name, args)])
  }

  /** `internal_with_angle_argument`: a bare last segment first gets an empty
      `<>`; then the argument is appended to the angle list. An empty path and
      a parenthesised last segment abort. */
  function WithAngleArgument(p: Path, arg: GenericArgument): (r: Result<Path>)
    ensures r.Ok? <==> |p.segments| > 0 && !Last(p).args.Parenthesized?
    ensures r.Ok? ==> |r.value.segments| == |p.segments|
    ensures r.Ok? ==> r.value.segments[..|p.segments| - 1] == p.segments[..|p.segments| - 1]
    ensures r.Ok? ==> Last(r.value).name == Last(p).name
    ensures r.Ok? ==> Last(r.value).args == Angle(AngleList(Last(p).args) + [arg])
  {
    if |p.segments| == 0 then Abort("called `Option::unwrap()` on a `None` value")
    else
      var args := if Last(p).args == NoArgs then Angle([]) else Last(p).args;
      match args
      case Angle(list) => Ok(ReplaceLastArgs(p, Angle(list + [arg])))
      case _ => Abort("Unsupported path arguments")
  }

  /** The angle-bracket list of a segment's arguments; empty when there is none. */
  function AngleList(args: PathArgs): seq<GenericArgument> {
    if args.Angle? then args.args else []
  }

  function ParenInputs(args: PathArgs): seq<Type> {
    if args.Parenthesized? then args.inputs else []
  }

  function ParenOutput(args: PathArgs): Option<Type> {
    if args.Parenthesized? then args.output else None
  }

  /** `internal_with_parenthesized_argument`: as above for `(..)` inputs; an
      angle-bracketed last segment aborts. */
  function WithParenthesizedArgument(p: Path, input: Type): (r: Result<Path>)
    ensures r.Ok? <==> |p.segments| > 0 && !Last(p).args.Angle?
    ensures r.Ok? ==> |r.value.segments| == |p.segments|
    ensures r.Ok? ==> r.value.segments[..|p.segments| - 1] == p.segments[..|p.segments| - 1]
    ensures r.Ok? ==> Last(r.value).name == Last(p).name
    ensures r.Ok? && Last(p).args.Parenthesized? ==> Last(r.value).args == Parenthesized(Last(p).args.inputs + [input], Last(p).args.output)
    ensures r.Ok? && Last(p).args.NoArgs? ==> Last(r.value).args == Parenthesized([input], None)
  {
    if |p.segments| == 0 then Abort("called `Option::unwrap()` on a `None` value")
    else
      var args := if Last(p).args == NoArgs then Parenthesized([], None) else Last(p).args;
      match args
      case Parenthesized(inputs, output) =>
        assert Last(p).args.NoArgs? ==> inputs + [input] == [input];
        Ok(ReplaceLastArgs(p, Parenthesized(inputs + [input], output)))
      case _ => Abort("Unsupported path arguments")
  }

  /** `Path::with`: the argument path becomes a type argument in `<..>`. */
  function With(p: Path, argument: Path): (r: Result<Path>)
    ensures r.Ok? <==> |p.segments| > 0 && !Last(p).args.Parenthesized?
    ensures r.Ok? ==> |r.value.segments| == |p.segments|
    ensures r.Ok? ==> r.value.segments[..|p.segments| - 1] == p.segments[..|p.segments| - 1]
    ensures r.Ok? ==> Last(r.value).name == Last(p).name
    ensures r.Ok? ==> Last(r.value).args == Angle(AngleList(Last(p).args) + [TypeArg(AsType(argument))])
  {
    WithAngleArgument(p, TypeArg(AsType(argument)))
  }

  /** `Path::with_parameter`: the argument path becomes an input in `(..)`. */
  function WithParameter(p: Path, argument: Path): (r: Result<Path>)
    ensures r.Ok? <==> |p.segments| > 0 && !Last(p).args.Angle?
    ensures r.Ok? ==> |r.value.segments| == |p.segments|
    ensures r.Ok? ==> r.value.segments[..|p.segments| - 1] == p.segments[..|p.segments| - 1]
    ensures r.Ok? ==> Last(r.value).name == Last(p).name
    ensures r.Ok? ==> Last(r.value).args == Parenthesized(ParenInputs(Last(p).args) + [AsType(argument)], ParenOutput(Last(p).args))
  {
    WithParenthesizedArgument(p, AsType(argument))
  }

  /** Mixing the two argument kinds on one segment aborts, in either order. */
  lemma MixedArgumentsAbort(p: Path, a: Path, b: Path)
    requires |p.segments| > 0 && Last(p).args.NoArgs?
    ensures With(p, a).Ok? && WithParameter(With(p, a).value, b).Abort?
    ensures WithParameter(p, a).Ok? && With(WithParameter(p, a).value, b).Abort?
  {
  }

  /** Repeated `with` calls append in call order. */
  lemma WithAppendsInOrder(p: Path, a: Path, b: Path)
    requires |p.segments| > 0 && Last(p).args.NoArgs?
    ensures With(p, a).Ok? && With(With(p, a).value, b).Ok?
    ensures Last(With(With(p, a).value, b).value).args == Angle([TypeArg(AsType(a)), TypeArg(AsType(b))])
    ensures With(With(p, a).value, b).value.segments[..|p.segments| - 1] == p.segments[..|p.segments| - 1]
  {
    var q := With(p, a).value;
    assert Last(q).args == Angle([TypeArg(AsType(a))]);
    assert q.segments[..|p.segments| - 1] == p.segments[..|p.segments| - 1];
  }

  /** `create_generic_type`: every argument, in order, in one `<..>` on a single
      base segment; an empty argument list aborts. */
  function CreateGenericType(ty: string, arguments: seq<Path>): (r: Result<Path>)
    ensures r.Ok? <==> |arguments| > 0
    ensures r.Ok? ==> |r.value.segments| == 1 && r.value.segments[0].name == CreateIdent(ty)
    ensures r.Ok? ==> r.value.segments[0].args == Angle(TypeArgs(arguments))
  {
    if |arguments| == 0 then Abort("Passed arguments is empty")
    else WithAll(NewPath(ty), arguments)
  }

  /** The type arguments `with` makes of a list of paths. */
  function TypeArgs(paths: seq<Path>): (r: seq<GenericArgument>)
    ensures |r| == |paths|
    ensures forall i :: 0 <= i < |paths| ==> r[i] == TypeArg(AsType(paths[i]))
  {
    if |paths| == 0 then [] else [TypeArg(AsType(paths[0]))] + TypeArgs(paths[1..])
  }

  /** `with` applied to each argument in turn. */
  function WithAll(p: Path, arguments: seq<Path>): (r: Result<Path>)
    requires |p.segments| == 1 && !p.segments[0].args.Parenthesized?
    ensures r.Ok?
    ensures |r.value.segments| == 1 && r.value.segments[0].name == p.segments[0].name
    ensures |arguments| > 0 ==> r.value.segments[0].args == Angle(AngleList(p.segments[0].args) + TypeArgs(arguments))
    ensures |arguments| == 0 ==> r == Ok(p)
    decreases |arguments|
  {
    if |arguments| == 0 then Ok(p)
    else
      var q := With(p, arguments[0]).value;
      AppendTypeArgs(AngleList(p.segments[0].args), arguments);
      WithAll(q, arguments[1..])
  }

  lemma AppendTypeArgs(front: seq<GenericArgument>, arguments: seq<Path>)
    requires |arguments| > 0
    ensures front + TypeArgs(arguments) == (front + [TypeArg(AsType(arguments[0]))]) + TypeArgs(arguments[1..])
  {
    assert TypeArgs(arguments) == [TypeArg(AsType(arguments[0]))] + TypeArgs(arguments[1..]);
  }

  /** The paths `flatten` accepts: non-empty, and so is every type path
      nested in the last segment's angle list, at any depth. */
  predicate Flattenable(p: Path)
    decreases SizeSegments(p.segments), 1
  {
    if |p.segments| == 0 then false
    else match Last(p).args
      case Angle(list) =>
        LastArgsSmaller(p.segments);
        FlattenableArgs(list)
      case _ => true
  }

  predicate FlattenableArgs(args: seq<GenericArgument>)
    decreases SizeGenericArgs(args), 0
  {
    if |args| == 0 then true
    else
      (IsTypePath(args[0]) ==> (TypePathSmaller(args); Flattenable(FromSynPath(args[0].ty.path))))
      && FlattenableArgs(args[1..])
  }

  /** The shape `flatten` produces: a single segment, and every type path in
      its angle list is itself flat and written without a leading `::`. */
  predicate Flat(p: Path)
    decreases SizeSegments(p.segments), 1
  {
    if |p.segments| != 1 then false
    else match Last(p).args
      case Angle(list) =>
        LastArgsSmaller(p.segments);
        FlatArgs(list)
      case _ => true
  }

  predicate FlatArgs(args: seq<GenericArgument>)
    decreases SizeGenericArgs(args), 0
  {
    if |args| == 0 then true
    else
      (IsTypePath(args[0]) ==> (TypePathSmaller(args); !args[0].ty.path.leadingColon && Flat(FromSynPath(args[0].ty.path))))
      && FlatArgs(args[1..])
  }

  /** Flattening keeps only the last segment; inside its angle list, every
      type argument that is a path is itself flattened. An empty path, here
      or nested, aborts on `last().unwrap()`. */
  function Flatten(p: Path): (r: Result<Path>)
    ensures r.Ok? <==> Flattenable(p)
    ensures r.Ok? ==> Flat(r.value)
    ensures r.Ok? ==> |r.value.segments| == 1 && r.value.segments[0].name == Last(p).name
    ensures r.Ok? ==> r.value.segments[0].args.Angle? == Last(p).args.Angle?
    ensures r.Ok? && !Last(p).args.Angle? ==> r.value.segments[0] == Last(p)
    ensures r.Ok? && Last(p).args.Angle? ==> |r.value.segments[0].args.args| == |Last(p).args.args|
    decreases SizeSegments(p.segments), 2
  {
    if |p.segments| == 0 then Abort("called `Option::unwrap()` on a `None` value")
    else
      var last := Last(p);
      match last.args
      case Angle(list) =>
        LastArgsSmaller(p.segments);
        var flat :- FlattenArgs(list);
        Ok(Path([Segment(last.name, Angle(flat))]))
      case _ => Ok(Path([last]))
  }

  /** Flattens each type-path argument in place, keeping the list's length. */
  function FlattenArgs(args: seq<GenericArgument>): (r: Result<seq<GenericArgument>>)
    ensures r.Ok? <==> FlattenableArgs(args)
    ensures r.Ok? ==> FlatArgs(r.value)
    ensures r.Ok? ==> |r.value| == |args|
    ensures r.Ok? ==> forall i :: 0 <= i < |args| && !IsTypePath(args[i]) ==> r.value[i] == args[i]
    decreases SizeGenericArgs(args), 1
  {
    if |args| == 0 then Ok([])
    else
      var head :- if IsTypePath(args[0]) then FlattenTypeArg(args) else Ok(args[0]);
      var tail :- FlattenArgs(args[1..]);
      assert ([head] + tail)[1..] == tail;
      Ok([head] + tail)
  }

  /** The first argument, a type path, with its path flattened and its
      qualified self kept. */
  function FlattenTypeArg(args: seq<GenericArgument>): (r: Result<GenericArgument>)
    requires |args| > 0 && IsTypePath(args[0])
    ensures r.Ok? <==> Flattenable(FromSynPath(args[0].ty.path))
    ensures r.Ok? ==> IsTypePath(r.value) && r.value.ty.qself == args[0].ty.qself
    ensures r.Ok? ==> !r.value.ty.path.leadingColon && Flat(FromSynPath(r.value.ty.path))
    decreases SizeGenericArgs(args), 0
  {
    TypePathSmaller(args);
    var flat :- Flatten(FromSynPath(args[0].ty.path));
    Ok(TypeArg(PathType(args[0].ty.qself, ToSynPath(flat))))
  }

  /** Each type-path argument becomes the flattened form of its own path,
      under the same qualified self. */
  lemma {:induction false} FlattenArgsEach(args: seq<GenericArgument>, i: nat)
    requires FlattenArgs(args).Ok? && i < |args| && IsTypePath(args[i])
    ensures Flatten(FromSynPath(args[i].ty.path)).Ok?
    ensures FlattenArgs(args).value[i] == TypeArg(PathType(args[i].ty.qself, ToSynPath(Flatten(FromSynPath(args[i].ty.path)).value)))
    decreases i
  {
    if i > 0 {
      FlattenArgsEach(args[1..], i - 1);
    }
  }

  /** A flat path is a fixed point of `flatten`. */
  lemma {:induction false} FlatFixed(p: Path)
    requires Flat(p)
    ensures Flatten(p) == Ok(p)
    decreases SizeSegments(p.segments), 1
  {
    assert p.segments == [Last(p)];
    if Last(p).args.Angle? {
      LastArgsSmaller(p.segments);
      FlatArgsFixed(Last(p).args.args);
    }
  }

  lemma {:induction false} FlatArgsFixed(args: seq<GenericArgument>)
    requires FlatArgs(args)
    ensures FlattenArgs(args) == Ok(args)
    decreases SizeGenericArgs(args), 0
  {
    if |args| > 0 {
      if IsTypePath(args[0]) {
        TypePathSmaller(args);
        FlatFixed(FromSynPath(args[0].ty.path));
        SynPathRoundTrip(FromSynPath(args[0].ty.path), args[0].ty.path);
      }
      FlatArgsFixed(args[1..]);
      assert args == [args[0]] + args[1..];
    }
  }

  /** Flattening twice is flattening once. */
  lemma FlattenIdempotent(p: Path)
    requires Flatten(p).Ok?
    ensures Flatten(Flatten(p).value) == Flatten(p)
  {
    FlatFixed(Flatten(p).value);
  }

  predicate IsTypePath(arg: GenericArgument) {
    arg.TypeArg? && arg.ty.PathType?
  }

  lemma TypePathSmaller(args: seq<GenericArgument>)
    requires |args| > 0 && IsTypePath(args[0])
    ensures SizeSegments(args[0].ty.path.segments) < SizeGenericArgs(args)
  {
    assert SizeType(args[0].ty) > SizePath(args[0].ty.path);
    assert SizeGenericArg(args[0]) > SizeType(args[0].ty);
  }

  lemma {:induction false} LastArgsSmaller(segments: seq<Segment>)
    requires |segments| > 0
    ensures SizePathArgs(segments[|segments| - 1].args) < SizeSegments(segments)
    decreases |segments|
  {
    if |segments| > 1 {
      LastArgsSmaller(segments[1..]);
      assert segments[1..][|segments[1..]| - 1] == segments[|segments| - 1];
    }
  }

  /** The paths of the type-path arguments, in order; other arguments are
      skipped. */
  function TypePaths(args: seq<GenericArgument>): (r: seq<Path>)
    ensures |r| <= |args|
    ensures forall i :: 0 <= i < |args| && IsTypePath(args[i]) ==> FromSynPath(args[i].ty.path) in r
    ensures forall q :: q in r ==> exists i :: 0 <= i < |args| && IsTypePath(args[i]) && q == FromSynPath(args[i].ty.path)
  {
    if |args| == 0 then []
    else if IsTypePath(args[0]) then [FromSynPath(args[0].ty.path)] + TypePaths(args[1..])
    else TypePaths(args[1..])
  }

  /** `decompose_arguments`: the type-path arguments of the last segment's
      angle list; an empty path or a last segment without an angle list is an
      error. */
  function DecomposeArguments(p: Path): (r: Result<seq<Path>>)
    ensures r.Ok? <==> |p.segments| > 0 && Last(p).args.Angle?
    ensures r.Ok? ==> r.value == TypePaths(Last(p).args.args)
  {
    if |p.segments| == 0 then Abort("Empty path")
    else match Last(p).args
      case Angle(list) => Ok(TypePaths(list))
      case _ => Abort("Unexpected arguments type")
  }

  /** Extraction distributes over concatenation, and a single argument gives
      its path exactly when it is a type path: so the result is the type-path
      arguments' paths, each once, in order. */
  lemma {:induction false} TypePathsAppend(a: seq<GenericArgument>, b: seq<GenericArgument>)
    ensures TypePaths(a + b) == TypePaths(a) + TypePaths(b)
    ensures |a| == 1 ==> TypePaths(a) == (if IsTypePath(a[0]) then [FromSynPath(a[0].ty.path)] else [])
    decreases |a|
  {
    if |a| > 0 {
      assert (a + b)[1..] == a[1..] + b;
      TypePathsAppend(a[1..], b);
    } else {
      assert a + b == b;
    }
  }

  lemma {:induction false} TypePathsOfTypeArgs(paths: seq<Path>)
    ensures TypePaths(TypeArgs(paths)) == paths
  {
    if |paths| > 0 {
      var args := TypeArgs(paths);
      assert args[1..] == TypeArgs(paths[1..]);
      assert IsTypePath(args[0]) && FromSynPath(args[0].ty.path) == paths[0];
      TypePathsOfTypeArgs(paths[1..]);
      assert TypePaths(args) == [paths[0]] + TypePaths(args[1..]);
    }
  }

  /** Decomposing a generic type gives back the arguments it was built from. */
  lemma DecomposeGenericType(ty: string, arguments: seq<Path>)
    requires |arguments| > 0
    ensures CreateGenericType(ty, arguments).Ok?
    ensures DecomposeArguments(CreateGenericType(ty, arguments).value) == Ok(arguments)
  {
    var p := CreateGenericType(ty, arguments).value;
    assert |p.segments| == 1 && Last(p) == p.segments[0];
    assert Last(p).args == Angle(TypeArgs(arguments));
    TypePathsOfTypeArgs(arguments);
    assert DecomposeArguments(p) == Ok(TypePaths(TypeArgs(arguments)));
  }
}
