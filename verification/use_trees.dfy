/** `use` declarations: the tree of a `use` item, the crate's prefix test and
    prefix trimming on it (`items/use_item.rs`), and the builders of
    `utils/mod.rs` that make such trees from a `Path`.

    Both walks of `use_item.rs` pop one prefix name per `Path` node from a
    queue. A `Path` node that mismatches the last queued name does not stop
    the walk: the walk goes on below it with an empty queue, and a further
    `Path` node then pops from that empty queue and aborts. */
module UseTrees {
  import opened Base
  import opened Syntax
  import opened Paths

  /** `syn::UseTree`. */
  datatype UseTree =
    | UsePath(name: Ident, tree: UseTree)
    | UseName(name: Ident)
    | UseRename(name: Ident, rename: Ident)
    | UseGlob
    | UseGroup(items: seq<UseTree>)

  /** `syn::ItemUse`; attributes and visibility are not represented. */
  datatype UseItem = UseItem(leadingColon: bool, tree: UseTree)

  const UnwrapNone := "called `Option::unwrap()` on a `None` value"

  // ---------------------------------------------------------------------
  // Reference shapes

  /** The names of the leading `Path` nodes. */
  function PathNames(t: UseTree): seq<Ident> {
    if t.UsePath? then [t.name] + PathNames(t.tree) else []
  }

  /** The names a prefix can be matched against: the leading `Path` nodes,
      then the `Name` node they end in, if they end in one. */
  function Spine(t: UseTree): seq<Ident> {
    match t
    case UsePath(name, sub) => [name] + Spine(sub)
    case UseName(name) => [name]
    case _ => []
  }

  /** The tree below the first `k` `Path` nodes. */
  function Descend(t: UseTree, k: nat): (r: UseTree)
    requires k <= |PathNames(t)|
    ensures PathNames(r) == PathNames(t)[k..]
  {
    if k == 0 then t else Descend(t.tree, k - 1)
  }

  /** Where the walk of a prefix `q` aborts: below the last `Path` node it
      compares, there is a further `Path` node, and that last comparison
      failed (or there was none, for an empty `q`). */
  predicate WalkAborts(t: UseTree, q: seq<Ident>) {
    && |PathNames(t)| > |q|
    && (|q| == 0 || (q[..|q| - 1] <= PathNames(t) && PathNames(t)[|q| - 1] != q[|q| - 1]))
  }

  // ---------------------------------------------------------------------
  // `UseItem::start_with` and `UseItem::trim_path_prefix`

  /** The inner `walk` of `start_with`, with the prefix names as a queue. */
  function StartWalk(t: UseTree, q: seq<Ident>): Result<bool> {
    match t
    case UsePath(name, sub) =>
      if |q| == 0 then Abort(UnwrapNone)
      else if name != q[0] && |q| > 1 then Ok(false)
      else if name == q[0] && |q| == 1 then Ok(true)
      else StartWalk(sub, q[1..])
    case UseName(name) =>
      if |q| == 0 then Ok(false)
      else Ok(name == q[0] && |q| == 1)
    case _ => Ok(false)
  }

  /** The inner `walk` of `trim_path_prefix`: the same steps, answering with
      the tree that remains after the prefix. */
  function TrimWalk(t: UseTree, q: seq<Ident>): Result<Option<UseTree>> {
    match t
    case UsePath(name, sub) =>
      if |q| == 0 then Abort(UnwrapNone)
      else if name != q[0] && |q| > 1 then Ok(None)
      else if name == q[0] && |q| == 1 then Ok(Some(sub))
      else TrimWalk(sub, q[1..])
    case UseName(name) =>
      if |q| == 0 then Ok(None)
      else if name == q[0] && |q| == 1 then Ok(Some(t))
      else Ok(None)
    case _ => Ok(None)
  }

  /** `start_with`: whether the use item begins with the prefix's names. */
  function StartWith(u: UseItem, prefix: Path): (r: Result<bool>)
    ensures r.Abort? <==> WalkAborts(u.tree, Names(prefix.segments))
    ensures r.Ok? ==> (r.value <==> 1 <= |prefix.segments| && Names(prefix.segments) <= Spine(u.tree))
  {
    StartWalkCloses(u.tree, Names(prefix.segments));
    StartWalk(u.tree, Names(prefix.segments))
  }

  /** `trim_path_prefix`'s answer and the use item it leaves. */
  datatype UseTrim = UseTrim(trimmed: bool, item: UseItem)

  /** `trim_path_prefix`: on a match the tree is replaced by what follows the
      prefix; otherwise the item is left as it is. */
  function TrimPathPrefix(u: UseItem, prefix: Path): (r: Result<UseTrim>)
    ensures r.Ok? && !r.value.trimmed ==> r.value.item == u
    ensures r.Ok? ==> r.value.item.leadingColon == u.leadingColon
  {
    var t :- TrimWalk(u.tree, Names(prefix.segments));
    if t.None? then Ok(UseTrim(false, u))
    else Ok(UseTrim(true, UseItem(u.leadingColon, t.value)))
  }

  // ---------------------------------------------------------------------
  // Properties of the walks

  /** The walk of `start_with` in closed form: it aborts exactly where
      `WalkAborts` says, and otherwise answers whether the non-empty queue is
      a prefix of the spine. */
  lemma {:induction false} StartWalkCloses(t: UseTree, q: seq<Ident>)
    ensures StartWalk(t, q).Abort? <==> WalkAborts(t, q)
    ensures StartWalk(t, q).Ok? ==> (StartWalk(t, q).value <==> |q| > 0 && q <= Spine(t))
    decreases t
  {
    match t
    case UsePath(name, sub) =>
      if |q| == 0 {
      } else if name != q[0] && |q| > 1 {
        assert q[..|q| - 1][0] == q[0];
      } else if name == q[0] && |q| == 1 {
      } else {
        StartWalkCloses(sub, q[1..]);
        var r := q[1..];
        if |r| > 0 {
          assert q[..|q| - 1] == [q[0]] + r[..|r| - 1];
          assert q == [q[0]] + r;
        }
      }
    case UseName(name) =>
    case _ =>
  }

  /** `trim_path_prefix` trims exactly when `start_with` answers true, and
      aborts exactly when it aborts. */
  lemma {:induction false} TrimAgreesWithStart(t: UseTree, q: seq<Ident>)
    ensures TrimWalk(t, q).Abort? <==> StartWalk(t, q).Abort?
    ensures TrimWalk(t, q).Ok? ==> (TrimWalk(t, q).value.Some? <==> StartWalk(t, q).value)
    decreases t
  {
    if t.UsePath? && |q| > 0 && !(t.name != q[0] && |q| > 1) && !(t.name == q[0] && |q| == 1) {
      TrimAgreesWithStart(t.tree, q[1..]);
    }
  }

  /** On a match, what remains is the tree below the last matched `Path`
      node, or the matched `Name` node itself. */
  lemma {:induction false} TrimLeavesRest(t: UseTree, q: seq<Ident>)
    requires StartWalk(t, q) == Ok(true)
    ensures |q| >= 1 && |q| - 1 <= |PathNames(t)|
    ensures Descend(t, |q| - 1).UsePath? ==> TrimWalk(t, q) == Ok(Some(Descend(t, |q| - 1).tree))
    ensures !Descend(t, |q| - 1).UsePath? ==> Descend(t, |q| - 1).UseName? && TrimWalk(t, q) == Ok(Some(Descend(t, |q| - 1)))
    decreases t
  {
    match t
    case UsePath(name, sub) =>
      if !(name == q[0] && |q| == 1) {
        TrimLeavesRest(sub, q[1..]);
      }
    case UseName(name) =>
  }

  /** The `TrimPathPrefix` view of the agreement: the item is trimmed exactly
      when `StartWith` is true. */
  lemma TrimPathPrefixAgrees(u: UseItem, prefix: Path)
    ensures TrimPathPrefix(u, prefix).Abort? <==> StartWith(u, prefix).Abort?
    ensures TrimPathPrefix(u, prefix).Ok? ==> (TrimPathPrefix(u, prefix).value.trimmed <==> StartWith(u, prefix).value)
  {
    TrimAgreesWithStart(u.tree, Names(prefix.segments));
  }

  /** A `{..}` group stops every match: a prefix that reaches into it is not
      matched, however the group's members are named. */
  lemma GroupNeverMatches(p: Path, items: seq<UseTree>, extra: Ident)
    requires |p.segments| > 0
    ensures StartWith(UseItem(false, WrapPaths(p.segments, UseGroup(items))), JoinSegment(p, extra)) == Ok(false)
  {
    WrapPathsShape(p.segments, UseGroup(items));
    var q := Names(JoinSegment(p, extra).segments);
    assert q == Names(p.segments) + [CreateIdent(extra)] by {
      NamesAppend(p.segments, [Segment(CreateIdent(extra), NoArgs)]);
    }
  }

  /** The quirk of the last mismatch: `use self::b::c::D` checked against
      `self::a` walks on below `b` with nothing left to pop, and aborts at
      `c`. */
  lemma MismatchBeforePathAborts()
    ensures StartWith(UseItem(false, UsePath("self", UsePath("b", UsePath("c", UseName("D"))))),
                      JoinSegment(NewPath("self"), "a")).Abort?
  {
    assert Names(JoinSegment(NewPath("self"), "a").segments) == ["self", "a"];
  }

  /** An empty prefix aborts on a tree starting with a `Path` node. */
  lemma EmptyPrefixAborts(name: Ident, sub: UseTree)
    ensures StartWith(UseItem(false, UsePath(name, sub)), Path([])).Abort?
  {
  }

  // ---------------------------------------------------------------------
  // Builders (`utils/mod.rs`)

  /** The builders' loop: from the last segment to the first, each wraps the
      tree built so far in a `Path` node. */
  function WrapPaths(segments: seq<Segment>, tree: UseTree): UseTree
    decreases |segments|
  {
    if |segments| == 0 then tree
    else WrapPaths(segments[..|segments| - 1], UsePath(segments[|segments| - 1].name, tree))
  }

  /** Wrapping puts the segments' names, in order, above the tree. */
  lemma WrapPathsShape(segments: seq<Segment>, tree: UseTree)
    ensures PathNames(WrapPaths(segments, tree)) == Names(segments) + PathNames(tree)
    ensures Spine(WrapPaths(segments, tree)) == Names(segments) + Spine(tree)
    ensures Descend(WrapPaths(segments, tree), |segments|) == tree
  {
    WrapPathsNames(segments, tree);
    WrapPathsDescend(segments, tree);
  }

  lemma {:induction false} WrapPathsNames(segments: seq<Segment>, tree: UseTree)
    ensures PathNames(WrapPaths(segments, tree)) == Names(segments) + PathNames(tree)
    ensures Spine(WrapPaths(segments, tree)) == Names(segments) + Spine(tree)
    decreases |segments|
  {
    if |segments| > 0 {
      var n := |segments|;
      var inner := UsePath(segments[n - 1].name, tree);
      WrapPathsNames(segments[..n - 1], inner);
      NamesAppend(segments[..n - 1], [segments[n - 1]]);
      assert segments[..n - 1] + [segments[n - 1]] == segments;
    }
  }

  lemma {:induction false} WrapPathsDescend(segments: seq<Segment>, tree: UseTree)
    ensures |segments| <= |PathNames(WrapPaths(segments, tree))| && Descend(WrapPaths(segments, tree), |segments|) == tree
    decreases |segments|
  {
    if |segments| > 0 {
      var n := |segments|;
      var inner := UsePath(segments[n - 1].name, tree);
      var w := WrapPaths(segments[..n - 1], inner);
      assert WrapPaths(segments, tree) == w;
      WrapPathsNames(segments[..n - 1], inner);
      WrapPathsDescend(segments[..n - 1], inner);
      DescendStep(w, n - 1);
    }
  }

  lemma {:induction false} DescendStep(t: UseTree, k: nat)
    requires k < |PathNames(t)|
    ensures Descend(t, k).UsePath? && Descend(t, k + 1) == Descend(t, k).tree
    decreases k
  {
    if k > 0 {
      DescendStep(t.tree, k - 1);
    }
  }

  /** `create_use_tree`: `Path` nodes for all segments but the last, which
      becomes the `Name` node. An empty path aborts. */
  function CreateUseTree(p: Path): (r: Result<UseTree>)
    ensures r.Ok? <==> |p.segments| > 0
    ensures r.Ok? ==> Spine(r.value) == Names(p.segments)
    ensures r.Ok? ==> PathNames(r.value) == Names(p.segments)[..|p.segments| - 1]
  {
    if |p.segments| == 0 then Abort(UnwrapNone)
    else
      var n := |p.segments|;
      WrapPathsShape(p.segments[..n - 1], UseName(p.segments[n - 1].name));
      NamesAppend(p.segments[..n - 1], [p.segments[n - 1]]);
      assert p.segments[..n - 1] + [p.segments[n - 1]] == p.segments;
      Ok(WrapPaths(p.segments[..n - 1], UseName(p.segments[n - 1].name)))
  }

  /** `create_use_group_tree`: every segment a `Path` node, above a group
      with one `Name` node per given name, in order. */
  function CreateUseGroupTree(p: Path, names: seq<string>): (r: UseTree)
    ensures PathNames(r) == Names(p.segments)
    ensures Descend(r, |p.segments|).UseGroup?
    ensures |Descend(r, |p.segments|).items| == |names|
    ensures forall i :: 0 <= i < |names| ==> Descend(r, |p.segments|).items[i] == UseName(CreateIdent(names[i]))
  {
    WrapPathsShape(p.segments, UseGroup(GroupNames(names)));
    WrapPaths(p.segments, UseGroup(GroupNames(names)))
  }

  /** `create_use_tree(&Path::new(name))` for each name: a one-segment path
      gives just its `Name` node. */
  function GroupNames(names: seq<string>): (r: seq<UseTree>)
    ensures |r| == |names|
    ensures forall i :: 0 <= i < |names| ==> r[i] == UseName(CreateIdent(names[i]))
  {
    if |names| == 0 then []
    else [CreateUseTree(NewPath(names[0])).value] + GroupNames(names[1..])
  }

  /** `create_use_glob_tree`: every segment a `Path` node, above a glob. */
  function CreateUseGlobTree(p: Path): (r: UseTree)
    ensures PathNames(r) == Names(p.segments) && Spine(r) == Names(p.segments)
    ensures Descend(r, |p.segments|) == UseGlob
  {
    WrapPathsShape(p.segments, UseGlob);
    WrapPaths(p.segments, UseGlob)
  }

  /** `create_use`: a plain `use` item without a leading `::`. */
  function CreateUse(p: Path): (r: Result<UseItem>)
    ensures r.Ok? <==> |p.segments| > 0
    ensures r.Ok? ==> !r.value.leadingColon && Spine(r.value.tree) == Names(p.segments)
  {
    var tree :- CreateUseTree(p);
    Ok(UseItem(false, tree))
  }

  /** `create_use_as_glob`: `use p::*;`. */
  function CreateUseAsGlob(p: Path): (r: UseItem)
    ensures !r.leadingColon && Spine(r.tree) == Names(p.segments)
  {
    UseItem(false, CreateUseGlobTree(p))
  }

  /** A use item built from a path starts with that path. */
  lemma CreateUseStartsWith(p: Path)
    requires |p.segments| > 0
    ensures StartWith(CreateUse(p).value, p) == Ok(true)
  {
  }

  /** So does a glob import built from it: `use a::b::*` starts with `a::b`. */
  lemma CreateUseAsGlobStartsWith(p: Path)
    requires |p.segments| > 0
    ensures StartWith(CreateUseAsGlob(p), p) == Ok(true)
  {
  }

  /** Trimming a built use item by its own path's parent leaves the last
      name. */
  lemma CreateUseTrimsToName(p: Path, name: string)
    requires |p.segments| > 0
    ensures CreateUse(JoinSegment(p, name)).Ok?
    ensures TrimPathPrefix(CreateUse(JoinSegment(p, name)).value, p) == Ok(UseTrim(true, UseItem(false, UseName(CreateIdent(name)))))
  {
    var q := JoinSegment(p, name);
    var n := |q.segments|;
    assert q.segments[..n - 1] == p.segments;
    var t := CreateUse(q).value.tree;
    WrapPathsShape(p.segments, UseName(CreateIdent(name)));
    StartWalkCloses(t, Names(p.segments));
    TrimAgreesWithStart(t, Names(p.segments));
    TrimLeavesRest(t, Names(p.segments));
    DescendStep(t, |p.segments| - 1);
  }
}
