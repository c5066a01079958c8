/** The walkers for the parts of declarations: a standalone generic argument,
    generics with their `where` clause, struct and variant fields, and
    function signatures. Each is given with its visit list and the lemma that
    a passive walk replays it. */
module ItemWalkers {
  import opened Base
  import opened Syntax
  import opened Walkers
  import opened Visits
  import opened Replays

  // ---------------------------------------------------------------------
  // `GenericArgumentWalker`

  /** The nested angle list of an associated type, constant or constraint. */
  function WalkOptAngle<S(!new)>(cx: Context<S>, s: S, o: Option<AngleArgs>): (r: Result<Walked<S, Option<AngleArgs>>>)
    requires Shrinking(cx)
    ensures o.None? ==> r == Ok(Walked(s, None))
    ensures r.Ok? && o.Some? ==> r.value.node.Some? && |r.value.node.value.args| == |o.value.args|
  {
    if o.None? then Ok(Walked(s, None))
    else
      var a :- WalkAngleArgs(cx, s, o.value.args);
      Ok(Walked(a.state, Some(AngleArgs(a.node))))
  }

  /** A lifetime's name goes to the ident predicate; a type or constant is
      walked; an associated item has its name, then its type, value or
      bounds, then its own angle list walked. */
  function WalkGenericArgument<S(!new)>(cx: Context<S>, s: S, arg: GenericArgument): (r: Result<Walked<S, GenericArgument>>)
    requires Shrinking(cx)
    ensures r.Ok? ==> (r.value.node.LifetimeArg? <==> arg.LifetimeArg?) && (r.value.node.TypeArg? <==> arg.TypeArg?)
    ensures r.Ok? ==> (r.value.node.ConstArg? <==> arg.ConstArg?) && (r.value.node.AssocType? <==> arg.AssocType?)
    ensures r.Ok? ==> (r.value.node.AssocConst? <==> arg.AssocConst?) && (r.value.node.Constraint? <==> arg.Constraint?)
  {
    match arg
    case LifetimeArg(name) =>
      var a := WalkIdent(cx, s, name);
      Ok(Walked(a.state, LifetimeArg(a.node)))
    case TypeArg(ty) =>
      var a :- WalkType(cx, s, ty);
      Ok(Walked(a.state, TypeArg(a.node)))
    case ConstArg(value) =>
      var a :- WalkExpr(cx, s, value);
      Ok(Walked(a.state, ConstArg(a.node)))
    case AssocType(name, generics, ty) =>
      var a := WalkIdent(cx, s, name);
      var b :- WalkType(cx, a.state, ty);
      var c :- WalkOptAngle(cx, b.state, generics);
      Ok(Walked(c.state, AssocType(a.node, c.node, b.node)))
    case AssocConst(name, generics, value) =>
      var a := WalkIdent(cx, s, name);
      var b :- WalkExpr(cx, a.state, value);
      var c :- WalkOptAngle(cx, b.state, generics);
      Ok(Walked(c.state, AssocConst(a.node, c.node, b.node)))
    case Constraint(name, generics, bounds) =>
      var a := WalkIdent(cx, s, name);
      var b :- WalkBounds(cx, a.state, bounds);
      var c :- WalkOptAngle(cx, b.state, generics);
      Ok(Walked(c.state, Constraint(a.node, c.node, b.node)))
  }

  function OptAngleOrder(o: bool, opt: Option<AngleArgs>): Result<seq<Visit>> {
    if opt.None? then Ok([]) else AngleArgsOrder(o, opt.value.args)
  }

  function GenericArgumentOrder(o: bool, arg: GenericArgument): Result<seq<Visit>> {
    match arg
    case LifetimeArg(name) => Ok([IdentVisit(name)])
    case TypeArg(ty) => TypeOrder(o, ty)
    case ConstArg(value) => ExprOrder(o, value)
    case AssocType(name, generics, ty) =>
      var b :- TypeOrder(o, ty);
      var c :- OptAngleOrder(o, generics);
      Ok([IdentVisit(name)] + b + c)
    case AssocConst(name, generics, value) =>
      var b :- ExprOrder(o, value);
      var c :- OptAngleOrder(o, generics);
      Ok([IdentVisit(name)] + b + c)
    case Constraint(name, generics, bounds) =>
      var b :- BoundsOrder(o, bounds);
      var c :- OptAngleOrder(o, generics);
      Ok([IdentVisit(name)] + b + c)
  }

  lemma OptAngleReplays<S(!new)>(cx: Context<S>, s: S, opt: Option<AngleArgs>)
    requires Passive(cx)
    ensures WalkOptAngle(cx, s, opt) == Replay(cx, s, OptAngleOrder(Opaque(cx), opt), opt)
  {
    if opt.Some? {
      AngleArgsReplays(cx, s, opt.value.args);
    }
  }

  lemma GenericArgumentReplays<S(!new)>(cx: Context<S>, s: S, arg: GenericArgument)
    requires Passive(cx)
    ensures WalkGenericArgument(cx, s, arg) == Replay(cx, s, GenericArgumentOrder(Opaque(cx), arg), arg)
  {
    var o := Opaque(cx);
    match arg
    case LifetimeArg(name) => IdentReplays(cx, s, name);
    case TypeArg(ty) => TypeReplays(cx, s, ty);
    case ConstArg(value) => ExprReplays(cx, s, value);
    case AssocType(name, generics, ty) =>
      IdentReplays(cx, s, name);
      var s1 := Fold(cx, s, [IdentVisit(name)]);
      TypeReplays(cx, s1, ty);
      var b := TypeOrder(o, ty);
      if b.Ok? {
        OptAngleReplays(cx, Fold(cx, s1, b.value), generics);
        var c := OptAngleOrder(o, generics);
        if c.Ok? { Fold3(cx, s, [IdentVisit(name)], b.value, c.value); }
      }
    case AssocConst(name, generics, value) =>
      IdentReplays(cx, s, name);
      var s1 := Fold(cx, s, [IdentVisit(name)]);
      ExprReplays(cx, s1, value);
      var b := ExprOrder(o, value);
      if b.Ok? {
        OptAngleReplays(cx, Fold(cx, s1, b.value), generics);
        var c := OptAngleOrder(o, generics);
        if c.Ok? { Fold3(cx, s, [IdentVisit(name)], b.value, c.value); }
      }
    case Constraint(name, generics, bounds) =>
      IdentReplays(cx, s, name);
      var s1 := Fold(cx, s, [IdentVisit(name)]);
      BoundsReplays(cx, s1, bounds);
      var b := BoundsOrder(o, bounds);
      if b.Ok? {
        OptAngleReplays(cx, Fold(cx, s1, b.value), generics);
        var c := OptAngleOrder(o, generics);
        if c.Ok? { Fold3(cx, s, [IdentVisit(name)], b.value, c.value); }
      }
  }

  // ---------------------------------------------------------------------
  // `WhereClauseWalker` and `GenericsWalker`

  /** A lifetime predicate: its lifetime, then each bound's name. A type
      predicate: the bounded type, its `for<..>` lifetimes, then its bounds. */
  function WalkWherePredicate<S(!new)>(cx: Context<S>, s: S, p: WherePredicate): (r: Result<Walked<S, WherePredicate>>)
    requires Shrinking(cx)
    ensures r.Ok? ==> (r.value.node.LifetimePredicate? <==> p.LifetimePredicate?)
  {
    match p
    case LifetimePredicate(name, bounds) =>
      var a := WalkIdent(cx, s, name);
      var b := WalkIdents(cx, a.state, bounds);
      Ok(Walked(b.state, LifetimePredicate(a.node, b.node)))
    case TypePredicate(lifetimes, bounded, bounds) =>
      var a :- WalkType(cx, s, bounded);
      var b :- WalkBoundLifetimes(cx, a.state, lifetimes);
      var c :- WalkBounds(cx, b.state, bounds);
      Ok(Walked(c.state, TypePredicate(b.node, a.node, c.node)))
  }

  function WalkWhereClause<S(!new)>(cx: Context<S>, s: S, ps: seq<WherePredicate>): (r: Result<Walked<S, seq<WherePredicate>>>)
    requires Shrinking(cx)
    ensures r.Ok? ==> |r.value.node| == |ps|
  {
    if |ps| == 0 then Ok(Walked(s, []))
    else
      var a :- WalkWherePredicate(cx, s, ps[0]);
      var b :- WalkWhereClause(cx, a.state, ps[1..]);
      Ok(Walked(b.state, [a.node] + b.node))
  }

  function WalkOptWhere<S(!new)>(cx: Context<S>, s: S, o: Option<seq<WherePredicate>>): (r: Result<Walked<S, Option<seq<WherePredicate>>>>)
    requires Shrinking(cx)
    ensures o.None? ==> r == Ok(Walked(s, None))
    ensures r.Ok? && o.Some? ==> r.value.node.Some? && |r.value.node.value| == |o.value|
  {
    if o.None? then Ok(Walked(s, None))
    else
      var a :- WalkWhereClause(cx, s, o.value);
      Ok(Walked(a.state, Some(a.node)))
  }

  /** Every parameter, then the `where` clause if there is one. */
  function WalkGenerics<S(!new)>(cx: Context<S>, s: S, g: Generics): (r: Result<Walked<S, Generics>>)
    requires Shrinking(cx)
    ensures r.Ok? ==> |r.value.node.params| == |g.params|
    ensures r.Ok? ==> (r.value.node.whereClause.Some? <==> g.whereClause.Some?)
  {
    var a :- WalkParams(cx, s, g.params);
    var b :- WalkOptWhere(cx, a.state, g.whereClause);
    Ok(Walked(b.state, Generics(a.node, b.node)))
  }

  function WherePredicateOrder(o: bool, p: WherePredicate): Result<seq<Visit>> {
    match p
    case LifetimePredicate(name, bounds) => Ok([IdentVisit(name)] + IdentsOrder(bounds))
    case TypePredicate(lifetimes, bounded, bounds) =>
      var a :- TypeOrder(o, bounded);
      var b :- BoundLifetimesOrder(o, lifetimes);
      var c :- BoundsOrder(o, bounds);
      Ok(a + b + c)
  }

  function WhereClauseOrder(o: bool, ps: seq<WherePredicate>): Result<seq<Visit>> {
    if |ps| == 0 then Ok([])
    else
      var a :- WherePredicateOrder(o, ps[0]);
      var b :- WhereClauseOrder(o, ps[1..]);
      Ok(a + b)
  }

  function OptWhereOrder(o: bool, opt: Option<seq<WherePredicate>>): Result<seq<Visit>> {
    if opt.None? then Ok([]) else WhereClauseOrder(o, opt.value)
  }

  function GenericsOrder(o: bool, g: Generics): Result<seq<Visit>> {
    var a :- ParamsOrder(o, g.params);
    var b :- OptWhereOrder(o, g.whereClause);
    Ok(a + b)
  }

  lemma WherePredicateReplays<S(!new)>(cx: Context<S>, s: S, p: WherePredicate)
    requires Passive(cx)
    ensures WalkWherePredicate(cx, s, p) == Replay(cx, s, WherePredicateOrder(Opaque(cx), p), p)
  {
    var o := Opaque(cx);
    match p
    case LifetimePredicate(name, bounds) =>
      IdentReplays(cx, s, name);
      IdentsReplays(cx, Fold(cx, s, [IdentVisit(name)]), bounds);
      FoldAppend(cx, s, [IdentVisit(name)], IdentsOrder(bounds));
    case TypePredicate(lifetimes, bounded, bounds) =>
      TypeReplays(cx, s, bounded);
      var a := TypeOrder(o, bounded);
      if a.Ok? {
        var s1 := Fold(cx, s, a.value);
        BoundLifetimesReplays(cx, s1, lifetimes);
        var b := BoundLifetimesOrder(o, lifetimes);
        if b.Ok? {
          var s2 := Fold(cx, s1, b.value);
          BoundsReplays(cx, s2, bounds);
          var c := BoundsOrder(o, bounds);
          if c.Ok? { Fold3(cx, s, a.value, b.value, c.value); }
        }
      }
  }

  lemma {:induction false} WhereClauseReplays<S(!new)>(cx: Context<S>, s: S, ps: seq<WherePredicate>)
    requires Passive(cx)
    ensures WalkWhereClause(cx, s, ps) == Replay(cx, s, WhereClauseOrder(Opaque(cx), ps), ps)
    decreases |ps|
  {
    if |ps| > 0 {
      WherePredicateReplays(cx, s, ps[0]);
      var a := WherePredicateOrder(Opaque(cx), ps[0]);
      if a.Ok? {
        WhereClauseReplays(cx, Fold(cx, s, a.value), ps[1..]);
        var b := WhereClauseOrder(Opaque(cx), ps[1..]);
        if b.Ok? {
          FoldAppend(cx, s, a.value, b.value);
          Uncons(ps);
        }
      }
    }
  }

  lemma GenericsReplays<S(!new)>(cx: Context<S>, s: S, g: Generics)
    requires Passive(cx)
    ensures WalkGenerics(cx, s, g) == Replay(cx, s, GenericsOrder(Opaque(cx), g), g)
  {
    ParamsReplays(cx, s, g.params);
    var a := ParamsOrder(Opaque(cx), g.params);
    if a.Ok? {
      if g.whereClause.Some? {
        WhereClauseReplays(cx, Fold(cx, s, a.value), g.whereClause.value);
      }
      var b := OptWhereOrder(Opaque(cx), g.whereClause);
      if b.Ok? { FoldAppend(cx, s, a.value, b.value); }
    }
  }

  // ---------------------------------------------------------------------
  // `FieldsWalker`

  /** Each field: its name if it has one, then its type. */
  function WalkFieldList<S(!new)>(cx: Context<S>, s: S, fields: seq<Field>): (r: Result<Walked<S, seq<Field>>>)
    requires Shrinking(cx)
    ensures r.Ok? ==> |r.value.node| == |fields|
    ensures r.Ok? ==> forall i :: 0 <= i < |fields| ==> (r.value.node[i].name.Some? <==> fields[i].name.Some?)
  {
    if |fields| == 0 then Ok(Walked(s, []))
    else
      var a := WalkOptIdent(cx, s, fields[0].name);
      var b :- WalkType(cx, a.state, fields[0].ty);
      var c :- WalkFieldList(cx, b.state, fields[1..]);
      Ok(Walked(c.state, [Field(a.node, b.node)] + c.node))
  }

  /** Named and unnamed fields are walked alike; a unit struct has none. */
  function WalkFields<S(!new)>(cx: Context<S>, s: S, fields: Fields): (r: Result<Walked<S, Fields>>)
    requires Shrinking(cx)
    ensures fields.UnitFields? ==> r == Ok(Walked(s, fields))
    ensures r.Ok? && fields.NamedFields? ==> r.value.node.NamedFields? && |r.value.node.named| == |fields.named|
    ensures r.Ok? && fields.UnnamedFields? ==> r.value.node.UnnamedFields? && |r.value.node.unnamed| == |fields.unnamed|
  {
    match fields
    case NamedFields(named) =>
      var a :- WalkFieldList(cx, s, named);
      Ok(Walked(a.state, NamedFields(a.node)))
    case UnnamedFields(unnamed) =>
      var a :- WalkFieldList(cx, s, unnamed);
      Ok(Walked(a.state, UnnamedFields(a.node)))
    case UnitFields => Ok(Walked(s, fields))
  }

  function FieldListOrder(o: bool, fields: seq<Field>): Result<seq<Visit>> {
    if |fields| == 0 then Ok([])
    else
      var b :- TypeOrder(o, fields[0].ty);
      var c :- FieldListOrder(o, fields[1..]);
      Ok(OptIdentOrder(fields[0].name) + b + c)
  }

  function FieldsOrder(o: bool, fields: Fields): Result<seq<Visit>> {
    match fields
    case NamedFields(named) => FieldListOrder(o, named)
    case UnnamedFields(unnamed) => FieldListOrder(o, unnamed)
    case UnitFields => Ok([])
  }

  lemma {:induction false} FieldListReplays<S(!new)>(cx: Context<S>, s: S, fields: seq<Field>)
    requires Passive(cx)
    ensures WalkFieldList(cx, s, fields) == Replay(cx, s, FieldListOrder(Opaque(cx), fields), fields)
    decreases |fields|
  {
    if |fields| > 0 {
      OptIdentReplays(cx, s, fields[0].name);
      var a := OptIdentOrder(fields[0].name);
      var s1 := Fold(cx, s, a);
      TypeReplays(cx, s1, fields[0].ty);
      var b := TypeOrder(Opaque(cx), fields[0].ty);
      if b.Ok? {
        var s2 := Fold(cx, s1, b.value);
        FieldListReplays(cx, s2, fields[1..]);
        var c := FieldListOrder(Opaque(cx), fields[1..]);
        if c.Ok? {
          Fold3(cx, s, a, b.value, c.value);
          Uncons(fields);
        }
      }
    }
  }

  lemma FieldsReplays<S(!new)>(cx: Context<S>, s: S, fields: Fields)
    requires Passive(cx)
    ensures WalkFields(cx, s, fields) == Replay(cx, s, FieldsOrder(Opaque(cx), fields), fields)
  {
    match fields
    case NamedFields(named) => FieldListReplays(cx, s, named);
    case UnnamedFields(unnamed) => FieldListReplays(cx, s, unnamed);
    case UnitFields =>
  }

  // ---------------------------------------------------------------------
  // `SignatureWalker`

  /** A receiver: its type, then the lifetime of its borrow. A typed input:
      its type, then its pattern. */
  function WalkFnArg<S(!new)>(cx: Context<S>, s: S, arg: FnArg): (r: Result<Walked<S, FnArg>>)
    requires Shrinking(cx)
    ensures r.Ok? ==> (r.value.node.Receiver? <==> arg.Receiver?)
  {
    match arg
    case Receiver(reference, ty) =>
      var a :- WalkType(cx, s, ty);
      if reference.None? then Ok(Walked(a.state, Receiver(None, a.node)))
      else
        var b := WalkOptIdent(cx, a.state, reference.value.lifetime);
        Ok(Walked(b.state, Receiver(Some(Borrow(b.node)), a.node)))
    case Typed(pat, ty) =>
      var a :- WalkType(cx, s, ty);
      var b :- WalkPat(cx, a.state, pat);
      Ok(Walked(b.state, Typed(b.node, a.node)))
  }

  function WalkFnArgs<S(!new)>(cx: Context<S>, s: S, args: seq<FnArg>): (r: Result<Walked<S, seq<FnArg>>>)
    requires Shrinking(cx)
    ensures r.Ok? ==> |r.value.node| == |args|
    ensures r.Ok? ==> forall i :: 0 <= i < |args| ==> (r.value.node[i].Receiver? <==> args[i].Receiver?)
  {
    if |args| == 0 then Ok(Walked(s, []))
    else
      var a :- WalkFnArg(cx, s, args[0]);
      var b :- WalkFnArgs(cx, a.state, args[1..]);
      Ok(Walked(b.state, [a.node] + b.node))
  }

  function WalkVariadic<S(!new)>(cx: Context<S>, s: S, v: Option<Variadic>): (r: Result<Walked<S, Option<Variadic>>>)
    requires Shrinking(cx)
    ensures r.Ok? ==> (r.value.node.Some? <==> v.Some?)
  {
    if v.None? || v.value.pat.None? then Ok(Walked(s, v))
    else
      var a :- WalkPat(cx, s, v.value.pat.value);
      Ok(Walked(a.state, Some(Variadic(Some(a.node)))))
  }

  /** The function's name, its generic parameters, its `where` clause, the
      pattern of a variadic, each input, then the return type. */
  function WalkSignature<S(!new)>(cx: Context<S>, s: S, sig: Signature): (r: Result<Walked<S, Signature>>)
    requires Shrinking(cx)
    ensures r.Ok? ==> |r.value.node.inputs| == |sig.inputs| && |r.value.node.generics.params| == |sig.generics.params|
    ensures r.Ok? ==> (r.value.node.output.Some? <==> sig.output.Some?)
  {
    var a := WalkIdent(cx, s, sig.name);
    var b :- WalkGenerics(cx, a.state, sig.generics);
    var d :- WalkVariadic(cx, b.state, sig.variadic);
    var e :- WalkFnArgs(cx, d.state, sig.inputs);
    var f :- WalkOptType(cx, e.state, sig.output);
    Ok(Walked(f.state, Signature(a.node, b.node, e.node, d.node, f.node)))
  }

  function FnArgOrder(o: bool, arg: FnArg): Result<seq<Visit>> {
    match arg
    case Receiver(reference, ty) =>
      var a :- TypeOrder(o, ty);
      Ok(a + (if reference.None? then [] else OptIdentOrder(reference.value.lifetime)))
    case Typed(pat, ty) =>
      var a :- TypeOrder(o, ty);
      var b :- PatOrder(o, pat);
      Ok(a + b)
  }

  function FnArgsOrder(o: bool, args: seq<FnArg>): Result<seq<Visit>> {
    if |args| == 0 then Ok([])
    else
      var a :- FnArgOrder(o, args[0]);
      var b :- FnArgsOrder(o, args[1..]);
      Ok(a + b)
  }

  function VariadicOrder(o: bool, v: Option<Variadic>): Result<seq<Visit>> {
    if v.None? || v.value.pat.None? then Ok([]) else PatOrder(o, v.value.pat.value)
  }

  function SignatureOrder(o: bool, sig: Signature): Result<seq<Visit>> {
    var b :- GenericsOrder(o, sig.generics);
    var d :- VariadicOrder(o, sig.variadic);
    var e :- FnArgsOrder(o, sig.inputs);
    var f :- OptTypeOrder(o, sig.output);
    Ok([IdentVisit(sig.name)] + b + d + e + f)
  }

  lemma FnArgReplays<S(!new)>(cx: Context<S>, s: S, arg: FnArg)
    requires Passive(cx)
    ensures WalkFnArg(cx, s, arg) == Replay(cx, s, FnArgOrder(Opaque(cx), arg), arg)
  {
    match arg
    case Receiver(reference, ty) =>
      TypeReplays(cx, s, ty);
      var a := TypeOrder(Opaque(cx), ty);
      if a.Ok? && reference.Some? {
        OptIdentReplays(cx, Fold(cx, s, a.value), reference.value.lifetime);
        FoldAppend(cx, s, a.value, OptIdentOrder(reference.value.lifetime));
      } else if a.Ok? {
        assert a.value + [] == a.value;
      }
    case Typed(pat, ty) =>
      TypeReplays(cx, s, ty);
      var a := TypeOrder(Opaque(cx), ty);
      if a.Ok? {
        PatReplays(cx, Fold(cx, s, a.value), pat);
        var b := PatOrder(Opaque(cx), pat);
        if b.Ok? { FoldAppend(cx, s, a.value, b.value); }
      }
  }

  lemma {:induction false} FnArgsReplays<S(!new)>(cx: Context<S>, s: S, args: seq<FnArg>)
    requires Passive(cx)
    ensures WalkFnArgs(cx, s, args) == Replay(cx, s, FnArgsOrder(Opaque(cx), args), args)
    decreases |args|
  {
    if |args| > 0 {
      FnArgReplays(cx, s, args[0]);
      var a := FnArgOrder(Opaque(cx), args[0]);
      if a.Ok? {
        FnArgsReplays(cx, Fold(cx, s, a.value), args[1..]);
        var b := FnArgsOrder(Opaque(cx), args[1..]);
        if b.Ok? {
          FoldAppend(cx, s, a.value, b.value);
          Uncons(args);
        }
      }
    }
  }

  lemma SignatureReplays<S(!new)>(cx: Context<S>, s: S, sig: Signature)
    requires Passive(cx)
    ensures WalkSignature(cx, s, sig) == Replay(cx, s, SignatureOrder(Opaque(cx), sig), sig)
  {
    var o := Opaque(cx);
    IdentReplays(cx, s, sig.name);
    var a := [IdentVisit(sig.name)];
    var s1 := Fold(cx, s, a);
    GenericsReplays(cx, s1, sig.generics);
    var b := GenericsOrder(o, sig.generics);
    if b.Ok? {
      var s2 := Fold(cx, s1, b.value);
      if sig.variadic.Some? && sig.variadic.value.pat.Some? {
        PatReplays(cx, s2, sig.variadic.value.pat.value);
      }
      var d := VariadicOrder(o, sig.variadic);
      if d.Ok? {
        var s3 := Fold(cx, s2, d.value);
        FnArgsReplays(cx, s3, sig.inputs);
        var e := FnArgsOrder(o, sig.inputs);
        if e.Ok? {
          var s4 := Fold(cx, s3, e.value);
          OptTypeReplays(cx, s4, sig.output);
          var f := OptTypeOrder(o, sig.output);
          if f.Ok? {
            Fold3(cx, s, a, b.value, d.value);
            Fold3(cx, s, a + b.value + d.value, e.value, f.value);
          }
        }
      }
    }
  }
}
