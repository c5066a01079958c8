/** `ItemTrait::walk` for every declaration wrapper, with its visit list and
    the lemma that a passive walk replays it. Attributes and visibility are
    never visited. An `impl` block's methods are walked through the
    `functions` copies only; the method members inside the block itself are
    skipped and stay as they were. */
module ItemWalks {
  import opened Base
  import opened Syntax
  import opened Walkers
  import opened Visits
  import opened Replays
  import opened ItemWalkers
  import opened Items

  // ---------------------------------------------------------------------
  // `FnItem::walk`: the body's statements, then the signature.

  function WalkFnItem<S(!new)>(cx: Context<S>, s: S, f: FnItem): (r: Result<Walked<S, FnItem>>)
    requires Shrinking(cx)
    ensures r.Ok? ==> r.value.node.item.Global? == f.item.Global?
    ensures r.Ok? ==> r.value.node.item.decl.attrs == f.item.decl.attrs && r.value.node.item.decl.vis == f.item.decl.vis
    ensures r.Ok? ==> |r.value.node.item.decl.body| == |f.item.decl.body|
    ensures r.Ok? && f.item.Implementation? ==> r.value.node.item.isDefault == f.item.isDefault
  {
    var a :- WalkStmts(cx, s, f.item.decl.body);
    var b :- WalkSignature(cx, a.state, f.item.decl.sig);
    Ok(Walked(b.state, FnItem(WithBody(WithSignature(f.item, b.node), a.node))))
  }

  function WalkFnItems<S(!new)>(cx: Context<S>, s: S, fs: seq<FnItem>): (r: Result<Walked<S, seq<FnItem>>>)
    requires Shrinking(cx)
    ensures r.Ok? ==> |r.value.node| == |fs|
  {
    if |fs| == 0 then Ok(Walked(s, []))
    else
      var a :- WalkFnItem(cx, s, fs[0]);
      var b :- WalkFnItems(cx, a.state, fs[1..]);
      Ok(Walked(b.state, [a.node] + b.node))
  }

  function FnItemOrder(o: bool, f: FnItem): Result<seq<Visit>> {
    var a :- StmtsOrder(o, f.item.decl.body);
    var b :- SignatureOrder(o, f.item.decl.sig);
    Ok(a + b)
  }

  function FnItemsOrder(o: bool, fs: seq<FnItem>): Result<seq<Visit>> {
    if |fs| == 0 then Ok([])
    else
      var a :- FnItemOrder(o, fs[0]);
      var b :- FnItemsOrder(o, fs[1..]);
      Ok(a + b)
  }

  lemma FnItemReplays<S(!new)>(cx: Context<S>, s: S, f: FnItem)
    requires Passive(cx)
    ensures WalkFnItem(cx, s, f) == Replay(cx, s, FnItemOrder(Opaque(cx), f), f)
  {
    StmtsReplays(cx, s, f.item.decl.body);
    var a := StmtsOrder(Opaque(cx), f.item.decl.body);
    if a.Ok? {
      SignatureReplays(cx, Fold(cx, s, a.value), f.item.decl.sig);
      var b := SignatureOrder(Opaque(cx), f.item.decl.sig);
      if b.Ok? { FoldAppend(cx, s, a.value, b.value); }
    }
  }

  lemma {:induction false} FnItemsReplays<S(!new)>(cx: Context<S>, s: S, fs: seq<FnItem>)
    requires Passive(cx)
    ensures WalkFnItems(cx, s, fs) == Replay(cx, s, FnItemsOrder(Opaque(cx), fs), fs)
    decreases |fs|
  {
    if |fs| > 0 {
      FnItemReplays(cx, s, fs[0]);
      var a := FnItemOrder(Opaque(cx), fs[0]);
      if a.Ok? {
        FnItemsReplays(cx, Fold(cx, s, a.value), fs[1..]);
        var b := FnItemsOrder(Opaque(cx), fs[1..]);
        if b.Ok? {
          FoldAppend(cx, s, a.value, b.value);
          Uncons(fs);
        }
      }
    }
  }

  // ---------------------------------------------------------------------
  // `ImplementationItem::walk`

  /** A constant: its name, generics, type, then value. A type: its name,
      generics, then type. A macro goes to the macro walker. Methods and
      anything else are skipped. */
  function WalkImplMember<S(!new)>(cx: Context<S>, s: S, m: ImplMember): (r: Result<Walked<S, ImplMember>>)
    requires Shrinking(cx)
    ensures m.ImplFn? || m.ImplVerbatim? ==> r == Ok(Walked(s, m))
    ensures r.Ok? ==> r.value.node.ImplConst? == m.ImplConst? && r.value.node.ImplType? == m.ImplType? && r.value.node.ImplMacro? == m.ImplMacro?
  {
    match m
    case ImplConst(name, generics, ty, value) =>
      var a := WalkIdent(cx, s, name);
      var b :- WalkGenerics(cx, a.state, generics);
      var c :- WalkType(cx, b.state, ty);
      var d :- WalkExpr(cx, c.state, value);
      Ok(Walked(d.state, ImplConst(a.node, b.node, c.node, d.node)))
    case ImplType(name, generics, ty) =>
      var a := WalkIdent(cx, s, name);
      var b :- WalkGenerics(cx, a.state, generics);
      var c :- WalkType(cx, b.state, ty);
      Ok(Walked(c.state, ImplType(a.node, b.node, c.node)))
    case ImplMacro(mac) =>
      var a :- WalkMacro(cx, s, mac);
      Ok(Walked(a.state, ImplMacro(a.node)))
    case _ => Ok(Walked(s, m))
  }

  function WalkImplMembers<S(!new)>(cx: Context<S>, s: S, ms: seq<ImplMember>): (r: Result<Walked<S, seq<ImplMember>>>)
    requires Shrinking(cx)
    ensures r.Ok? ==> |r.value.node| == |ms|
    ensures r.Ok? ==> forall i :: 0 <= i < |ms| && ms[i].ImplFn? ==> r.value.node[i] == ms[i]
  {
    if |ms| == 0 then Ok(Walked(s, []))
    else
      var a :- WalkImplMember(cx, s, ms[0]);
      var b :- WalkImplMembers(cx, a.state, ms[1..]);
      Ok(Walked(b.state, [a.node] + b.node))
  }

  function WalkOptPath<S(!new)>(cx: Context<S>, s: S, o: Option<SynPath>): (r: Result<Walked<S, Option<SynPath>>>)
    requires Shrinking(cx)
    ensures o.None? ==> r == Ok(Walked(s, None))
    ensures r.Ok? ==> (r.value.node.Some? <==> o.Some?)
  {
    if o.None? then Ok(Walked(s, None))
    else
      var a :- WalkPath(cx, s, o.value);
      Ok(Walked(a.state, Some(a.node)))
  }

  /** Generics, the trait path, the self type, the non-method members, then
      the method copies. The method members of the block are left as they
      were: what the walk does to a method lands in `functions` only. */
  function WalkImplementationItem<S(!new)>(cx: Context<S>, s: S, i: ImplementationItem): (r: Result<Walked<S, ImplementationItem>>)
    requires Shrinking(cx)
    ensures r.Ok? ==> |r.value.node.item.members| == |i.item.members| && |r.value.node.functions| == |i.functions|
    ensures r.Ok? ==> forall k :: 0 <= k < |i.item.members| && i.item.members[k].ImplFn? ==> r.value.node.item.members[k] == i.item.members[k]
    ensures r.Ok? ==> (r.value.node.item.traitPath.Some? <==> i.item.traitPath.Some?)
  {
    var a :- WalkGenerics(cx, s, i.item.generics);
    var b :- WalkOptPath(cx, a.state, i.item.traitPath);
    var c :- WalkType(cx, b.state, i.item.selfTy);
    var d :- WalkImplMembers(cx, c.state, i.item.members);
    var e :- WalkFnItems(cx, d.state, i.functions);
    Ok(Walked(e.state, ImplementationItem(ItemImpl(a.node, b.node, c.node, d.node), e.node)))
  }

  function WalkImplItems<S(!new)>(cx: Context<S>, s: S, impls: seq<ImplementationItem>): (r: Result<Walked<S, seq<ImplementationItem>>>)
    requires Shrinking(cx)
    ensures r.Ok? ==> |r.value.node| == |impls|
  {
    if |impls| == 0 then Ok(Walked(s, []))
    else
      var a :- WalkImplementationItem(cx, s, impls[0]);
      var b :- WalkImplItems(cx, a.state, impls[1..]);
      Ok(Walked(b.state, [a.node] + b.node))
  }

  function ImplMemberOrder(o: bool, m: ImplMember): Result<seq<Visit>> {
    match m
    case ImplConst(name, generics, ty, value) =>
      var b :- GenericsOrder(o, generics);
      var c :- TypeOrder(o, ty);
      var d :- ExprOrder(o, value);
      Ok([IdentVisit(name)] + b + c + d)
    case ImplType(name, generics, ty) =>
      var b :- GenericsOrder(o, generics);
      var c :- TypeOrder(o, ty);
      Ok([IdentVisit(name)] + b + c)
    case ImplMacro(mac) => MacroOrder(o, mac)
    case _ => Ok([])
  }

  function ImplMembersOrder(o: bool, ms: seq<ImplMember>): Result<seq<Visit>> {
    if |ms| == 0 then Ok([])
    else
      var a :- ImplMemberOrder(o, ms[0]);
      var b :- ImplMembersOrder(o, ms[1..]);
      Ok(a + b)
  }

  function OptPathOrder(o: bool, opt: Option<SynPath>): Result<seq<Visit>> {
    if opt.None? then Ok([]) else PathOrder(o, opt.value)
  }

  function ImplementationItemOrder(o: bool, i: ImplementationItem): Result<seq<Visit>> {
    var a :- GenericsOrder(o, i.item.generics);
    var b :- OptPathOrder(o, i.item.traitPath);
    var c :- TypeOrder(o, i.item.selfTy);
    var d :- ImplMembersOrder(o, i.item.members);
    var e :- FnItemsOrder(o, i.functions);
    Ok(a + b + c + d + e)
  }

  function ImplItemsOrder(o: bool, impls: seq<ImplementationItem>): Result<seq<Visit>> {
    if |impls| == 0 then Ok([])
    else
      var a :- ImplementationItemOrder(o, impls[0]);
      var b :- ImplItemsOrder(o, impls[1..]);
      Ok(a + b)
  }

  /** Visits `[IdentVisit(name)] + b + c`, with `b` and `c` replayed. */
  lemma NamedPairFold<S(!new)>(cx: Context<S>, s: S, name: Ident, b: seq<Visit>, c: seq<Visit>)
    ensures Fold(cx, s, [IdentVisit(name)] + b + c) == Fold(cx, Fold(cx, Fold(cx, s, [IdentVisit(name)]), b), c)
  {
    Fold3(cx, s, [IdentVisit(name)], b, c);
  }

  lemma ImplMemberReplays<S(!new)>(cx: Context<S>, s: S, m: ImplMember)
    requires Passive(cx)
    ensures WalkImplMember(cx, s, m) == Replay(cx, s, ImplMemberOrder(Opaque(cx), m), m)
  {
    var o := Opaque(cx);
    match m
    case ImplConst(name, generics, ty, value) =>
      IdentReplays(cx, s, name);
      var s1 := Fold(cx, s, [IdentVisit(name)]);
      GenericsReplays(cx, s1, generics);
      var b := GenericsOrder(o, generics);
      if b.Ok? {
        var s2 := Fold(cx, s1, b.value);
        TypeReplays(cx, s2, ty);
        var c := TypeOrder(o, ty);
        if c.Ok? {
          var s3 := Fold(cx, s2, c.value);
          ExprReplays(cx, s3, value);
          var d := ExprOrder(o, value);
          if d.Ok? {
            Fold4(cx, s, [IdentVisit(name)], b.value, c.value, d.value);
          }
        }
      }
    case ImplType(name, generics, ty) =>
      IdentReplays(cx, s, name);
      var s1 := Fold(cx, s, [IdentVisit(name)]);
      GenericsReplays(cx, s1, generics);
      var b := GenericsOrder(o, generics);
      if b.Ok? {
        TypeReplays(cx, Fold(cx, s1, b.value), ty);
        var c := TypeOrder(o, ty);
        if c.Ok? {
          NamedPairFold(cx, s, name, b.value, c.value);
        }
      }
    case ImplMacro(mac) => MacroReplays(cx, s, mac);
    case ImplFn(_, _) =>
    case ImplVerbatim(_) =>
  }

  lemma {:induction false} ImplMembersReplays<S(!new)>(cx: Context<S>, s: S, ms: seq<ImplMember>)
    requires Passive(cx)
    ensures WalkImplMembers(cx, s, ms) == Replay(cx, s, ImplMembersOrder(Opaque(cx), ms), ms)
    decreases |ms|
  {
    if |ms| > 0 {
      ImplMemberReplays(cx, s, ms[0]);
      var a := ImplMemberOrder(Opaque(cx), ms[0]);
      if a.Ok? {
        ImplMembersReplays(cx, Fold(cx, s, a.value), ms[1..]);
        var b := ImplMembersOrder(Opaque(cx), ms[1..]);
        if b.Ok? {
          FoldAppend(cx, s, a.value, b.value);
          Uncons(ms);
        }
      }
    }
  }

  lemma OptPathReplays<S(!new)>(cx: Context<S>, s: S, opt: Option<SynPath>)
    requires Passive(cx)
    ensures WalkOptPath(cx, s, opt) == Replay(cx, s, OptPathOrder(Opaque(cx), opt), opt)
  {
    if opt.Some? {
      PathReplays(cx, s, opt.value);
    }
  }

  lemma ImplementationItemReplays<S(!new)>(cx: Context<S>, s: S, i: ImplementationItem)
    requires Passive(cx)
    ensures WalkImplementationItem(cx, s, i) == Replay(cx, s, ImplementationItemOrder(Opaque(cx), i), i)
  {
    var o := Opaque(cx);
    GenericsReplays(cx, s, i.item.generics);
    var a := GenericsOrder(o, i.item.generics);
    if a.Ok? {
      var s1 := Fold(cx, s, a.value);
      OptPathReplays(cx, s1, i.item.traitPath);
      var b := OptPathOrder(o, i.item.traitPath);
      if b.Ok? {
        var s2 := Fold(cx, s1, b.value);
        TypeReplays(cx, s2, i.item.selfTy);
        var c := TypeOrder(o, i.item.selfTy);
        if c.Ok? {
          var s3 := Fold(cx, s2, c.value);
          ImplMembersReplays(cx, s3, i.item.members);
          var d := ImplMembersOrder(o, i.item.members);
          if d.Ok? {
            var s4 := Fold(cx, s3, d.value);
            FnItemsReplays(cx, s4, i.functions);
            var e := FnItemsOrder(o, i.functions);
            if e.Ok? {
              Fold4(cx, s, a.value, b.value, c.value, d.value);
              FoldAppend(cx, s, a.value + b.value + c.value + d.value, e.value);
            }
          }
        }
      }
    }
  }

  lemma {:induction false} ImplItemsReplays<S(!new)>(cx: Context<S>, s: S, impls: seq<ImplementationItem>)
    requires Passive(cx)
    ensures WalkImplItems(cx, s, impls) == Replay(cx, s, ImplItemsOrder(Opaque(cx), impls), impls)
    decreases |impls|
  {
    if |impls| > 0 {
      ImplementationItemReplays(cx, s, impls[0]);
      var a := ImplementationItemOrder(Opaque(cx), impls[0]);
      if a.Ok? {
        ImplItemsReplays(cx, Fold(cx, s, a.value), impls[1..]);
        var b := ImplItemsOrder(Opaque(cx), impls[1..]);
        if b.Ok? {
          FoldAppend(cx, s, a.value, b.value);
          Uncons(impls);
        }
      }
    }
  }

  // ---------------------------------------------------------------------
  // `StructItem::walk` and `EnumItem::walk`

  /** The name, generics, fields, then each attached `impl` block. */
  function WalkStructItem<S(!new)>(cx: Context<S>, s: S, st: StructItem): (r: Result<Walked<S, StructItem>>)
    requires Shrinking(cx)
    ensures r.Ok? ==> r.value.node.item.attrs == st.item.attrs && |r.value.node.implItems| == |st.implItems|
    ensures r.Ok? ==> r.value.node.item.name == PredictIdent(cx, s, st.item.name).node
  {
    var a := WalkIdent(cx, s, st.item.name);
    var b :- WalkGenerics(cx, a.state, st.item.generics);
    var c :- WalkFields(cx, b.state, st.item.fields);
    var d :- WalkImplItems(cx, c.state, st.implItems);
    Ok(Walked(d.state, StructItem(ItemStruct(st.item.attrs, a.node, b.node, c.node), d.node)))
  }

  /** Each variant: its name, its fields, then its discriminant if any. */
  function WalkVariants<S(!new)>(cx: Context<S>, s: S, vs: seq<Variant>): (r: Result<Walked<S, seq<Variant>>>)
    requires Shrinking(cx)
    ensures r.Ok? ==> |r.value.node| == |vs|
    ensures r.Ok? ==> forall i :: 0 <= i < |vs| ==> (r.value.node[i].discriminant.Some? <==> vs[i].discriminant.Some?)
  {
    if |vs| == 0 then Ok(Walked(s, []))
    else
      var a := WalkIdent(cx, s, vs[0].name);
      var b :- WalkFields(cx, a.state, vs[0].fields);
      var c :- WalkOptExpr(cx, b.state, vs[0].discriminant);
      var d :- WalkVariants(cx, c.state, vs[1..]);
      Ok(Walked(d.state, [Variant(a.node, b.node, c.node)] + d.node))
  }

  /** The name, generics, the variants, then each attached `impl` block. */
  function WalkEnumItem<S(!new)>(cx: Context<S>, s: S, en: EnumItem): (r: Result<Walked<S, EnumItem>>)
    requires Shrinking(cx)
    ensures r.Ok? ==> r.value.node.item.attrs == en.item.attrs && |r.value.node.implItems| == |en.implItems|
    ensures r.Ok? ==> |r.value.node.item.variants| == |en.item.variants|
    ensures r.Ok? ==> r.value.node.item.name == PredictIdent(cx, s, en.item.name).node
  {
    var a := WalkIdent(cx, s, en.item.name);
    var b :- WalkGenerics(cx, a.state, en.item.generics);
    var c :- WalkVariants(cx, b.state, en.item.variants);
    var d :- WalkImplItems(cx, c.state, en.implItems);
    Ok(Walked(d.state, EnumItem(ItemEnum(en.item.attrs, a.node, b.node, c.node), d.node)))
  }

  function StructItemOrder(o: bool, st: StructItem): Result<seq<Visit>> {
    var b :- GenericsOrder(o, st.item.generics);
    var c :- FieldsOrder(o, st.item.fields);
    var d :- ImplItemsOrder(o, st.implItems);
    Ok([IdentVisit(st.item.name)] + b + c + d)
  }

  function VariantsOrder(o: bool, vs: seq<Variant>): Result<seq<Visit>> {
    if |vs| == 0 then Ok([])
    else
      var b :- FieldsOrder(o, vs[0].fields);
      var c :- OptExprOrder(o, vs[0].discriminant);
      var d :- VariantsOrder(o, vs[1..]);
      Ok([IdentVisit(vs[0].name)] + b + c + d)
  }

  function EnumItemOrder(o: bool, en: EnumItem): Result<seq<Visit>> {
    var b :- GenericsOrder(o, en.item.generics);
    var c :- VariantsOrder(o, en.item.variants);
    var d :- ImplItemsOrder(o, en.implItems);
    Ok([IdentVisit(en.item.name)] + b + c + d)
  }

  lemma StructItemReplays<S(!new)>(cx: Context<S>, s: S, st: StructItem)
    requires Passive(cx)
    ensures WalkStructItem(cx, s, st) == Replay(cx, s, StructItemOrder(Opaque(cx), st), st)
  {
    var o := Opaque(cx);
    var a := [IdentVisit(st.item.name)];
    IdentReplays(cx, s, st.item.name);
    var s1 := Fold(cx, s, a);
    GenericsReplays(cx, s1, st.item.generics);
    var b := GenericsOrder(o, st.item.generics);
    if b.Ok? {
      var s2 := Fold(cx, s1, b.value);
      FieldsReplays(cx, s2, st.item.fields);
      var c := FieldsOrder(o, st.item.fields);
      if c.Ok? {
        var s3 := Fold(cx, s2, c.value);
        ImplItemsReplays(cx, s3, st.implItems);
        var d := ImplItemsOrder(o, st.implItems);
        if d.Ok? {
          Fold4(cx, s, a, b.value, c.value, d.value);
        }
      }
    }
  }

  lemma {:induction false} VariantsReplays<S(!new)>(cx: Context<S>, s: S, vs: seq<Variant>)
    requires Passive(cx)
    ensures WalkVariants(cx, s, vs) == Replay(cx, s, VariantsOrder(Opaque(cx), vs), vs)
    decreases |vs|
  {
    if |vs| > 0 {
      var o := Opaque(cx);
      var a := [IdentVisit(vs[0].name)];
      IdentReplays(cx, s, vs[0].name);
      var s1 := Fold(cx, s, a);
      FieldsReplays(cx, s1, vs[0].fields);
      var b := FieldsOrder(o, vs[0].fields);
      if b.Ok? {
        var s2 := Fold(cx, s1, b.value);
        OptExprReplays(cx, s2, vs[0].discriminant);
        var c := OptExprOrder(o, vs[0].discriminant);
        if c.Ok? {
          var s3 := Fold(cx, s2, c.value);
          VariantsReplays(cx, s3, vs[1..]);
          var d := VariantsOrder(o, vs[1..]);
          if d.Ok? {
            Fold4(cx, s, a, b.value, c.value, d.value);
            Uncons(vs);
          }
        }
      }
    }
  }

  lemma EnumItemReplays<S(!new)>(cx: Context<S>, s: S, en: EnumItem)
    requires Passive(cx)
    ensures WalkEnumItem(cx, s, en) == Replay(cx, s, EnumItemOrder(Opaque(cx), en), en)
  {
    var o := Opaque(cx);
    var a := [IdentVisit(en.item.name)];
    IdentReplays(cx, s, en.item.name);
    var s1 := Fold(cx, s, a);
    GenericsReplays(cx, s1, en.item.generics);
    var b := GenericsOrder(o, en.item.generics);
    if b.Ok? {
      var s2 := Fold(cx, s1, b.value);
      VariantsReplays(cx, s2, en.item.variants);
      var c := VariantsOrder(o, en.item.variants);
      if c.Ok? {
        var s3 := Fold(cx, s2, c.value);
        ImplItemsReplays(cx, s3, en.implItems);
        var d := ImplItemsOrder(o, en.implItems);
        if d.Ok? {
          Fold4(cx, s, a, b.value, c.value, d.value);
        }
      }
    }
  }

  // ---------------------------------------------------------------------
  // `OtherItem::walk`

  /** The kinds `OtherItem::walk` handles; any other aborts, and so does a
      trait with a restriction. */
  predicate Walkable(item: SynItem) {
    || item.ConstItem? || item.MacroItem? || item.StaticItem? || (item.TraitItem? && !item.restricted)
    || item.TraitAliasItem? || item.TypeAliasItem? || item.UnionItem?
  }

  /** A trait's constant: name, type, default value, generics. A method: its
      default body only; its signature is never reached, since the walk moves
      on to the next member before the signature walker is called. A type:
      name, default, generics, bounds. A macro goes to the macro walker. */
  function WalkTraitMember<S(!new)>(cx: Context<S>, s: S, m: TraitMember): (r: Result<Walked<S, TraitMember>>)
    requires Shrinking(cx)
    ensures m.TraitVerbatim? ==> r == Ok(Walked(s, m))
    ensures r.Ok? && m.TraitFn? ==> r.value.node.TraitFn? && r.value.node.sig == m.sig
    ensures r.Ok? && m.TraitFn? ==> (r.value.node.defaultBody.Some? <==> m.defaultBody.Some?)
  {
    match m
    case TraitConst(name, ty, defaultValue, generics) =>
      var a := WalkIdent(cx, s, name);
      var b :- WalkType(cx, a.state, ty);
      var c :- WalkOptExpr(cx, b.state, defaultValue);
      var d :- WalkGenerics(cx, c.state, generics);
      Ok(Walked(d.state, TraitConst(a.node, b.node, c.node, d.node)))
    case TraitFn(sig, defaultBody) =>
      if defaultBody.None? then Ok(Walked(s, m))
      else
        var a :- WalkStmts(cx, s, defaultBody.value);
        Ok(Walked(a.state, TraitFn(sig, Some(a.node))))
    case TraitType(name, generics, bounds, defaultType) =>
      var a := WalkIdent(cx, s, name);
      var b :- WalkOptType(cx, a.state, defaultType);
      var c :- WalkGenerics(cx, b.state, generics);
      var d :- WalkBounds(cx, c.state, bounds);
      Ok(Walked(d.state, TraitType(a.node, c.node, d.node, b.node)))
    case TraitMacro(mac) =>
      var a :- WalkMacro(cx, s, mac);
      Ok(Walked(a.state, TraitMacro(a.node)))
    case TraitVerbatim(_) => Ok(Walked(s, m))
  }

  function WalkTraitMembers<S(!new)>(cx: Context<S>, s: S, ms: seq<TraitMember>): (r: Result<Walked<S, seq<TraitMember>>>)
    requires Shrinking(cx)
    ensures r.Ok? ==> |r.value.node| == |ms|
    ensures r.Ok? ==> forall i :: 0 <= i < |ms| && ms[i].TraitFn? ==> r.value.node[i].TraitFn? && r.value.node[i].sig == ms[i].sig
  {
    if |ms| == 0 then Ok(Walked(s, []))
    else
      var a :- WalkTraitMember(cx, s, ms[0]);
      var b :- WalkTraitMembers(cx, a.state, ms[1..]);
      Ok(Walked(b.state, [a.node] + b.node))
  }

  /** The item's name first, then its parts, in the order of each kind. */
  function WalkOtherItem<S(!new)>(cx: Context<S>, s: S, o: OtherItem): (r: Result<Walked<S, OtherItem>>)
    requires Shrinking(cx)
    ensures !Walkable(o.item) ==> r.Abort?
    ensures r.Ok? ==> IsFn(r.value.node) == IsFn(o)
    ensures r.Ok? && o.item.TraitItem? ==> r.value.node.item.TraitItem? && |r.value.node.item.traitMembers| == |o.item.traitMembers|
  {
    match o.item
    case ConstItem(name, generics, ty, value) =>
      var a := WalkIdent(cx, s, name);
      var b :- WalkType(cx, a.state, ty);
      var c :- WalkExpr(cx, b.state, value);
      var d :- WalkGenerics(cx, c.state, generics);
      Ok(Walked(d.state, OtherItem(ConstItem(a.node, d.node, b.node, c.node))))
    case MacroItem(macroName, mac) =>
      var a := WalkOptIdent(cx, s, macroName);
      var b :- WalkMacro(cx, a.state, mac);
      Ok(Walked(b.state, OtherItem(MacroItem(a.node, b.node))))
    case StaticItem(name, ty, value) =>
      var a := WalkIdent(cx, s, name);
      var b :- WalkExpr(cx, a.state, value);
      var c :- WalkType(cx, b.state, ty);
      Ok(Walked(c.state, OtherItem(StaticItem(a.node, c.node, b.node))))
    case TraitItem(name, generics, supertraits, restricted, members) =>
      var a := WalkIdent(cx, s, name);
      var b :- WalkGenerics(cx, a.state, generics);
      var c :- WalkBounds(cx, b.state, supertraits);
      if restricted then Abort(Todo)
      else
        var d :- WalkTraitMembers(cx, c.state, members);
        Ok(Walked(d.state, OtherItem(TraitItem(a.node, b.node, c.node, restricted, d.node))))
    case TraitAliasItem(name, generics, bounds) =>
      var a := WalkIdent(cx, s, name);
      var b :- WalkGenerics(cx, a.state, generics);
      var c :- WalkBounds(cx, b.state, bounds);
      Ok(Walked(c.state, OtherItem(TraitAliasItem(a.node, b.node, c.node))))
    case TypeAliasItem(name, generics, ty) =>
      var a := WalkIdent(cx, s, name);
      var b :- WalkGenerics(cx, a.state, generics);
      var c :- WalkType(cx, b.state, ty);
      Ok(Walked(c.state, OtherItem(TypeAliasItem(a.node, b.node, c.node))))
    case UnionItem(name, generics, fields) =>
      var a := WalkIdent(cx, s, name);
      var b :- WalkGenerics(cx, a.state, generics);
      var c :- WalkFieldList(cx, b.state, fields);
      Ok(Walked(c.state, OtherItem(UnionItem(a.node, b.node, c.node))))
    case _ => Abort(UnsupportedType)
  }

  function TraitMemberOrder(o: bool, m: TraitMember): Result<seq<Visit>> {
    match m
    case TraitConst(name, ty, defaultValue, generics) =>
      var b :- TypeOrder(o, ty);
      var c :- OptExprOrder(o, defaultValue);
      var d :- GenericsOrder(o, generics);
      Ok([IdentVisit(name)] + b + c + d)
    case TraitFn(_, defaultBody) =>
      if defaultBody.None? then Ok([]) else StmtsOrder(o, defaultBody.value)
    case TraitType(name, generics, bounds, defaultType) =>
      var b :- OptTypeOrder(o, defaultType);
      var c :- GenericsOrder(o, generics);
      var d :- BoundsOrder(o, bounds);
      Ok([IdentVisit(name)] + b + c + d)
    case TraitMacro(mac) => MacroOrder(o, mac)
    case TraitVerbatim(_) => Ok([])
  }

  function TraitMembersOrder(o: bool, ms: seq<TraitMember>): Result<seq<Visit>> {
    if |ms| == 0 then Ok([])
    else
      var a :- TraitMemberOrder(o, ms[0]);
      var b :- TraitMembersOrder(o, ms[1..]);
      Ok(a + b)
  }

  function OtherItemOrder(o: bool, other: OtherItem): Result<seq<Visit>> {
    match other.item
    case ConstItem(name, generics, ty, value) =>
      var b :- TypeOrder(o, ty);
      var c :- ExprOrder(o, value);
      var d :- GenericsOrder(o, generics);
      Ok([IdentVisit(name)] + b + c + d)
    case MacroItem(macroName, mac) =>
      var b :- MacroOrder(o, mac);
      Ok(OptIdentOrder(macroName) + b)
    case StaticItem(name, ty, value) =>
      var b :- ExprOrder(o, value);
      var c :- TypeOrder(o, ty);
      Ok([IdentVisit(name)] + b + c)
    case TraitItem(name, generics, supertraits, restricted, members) =>
      var b :- GenericsOrder(o, generics);
      var c :- BoundsOrder(o, supertraits);
      if restricted then Abort(Todo)
      else
        var d :- TraitMembersOrder(o, members);
        Ok([IdentVisit(name)] + b + c + d)
    case TraitAliasItem(name, generics, bounds) =>
      var b :- GenericsOrder(o, generics);
      var c :- BoundsOrder(o, bounds);
      Ok([IdentVisit(name)] + b + c)
    case TypeAliasItem(name, generics, ty) =>
      var b :- GenericsOrder(o, generics);
      var c :- TypeOrder(o, ty);
      Ok([IdentVisit(name)] + b + c)
    case UnionItem(name, generics, fields) =>
      var b :- GenericsOrder(o, generics);
      var c :- FieldListOrder(o, fields);
      Ok([IdentVisit(name)] + b + c)
    case _ => Abort(UnsupportedType)
  }

  lemma TraitMemberReplays<S(!new)>(cx: Context<S>, s: S, m: TraitMember)
    requires Passive(cx)
    ensures WalkTraitMember(cx, s, m) == Replay(cx, s, TraitMemberOrder(Opaque(cx), m), m)
  {
    var o := Opaque(cx);
    match m
    case TraitConst(name, ty, defaultValue, generics) =>
      var a := [IdentVisit(name)];
      IdentReplays(cx, s, name);
      var s1 := Fold(cx, s, a);
      TypeReplays(cx, s1, ty);
      var b := TypeOrder(o, ty);
      if b.Ok? {
        var s2 := Fold(cx, s1, b.value);
        OptExprReplays(cx, s2, defaultValue);
        var c := OptExprOrder(o, defaultValue);
        if c.Ok? {
          GenericsReplays(cx, Fold(cx, s2, c.value), generics);
          var d := GenericsOrder(o, generics);
          if d.Ok? { Fold4(cx, s, a, b.value, c.value, d.value); }
        }
      }
    case TraitFn(_, defaultBody) =>
      if defaultBody.Some? { StmtsReplays(cx, s, defaultBody.value); }
    case TraitType(name, generics, bounds, defaultType) =>
      var a := [IdentVisit(name)];
      IdentReplays(cx, s, name);
      var s1 := Fold(cx, s, a);
      OptTypeReplays(cx, s1, defaultType);
      var b := OptTypeOrder(o, defaultType);
      if b.Ok? {
        var s2 := Fold(cx, s1, b.value);
        GenericsReplays(cx, s2, generics);
        var c := GenericsOrder(o, generics);
        if c.Ok? {
          BoundsReplays(cx, Fold(cx, s2, c.value), bounds);
          var d := BoundsOrder(o, bounds);
          if d.Ok? { Fold4(cx, s, a, b.value, c.value, d.value); }
        }
      }
    case TraitMacro(mac) => MacroReplays(cx, s, mac);
    case TraitVerbatim(_) =>
  }

  lemma {:induction false} TraitMembersReplays<S(!new)>(cx: Context<S>, s: S, ms: seq<TraitMember>)
    requires Passive(cx)
    ensures WalkTraitMembers(cx, s, ms) == Replay(cx, s, TraitMembersOrder(Opaque(cx), ms), ms)
    decreases |ms|
  {
    if |ms| > 0 {
      TraitMemberReplays(cx, s, ms[0]);
      var a := TraitMemberOrder(Opaque(cx), ms[0]);
      if a.Ok? {
        TraitMembersReplays(cx, Fold(cx, s, a.value), ms[1..]);
        var b := TraitMembersOrder(Opaque(cx), ms[1..]);
        if b.Ok? {
          FoldAppend(cx, s, a.value, b.value);
          Uncons(ms);
        }
      }
    }
  }

  lemma OtherItemReplays<S(!new)>(cx: Context<S>, s: S, other: OtherItem)
    requires Passive(cx)
    ensures WalkOtherItem(cx, s, other) == Replay(cx, s, OtherItemOrder(Opaque(cx), other), other)
  {
    match other.item
    case ConstItem(_, _, _, _) => ConstItemReplays(cx, s, other);
    case MacroItem(macroName, mac) =>
      OptIdentReplays(cx, s, macroName);
      MacroReplays(cx, Fold(cx, s, OptIdentOrder(macroName)), mac);
      var b := MacroOrder(Opaque(cx), mac);
      if b.Ok? { FoldAppend(cx, s, OptIdentOrder(macroName), b.value); }
    case StaticItem(_, _, _) => StaticItemReplays(cx, s, other);
    case TraitItem(_, _, _, _, _) => TraitItemReplays(cx, s, other);
    case TraitAliasItem(_, _, _) => TraitAliasItemReplays(cx, s, other);
    case TypeAliasItem(_, _, _) => TypeAliasItemReplays(cx, s, other);
    case UnionItem(_, _, _) => UnionItemReplays(cx, s, other);
    case _ =>
  }

  lemma ConstItemReplays<S(!new)>(cx: Context<S>, s: S, other: OtherItem)
    requires Passive(cx) && other.item.ConstItem?
    ensures WalkOtherItem(cx, s, other) == Replay(cx, s, OtherItemOrder(Opaque(cx), other), other)
  {
    var o := Opaque(cx);
    var ConstItem(name, generics, ty, value) := other.item;
    var a := [IdentVisit(name)];
    IdentReplays(cx, s, name);
    var s1 := Fold(cx, s, a);
    TypeReplays(cx, s1, ty);
    var b := TypeOrder(o, ty);
    if b.Ok? {
      var s2 := Fold(cx, s1, b.value);
      ExprReplays(cx, s2, value);
      var c := ExprOrder(o, value);
      if c.Ok? {
        GenericsReplays(cx, Fold(cx, s2, c.value), generics);
        var d := GenericsOrder(o, generics);
        if d.Ok? { Fold4(cx, s, a, b.value, c.value, d.value); }
      }
    }
  }

  lemma StaticItemReplays<S(!new)>(cx: Context<S>, s: S, other: OtherItem)
    requires Passive(cx) && other.item.StaticItem?
    ensures WalkOtherItem(cx, s, other) == Replay(cx, s, OtherItemOrder(Opaque(cx), other), other)
  {
    var o := Opaque(cx);
    var StaticItem(name, ty, value) := other.item;
    IdentReplays(cx, s, name);
    var s1 := Fold(cx, s, [IdentVisit(name)]);
    ExprReplays(cx, s1, value);
    var b := ExprOrder(o, value);
    if b.Ok? {
      TypeReplays(cx, Fold(cx, s1, b.value), ty);
      var c := TypeOrder(o, ty);
      if c.Ok? { NamedPairFold(cx, s, name, b.value, c.value); }
    }
  }

  lemma TraitItemReplays<S(!new)>(cx: Context<S>, s: S, other: OtherItem)
    requires Passive(cx) && other.item.TraitItem?
    ensures WalkOtherItem(cx, s, other) == Replay(cx, s, OtherItemOrder(Opaque(cx), other), other)
  {
    var o := Opaque(cx);
    var TraitItem(name, generics, supertraits, restricted, members) := other.item;
    var a := [IdentVisit(name)];
    IdentReplays(cx, s, name);
    var s1 := Fold(cx, s, a);
    GenericsReplays(cx, s1, generics);
    var b := GenericsOrder(o, generics);
    if b.Ok? {
      var s2 := Fold(cx, s1, b.value);
      BoundsReplays(cx, s2, supertraits);
      var c := BoundsOrder(o, supertraits);
      if c.Ok? && !restricted {
        TraitMembersReplays(cx, Fold(cx, s2, c.value), members);
        var d := TraitMembersOrder(o, members);
        if d.Ok? { Fold4(cx, s, a, b.value, c.value, d.value); }
      }
    }
  }

  lemma TraitAliasItemReplays<S(!new)>(cx: Context<S>, s: S, other: OtherItem)
    requires Passive(cx) && other.item.TraitAliasItem?
    ensures WalkOtherItem(cx, s, other) == Replay(cx, s, OtherItemOrder(Opaque(cx), other), other)
  {
    var o := Opaque(cx);
    var TraitAliasItem(name, generics, bounds) := other.item;
    IdentReplays(cx, s, name);
    var s1 := Fold(cx, s, [IdentVisit(name)]);
    GenericsReplays(cx, s1, generics);
    var b := GenericsOrder(o, generics);
    if b.Ok? {
      BoundsReplays(cx, Fold(cx, s1, b.value), bounds);
      var c := BoundsOrder(o, bounds);
      if c.Ok? { NamedPairFold(cx, s, name, b.value, c.value); }
    }
  }

  lemma TypeAliasItemReplays<S(!new)>(cx: Context<S>, s: S, other: OtherItem)
    requires Passive(cx) && other.item.TypeAliasItem?
    ensures WalkOtherItem(cx, s, other) == Replay(cx, s, OtherItemOrder(Opaque(cx), other), other)
  {
    var o := Opaque(cx);
    var TypeAliasItem(name, generics, ty) := other.item;
    IdentReplays(cx, s, name);
    var s1 := Fold(cx, s, [IdentVisit(name)]);
    GenericsReplays(cx, s1, generics);
    var b := GenericsOrder(o, generics);
    if b.Ok? {
      TypeReplays(cx, Fold(cx, s1, b.value), ty);
      var c := TypeOrder(o, ty);
      if c.Ok? { NamedPairFold(cx, s, name, b.value, c.value); }
    }
  }

  lemma UnionItemReplays<S(!new)>(cx: Context<S>, s: S, other: OtherItem)
    requires Passive(cx) && other.item.UnionItem?
    ensures WalkOtherItem(cx, s, other) == Replay(cx, s, OtherItemOrder(Opaque(cx), other), other)
  {
    var o := Opaque(cx);
    var UnionItem(name, generics, fields) := other.item;
    IdentReplays(cx, s, name);
    var s1 := Fold(cx, s, [IdentVisit(name)]);
    GenericsReplays(cx, s1, generics);
    var b := GenericsOrder(o, generics);
    if b.Ok? {
      FieldListReplays(cx, Fold(cx, s1, b.value), fields);
      var c := FieldListOrder(o, fields);
      if c.Ok? { NamedPairFold(cx, s, name, b.value, c.value); }
    }
  }

  // ---------------------------------------------------------------------
  // `Item::walk`, and the items of a module in order

  function WalkItem<S(!new)>(cx: Context<S>, s: S, item: Item): (r: Result<Walked<S, Item>>)
    requires Shrinking(cx)
    ensures r.Ok? ==> r.value.node.Struct? == item.Struct? && r.value.node.Enum? == item.Enum?
    ensures r.Ok? ==> r.value.node.Fn? == item.Fn? && r.value.node.Other? == item.Other?
    ensures r.Ok? && item.Fn? ==> r.value.node.fnItem.item.Global? == item.fnItem.item.Global?
    ensures r.Ok? && item.Other? ==> IsFn(r.value.node.otherItem) == IsFn(item.otherItem)
  {
    match item
    case Struct(st) =>
      var a :- WalkStructItem(cx, s, st);
      Ok(Walked(a.state, Struct(a.node)))
    case Enum(en) =>
      var a :- WalkEnumItem(cx, s, en);
      Ok(Walked(a.state, Enum(a.node)))
    case Fn(f) =>
      var a :- WalkFnItem(cx, s, f);
      Ok(Walked(a.state, Fn(a.node)))
    case Other(other) =>
      var a :- WalkOtherItem(cx, s, other);
      Ok(Walked(a.state, Other(a.node)))
  }

  function WalkItems<S(!new)>(cx: Context<S>, s: S, items: seq<Item>): (r: Result<Walked<S, seq<Item>>>)
    requires Shrinking(cx)
    ensures r.Ok? ==> |r.value.node| == |items|
  {
    if |items| == 0 then Ok(Walked(s, []))
    else
      var a :- WalkItem(cx, s, items[0]);
      var b :- WalkItems(cx, a.state, items[1..]);
      Ok(Walked(b.state, [a.node] + b.node))
  }

  function ItemOrder(o: bool, item: Item): Result<seq<Visit>> {
    match item
    case Struct(st) => StructItemOrder(o, st)
    case Enum(en) => EnumItemOrder(o, en)
    case Fn(f) => FnItemOrder(o, f)
    case Other(other) => OtherItemOrder(o, other)
  }

  function ItemsOrder(o: bool, items: seq<Item>): Result<seq<Visit>> {
    if |items| == 0 then Ok([])
    else
      var a :- ItemOrder(o, items[0]);
      var b :- ItemsOrder(o, items[1..]);
      Ok(a + b)
  }

  lemma ItemReplays<S(!new)>(cx: Context<S>, s: S, item: Item)
    requires Passive(cx)
    ensures WalkItem(cx, s, item) == Replay(cx, s, ItemOrder(Opaque(cx), item), item)
  {
    match item
    case Struct(st) => StructItemReplays(cx, s, st);
    case Enum(en) => EnumItemReplays(cx, s, en);
    case Fn(f) => FnItemReplays(cx, s, f);
    case Other(other) => OtherItemReplays(cx, s, other);
  }

  lemma {:induction false} ItemsReplays<S(!new)>(cx: Context<S>, s: S, items: seq<Item>)
    requires Passive(cx)
    ensures WalkItems(cx, s, items) == Replay(cx, s, ItemsOrder(Opaque(cx), items), items)
    decreases |items|
  {
    if |items| > 0 {
      ItemReplays(cx, s, items[0]);
      var a := ItemOrder(Opaque(cx), items[0]);
      if a.Ok? {
        ItemsReplays(cx, Fold(cx, s, a.value), items[1..]);
        var b := ItemsOrder(Opaque(cx), items[1..]);
        if b.Ok? {
          FoldAppend(cx, s, a.value, b.value);
          Uncons(items);
        }
      }
    }
  }
}
