/** The declarations a module holds (`src/items`): the reduced `syn::Item`,
    and the crate's wrappers around it. A struct or enum carries the `impl`
    blocks attached to it; an `impl` block carries copies of its methods as
    `FnItem`s, which are what the walk edits. */
module Items {
  import opened Base
  import opened Syntax
  import opened UseTrees

  // ---------------------------------------------------------------------
  // The reduced `syn::Item`

  datatype ItemStruct = ItemStruct(attrs: seq<string>, name: Ident, generics: Generics, fields: Fields)

  datatype Variant = Variant(name: Ident, fields: Fields, discriminant: Option<Expr>)

  datatype ItemEnum = ItemEnum(attrs: seq<string>, name: Ident, generics: Generics, variants: seq<Variant>)

  /** What `syn::ItemFn` and `syn::ImplItemFn` share: attributes, visibility,
      signature and body. */
  datatype FnDecl = FnDecl(attrs: seq<string>, vis: string, sig: Signature, body: seq<Stmt>)

  /** A member of an `impl` block. */
  datatype ImplMember =
    | ImplConst(name: Ident, generics: Generics, ty: Type, value: Expr)
    | ImplType(name: Ident, generics: Generics, ty: Type)
    | ImplMacro(mac: Macro)
    | ImplFn(decl: FnDecl, isDefault: bool)
    | ImplVerbatim(text: string)

  /** `syn::ItemImpl`: generics, the implemented trait if any, the self type
      and the members. */
  datatype ItemImpl = ItemImpl(generics: Generics, traitPath: Option<SynPath>, selfTy: Type, members: seq<ImplMember>)

  /** A member of a trait; `default` is a method's provided body. */
  datatype TraitMember =
    | TraitConst(name: Ident, ty: Type, defaultValue: Option<Expr>, generics: Generics)
    | TraitFn(sig: Signature, defaultBody: Option<seq<Stmt>>)
    | TraitType(name: Ident, generics: Generics, bounds: seq<TypeParamBound>, defaultType: Option<Type>)
    | TraitMacro(mac: Macro)
    | TraitVerbatim(text: string)

  datatype ExternCrate = ExternCrate(name: Ident, rename: Option<Ident>)

  datatype SynItem =
    | ConstItem(name: Ident, generics: Generics, ty: Type, value: Expr)
    | FnSynItem(decl: FnDecl)
    | MacroItem(macroName: Option<Ident>, mac: Macro)
    | StaticItem(name: Ident, ty: Type, value: Expr)
    | StructSynItem(structItem: ItemStruct)
    | EnumSynItem(enumItem: ItemEnum)
    | ImplSynItem(implItem: ItemImpl)
      /** `restricted` stands for a trait's `impl(..)` restriction. */
    | TraitItem(name: Ident, generics: Generics, supertraits: seq<TypeParamBound>, restricted: bool, traitMembers: seq<TraitMember>)
    | TraitAliasItem(name: Ident, generics: Generics, bounds: seq<TypeParamBound>)
    | TypeAliasItem(name: Ident, generics: Generics, ty: Type)
    | UnionItem(name: Ident, generics: Generics, unionFields: seq<Field>)
    | UseSynItem(useItem: UseItem)
    | ExternCrateItem(externCrate: ExternCrate)
      /** Modules, foreign blocks and verbatim tokens. */
    | VerbatimItem(text: string)

  // ---------------------------------------------------------------------
  // The crate's wrappers

  datatype FnType = Global(decl: FnDecl) | Implementation(decl: FnDecl, isDefault: bool)

  datatype FnItem = FnItem(item: FnType)

  datatype ImplementationItem = ImplementationItem(item: ItemImpl, functions: seq<FnItem>)

  datatype StructItem = StructItem(item: ItemStruct, implItems: seq<ImplementationItem>)

  datatype EnumItem = EnumItem(item: ItemEnum, implItems: seq<ImplementationItem>)

  datatype OtherItem = OtherItem(item: SynItem)

  datatype Item = Struct(structItem: StructItem) | Enum(enumItem: EnumItem) | Fn(fnItem: FnItem) | Other(otherItem: OtherItem)

  const UnsupportedType := "Unsupported type"
  const NotGlobal := "Not a global function"
  const NoDefaultness := "Defaultness not available in global function"
  const Todo := "not yet implemented"

  // ---------------------------------------------------------------------
  // `FnType` (`items/fn_item.rs`)

  /** `to_syn_item`: a global function becomes an item; a method aborts. */
  function FnTypeToSynItem(f: FnType): (r: Result<SynItem>)
    ensures r.Ok? <==> f.Global?
    ensures r.Ok? ==> r.value == FnSynItem(f.decl)
  {
    match f
    case Global(decl) => Ok(FnSynItem(decl))
    case Implementation(_, _) => Abort(NotGlobal)
  }

  /** `defaultness`: only a method has one. */
  function Defaultness(f: FnType): (r: Result<bool>)
    ensures r.Ok? <==> f.Implementation?
    ensures r.Ok? ==> r.value == f.isDefault
  {
    match f
    case Global(_) => Abort(NoDefaultness)
    case Implementation(_, isDefault) => Ok(isDefault)
  }

  /** `signature_mut` and `block_mut`: replacing the signature or body keeps
      the variant and everything else. */
  function WithSignature(f: FnType, sig: Signature): (r: FnType)
    ensures r.Global? == f.Global? && r.decl.sig == sig
    ensures r.decl.body == f.decl.body && r.decl.attrs == f.decl.attrs && r.decl.vis == f.decl.vis
    ensures r.Implementation? ==> r.isDefault == f.isDefault
  {
    match f
    case Global(d) => Global(d.(sig := sig))
    case Implementation(d, isDefault) => Implementation(d.(sig := sig), isDefault)
  }

  function WithBody(f: FnType, body: seq<Stmt>): (r: FnType)
    ensures r.Global? == f.Global? && r.decl.body == body
    ensures r.decl.sig == f.decl.sig && r.decl.attrs == f.decl.attrs && r.decl.vis == f.decl.vis
    ensures r.Implementation? ==> r.isDefault == f.isDefault
  {
    match f
    case Global(d) => Global(d.(body := body))
    case Implementation(d, isDefault) => Implementation(d.(body := body), isDefault)
  }

  /** Reading back what was written. */
  lemma FnTypeAccessorsRoundTrip(f: FnType, sig: Signature, body: seq<Stmt>)
    ensures WithSignature(f, f.decl.sig) == f && WithBody(f, f.decl.body) == f
    ensures WithBody(WithSignature(f, sig), body) == WithSignature(WithBody(f, body), sig)
  {
  }

  /** `FnItem::ident`: the name in the signature. */
  function FnIdent(f: FnItem): Ident {
    f.item.decl.sig.name
  }

  // ---------------------------------------------------------------------
  // `ImplementationItem` (`items/implementation_item.rs`)

  /** The member functions of an `impl` block, as `FnItem`s, in order. */
  function MethodsOf(members: seq<ImplMember>): (r: seq<FnItem>)
    ensures |r| <= |members|
    ensures forall i :: 0 <= i < |r| ==> r[i].item.Implementation?
    ensures forall i :: 0 <= i < |members| && members[i].ImplFn? ==>
      FnItem(Implementation(members[i].decl, members[i].isDefault)) in r
    ensures forall f :: f in r ==> ImplFn(f.item.decl, f.item.isDefault) in members
  {
    if |members| == 0 then []
    else
      var rest := MethodsOf(members[1..]);
      if members[0].ImplFn? then [FnItem(Implementation(members[0].decl, members[0].isDefault))] + rest
      else rest
  }

  /** The copies keep the block's order: collecting distributes over
      concatenation, and a single member gives a copy exactly when it is a
      function. */
  lemma {:induction false} MethodsOfAppend(a: seq<ImplMember>, b: seq<ImplMember>)
    ensures MethodsOf(a + b) == MethodsOf(a) + MethodsOf(b)
    ensures |a| == 1 ==> MethodsOf(a) == (if a[0].ImplFn? then [FnItem(Implementation(a[0].decl, a[0].isDefault))] else [])
    decreases |a|
  {
    if |a| > 0 {
      assert (a + b)[1..] == a[1..] + b;
      MethodsOfAppend(a[1..], b);
    } else {
      assert a + b == b;
    }
  }

  /** How many members of an `impl` block are functions. */
  function CountMethods(members: seq<ImplMember>): nat {
    if |members| == 0 then 0
    else (if members[0].ImplFn? then 1 else 0) + CountMethods(members[1..])
  }

  lemma {:induction false} MethodsCounted(members: seq<ImplMember>)
    ensures |MethodsOf(members)| == CountMethods(members)
    decreases |members|
  {
    if |members| > 0 {
      MethodsCounted(members[1..]);
    }
  }

  /** `ImplementationItem::new`: the block, with copies of its functions. */
  function NewImplementationItem(item: ItemImpl): (r: ImplementationItem)
    ensures r.item == item
    ensures r.functions == MethodsOf(item.members)
    ensures |r.functions| == CountMethods(item.members)
    ensures forall i :: 0 <= i < |r.functions| ==> r.functions[i].item.Implementation?
  {
    MethodsCounted(item.members);
    ImplementationItem(item, MethodsOf(item.members))
  }

  /** `ImplementationItem::ident`: the last segment of the self type's path.
      Any other self type aborts, and so does a path without segments. */
  function ImplIdent(i: ImplementationItem): (r: Result<Ident>)
    ensures r.Ok? <==> i.item.selfTy.PathType? && |i.item.selfTy.path.segments| > 0
    ensures r.Ok? ==> r.value == i.item.selfTy.path.segments[|i.item.selfTy.path.segments| - 1].name
  {
    match i.item.selfTy
    case PathType(_, path) =>
      if |path.segments| == 0 then Abort(UnwrapNone)
      else Ok(path.segments[|path.segments| - 1].name)
    case _ => Abort(UnsupportedType)
  }

  /** Each `impl` wrapped, in the given order. */
  function WrapImpls(impls: seq<ItemImpl>): (r: seq<ImplementationItem>)
    ensures |r| == |impls|
    ensures forall i :: 0 <= i < |impls| ==> r[i] == NewImplementationItem(impls[i])
  {
    if |impls| == 0 then [] else [NewImplementationItem(impls[0])] + WrapImpls(impls[1..])
  }

  /** The `impl` blocks, unwrapped again: `WrapImpls` keeps every block. */
  function Blocks(impls: seq<ImplementationItem>): (r: seq<ItemImpl>)
    ensures |r| == |impls|
    ensures forall i :: 0 <= i < |impls| ==> r[i] == impls[i].item
  {
    if |impls| == 0 then [] else [impls[0].item] + Blocks(impls[1..])
  }

  lemma WrapImplsKeepsBlocks(impls: seq<ItemImpl>)
    ensures Blocks(WrapImpls(impls)) == impls
  {
  }

  /** `StructItem::new` and `EnumItem::new`. */
  function NewStructItem(item: ItemStruct, impls: seq<ItemImpl>): (r: StructItem)
    ensures r.item == item && Blocks(r.implItems) == impls
  {
    WrapImplsKeepsBlocks(impls);
    StructItem(item, WrapImpls(impls))
  }

  function NewEnumItem(item: ItemEnum, impls: seq<ItemImpl>): (r: EnumItem)
    ensures r.item == item && Blocks(r.implItems) == impls
  {
    WrapImplsKeepsBlocks(impls);
    EnumItem(item, WrapImpls(impls))
  }

  // ---------------------------------------------------------------------
  // `OtherItem` (`items/other_item.rs`)

  /** `is_fn`. */
  predicate IsFn(o: OtherItem) {
    o.item.FnSynItem?
  }

  /** The kinds `OtherItem::ident` can name. */
  predicate HasOwnName(item: SynItem) {
    || item.ConstItem? || item.StaticItem? || item.TraitItem? || item.TraitAliasItem?
    || item.TypeAliasItem? || item.UnionItem? || (item.MacroItem? && item.macroName.Some?)
  }

  /** `OtherItem::ident`: an unnamed macro aborts on `unwrap`, and every kind
      without a name of its own aborts. */
  function OtherIdent(o: OtherItem): (r: Result<Ident>)
    ensures r.Ok? <==> HasOwnName(o.item)
    ensures r.Ok? && o.item.MacroItem? ==> r.value == o.item.macroName.value
    ensures r.Ok? && !o.item.MacroItem? ==> r.value == o.item.name
  {
    match o.item
    case ConstItem(name, _, _, _) => Ok(name)
    case MacroItem(macroName, _) => if macroName.None? then Abort(UnwrapNone) else Ok(macroName.value)
    case StaticItem(name, _, _) => Ok(name)
    case TraitItem(name, _, _, _, _) => Ok(name)
    case TraitAliasItem(name, _, _) => Ok(name)
    case TypeAliasItem(name, _, _) => Ok(name)
    case UnionItem(name, _, _) => Ok(name)
    case _ => Abort(UnsupportedType)
  }

  // ---------------------------------------------------------------------
  // `Item` (`items/item.rs`)

  /** `ItemTrait::ident`, dispatched to the variant. */
  function ItemIdent(item: Item): (r: Result<Ident>)
    ensures item.Struct? ==> r == Ok(item.structItem.item.name)
    ensures item.Enum? ==> r == Ok(item.enumItem.item.name)
    ensures item.Fn? ==> r == Ok(FnIdent(item.fnItem))
    ensures item.Other? ==> r == OtherIdent(item.otherItem)
  {
    match item
    case Struct(st) => Ok(st.item.name)
    case Enum(en) => Ok(en.item.name)
    case Fn(f) => Ok(FnIdent(f))
    case Other(o) => OtherIdent(o)
  }

  /** `to_syn_item`: the wrapped declaration; a method aborts. */
  function ToSynItem(item: Item): (r: Result<SynItem>)
    ensures r.Ok? <==> !(item.Fn? && item.fnItem.item.Implementation?)
    ensures item.Struct? ==> r == Ok(StructSynItem(item.structItem.item))
    ensures item.Enum? ==> r == Ok(EnumSynItem(item.enumItem.item))
    ensures item.Other? ==> r == Ok(item.otherItem.item)
  {
    match item
    case Struct(st) => Ok(StructSynItem(st.item))
    case Enum(en) => Ok(EnumSynItem(en.item))
    case Fn(f) => FnTypeToSynItem(f.item)
    case Other(o) => Ok(o.item)
  }

  /** `as_struct_ref` / `as_struct_mut`. */
  function AsStruct(item: Item): (r: Option<StructItem>)
    ensures r.Some? <==> item.Struct?
    ensures r.Some? ==> Struct(r.value) == item
  {
    if item.Struct? then Some(item.structItem) else None
  }
}
