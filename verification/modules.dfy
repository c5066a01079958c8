/** `items/module_item.rs`: one source file's items, grouped the way the
    crate keeps them (extern crates, use items, everything else), with the
    lookups, edits and the decomposition back into a flat item list. */
module Modules {
  import opened Base
  import opened Syntax
  import opened Paths
  import opened NamingConventions
  import opened Walkers
  import opened Visits
  import opened Replays
  import opened UseTrees
  import opened Items
  import opened ItemWalks

  datatype ModuleItem = ModuleItem(
    name: string,
    fileName: string,
    externCrates: seq<ExternCrate>,
    useItems: seq<UseItem>,
    items: seq<Item>)

  const ImplementationPanic := "Unexpected implementation function"

  /** `ModuleItem::new`: named after the file in the crate's camel case
      (leading capital), keeping the file name, with nothing inside. The name
      conversion aborts where `to_camel_case` does. */
  function NewModule(fileName: string): (r: Result<ModuleItem>)
    ensures r.Ok? <==> ToCamelCase(fileName).Ok?
    ensures r.Ok? ==> r.value.fileName == fileName && r.value.name == ToCamelCase(fileName).value
    ensures r.Ok? ==> r.value.externCrates == [] && r.value.useItems == [] && r.value.items == []
  {
    var name :- ToCamelCase(fileName);
    Ok(ModuleItem(name, fileName, [], [], []))
  }

  // ---------------------------------------------------------------------
  // Pushes: each appends to one list and leaves the rest alone.

  function PushExternCrate(m: ModuleItem, e: ExternCrate): ModuleItem {
    m.(externCrates := m.externCrates + [e])
  }

  function PushUse(m: ModuleItem, u: UseItem): ModuleItem {
    m.(useItems := m.useItems + [u])
  }

  function PushItem(m: ModuleItem, item: Item): ModuleItem {
    m.(items := m.items + [item])
  }

  /** `push_struct`, `push_enum`, `push_global_function` and `push_item`. */
  function PushStruct(m: ModuleItem, s: ItemStruct): ModuleItem {
    PushItem(m, Struct(NewStructItem(s, [])))
  }

  function PushEnum(m: ModuleItem, e: ItemEnum): ModuleItem {
    PushItem(m, Enum(NewEnumItem(e, [])))
  }

  function PushGlobalFunction(m: ModuleItem, f: FnDecl): ModuleItem {
    PushItem(m, Fn(FnItem(Global(f))))
  }

  function PushOther(m: ModuleItem, item: SynItem): ModuleItem {
    PushItem(m, Other(OtherItem(item)))
  }

  // ---------------------------------------------------------------------
  // Attaching `impl` blocks

  /** `item_impl_ident`: the FIRST segment of the self type's path; any other
      self type, or a path without segments, gives nothing. */
  function ItemImplIdent(block: ItemImpl): (r: Option<Ident>)
    ensures r.Some? <==> block.selfTy.PathType? && |block.selfTy.path.segments| > 0
    ensures r.Some? ==> r.value == block.selfTy.path.segments[0].name
  {
    match block.selfTy
    case PathType(_, path) => if |path.segments| == 0 then None else Some(path.segments[0].name)
    case _ => None
  }

  /** The name an attached block answers to: `ImplementationItem::ident`, the
      LAST segment of the self type's path. It aborts on exactly the blocks
      `item_impl_ident` gives nothing for. */
  function BlockIdent(block: ItemImpl): (r: Result<Ident>)
    ensures r.Ok? <==> ItemImplIdent(block).Some?
    ensures r == ImplIdent(NewImplementationItem(block))
  {
    ImplIdent(NewImplementationItem(block))
  }

  function StructNamed(name: Ident): Item -> bool {
    (item: Item) => item.Struct? && item.structItem.item.name == name
  }

  function EnumNamed(name: Ident): Item -> bool {
    (item: Item) => item.Enum? && item.enumItem.item.name == name
  }

  /** The wrapped block appended to the impls of the struct or enum at `k`. */
  function AttachAt(items: seq<Item>, k: nat, block: ItemImpl): (r: seq<Item>)
    requires k < |items| && (items[k].Struct? || items[k].Enum?)
    ensures |r| == |items|
    ensures forall j :: 0 <= j < |items| && j != k ==> r[j] == items[j]
    ensures items[k].Struct? ==> r[k].Struct? && r[k].structItem.item == items[k].structItem.item
    ensures items[k].Struct? ==> r[k].structItem.implItems == items[k].structItem.implItems + [NewImplementationItem(block)]
    ensures items[k].Enum? ==> r[k].Enum? && r[k].enumItem.item == items[k].enumItem.item
    ensures items[k].Enum? ==> r[k].enumItem.implItems == items[k].enumItem.implItems + [NewImplementationItem(block)]
  {
    var updated := match items[k]
      case Struct(st) => Struct(st.(implItems := st.implItems + [NewImplementationItem(block)]))
      case Enum(en) => Enum(en.(implItems := en.implItems + [NewImplementationItem(block)]));
    items[k := updated]
  }

  /** The block goes to the first item `owner(key)` accepts; with none, the
      module is left as it is. */
  function AttachToFirst(m: ModuleItem, owner: Ident -> Item -> bool, key: Ident, block: ItemImpl): (r: ModuleItem)
    requires forall name, item :: owner(name)(item) ==> item.Struct? || item.Enum?
    ensures r.(items := m.items) == m && |r.items| == |m.items|
  {
    var k := FindFirst(owner(key), m.items);
    if k.None? then m else m.(items := AttachAt(m.items, k.value, block))
  }

  /** `push_impl_to_struct` as written: the block is keyed by the first
      segment of its self type, so `impl crate::Foo` looks for a struct named
      `crate`. A self type that is not a path aborts on `unwrap`. */
  function PushImplToStructAsWritten(m: ModuleItem, block: ItemImpl): (r: Result<ModuleItem>)
    ensures r.Ok? <==> ItemImplIdent(block).Some?
    ensures r.Ok? ==> r.value.(items := m.items) == m
    ensures r.Ok? ==>
      var k := FindFirst(StructNamed(ItemImplIdent(block).value), m.items);
      && (k.None? ==> r.value == m)
      && (k.Some? ==> r.value.items == AttachAt(m.items, k.value, block))
  {
    var key := ItemImplIdent(block);
    if key.None? then Abort(UnwrapNone) else Ok(AttachToFirst(m, StructNamed, key.value, block))
  }

  /** `push_impl_to_enum` as written: keyed, like the struct version, by the
      first segment of the self type. */
  function PushImplToEnumAsWritten(m: ModuleItem, block: ItemImpl): (r: Result<ModuleItem>)
    ensures r.Ok? <==> ItemImplIdent(block).Some?
    ensures r.Ok? ==> r.value.(items := m.items) == m
    ensures r.Ok? ==>
      var k := FindFirst(EnumNamed(ItemImplIdent(block).value), m.items);
      && (k.None? ==> r.value == m)
      && (k.Some? ==> r.value.items == AttachAt(m.items, k.value, block))
  {
    var key := ItemImplIdent(block);
    if key.None? then Abort(UnwrapNone) else Ok(AttachToFirst(m, EnumNamed, key.value, block))
  }

  /** `push_impl_to_struct`, keyed by the name the block answers to: the
      first struct with that name receives it; the others, and every other
      item, are unchanged; without such a struct nothing changes. */
  function PushImplToStruct(m: ModuleItem, block: ItemImpl): (r: Result<ModuleItem>)
    ensures r.Ok? <==> ItemImplIdent(block).Some?
    ensures r.Ok? ==> r.value.(items := m.items) == m && |r.value.items| == |m.items|
    ensures r.Ok? ==>
      var k := FindFirst(StructNamed(BlockIdent(block).value), m.items);
      && (k.None? ==> r.value == m)
      && (k.Some? ==> forall j :: 0 <= j < |m.items| && j != k.value ==> r.value.items[j] == m.items[j])
      && (k.Some? ==> r.value.items[k.value].Struct? && r.value.items[k.value].structItem.item == m.items[k.value].structItem.item)
      && (k.Some? ==> Blocks(r.value.items[k.value].structItem.implItems) == Blocks(m.items[k.value].structItem.implItems) + [block])
  {
    var key :- BlockIdent(block);
    var k := FindFirst(StructNamed(key), m.items);
    if k.None? then Ok(m)
    else
      var items := AttachAt(m.items, k.value, block);
      assert Blocks(items[k.value].structItem.implItems) == Blocks(m.items[k.value].structItem.implItems) + [block];
      Ok(m.(items := items))
  }

  /** `push_impl_to_enum` with the corrected keying: the same as
      `PushImplToStruct`, for enums. */
  function PushImplToEnum(m: ModuleItem, block: ItemImpl): (r: Result<ModuleItem>)
    ensures r.Ok? <==> ItemImplIdent(block).Some?
    ensures r.Ok? ==> r.value.(items := m.items) == m && |r.value.items| == |m.items|
    ensures r.Ok? ==>
      var k := FindFirst(EnumNamed(BlockIdent(block).value), m.items);
      && (k.None? ==> r.value == m)
      && (k.Some? ==> forall j :: 0 <= j < |m.items| && j != k.value ==> r.value.items[j] == m.items[j])
      && (k.Some? ==> r.value.items[k.value].Enum? && r.value.items[k.value].enumItem.item == m.items[k.value].enumItem.item)
      && (k.Some? ==> Blocks(r.value.items[k.value].enumItem.implItems) == Blocks(m.items[k.value].enumItem.implItems) + [block])
  {
    var key :- BlockIdent(block);
    var k := FindFirst(EnumNamed(key), m.items);
    if k.None? then Ok(m)
    else
      var items := AttachAt(m.items, k.value, block);
      assert Blocks(items[k.value].enumItem.implItems) == Blocks(m.items[k.value].enumItem.implItems) + [block];
      Ok(m.(items := items))
  }

  /** Every block attached to a struct or enum answers to its name. */
  ghost predicate ImplsNamed(items: seq<Item>) {
    forall k :: 0 <= k < |items| ==>
      && (items[k].Struct? ==> forall j :: 0 <= j < |items[k].structItem.implItems| ==>
            ImplIdent(items[k].structItem.implItems[j]) == Ok(items[k].structItem.item.name))
      && (items[k].Enum? ==> forall j :: 0 <= j < |items[k].enumItem.implItems| ==>
            ImplIdent(items[k].enumItem.implItems[j]) == Ok(items[k].enumItem.item.name))
  }

  lemma PushImplToStructKeepsNames(m: ModuleItem, block: ItemImpl)
    requires ImplsNamed(m.items)
    ensures PushImplToStruct(m, block).Ok? ==> ImplsNamed(PushImplToStruct(m, block).value.items)
  {
    var r := PushImplToStruct(m, block);
    if r.Ok? {
      var k := FindFirst(StructNamed(BlockIdent(block).value), m.items);
      if k.Some? {
        var items := r.value.items;
        assert items == AttachAt(m.items, k.value, block);
        forall i | 0 <= i < |items|
          ensures items[i].Struct? ==> forall j :: 0 <= j < |items[i].structItem.implItems| ==>
            ImplIdent(items[i].structItem.implItems[j]) == Ok(items[i].structItem.item.name)
          ensures items[i].Enum? ==> forall j :: 0 <= j < |items[i].enumItem.implItems| ==>
            ImplIdent(items[i].enumItem.implItems[j]) == Ok(items[i].enumItem.item.name)
        {
          if i == k.value {
            var old_ := m.items[i].structItem.implItems;
            assert items[i].structItem.implItems == old_ + [NewImplementationItem(block)];
          }
        }
      }
    }
  }

  lemma PushImplToEnumKeepsNames(m: ModuleItem, block: ItemImpl)
    requires ImplsNamed(m.items)
    ensures PushImplToEnum(m, block).Ok? ==> ImplsNamed(PushImplToEnum(m, block).value.items)
  {
    var r := PushImplToEnum(m, block);
    if r.Ok? {
      var k := FindFirst(EnumNamed(BlockIdent(block).value), m.items);
      if k.Some? {
        var items := r.value.items;
        assert items == AttachAt(m.items, k.value, block);
        forall i | 0 <= i < |items|
          ensures items[i].Struct? ==> forall j :: 0 <= j < |items[i].structItem.implItems| ==>
            ImplIdent(items[i].structItem.implItems[j]) == Ok(items[i].structItem.item.name)
          ensures items[i].Enum? ==> forall j :: 0 <= j < |items[i].enumItem.implItems| ==>
            ImplIdent(items[i].enumItem.implItems[j]) == Ok(items[i].enumItem.item.name)
        {
          if i == k.value {
            var old_ := m.items[i].enumItem.implItems;
            assert items[i].enumItem.implItems == old_ + [NewImplementationItem(block)];
          }
        }
      }
    }
  }

  function FooStruct(): ItemStruct {
    ItemStruct([], "Foo", NoGenerics, UnitFields)
  }

  function ImplOf(names: seq<Ident>): ItemImpl {
    ItemImpl(NoGenerics, None, PathType(None, SynPath(false, seq(|names|, i requires 0 <= i < |names| => Segment(names[i], NoArgs)))), [])
  }

  /** As written, `impl crate::Foo` is looked up under `crate` and silently
      dropped, although it answers to `Foo`; the keyed version attaches it. */
  lemma QualifiedImplDropped()
    ensures var m := PushStruct(ModuleItem("M", "m", [], [], []), FooStruct());
      && PushImplToStructAsWritten(m, ImplOf(["crate", "Foo"])) == Ok(m)
      && PushImplToStruct(m, ImplOf(["crate", "Foo"])) != Ok(m)
  {
    var m := PushStruct(ModuleItem("M", "m", [], [], []), FooStruct());
    var block := ImplOf(["crate", "Foo"]);
    assert m.items == [Struct(StructItem(FooStruct(), []))];
    assert !StructNamed("crate")(m.items[0]);
    assert FindFirst(StructNamed("crate"), m.items) == None;
    assert StructNamed("Foo")(m.items[0]);
    assert FindFirst(StructNamed("Foo"), m.items) == Some(0);
    var r := PushImplToStruct(m, block).value;
    assert |r.items[0].structItem.implItems| == 1;
  }

  /** And `impl Foo::Bar` lands on struct `Foo` although it answers to `Bar`,
      breaking `ImplsNamed`. */
  lemma NestedImplMisplaced()
    ensures var m := PushStruct(ModuleItem("M", "m", [], [], []), FooStruct());
      && PushImplToStructAsWritten(m, ImplOf(["Foo", "Bar"])).Ok?
      && !ImplsNamed(PushImplToStructAsWritten(m, ImplOf(["Foo", "Bar"])).value.items)
  {
    var m := PushStruct(ModuleItem("M", "m", [], [], []), FooStruct());
    var block := ImplOf(["Foo", "Bar"]);
    assert m.items == [Struct(StructItem(FooStruct(), []))];
    assert StructNamed("Foo")(m.items[0]);
    assert FindFirst(StructNamed("Foo"), m.items) == Some(0);
    var items := PushImplToStructAsWritten(m, block).value.items;
    assert items[0].structItem.implItems[0] == NewImplementationItem(block);
    assert ImplIdent(items[0].structItem.implItems[0]) == Ok("Bar");
  }

  function FooEnum(): ItemEnum {
    ItemEnum([], "Foo", NoGenerics, [])
  }

  /** The enum twin of `QualifiedImplDropped`: as written, `impl crate::Foo`
      never reaches `enum Foo`; keyed by its answer name it does. */
  lemma QualifiedEnumImplDropped()
    ensures var m := PushEnum(ModuleItem("M", "m", [], [], []), FooEnum());
      && PushImplToEnumAsWritten(m, ImplOf(["crate", "Foo"])) == Ok(m)
      && PushImplToEnum(m, ImplOf(["crate", "Foo"])) != Ok(m)
  {
    var m := PushEnum(ModuleItem("M", "m", [], [], []), FooEnum());
    var block := ImplOf(["crate", "Foo"]);
    assert m.items == [Enum(EnumItem(FooEnum(), []))];
    assert !EnumNamed("crate")(m.items[0]);
    assert FindFirst(EnumNamed("crate"), m.items) == None;
    assert EnumNamed("Foo")(m.items[0]);
    assert FindFirst(EnumNamed("Foo"), m.items) == Some(0);
    var r := PushImplToEnum(m, block).value;
    assert |r.items[0].enumItem.implItems| == 1;
  }

  /** And `impl Foo::Bar` lands on `enum Foo`, breaking `ImplsNamed`. */
  lemma NestedEnumImplMisplaced()
    ensures var m := PushEnum(ModuleItem("M", "m", [], [], []), FooEnum());
      && PushImplToEnumAsWritten(m, ImplOf(["Foo", "Bar"])).Ok?
      && !ImplsNamed(PushImplToEnumAsWritten(m, ImplOf(["Foo", "Bar"])).value.items)
  {
    var m := PushEnum(ModuleItem("M", "m", [], [], []), FooEnum());
    var block := ImplOf(["Foo", "Bar"]);
    assert m.items == [Enum(EnumItem(FooEnum(), []))];
    assert EnumNamed("Foo")(m.items[0]);
    assert FindFirst(EnumNamed("Foo"), m.items) == Some(0);
    var items := PushImplToEnumAsWritten(m, block).value.items;
    assert items[0].enumItem.implItems[0] == NewImplementationItem(block);
    assert ImplIdent(items[0].enumItem.implItems[0]) == Ok("Bar");
  }

  /** Where the first and the last segment name agree (a one-segment self
      type, say), the keying as written and the corrected keying attach the
      block to the same struct or enum. Both abort on the same blocks. */
  lemma SameKeyAttachesAlike(m: ModuleItem, block: ItemImpl)
    requires ItemImplIdent(block).Some? ==> ItemImplIdent(block).value == BlockIdent(block).value
    ensures ItemImplIdent(block).Some? ==> PushImplToStructAsWritten(m, block) == PushImplToStruct(m, block)
    ensures ItemImplIdent(block).Some? ==> PushImplToEnumAsWritten(m, block) == PushImplToEnum(m, block)
  {
    if ItemImplIdent(block).Some? {
      var key := ItemImplIdent(block).value;
      assert BlockIdent(block) == Ok(key);
    }
  }

  // ---------------------------------------------------------------------
  // Lookups

  /** The item at `k` has no identifier, and none before it is `ident`. */
  predicate FirstAbortAt(items: seq<Item>, ident: Ident, k: int) {
    && 0 <= k < |items| && ItemIdent(items[k]).Abort?
    && forall j :: 0 <= j < k ==> ItemIdent(items[j]).Ok? && ItemIdent(items[j]).value != ident
  }

  /** `find_item_by_ident`: the first item whose identifier is `ident`. Each
      identifier is computed in turn, so an item without one that comes
      before the match aborts the search. */
  function FindItemByIdent(items: seq<Item>, ident: Ident): (r: Result<Option<nat>>)
    ensures r.Ok? && r.value.Some? ==> r.value.value < |items| && ItemIdent(items[r.value.value]) == Ok(ident)
    ensures r.Ok? ==> forall j :: 0 <= j < |items| && (r.value.None? || j < r.value.value) ==>
      ItemIdent(items[j]).Ok? && ItemIdent(items[j]).value != ident
    ensures r.Abort? ==> exists k :: FirstAbortAt(items, ident, k)
  {
    if |items| == 0 then Ok(None)
    else
      var first := ItemIdent(items[0]);
      if first.Abort? then
        assert FirstAbortAt(items, ident, 0);
        Abort(first.reason)
      else if first.value == ident then Ok(Some(0))
      else
        var rest := FindItemByIdent(items[1..], ident);
        if rest.Abort? then
          assert exists k :: FirstAbortAt(items, ident, k) by {
            var k :| FirstAbortAt(items[1..], ident, k);
            assert FirstAbortAt(items, ident, k + 1);
          }
          Abort(rest.reason)
        else if rest.value.None? then Ok(None)
        else Ok(Some(rest.value.value + 1))
  }

  /** When every item has an identifier, the search is the first position of
      that identifier. */
  lemma {:induction false} FindItemByIdentIsFirst(items: seq<Item>, ident: Ident)
    requires forall j :: 0 <= j < |items| ==> ItemIdent(items[j]).Ok?
    ensures FindItemByIdent(items, ident) == Ok(FindFirst((item: Item) => ItemIdent(item) == Ok(ident), items))
    decreases |items|
  {
    if |items| > 0 && ItemIdent(items[0]) != Ok(ident) {
      FindItemByIdentIsFirst(items[1..], ident);
    }
  }

  /** `find_items_by` and `find_item_by`. */
  function FindItemsBy(m: ModuleItem, p: Item -> bool): (r: seq<Item>)
    ensures forall i :: 0 <= i < |r| ==> r[i] in m.items && p(r[i])
    ensures forall i :: 0 <= i < |m.items| && p(m.items[i]) ==> m.items[i] in r
    ensures |r| == |m.items| <==> forall i :: 0 <= i < |m.items| ==> p(m.items[i])
  {
    Filter(p, m.items)
  }

  /** The search keeps the module's order: the items found in a module are
      those found in its first `k` items followed by those found in the
      rest. */
  lemma FindItemsBySplit(m: ModuleItem, p: Item -> bool, k: nat)
    requires k <= |m.items|
    ensures FindItemsBy(m, p) == FindItemsBy(m.(items := m.items[..k]), p) + FindItemsBy(m.(items := m.items[k..]), p)
  {
    assert m.items == m.items[..k] + m.items[k..];
    FilterAppend(p, m.items[..k], m.items[k..]);
  }

  function FindItemBy(m: ModuleItem, p: Item -> bool): (r: Option<Item>)
    ensures r.Some? ==> r.value in m.items && p(r.value)
    ensures r.Some? ==> exists k :: 0 <= k < |m.items| && m.items[k] == r.value && forall j :: 0 <= j < k ==> !p(m.items[j])
    ensures r.None? ==> forall i :: 0 <= i < |m.items| ==> !p(m.items[i])
  {
    var k := FindFirst(p, m.items);
    if k.None? then None else Some(m.items[k.value])
  }

  /** `find_item_mut_by`: the same search, as the position to edit. */
  function FindItemMutBy(m: ModuleItem, p: Item -> bool): (r: Option<nat>)
    ensures r.Some? ==> r.value < |m.items| && p(m.items[r.value])
    ensures r.Some? ==> FindItemBy(m, p) == Some(m.items[r.value])
    ensures r.None? <==> FindItemBy(m, p).None?
  {
    FindFirst(p, m.items)
  }

  /** The single item found is the first of the items found. */
  lemma {:induction false} FindItemByIsFirstFound(items: seq<Item>, p: Item -> bool)
    ensures var m := ModuleItem("", "", [], [], items);
      && (FindItemBy(m, p).Some? <==> |FindItemsBy(m, p)| > 0)
      && (FindItemBy(m, p).Some? ==> FindItemBy(m, p).value == FindItemsBy(m, p)[0])
    decreases |items|
  {
    if |items| > 0 && !p(items[0]) {
      FindItemByIsFirstFound(items[1..], p);
    }
  }

  /** `take_items_by`: the items the filter accepts are returned; the module
      keeps the rest. */
  datatype Taken = Taken(taken: seq<Item>, rest: ModuleItem)

  function TakeItemsBy(m: ModuleItem, p: Item -> bool): (r: Taken)
    ensures r.rest.(items := m.items) == m
    ensures r.taken == FindItemsBy(m, p)
    ensures forall i :: 0 <= i < |r.taken| ==> p(r.taken[i])
    ensures forall i :: 0 <= i < |r.rest.items| ==> !p(r.rest.items[i]) && r.rest.items[i] in m.items
    ensures forall i :: 0 <= i < |m.items| && !p(m.items[i]) ==> m.items[i] in r.rest.items
  {
    Taken(Filter(p, m.items), m.(items := Filter((item: Item) => !p(item), m.items)))
  }

  /** Together the two halves are the items the module had: nothing lost,
      nothing duplicated. */
  lemma TakeItemsPartition(items: seq<Item>, p: Item -> bool)
    ensures var r := TakeItemsBy(ModuleItem("", "", [], [], items), p);
      multiset(r.taken) + multiset(r.rest.items) == multiset(items)
  {
    FilterPartition(p, (item: Item) => !p(item), items);
  }

  /** Both halves keep the module's order: taking from a module is taking
      from its first `k` items, then from the rest. */
  lemma TakeItemsSplit(m: ModuleItem, p: Item -> bool, k: nat)
    requires k <= |m.items|
    ensures var r := TakeItemsBy(m, p);
      var a := TakeItemsBy(m.(items := m.items[..k]), p);
      var b := TakeItemsBy(m.(items := m.items[k..]), p);
      r.taken == a.taken + b.taken && r.rest.items == a.rest.items + b.rest.items
  {
    assert m.items == m.items[..k] + m.items[k..];
    FilterAppend(p, m.items[..k], m.items[k..]);
    FilterAppend((item: Item) => !p(item), m.items[..k], m.items[k..]);
  }

  // ---------------------------------------------------------------------
  // Decomposition (`decompose`)

  function ImplBlocks(impls: seq<ImplementationItem>): (r: seq<SynItem>)
    ensures |r| == |impls|
    ensures forall i :: 0 <= i < |impls| ==> r[i] == ImplSynItem(impls[i].item)
  {
    seq(|impls|, i requires 0 <= i < |impls| => ImplSynItem(impls[i].item))
  }

  function ImplsOf(item: Item): seq<ImplementationItem> {
    match item
    case Struct(st) => st.implItems
    case Enum(en) => en.implItems
    case _ => []
  }

  /** One item as declarations: its own, then its `impl` blocks. A method
      aborts, as `to_syn_item` does. */
  function DecomposeItem(item: Item): (r: Result<seq<SynItem>>)
    ensures r.Ok? <==> ToSynItem(item).Ok?
    ensures r.Ok? ==> r.value == [ToSynItem(item).value] + ImplBlocks(ImplsOf(item))
  {
    match item
    case Struct(st) => Ok([StructSynItem(st.item)] + ImplBlocks(st.implItems))
    case Enum(en) => Ok([EnumSynItem(en.item)] + ImplBlocks(en.implItems))
    case Fn(f) => if f.item.Global? then Ok([FnSynItem(f.item.decl)]) else Abort(ImplementationPanic)
    case Other(o) => Ok([o.item])
  }

  function DecomposeItems(items: seq<Item>): (r: Result<seq<SynItem>>)
    ensures r.Ok? <==> forall i :: 0 <= i < |items| ==> ToSynItem(items[i]).Ok?
  {
    if |items| == 0 then Ok([])
    else
      var a :- DecomposeItem(items[0]);
      var b :- DecomposeItems(items[1..]);
      Ok(a + b)
  }

  lemma {:induction false} DecomposeItemsAppend(a: seq<Item>, b: seq<Item>)
    ensures DecomposeItems(a + b).Ok? <==> DecomposeItems(a).Ok? && DecomposeItems(b).Ok?
    ensures DecomposeItems(a + b).Ok? ==> DecomposeItems(a + b).value == DecomposeItems(a).value + DecomposeItems(b).value
    decreases |a|
  {
    if |a| == 0 {
      assert a + b == b;
    } else {
      assert (a + b)[1..] == a[1..] + b;
      DecomposeItemsAppend(a[1..], b);
    }
  }

  function Externs(es: seq<ExternCrate>): (r: seq<SynItem>)
    ensures |r| == |es|
    ensures forall i :: 0 <= i < |es| ==> r[i] == ExternCrateItem(es[i])
  {
    seq(|es|, i requires 0 <= i < |es| => ExternCrateItem(es[i]))
  }

  function Uses(us: seq<UseItem>): (r: seq<SynItem>)
    ensures |r| == |us|
    ensures forall i :: 0 <= i < |us| ==> r[i] == UseSynItem(us[i])
  {
    seq(|us|, i requires 0 <= i < |us| => UseSynItem(us[i]))
  }

  /** `decompose`: extern crates, then use items, then every item followed by
      its `impl` blocks. A method among the items aborts. */
  function Decompose(m: ModuleItem): (r: Result<seq<SynItem>>)
    ensures r.Ok? <==> forall i :: 0 <= i < |m.items| ==> ToSynItem(m.items[i]).Ok?
    ensures r.Ok? ==> |r.value| == |m.externCrates| + |m.useItems| + |DecomposeItems(m.items).value|
    ensures r.Ok? ==> r.value[..|m.externCrates|] == Externs(m.externCrates)
    ensures r.Ok? ==> r.value[|m.externCrates|..|m.externCrates| + |m.useItems|] == Uses(m.useItems)
    ensures r.Ok? ==> r.value[|m.externCrates| + |m.useItems|..] == DecomposeItems(m.items).value
  {
    var items :- DecomposeItems(m.items);
    var all := Externs(m.externCrates) + Uses(m.useItems) + items;
    assert all[..|m.externCrates|] == Externs(m.externCrates);
    assert all[|m.externCrates|..|m.externCrates| + |m.useItems|] == Uses(m.useItems);
    Ok(all)
  }

  /** The number of `impl` blocks attached to items. */
  function AttachedImpls(items: seq<Item>): nat {
    if |items| == 0 then 0 else |ImplsOf(items[0])| + AttachedImpls(items[1..])
  }

  /** Decomposition loses nothing: one declaration per extern crate, use
      item and item, and one per attached `impl` block. */
  lemma {:induction false} DecomposeItemsCount(items: seq<Item>)
    requires DecomposeItems(items).Ok?
    ensures |DecomposeItems(items).value| == |items| + AttachedImpls(items)
    decreases |items|
  {
    if |items| > 0 {
      DecomposeItemsCount(items[1..]);
    }
  }

  lemma DecomposeCount(m: ModuleItem)
    requires Decompose(m).Ok?
    ensures |Decompose(m).value| == |m.externCrates| + |m.useItems| + |m.items| + AttachedImpls(m.items)
  {
    DecomposeItemsCount(m.items);
  }

  /** A pushed item reappears at the end of the decomposition. */
  lemma DecomposePushItem(m: ModuleItem, item: Item)
    ensures Decompose(PushItem(m, item)).Ok? <==> Decompose(m).Ok? && DecomposeItem(item).Ok?
    ensures Decompose(PushItem(m, item)).Ok? ==> Decompose(PushItem(m, item)).value == Decompose(m).value + DecomposeItem(item).value
  {
    var m' := PushItem(m, item);
    var head := Externs(m.externCrates) + Uses(m.useItems);
    assert m'.items == m.items + [item] && Externs(m'.externCrates) + Uses(m'.useItems) == head;
    DecomposeItemsPush(m.items, item);
    DecomposeUnfold(m);
    DecomposeUnfold(m');
    if Decompose(m').Ok? {
      calc {
        Decompose(m').value;
        head + DecomposeItems(m.items + [item]).value;
        head + (DecomposeItems(m.items).value + DecomposeItem(item).value);
        { ConcatAssoc(head, DecomposeItems(m.items).value, DecomposeItem(item).value); }
        (head + DecomposeItems(m.items).value) + DecomposeItem(item).value;
      }
    }
  }

  lemma DecomposeItemsPush(items: seq<Item>, item: Item)
    ensures DecomposeItems(items + [item]).Ok? <==> DecomposeItems(items).Ok? && DecomposeItem(item).Ok?
    ensures DecomposeItems(items + [item]).Ok? ==> DecomposeItems(items + [item]).value == DecomposeItems(items).value + DecomposeItem(item).value
  {
    DecomposeItemsAppend(items, [item]);
    DecomposeOne(item);
  }

  /** The declarations are the extern crates, then the use items, then the
      items' declarations. */
  lemma DecomposeUnfold(m: ModuleItem)
    ensures Decompose(m).Ok? == DecomposeItems(m.items).Ok?
    ensures Decompose(m).Ok? ==> Decompose(m).value == Externs(m.externCrates) + Uses(m.useItems) + DecomposeItems(m.items).value
  {
  }

  lemma DecomposeOne(item: Item)
    ensures DecomposeItems([item]) == DecomposeItem(item)
  {
    if DecomposeItem(item).Ok? {
      assert [item][1..] == [];
      assert DecomposeItem(item).value + [] == DecomposeItem(item).value;
    }
  }

  lemma DecomposePushStruct(m: ModuleItem, s: ItemStruct)
    ensures Decompose(PushStruct(m, s)).Ok? <==> Decompose(m).Ok?
    ensures Decompose(m).Ok? ==> Decompose(PushStruct(m, s)).value == Decompose(m).value + [StructSynItem(s)]
  {
    DecomposePushItem(m, Struct(NewStructItem(s, [])));
  }

  lemma DecomposePushGlobalFunction(m: ModuleItem, f: FnDecl)
    ensures Decompose(PushGlobalFunction(m, f)).Ok? <==> Decompose(m).Ok?
    ensures Decompose(m).Ok? ==> Decompose(PushGlobalFunction(m, f)).value == Decompose(m).value + [FnSynItem(f)]
  {
    DecomposePushItem(m, Fn(FnItem(Global(f))));
  }

  lemma DecomposePushOther(m: ModuleItem, item: SynItem)
    ensures Decompose(PushOther(m, item)).Ok? <==> Decompose(m).Ok?
    ensures Decompose(m).Ok? ==> Decompose(PushOther(m, item)).value == Decompose(m).value + [item]
  {
    DecomposePushItem(m, Other(OtherItem(item)));
  }

  /** A pushed use item lands at the end of the use section. */
  lemma DecomposePushUse(m: ModuleItem, u: UseItem)
    ensures Decompose(PushUse(m, u)).Ok? <==> Decompose(m).Ok?
    ensures Decompose(m).Ok? ==>
      var k := |m.externCrates| + |m.useItems|;
      Decompose(PushUse(m, u)).value == Decompose(m).value[..k] + [UseSynItem(u)] + Decompose(m).value[k..]
  {
    if Decompose(m).Ok? {
      var k := |m.externCrates| + |m.useItems|;
      var d := Decompose(m).value;
      assert d == d[..|m.externCrates|] + d[|m.externCrates|..k] + d[k..];
      assert Uses(m.useItems + [u]) == Uses(m.useItems) + [UseSynItem(u)];
    }
  }

  /** And an extern crate at the end of the extern section. */
  lemma DecomposePushExternCrate(m: ModuleItem, e: ExternCrate)
    ensures Decompose(PushExternCrate(m, e)).Ok? <==> Decompose(m).Ok?
    ensures Decompose(m).Ok? ==>
      var k := |m.externCrates|;
      Decompose(PushExternCrate(m, e)).value == Decompose(m).value[..k] + [ExternCrateItem(e)] + Decompose(m).value[k..]
  {
    if Decompose(m).Ok? {
      var k := |m.externCrates|;
      var d := Decompose(m).value;
      assert d == d[..k] + d[k..];
      assert Externs(m.externCrates + [e]) == Externs(m.externCrates) + [ExternCrateItem(e)];
    }
  }

  // ---------------------------------------------------------------------
  // `remove_use_items_starting_with`

  function NotStarting(prefix: Path): UseItem -> bool {
    (u: UseItem) => StartWith(u, prefix) != Ok(true)
  }

  /** Keeps the use items that do not start with the prefix, in order; a use
      item `start_with` aborts on aborts the whole edit. */
  function KeepNotStarting(uses: seq<UseItem>, prefix: Path): (r: Result<seq<UseItem>>)
    ensures r.Ok? <==> forall i :: 0 <= i < |uses| ==> StartWith(uses[i], prefix).Ok?
    ensures r.Ok? ==> r.value == Filter(NotStarting(prefix), uses)
    ensures r.Ok? ==> forall i :: 0 <= i < |r.value| ==> StartWith(r.value[i], prefix) == Ok(false)
  {
    if |uses| == 0 then Ok([])
    else
      var starts :- StartWith(uses[0], prefix);
      var rest :- KeepNotStarting(uses[1..], prefix);
      if starts then Ok(rest) else Ok([uses[0]] + rest)
  }

  function RemoveUseItemsStartingWith(m: ModuleItem, prefix: Path): (r: Result<ModuleItem>)
    ensures r.Ok? <==> forall i :: 0 <= i < |m.useItems| ==> StartWith(m.useItems[i], prefix).Ok?
    ensures r.Ok? ==> r.value.(useItems := m.useItems) == m
    ensures r.Ok? ==> forall i :: 0 <= i < |r.value.useItems| ==> StartWith(r.value.useItems[i], prefix) == Ok(false)
    ensures r.Ok? ==> forall i :: 0 <= i < |m.useItems| && StartWith(m.useItems[i], prefix) == Ok(false) ==> m.useItems[i] in r.value.useItems
  {
    var kept :- KeepNotStarting(m.useItems, prefix);
    Ok(m.(useItems := kept))
  }

  /** Removing twice removes nothing more. */
  lemma RemoveUseItemsIdempotent(m: ModuleItem, prefix: Path)
    requires RemoveUseItemsStartingWith(m, prefix).Ok?
    ensures var once := RemoveUseItemsStartingWith(m, prefix).value;
      RemoveUseItemsStartingWith(once, prefix) == Ok(once)
  {
    var once := RemoveUseItemsStartingWith(m, prefix).value;
    FilterKeepsAll(NotStarting(prefix), once.useItems);
  }

  lemma {:induction false} FilterKeepsAll<T>(p: T -> bool, xs: seq<T>)
    requires forall i :: 0 <= i < |xs| ==> p(xs[i])
    ensures Filter(p, xs) == xs
    decreases |xs|
  {
    if |xs| > 0 {
      FilterKeepsAll(p, xs[1..]);
      assert xs == [xs[0]] + xs[1..];
    }
  }

  // ---------------------------------------------------------------------
  // `ItemTrait for ModuleItem`

  /** An extern crate's name, then its rename, go to the ident predicate. */
  function WalkExternCrates<S(!new)>(cx: Context<S>, s: S, es: seq<ExternCrate>): (r: Walked<S, seq<ExternCrate>>)
    ensures |r.node| == |es|
    ensures forall i :: 0 <= i < |es| ==> r.node[i].rename.Some? == es[i].rename.Some?
  {
    if |es| == 0 then Walked(s, [])
    else
      var a := WalkIdent(cx, s, es[0].name);
      var b := WalkOptIdent(cx, a.state, es[0].rename);
      var c := WalkExternCrates(cx, b.state, es[1..]);
      Walked(c.state, [ExternCrate(a.node, b.node)] + c.node)
  }

  /** `walk`: the items, then any use item stops the walk with `todo!`, then
      the extern crates. The name and file name are never walked. */
  function WalkModule<S(!new)>(cx: Context<S>, s: S, m: ModuleItem): (r: Result<Walked<S, ModuleItem>>)
    requires Shrinking(cx)
    ensures |m.useItems| > 0 ==> r.Abort?
    ensures r.Ok? ==> r.value.node.name == m.name && r.value.node.fileName == m.fileName && r.value.node.useItems == []
    ensures r.Ok? ==> |r.value.node.items| == |m.items| && |r.value.node.externCrates| == |m.externCrates|
  {
    var a :- WalkItems(cx, s, m.items);
    if |m.useItems| > 0 then Abort(Todo)
    else
      var b := WalkExternCrates(cx, a.state, m.externCrates);
      Ok(Walked(b.state, m.(items := a.node, externCrates := b.node)))
  }

  function ExternCratesOrder(es: seq<ExternCrate>): seq<Visit> {
    if |es| == 0 then [] else [IdentVisit(es[0].name)] + OptIdentOrder(es[0].rename) + ExternCratesOrder(es[1..])
  }

  function ModuleOrder(o: bool, m: ModuleItem): Result<seq<Visit>> {
    var a :- ItemsOrder(o, m.items);
    if |m.useItems| > 0 then Abort(Todo) else Ok(a + ExternCratesOrder(m.externCrates))
  }

  lemma {:induction false} ExternCratesReplays<S(!new)>(cx: Context<S>, s: S, es: seq<ExternCrate>)
    requires Passive(cx)
    ensures WalkExternCrates(cx, s, es) == Walked(Fold(cx, s, ExternCratesOrder(es)), es)
    decreases |es|
  {
    if |es| > 0 {
      IdentReplays(cx, s, es[0].name);
      var s1 := Fold(cx, s, [IdentVisit(es[0].name)]);
      OptIdentReplays(cx, s1, es[0].rename);
      var s2 := Fold(cx, s1, OptIdentOrder(es[0].rename));
      ExternCratesReplays(cx, s2, es[1..]);
      Fold3(cx, s, [IdentVisit(es[0].name)], OptIdentOrder(es[0].rename), ExternCratesOrder(es[1..]));
      assert es == [es[0]] + es[1..];
    }
  }

  /** With a passive context the walk of a module replays its visit list. */
  lemma ModuleReplays<S(!new)>(cx: Context<S>, s: S, m: ModuleItem)
    requires Passive(cx)
    ensures WalkModule(cx, s, m) == Replay(cx, s, ModuleOrder(Opaque(cx), m), m)
  {
    ItemsReplays(cx, s, m.items);
    var a := ItemsOrder(Opaque(cx), m.items);
    if a.Ok? && |m.useItems| == 0 {
      var s1 := Fold(cx, s, a.value);
      ExternCratesReplays(cx, s1, m.externCrates);
      FoldAppend(cx, s, a.value, ExternCratesOrder(m.externCrates));
    }
  }
}
