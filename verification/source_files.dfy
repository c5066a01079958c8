/** `items/source_file.rs`: a source file as a list of modules, the renaming
    that keeps item names apart across modules, and `merge`, which folds every
    module into one; with `functions/trim_path.rs`'s `from_source_file`. */
module SourceFiles {
  import opened Base
  import opened Syntax
  import opened Paths
  import opened Walkers
  import opened UseTrees
  import opened Items
  import opened ItemWalkers
  import opened ItemWalks
  import opened Modules
  import opened Passes

  datatype SourceFile = SourceFile(attrs: seq<string>, modules: seq<ModuleItem>)

  /** What renaming must keep of a module: everything but the items'
      contents. */
  datatype Outline = Outline(name: string, fileName: string, externCrates: seq<ExternCrate>, useItems: seq<UseItem>, count: nat)

  function OutlineOf(m: ModuleItem): Outline {
    Outline(m.name, m.fileName, m.externCrates, m.useItems, |m.items|)
  }

  function Outlines(ms: seq<ModuleItem>): seq<Outline> {
    seq(|ms|, k requires 0 <= k < |ms| => OutlineOf(ms[k]))
  }

  /** Two module lists that differ at most in the contents of their items. */
  predicate SameShape(a: seq<ModuleItem>, b: seq<ModuleItem>) {
    Outlines(a) == Outlines(b)
  }

  lemma OutlinesUpdate(ms: seq<ModuleItem>, k: nat, m: ModuleItem)
    requires k < |ms| && OutlineOf(m) == OutlineOf(ms[k])
    ensures SameShape(ms, ms[k := m])
  {
    assert forall j :: 0 <= j < |ms| ==> Outlines(ms[k := m])[j] == Outlines(ms)[j];
  }

  // ---------------------------------------------------------------------
  // Where each identifier is declared

  datatype Occurrence = Occurrence(ident: Ident, moduleName: string)

  function ItemOccurrences(items: seq<Item>, moduleName: string): (r: Result<seq<Occurrence>>)
    ensures r.Ok? <==> forall i :: 0 <= i < |items| ==> ItemIdent(items[i]).Ok?
    ensures r.Ok? ==> |r.value| == |items|
    ensures r.Ok? ==> forall i :: 0 <= i < |items| ==> r.value[i] == Occurrence(ItemIdent(items[i]).value, moduleName)
  {
    if |items| == 0 then Ok([])
    else
      var id :- ItemIdent(items[0]);
      var rest :- ItemOccurrences(items[1..], moduleName);
      Ok([Occurrence(id, moduleName)] + rest)
  }

  /** The first loop of `resolve_ident_conflicts`: every item's identifier
      with its module's name, module by module. An item without an
      identifier aborts. */
  function Occurrences(modules: seq<ModuleItem>): (r: Result<seq<Occurrence>>)
    ensures r.Ok? <==> forall k, i :: 0 <= k < |modules| && 0 <= i < |modules[k].items| ==> ItemIdent(modules[k].items[i]).Ok?
    ensures r.Ok? ==> forall j :: 0 <= j < |r.value| ==> exists k :: 0 <= k < |modules| && r.value[j].moduleName == modules[k].name
  {
    if |modules| == 0 then Ok([])
    else
      var a :- ItemOccurrences(modules[0].items, modules[0].name);
      var b :- Occurrences(modules[1..]);
      assert forall j :: 0 <= j < |b| ==> exists k :: 0 <= k < |modules| && b[j].moduleName == modules[k].name by {
        forall j | 0 <= j < |b| ensures exists k :: 0 <= k < |modules| && b[j].moduleName == modules[k].name {
          var k :| 0 <= k < |modules[1..]| && b[j].moduleName == modules[1..][k].name;
          assert b[j].moduleName == modules[k + 1].name;
        }
      }
      assert forall j :: 0 <= j < |a| ==> a[j].moduleName == modules[0].name;
      Ok(a + b)
  }

  /** The module names recorded for `id`, in order, repeats included. */
  function ModulesOf(occ: seq<Occurrence>, id: Ident): (r: seq<string>)
    ensures forall i :: 0 <= i < |r| ==> exists j :: 0 <= j < |occ| && occ[j] == Occurrence(id, r[i])
  {
    if |occ| == 0 then []
    else
      var rest := ModulesOf(occ[1..], id);
      assert forall i :: 0 <= i < |rest| ==> exists j :: 0 <= j < |occ| && occ[j] == Occurrence(id, rest[i]) by {
        forall i | 0 <= i < |rest| ensures exists j :: 0 <= j < |occ| && occ[j] == Occurrence(id, rest[i]) {
          var j :| 0 <= j < |occ[1..]| && occ[1..][j] == Occurrence(id, rest[i]);
          assert occ[j + 1] == Occurrence(id, rest[i]);
        }
      }
      if occ[0].ident == id then [occ[0].moduleName] + rest else rest
  }

  function Id(n: string): string {
    n
  }

  /** The names without repeats, first occurrence kept. */
  function Distinct(names: seq<string>): (r: seq<string>)
    ensures forall i, j :: 0 <= i < j < |r| ==> r[i] != r[j]
    ensures forall i :: 0 <= i < |r| ==> r[i] in names
    ensures forall i :: 0 <= i < |names| ==> names[i] in r
  {
    var r := UniqueBy(Id, names, {});
    assert forall i :: 0 <= i < |names| ==> names[i] in r by {
      forall i | 0 <= i < |names| ensures names[i] in r {
        assert Id(names[i]) in Keys(Id, names);
        assert names[i] in Keys(Id, r);
        var j :| 0 <= j < |r| && Id(r[j]) == names[i];
      }
    }
    r
  }

  /** The module names an identifier is renamed in. As written, a name is
      listed once per declaration, so two declarations of one identifier in
      one module count as a conflict; corrected, each module is listed once. */
  function ConflictNames(occ: seq<Occurrence>, id: Ident, asWritten: bool): seq<string> {
    if asWritten then ModulesOf(occ, id) else Distinct(ModulesOf(occ, id))
  }

  /** What the hash map iteration must produce: each identifier with more
      than one conflict name, once, in some order. */
  predicate Enumerates(order: seq<Ident>, occ: seq<Occurrence>, asWritten: bool) {
    && (forall i, j :: 0 <= i < j < |order| ==> order[i] != order[j])
    && (forall i :: 0 <= i < |order| ==> |ConflictNames(occ, order[i], asWritten)| > 1)
    && (forall j :: 0 <= j < |occ| && |ConflictNames(occ, occ[j].ident, asWritten)| > 1 ==> occ[j].ident in order)
  }

  // ---------------------------------------------------------------------
  // Renaming one identifier in one module

  /** The new name: the module name, then the identifier with every
      occurrence of the module name taken out. */
  function Namespaced(moduleName: string, ident: Ident): (r: string)
    ensures StartsWith(r, moduleName)
    ensures !Occurs(ident, moduleName) && moduleName != [] ==> r == moduleName + ident
  {
    moduleName + RemoveAll(ident, moduleName)
  }

  function RenameItems(items: seq<Item>, from: string, to: string): (r: Result<seq<Item>>)
    ensures r.Ok? ==> |r.value| == |items|
  {
    if |items| == 0 then Ok([])
    else
      var a :- RenameItem(items[0], from, to);
      var b :- RenameItems(items[1..], from, to);
      Ok([a] + b)
  }

  /** `find_module_by_name`'s test. */
  function NamedModule(name: string): ModuleItem -> bool {
    (m: ModuleItem) => m.name == name
  }

  /** One round of the inner loop: the first module with that name (which
      must exist), its first item with that identifier (which must exist),
      renamed on its own and then with every item of the module. Every other
      module is left as it was. */
  function ResolveIn(modules: seq<ModuleItem>, ident: Ident, moduleName: string): (r: Result<seq<ModuleItem>>)
    ensures r.Ok? ==> SameShape(modules, r.value)
    ensures FindFirst(NamedModule(moduleName), modules).None? ==> r == Abort(UnwrapNone)
    ensures FindFirst(NamedModule(moduleName), modules).Some? && FindItemByIdent(modules[FindFirst(NamedModule(moduleName), modules).value].items, ident) == Ok(None) ==> r == Abort(UnwrapNone)
    ensures r.Ok? ==> |r.value| == |modules| && forall j :: 0 <= j < |modules| && j != FindFirst(NamedModule(moduleName), modules).value ==> r.value[j] == modules[j]
  {
    var k := FindFirst(NamedModule(moduleName), modules);
    if k.None? then Abort(UnwrapNone)
    else
      var m := modules[k.value];
      var found :- FindItemByIdent(m.items, ident);
      if found.None? then Abort(UnwrapNone)
      else
        var to := Namespaced(moduleName, ident);
        var renamed :- RenameItem(m.items[found.value], ident, to);
        var all :- RenameItems(m.items[found.value := renamed], ident, to);
        OutlinesUpdate(modules, k.value, m.(items := all));
        Ok(modules[k.value := m.(items := all)])
  }

  /** The rounds for one identifier, one per listed module name; a module
      whose name is not listed is left as it was. */
  function ResolveEach(modules: seq<ModuleItem>, ident: Ident, names: seq<string>): (r: Result<seq<ModuleItem>>)
    ensures r.Ok? ==> SameShape(modules, r.value)
    ensures names == [] ==> r == Ok(modules)
    ensures r.Ok? ==> |r.value| == |modules| && forall j :: 0 <= j < |modules| && modules[j].name !in names ==> r.value[j] == modules[j]
    decreases |names|
  {
    if |names| == 0 then Ok(modules)
    else
      var a :- ResolveIn(modules, ident, names[0]);
      var b :- ResolveEach(a, ident, names[1..]);
      assert forall j :: 0 <= j < |modules| && modules[j].name !in names ==> b[j] == modules[j] by {
        forall j | 0 <= j < |modules| && modules[j].name !in names ensures b[j] == modules[j] {
          assert modules[j].name != names[0];
          assert a[j] == modules[j];
          assert a[j].name !in names[1..];
        }
      }
      Ok(b)
  }

  /** No module named `name` is renamed in for any identifier of `order`. */
  predicate Untouched(name: string, occ: seq<Occurrence>, order: seq<Ident>, asWritten: bool) {
    forall i :: 0 <= i < |order| ==> name !in ConflictNames(occ, order[i], asWritten)
  }

  /** The outer loop, one identifier after another in `order`; a module
      renamed in for none of them is left as it was. */
  function ResolveAll(modules: seq<ModuleItem>, occ: seq<Occurrence>, order: seq<Ident>, asWritten: bool): (r: Result<seq<ModuleItem>>)
    ensures r.Ok? ==> SameShape(modules, r.value)
    ensures order == [] ==> r == Ok(modules)
    ensures r.Ok? ==> |r.value| == |modules| && forall j :: 0 <= j < |modules| && Untouched(modules[j].name, occ, order, asWritten) ==> r.value[j] == modules[j]
    decreases |order|
  {
    if |order| == 0 then Ok(modules)
    else
      var a :- ResolveEach(modules, order[0], ConflictNames(occ, order[0], asWritten));
      var b :- ResolveAll(a, occ, order[1..], asWritten);
      assert forall j :: 0 <= j < |modules| && Untouched(modules[j].name, occ, order, asWritten) ==> b[j] == modules[j] by {
        forall j | 0 <= j < |modules| && Untouched(modules[j].name, occ, order, asWritten) ensures b[j] == modules[j] {
          assert a[j] == modules[j];
          assert forall i :: 0 <= i < |order[1..]| ==> order[1..][i] == order[i + 1];
          assert Untouched(a[j].name, occ, order[1..], asWritten);
        }
      }
      Ok(b)
  }

  /** Some identifier declared under `name` is a conflict. */
  predicate Conflicting(occ: seq<Occurrence>, name: string, asWritten: bool) {
    exists t :: 0 <= t < |occ| && occ[t].moduleName == name && |ConflictNames(occ, occ[t].ident, asWritten)| > 1
  }

  /** Only modules with a conflicting declaration are renamed in. */
  lemma NotConflictingUntouched(occ: seq<Occurrence>, order: seq<Ident>, name: string, asWritten: bool)
    requires Enumerates(order, occ, asWritten)
    requires !Conflicting(occ, name, asWritten)
    ensures Untouched(name, occ, order, asWritten)
  {
    forall i | 0 <= i < |order| ensures name !in ConflictNames(occ, order[i], asWritten) {
      var ns := ModulesOf(occ, order[i]);
      forall l | 0 <= l < |ns| ensures ns[l] != name {
        var t :| 0 <= t < |occ| && occ[t] == Occurrence(order[i], ns[l]);
        assert occ[t].ident == order[i];
      }
    }
  }

  /** `resolve_ident_conflicts` as written. `order` stands for the hash
      map's iteration order over the identifiers listed for more than one
      declaration. An item without an identifier aborts; a module none of
      whose declarations conflicts is left as it was. */
  function ResolveIdentConflictsAsWritten(modules: seq<ModuleItem>, order: seq<Ident>): (r: Result<seq<ModuleItem>>)
    requires Occurrences(modules).Ok? ==> Enumerates(order, Occurrences(modules).value, true)
    ensures r.Ok? ==> SameShape(modules, r.value)
    ensures Occurrences(modules).Abort? ==> r.Abort?
    ensures r.Ok? ==> |r.value| == |modules| && forall j :: 0 <= j < |modules| && !Conflicting(Occurrences(modules).value, modules[j].name, true) ==> r.value[j] == modules[j]
  {
    var occ :- Occurrences(modules);
    ResolveAllUntouched(modules, occ, order, true);
    ResolveAll(modules, occ, order, true)
  }

  /** `resolve_ident_conflicts`, each module renamed in once per
      identifier. Modules, their names, extern crates, use items and item
      counts are kept; only items are renamed, and only in modules with a
      conflicting declaration. */
  function ResolveIdentConflicts(modules: seq<ModuleItem>, order: seq<Ident>): (r: Result<seq<ModuleItem>>)
    requires Occurrences(modules).Ok? ==> Enumerates(order, Occurrences(modules).value, false)
    ensures r.Ok? ==> SameShape(modules, r.value)
    ensures (exists k, i :: 0 <= k < |modules| && 0 <= i < |modules[k].items| && ItemIdent(modules[k].items[i]).Abort?) ==> r.Abort?
    ensures r.Ok? ==> |r.value| == |modules| && forall j :: 0 <= j < |modules| && !Conflicting(Occurrences(modules).value, modules[j].name, false) ==> r.value[j] == modules[j]
  {
    var occ :- Occurrences(modules);
    ResolveAllUntouched(modules, occ, order, false);
    ResolveAll(modules, occ, order, false)
  }

  /** `ResolveAll` over an enumerating order leaves every module without a
      conflicting declaration as it was. */
  lemma ResolveAllUntouched(modules: seq<ModuleItem>, occ: seq<Occurrence>, order: seq<Ident>, asWritten: bool)
    requires Enumerates(order, occ, asWritten)
    ensures var r := ResolveAll(modules, occ, order, asWritten);
      r.Ok? ==> forall j :: 0 <= j < |modules| && !Conflicting(occ, modules[j].name, asWritten) ==> r.value[j] == modules[j]
  {
    forall j | 0 <= j < |modules| && !Conflicting(occ, modules[j].name, asWritten) {
      NotConflictingUntouched(occ, order, modules[j].name, asWritten);
    }
  }

  /** Module names recorded for a module that is the only one. */
  lemma {:induction false} ModulesOfOne(occ: seq<Occurrence>, name: string, id: Ident)
    requires forall j :: 0 <= j < |occ| ==> occ[j].moduleName == name
    ensures forall i :: 0 <= i < |ModulesOf(occ, id)| ==> ModulesOf(occ, id)[i] == name
  {
    var ns := ModulesOf(occ, id);
    forall i | 0 <= i < |ns| ensures ns[i] == name {
      var j :| 0 <= j < |occ| && occ[j] == Occurrence(id, ns[i]);
    }
  }

  /** Copies of one name shrink to at most one. */
  lemma {:induction false} UniqueOfCopies(xs: seq<string>, name: string, seen: set<string>)
    requires forall i :: 0 <= i < |xs| ==> xs[i] == name
    ensures |UniqueBy(Id, xs, seen)| <= 1
    ensures name in seen ==> UniqueBy(Id, xs, seen) == []
    decreases |xs|
  {
    if |xs| > 0 {
      UniqueOfCopies(xs[1..], name, seen + {name});
      UniqueOfCopies(xs[1..], name, seen);
    }
  }

  /** An identifier declared in a single module is never a conflict once
      each module is listed once. */
  lemma SingleModuleNames(occ: seq<Occurrence>, name: string, id: Ident)
    requires forall j :: 0 <= j < |occ| ==> occ[j].moduleName == name
    ensures |Distinct(ModulesOf(occ, id))| <= 1
  {
    ModulesOfOne(occ, name, id);
    UniqueOfCopies(ModulesOf(occ, id), name, {});
  }

  /** When every declaration is in one module, the corrected conflict set
      is empty: the only order that enumerates it is the empty one. */
  lemma SingleModuleOrders(occ: seq<Occurrence>, name: string)
    requires forall j :: 0 <= j < |occ| ==> occ[j].moduleName == name
    ensures forall order :: Enumerates(order, occ, false) ==> order == []
  {
    forall order | Enumerates(order, occ, false) ensures order == [] {
      if order != [] {
        SingleModuleNames(occ, name, order[0]);
        assert false;
      }
    }
  }

  /** A file of one module comes back unchanged from the corrected
      renaming, whatever order the hash map yields. */
  lemma ResolveSingleModule(m: ModuleItem, order: seq<Ident>)
    requires Occurrences([m]).Ok? ==> Enumerates(order, Occurrences([m]).value, false)
    ensures Occurrences([m]).Ok? ==> ResolveIdentConflicts([m], order) == Ok([m])
  {
    if Occurrences([m]).Ok? {
      var occ := Occurrences([m]).value;
      forall j | 0 <= j < |occ| ensures occ[j].moduleName == m.name {
        var k :| 0 <= k < 1 && occ[j].moduleName == [m][k].name;
      }
      SingleModuleOrders(occ, m.name);
    }
  }

  // ---------------------------------------------------------------------
  // The conflict both versions resolve, and the one only the corrected
  // version survives.

  function Unit(name: Ident): Item {
    Struct(StructItem(ItemStruct([], name, NoGenerics, UnitFields), []))
  }

  function Nullary(name: Ident): Item {
    Fn(FnItem(Global(FnDecl([], "", Signature(name, NoGenerics, [], None, None), []))))
  }

  function Holding(name: string, items: seq<Item>): ModuleItem {
    ModuleItem(name, name, [], [], items)
  }

  lemma RenameUnit(name: Ident, from: string, to: string)
    requires !StartsWith(to, "r#")
    ensures RenameItem(Unit(name), from, to) == Ok(Unit(if name == from then to else name))
  {
    var cx := RenameContext(from, to);
    var st := StructItem(ItemStruct([], name, NoGenerics, UnitFields), []);
    assert WalkGenerics(cx, (), NoGenerics) == Ok(Walked((), NoGenerics));
    assert WalkFields(cx, (), UnitFields) == Ok(Walked((), UnitFields));
    assert WalkImplItems(cx, (), []) == Ok(Walked((), []));
    assert WalkStructItem(cx, (), st) == Ok(Walked((), StructItem(ItemStruct([], if name == from then to else name, NoGenerics, UnitFields), [])));
  }

  lemma RenameNullary(name: Ident, from: string, to: string)
    requires !StartsWith(to, "r#")
    ensures RenameItem(Nullary(name), from, to) == Ok(Nullary(if name == from then to else name))
  {
    var cx := RenameContext(from, to);
    var sig := Signature(name, NoGenerics, [], None, None);
    var f := FnItem(Global(FnDecl([], "", sig, [])));
    assert WalkStmts(cx, (), []) == Ok(Walked((), []));
    assert WalkSignature(cx, (), sig) == Ok(Walked((), Signature(if name == from then to else name, NoGenerics, [], None, None)));
    assert WalkFnItem(cx, (), f) == Ok(Walked((), Nullary(if name == from then to else name).fnItem));
  }

  lemma NotRaw(s: string)
    requires |s| > 0 && s[0] != 'r'
    ensures !StartsWith(s, "r#")
  {
    if 2 <= |s| {
      assert s[..2][0] != "r#"[0];
    }
  }

  lemma ItemOccurrencesOne(item: Item, moduleName: string)
    requires ItemIdent(item).Ok?
    ensures ItemOccurrences([item], moduleName) == Ok([Occurrence(ItemIdent(item).value, moduleName)])
  {
    assert [item][1..] == [];
    assert [Occurrence(ItemIdent(item).value, moduleName)] + [] == [Occurrence(ItemIdent(item).value, moduleName)];
  }

  /** Renaming a unit struct already carrying the new name again leaves it. */
  lemma RenameUnits(from: string, to: string)
    requires !StartsWith(to, "r#")
    ensures RenameItems([Unit(to)], from, to) == Ok([Unit(to)])
  {
    RenameUnit(to, from, to);
    assert [Unit(to)][1..] == [];
    assert [Unit(to)] + [] == [Unit(to)];
  }

  /** The first module named `name`, holding one unit struct `ident`, has it
      renamed to the namespaced name. */
  lemma ResolveInUnit(modules: seq<ModuleItem>, k: nat, name: string, ident: Ident)
    requires k < |modules| && modules[k] == Holding(name, [Unit(ident)])
    requires forall j :: 0 <= j < k ==> modules[j].name != name
    requires !StartsWith(Namespaced(name, ident), "r#")
    ensures ResolveIn(modules, ident, name) == Ok(modules[k := Holding(name, [Unit(Namespaced(name, ident))])])
  {
    var to := Namespaced(name, ident);
    assert FindFirst(NamedModule(name), modules) == Some(k);
    assert FindItemByIdent([Unit(ident)], ident) == Ok(Some(0));
    RenameUnit(ident, ident, to);
    RenameUnits(ident, to);
    assert [Unit(ident)][0 := Unit(to)] == [Unit(to)];
  }

  /** A module name that can prefix `ident`: not empty, not starting a raw
      identifier, and not occurring inside `ident`. */
  predicate CanPrefix(name: string, ident: Ident) {
    name != [] && name[0] != 'r' && !Occurs(ident, name)
  }

  lemma NamespacedPlain(name: string, ident: Ident)
    requires CanPrefix(name, ident)
    ensures Namespaced(name, ident) == name + ident
    ensures !StartsWith(name + ident, "r#")
  {
    NotRaw(name + ident);
  }

  /** Unit structs `ident` in modules `a` and `b`. */
  function TwoUnits(a: string, b: string, ident: Ident): seq<ModuleItem> {
    [Holding(a, [Unit(ident)]), Holding(b, [Unit(ident)])]
  }

  lemma TwoUnitsOccurrences(a: string, b: string, ident: Ident)
    ensures Occurrences(TwoUnits(a, b, ident)) == Ok([Occurrence(ident, a), Occurrence(ident, b)])
  {
    var modules := TwoUnits(a, b, ident);
    ItemOccurrencesOne(Unit(ident), a);
    ItemOccurrencesOne(Unit(ident), b);
    assert modules[1..] == [Holding(b, [Unit(ident)])];
    assert modules[1..][1..] == [];
    assert Occurrences([]) == Ok([]);
    assert [Occurrence(ident, b)] + [] == [Occurrence(ident, b)];
    assert Occurrences(modules[1..]) == Ok([Occurrence(ident, b)]);
    assert [Occurrence(ident, a)] + [Occurrence(ident, b)] == [Occurrence(ident, a), Occurrence(ident, b)];
  }

  lemma TwoUnitsConflict(a: string, b: string, ident: Ident)
    requires a != b
    ensures ConflictNames([Occurrence(ident, a), Occurrence(ident, b)], ident, false) == [a, b]
  {
    var occ := [Occurrence(ident, a), Occurrence(ident, b)];
    assert occ[1..] == [Occurrence(ident, b)];
    assert occ[1..][1..] == [];
    assert ModulesOf(occ[1..], ident) == [b];
    assert ModulesOf(occ, ident) == [a, b];
    assert [a, b][1..] == [b];
    assert [b][1..] == [];
    assert UniqueBy(Id, [], {a, b}) == [];
    assert UniqueBy(Id, [b], {a}) == [b];
    assert Id(a) == a && Id(b) == b;
    var none: set<string> := {};
    assert none + {Id(a)} == {a};
    assert {a} + {Id(b)} == {a, b};
    assert UniqueBy(Id, [a, b], {}) == [a] + [b];
  }

  /** Two modules declaring the same identifier are a conflict of both. */
  lemma TwoUnitsEnumerated(a: string, b: string, ident: Ident)
    requires a != b
    ensures Occurrences(TwoUnits(a, b, ident)).Ok?
    ensures Enumerates([ident], Occurrences(TwoUnits(a, b, ident)).value, false)
  {
    TwoUnitsOccurrences(a, b, ident);
    TwoUnitsConflict(a, b, ident);
  }

  /** Renaming in one module is one round of `ResolveEach`. */
  lemma ResolveEachOne(modules: seq<ModuleItem>, ident: Ident, name: string)
    ensures ResolveEach(modules, ident, [name]) == ResolveIn(modules, ident, name)
  {
    assert [name][1..] == [];
  }

  /** Resolving one identifier is one `ResolveEach` over its conflict names. */
  lemma ResolveAllOne(modules: seq<ModuleItem>, occ: seq<Occurrence>, ident: Ident, asWritten: bool)
    ensures ResolveAll(modules, occ, [ident], asWritten) == ResolveEach(modules, ident, ConflictNames(occ, ident, asWritten))
  {
    assert [ident][1..] == [];
  }

  lemma TwoUnitsRenamed(a: string, b: string, ident: Ident)
    requires a != b && CanPrefix(a, ident) && CanPrefix(b, ident)
    ensures ResolveEach(TwoUnits(a, b, ident), ident, [a, b]) == Ok([Holding(a, [Unit(a + ident)]), Holding(b, [Unit(b + ident)])])
  {
    TwoUnitsFirstRound(a, b, ident);
    TwoUnitsSecondRound(a, b, ident);
    ResolveEachTwo(TwoUnits(a, b, ident), ident, a, b);
  }

  lemma TwoUnitsFirstRound(a: string, b: string, ident: Ident)
    requires a != b && CanPrefix(a, ident)
    ensures ResolveIn(TwoUnits(a, b, ident), ident, a) == Ok([Holding(a, [Unit(a + ident)]), Holding(b, [Unit(ident)])])
  {
    NamespacedPlain(a, ident);
    ResolveInUnit(TwoUnits(a, b, ident), 0, a, ident);
    assert TwoUnits(a, b, ident)[0 := Holding(a, [Unit(a + ident)])] == [Holding(a, [Unit(a + ident)]), Holding(b, [Unit(ident)])];
  }

  lemma TwoUnitsSecondRound(a: string, b: string, ident: Ident)
    requires a != b && CanPrefix(b, ident)
    ensures ResolveIn([Holding(a, [Unit(a + ident)]), Holding(b, [Unit(ident)])], ident, b) == Ok([Holding(a, [Unit(a + ident)]), Holding(b, [Unit(b + ident)])])
  {
    var step := [Holding(a, [Unit(a + ident)]), Holding(b, [Unit(ident)])];
    NamespacedPlain(b, ident);
    ResolveInUnit(step, 1, b, ident);
    assert step[1 := Holding(b, [Unit(b + ident)])] == [Holding(a, [Unit(a + ident)]), Holding(b, [Unit(b + ident)])];
  }

  /** Two rounds of `ResolveEach`, one module name each. */
  lemma ResolveEachTwo(modules: seq<ModuleItem>, ident: Ident, x: string, y: string)
    ensures ResolveIn(modules, ident, x).Ok? ==> ResolveEach(modules, ident, [x, y]) == ResolveIn(ResolveIn(modules, ident, x).value, ident, y)
  {
    assert [x, y][1..] == [y];
    if ResolveIn(modules, ident, x).Ok? {
      ResolveEachOne(ResolveIn(modules, ident, x).value, ident, y);
    }
  }

  /** `struct Foo` in modules `A` and `B` becomes `AFoo` and `BFoo`. */
  lemma ResolveTwoModules(a: string, b: string, ident: Ident)
    requires a != b && CanPrefix(a, ident) && CanPrefix(b, ident)
    ensures Occurrences(TwoUnits(a, b, ident)).Ok?
    ensures Enumerates([ident], Occurrences(TwoUnits(a, b, ident)).value, false)
    ensures ResolveIdentConflicts(TwoUnits(a, b, ident), [ident]) == Ok([Holding(a, [Unit(a + ident)]), Holding(b, [Unit(b + ident)])])
  {
    var occ := [Occurrence(ident, a), Occurrence(ident, b)];
    var modules := TwoUnits(a, b, ident);
    TwoUnitsEnumerated(a, b, ident);
    TwoUnitsOccurrences(a, b, ident);
    TwoUnitsConflict(a, b, ident);
    TwoUnitsRenamed(a, b, ident);
    ResolveAllOne(modules, occ, ident, false);
    assert ResolveAll(modules, occ, [ident], false) == ResolveEach(modules, ident, [a, b]);
    ResolvedBy(modules, [ident], false);
  }

  /** Once every declaration is collected, the renaming is `ResolveAll`
      over them. */
  lemma ResolvedBy(modules: seq<ModuleItem>, order: seq<Ident>, asWritten: bool)
    requires Occurrences(modules).Ok? && Enumerates(order, Occurrences(modules).value, asWritten)
    ensures asWritten ==> ResolveIdentConflictsAsWritten(modules, order) == ResolveAll(modules, Occurrences(modules).value, order, true)
    ensures !asWritten ==> ResolveIdentConflicts(modules, order) == ResolveAll(modules, Occurrences(modules).value, order, false)
  {
  }

  /** A unit struct and a function, both named `ident`, in one module. */
  function Twice(m: string, ident: Ident): seq<ModuleItem> {
    [Holding(m, [Unit(ident), Nullary(ident)])]
  }

  lemma TwiceOccurrences(m: string, ident: Ident)
    ensures Occurrences(Twice(m, ident)) == Ok([Occurrence(ident, m), Occurrence(ident, m)])
  {
    var items := [Unit(ident), Nullary(ident)];
    var modules := Twice(m, ident);
    var occ := [Occurrence(ident, m), Occurrence(ident, m)];
    ItemOccurrencesOne(Nullary(ident), m);
    assert items[1..] == [Nullary(ident)];
    assert ItemIdent(items[0]) == Ok(ident);
    assert [Occurrence(ident, m)] + [Occurrence(ident, m)] == occ;
    assert ItemOccurrences(items, m) == Ok(occ);
    assert modules[1..] == [];
    assert Occurrences([]) == Ok([]);
    assert occ + [] == occ;
  }

  lemma TwiceConflict(m: string, ident: Ident)
    ensures ConflictNames([Occurrence(ident, m), Occurrence(ident, m)], ident, true) == [m, m]
  {
    var occ := [Occurrence(ident, m), Occurrence(ident, m)];
    assert occ[1..] == [Occurrence(ident, m)];
    assert occ[1..][1..] == [];
    assert ModulesOf(occ[1..], ident) == [m];
  }

  lemma RenameTwice(ident: Ident, to: string)
    requires !StartsWith(to, "r#")
    ensures RenameItems([Unit(to), Nullary(ident)], ident, to) == Ok([Unit(to), Nullary(to)])
  {
    RenameUnit(to, ident, to);
    RenameNullary(ident, ident, to);
    assert [Unit(to), Nullary(ident)][1..] == [Nullary(ident)];
    assert [Nullary(ident)][1..] == [];
    assert RenameItems([], ident, to) == Ok([]);
    assert [Nullary(to)] + [] == [Nullary(to)];
    assert RenameItems([Nullary(ident)], ident, to) == Ok([Nullary(to)]);
    assert [Unit(to)] + [Nullary(to)] == [Unit(to), Nullary(to)];
  }

  /** The first round renames both declarations. */
  lemma TwiceFirstRound(m: string, ident: Ident)
    requires CanPrefix(m, ident)
    ensures ResolveIn(Twice(m, ident), ident, m) == Ok([Holding(m, [Unit(m + ident), Nullary(m + ident)])])
  {
    var items := [Unit(ident), Nullary(ident)];
    var modules := Twice(m, ident);
    NamespacedPlain(m, ident);
    RenameUnit(ident, ident, m + ident);
    RenameTwice(ident, m + ident);
    assert FindFirst(NamedModule(m), modules) == Some(0);
    assert FindItemByIdent(items, ident) == Ok(Some(0));
    assert items[0 := Unit(m + ident)] == [Unit(m + ident), Nullary(ident)];
    assert modules[0 := modules[0].(items := [Unit(m + ident), Nullary(m + ident)])] == [Holding(m, [Unit(m + ident), Nullary(m + ident)])];
  }

  /** The second round finds no `ident` left. */
  lemma TwiceSecondRound(m: string, ident: Ident)
    requires m != []
    ensures ResolveIn([Holding(m, [Unit(m + ident), Nullary(m + ident)])], ident, m) == Abort(UnwrapNone)
  {
    var renamed := [Holding(m, [Unit(m + ident), Nullary(m + ident)])];
    assert FindFirst(NamedModule(m), renamed) == Some(0);
    assert |m + ident| != |ident|;
    assert FindItemByIdent(renamed[0].items, ident) == Ok(None);
  }

  /** Both declarations make `ident` a conflict of `m` with itself. */
  lemma TwiceEnumerated(m: string, ident: Ident)
    ensures Occurrences(Twice(m, ident)).Ok?
    ensures Enumerates([ident], Occurrences(Twice(m, ident)).value, true)
  {
    TwiceOccurrences(m, ident);
    TwiceConflict(m, ident);
  }

  lemma TwiceRounds(m: string, ident: Ident)
    requires CanPrefix(m, ident)
    ensures ResolveEach(Twice(m, ident), ident, [m, m]) == Abort(UnwrapNone)
  {
    TwiceFirstRound(m, ident);
    TwiceSecondRound(m, ident);
    var renamed := [Holding(m, [Unit(m + ident), Nullary(m + ident)])];
    assert [m, m][1..] == [m];
    assert ResolveEach(renamed, ident, [m]) == Abort(UnwrapNone);
  }

  /** As written, `struct Foo` and `fn Foo` in one module `M` are a conflict
      of `M` with itself: the first round renames both, the second finds no
      `Foo` left and `unwrap` aborts. */
  lemma SameModuleConflictAborts(m: string, ident: Ident)
    requires CanPrefix(m, ident)
    ensures Occurrences(Twice(m, ident)).Ok?
    ensures Enumerates([ident], Occurrences(Twice(m, ident)).value, true)
    ensures ResolveIdentConflictsAsWritten(Twice(m, ident), [ident]) == Abort(UnwrapNone)
  {
    var occ := [Occurrence(ident, m), Occurrence(ident, m)];
    TwiceOccurrences(m, ident);
    TwiceEnumerated(m, ident);
    TwiceConflict(m, ident);
    TwiceRounds(m, ident);
    AbortsInRounds(Twice(m, ident), occ, ident);
  }

  /** When the rounds for the only conflicting identifier abort, the
      renaming as written aborts with them. */
  lemma AbortsInRounds(modules: seq<ModuleItem>, occ: seq<Occurrence>, ident: Ident)
    requires Occurrences(modules) == Ok(occ) && Enumerates([ident], occ, true)
    requires ResolveEach(modules, ident, ConflictNames(occ, ident, true)).Abort?
    ensures ResolveIdentConflictsAsWritten(modules, [ident]) == ResolveEach(modules, ident, ConflictNames(occ, ident, true))
  {
    ResolveAllOne(modules, occ, ident, true);
    ResolvedBy(modules, [ident], true);
  }

  /** Corrected, the same module is no conflict: the only order the hash
      map can produce is empty and the modules come back unchanged. */
  lemma SameModuleNoConflict(m: string, ident: Ident)
    ensures Occurrences(Twice(m, ident)).Ok?
    ensures forall order :: Enumerates(order, Occurrences(Twice(m, ident)).value, false) ==> order == []
    ensures Enumerates([], Occurrences(Twice(m, ident)).value, false)
    ensures ResolveIdentConflicts(Twice(m, ident), []) == Ok(Twice(m, ident))
  {
    var occ := [Occurrence(ident, m), Occurrence(ident, m)];
    TwiceOccurrences(m, ident);
    SingleModuleOrders(occ, m);
    forall j | 0 <= j < |occ| ensures |ConflictNames(occ, occ[j].ident, false)| <= 1 {
      SingleModuleNames(occ, m, occ[j].ident);
    }
    ResolvedBy(Twice(m, ident), [], false);
  }

  // ---------------------------------------------------------------------
  // `remove_use_items_starting_with`

  function RemoveUseItemsEach(modules: seq<ModuleItem>, prefix: Path): (r: Result<seq<ModuleItem>>)
    ensures r.Ok? <==> forall k :: 0 <= k < |modules| ==> RemoveUseItemsStartingWith(modules[k], prefix).Ok?
    ensures r.Ok? ==> |r.value| == |modules|
    ensures r.Ok? ==> forall k :: 0 <= k < |modules| ==> r.value[k] == RemoveUseItemsStartingWith(modules[k], prefix).value
  {
    if |modules| == 0 then Ok([])
    else
      var a :- RemoveUseItemsStartingWith(modules[0], prefix);
      var b :- RemoveUseItemsEach(modules[1..], prefix);
      Ok([a] + b)
  }

  /** Every module loses the use items that start with the prefix; nothing
      else changes. The call aborts exactly when some prefix test aborts. */
  function RemoveFileUseItemsStartingWith(sf: SourceFile, prefix: Path): (r: Result<SourceFile>)
    ensures r.Ok? <==> forall k :: 0 <= k < |sf.modules| ==> RemoveUseItemsStartingWith(sf.modules[k], prefix).Ok?
    ensures r.Ok? ==> r.value.attrs == sf.attrs && |r.value.modules| == |sf.modules|
    ensures r.Ok? ==> forall k :: 0 <= k < |sf.modules| ==> r.value.modules[k] == RemoveUseItemsStartingWith(sf.modules[k], prefix).value
    ensures r.Ok? ==> forall k, i :: 0 <= k < |sf.modules| && 0 <= i < |sf.modules[k].useItems| && StartWith(sf.modules[k].useItems[i], prefix) == Ok(false) ==>
      sf.modules[k].useItems[i] in r.value.modules[k].useItems
    ensures r.Ok? ==> forall k :: 0 <= k < |sf.modules| ==> r.value.modules[k].(useItems := sf.modules[k].useItems) == sf.modules[k]
    ensures r.Ok? ==> forall k, i :: 0 <= k < |sf.modules| && 0 <= i < |r.value.modules[k].useItems| ==>
      StartWith(r.value.modules[k].useItems[i], prefix) == Ok(false)
  {
    var modules :- RemoveUseItemsEach(sf.modules, prefix);
    Ok(SourceFile(sf.attrs, modules))
  }

  // ---------------------------------------------------------------------
  // `merge`

  function AllExterns(modules: seq<ModuleItem>): seq<ExternCrate> {
    if |modules| == 0 then [] else modules[0].externCrates + AllExterns(modules[1..])
  }

  function AllUses(modules: seq<ModuleItem>): seq<UseItem> {
    if |modules| == 0 then [] else modules[0].useItems + AllUses(modules[1..])
  }

  function AllItems(modules: seq<ModuleItem>): seq<Item> {
    if |modules| == 0 then [] else modules[0].items + AllItems(modules[1..])
  }

  /** `self::<file name>`, the path a re-export of a merged module starts with. */
  function SelfPrefix(fileName: string): (r: Path)
    ensures Names(r.segments) == [CreateIdent("self"), CreateIdent(fileName)]
  {
    JoinSegment(NewPath("self"), fileName)
  }

  /** The prefixes of every module's re-exports. */
  function Prefixes(modules: seq<ModuleItem>): (r: seq<Path>)
    ensures |r| == |modules|
    ensures forall k :: 0 <= k < |modules| ==> r[k] == SelfPrefix(modules[k].fileName)
  {
    seq(|modules|, k requires 0 <= k < |modules| => SelfPrefix(modules[k].fileName))
  }

  /** The `retain_mut` loop, once per prefix: what is left starts with none
      of the prefixes and comes from the input. */
  function RemovePrefixes(uses: seq<UseItem>, prefixes: seq<Path>): (r: Result<seq<UseItem>>)
    ensures r.Ok? ==> forall i, k :: 0 <= i < |r.value| && 0 <= k < |prefixes| ==> StartWith(r.value[i], prefixes[k]) == Ok(false)
    ensures r.Ok? ==> forall i :: 0 <= i < |r.value| ==> r.value[i] in uses
    decreases |prefixes|
  {
    if |prefixes| == 0 then Ok(uses)
    else
      var kept :- KeepNotStarting(uses, prefixes[0]);
      var rest :- RemovePrefixes(kept, prefixes[1..]);
      assert forall i :: 0 <= i < |rest| ==> rest[i] in uses && StartWith(rest[i], prefixes[0]) == Ok(false) by {
        forall i | 0 <= i < |rest| ensures rest[i] in uses && StartWith(rest[i], prefixes[0]) == Ok(false) {
          var j :| 0 <= j < |kept| && kept[j] == rest[i];
        }
      }
      assert forall i, k :: 0 <= i < |rest| && 1 <= k < |prefixes| ==> StartWith(rest[i], prefixes[k]) == Ok(false) by {
        forall i, k | 0 <= i < |rest| && 1 <= k < |prefixes| ensures StartWith(rest[i], prefixes[k]) == Ok(false) {
          assert prefixes[k] == prefixes[1..][k - 1];
        }
      }
      Ok(rest)
  }

  /** A use item that starts with none of the prefixes survives. */
  lemma {:induction false} RemovePrefixesKeeps(uses: seq<UseItem>, prefixes: seq<Path>, u: UseItem)
    requires RemovePrefixes(uses, prefixes).Ok?
    requires u in uses
    requires forall k :: 0 <= k < |prefixes| ==> StartWith(u, prefixes[k]) == Ok(false)
    ensures u in RemovePrefixes(uses, prefixes).value
    decreases |prefixes|
  {
    if |prefixes| > 0 {
      var kept := KeepNotStarting(uses, prefixes[0]).value;
      assert NotStarting(prefixes[0])(u);
      assert u in kept;
      assert forall k :: 0 <= k < |prefixes[1..]| ==> prefixes[1..][k] == prefixes[k + 1];
      RemovePrefixesKeeps(kept, prefixes[1..], u);
    }
  }

  predicate IsOtherFn(item: Item) {
    item.Other? && IsFn(item.otherItem)
  }

  predicate NotOtherFn(item: Item) {
    !IsOtherFn(item)
  }

  /** The stable sort of `merge`: free functions first, then the rest; a
      permutation of the input. */
  function FnFirst(items: seq<Item>): (r: seq<Item>)
    ensures forall i, j :: 0 <= i < j < |r| && IsOtherFn(r[j]) ==> IsOtherFn(r[i])
    ensures multiset(r) == multiset(items)
  {
    var fns := Filter(IsOtherFn, items);
    var rest := Filter(NotOtherFn, items);
    FilterPartition(IsOtherFn, NotOtherFn, items);
    FnsThenRest(fns, rest);
    fns + rest
  }

  /** Free functions followed by other items have every free function first. */
  lemma FnsThenRest(fns: seq<Item>, rest: seq<Item>)
    requires forall i :: 0 <= i < |fns| ==> IsOtherFn(fns[i])
    requires forall i :: 0 <= i < |rest| ==> NotOtherFn(rest[i])
    ensures forall i, j :: 0 <= i < j < |fns + rest| && IsOtherFn((fns + rest)[j]) ==> IsOtherFn((fns + rest)[i])
  {
    forall i | 0 <= i < |fns + rest| ensures IsOtherFn((fns + rest)[i]) <==> i < |fns| {
      if i < |fns| {
        assert (fns + rest)[i] == fns[i];
      } else {
        assert (fns + rest)[i] == rest[i - |fns|];
      }
    }
  }

  /** Within each group the order is the input's. */
  lemma FnFirstIsStable(items: seq<Item>)
    ensures Filter(IsOtherFn, FnFirst(items)) == Filter(IsOtherFn, items)
    ensures Filter(NotOtherFn, FnFirst(items)) == Filter(NotOtherFn, items)
  {
    var fns := Filter(IsOtherFn, items);
    var rest := Filter(NotOtherFn, items);
    FilterAppend(IsOtherFn, fns, rest);
    FilterAppend(NotOtherFn, fns, rest);
    FilterSame(IsOtherFn, items);
    FilterSame(NotOtherFn, items);
    FilterDisjoint(IsOtherFn, NotOtherFn, items);
    FilterDisjoint(NotOtherFn, IsOtherFn, items);
    assert fns + [] == fns;
    assert [] + rest == rest;
  }

  lemma {:induction false} FilterSame<T>(p: T -> bool, xs: seq<T>)
    ensures Filter(p, Filter(p, xs)) == Filter(p, xs)
    decreases |xs|
  {
    if |xs| > 0 {
      FilterSame(p, xs[1..]);
    }
  }

  lemma {:induction false} FilterDisjoint<T>(p: T -> bool, q: T -> bool, xs: seq<T>)
    requires forall x :: !(p(x) && q(x))
    ensures Filter(p, Filter(q, xs)) == []
    decreases |xs|
  {
    if |xs| > 0 {
      FilterDisjoint(p, q, xs[1..]);
    }
  }

  function ExternName(x: ExternCrate): string {
    x.name
  }

  /** The use items of `merge`: one per printed form, the first winning,
      then those re-exporting a merged module dropped. */
  function MergeUses(modules: seq<ModuleItem>, printUse: UseItem -> string): (r: Result<seq<UseItem>>)
    ensures r.Ok? ==> DistinctBy(printUse, r.value)
    ensures r.Ok? ==> forall i, k :: 0 <= i < |r.value| && 0 <= k < |modules| ==> StartWith(r.value[i], SelfPrefix(modules[k].fileName)) == Ok(false)
    ensures r.Ok? ==> forall i :: 0 <= i < |r.value| ==> r.value[i] in AllUses(modules)
    ensures r.Ok? ==> forall j :: 0 <= j < |AllUses(modules)| && FirstOfKey(printUse, AllUses(modules), j) && ReexportsNone(AllUses(modules)[j], modules) ==> AllUses(modules)[j] in r.value
  {
    var prefixes := Prefixes(modules);
    var unique := UniqueBy(printUse, AllUses(modules), {});
    var uses :- RemovePrefixes(unique, prefixes);
    RemovePrefixesDistinct(unique, prefixes, printUse);
    assert forall i :: 0 <= i < |uses| ==> uses[i] in AllUses(modules) by {
      forall i | 0 <= i < |uses| ensures uses[i] in AllUses(modules) {
        var j :| 0 <= j < |unique| && unique[j] == uses[i];
      }
    }
    assert forall j :: 0 <= j < |AllUses(modules)| && FirstOfKey(printUse, AllUses(modules), j) && ReexportsNone(AllUses(modules)[j], modules) ==> AllUses(modules)[j] in uses by {
      forall j | 0 <= j < |AllUses(modules)| && FirstOfKey(printUse, AllUses(modules), j) && ReexportsNone(AllUses(modules)[j], modules)
        ensures AllUses(modules)[j] in uses
      {
        UniqueByKeepsFirst(printUse, AllUses(modules), {}, j);
        RemovePrefixesKeeps(unique, prefixes, AllUses(modules)[j]);
      }
    }
    Ok(uses)
  }

  /** `u` re-exports none of the merged modules. */
  predicate ReexportsNone(u: UseItem, modules: seq<ModuleItem>) {
    forall k :: 0 <= k < |modules| ==> StartWith(u, SelfPrefix(modules[k].fileName)) == Ok(false)
  }

  /** What `merge` promises of `out`, built from the file `sf` whose modules
      were renamed into `renamed`: one unnamed module; extern crates once per
      name, the first of each name kept; use items once per printed form
      (`printUse`), none re-exporting a merged module (`self::<file
      name>::..`), the first of each printed form kept unless it re-exports
      one; the renamed items, free functions first. */
  ghost predicate Merged(sf: SourceFile, renamed: seq<ModuleItem>, printUse: UseItem -> string, out: SourceFile) {
    && out.attrs == sf.attrs && |out.modules| == 1
    && out.modules[0].name == "" && out.modules[0].fileName == ""
    && var e := out.modules[0].externCrates;
    && DistinctBy(ExternName, e)
    && Keys(ExternName, e) == Keys(ExternName, AllExterns(sf.modules))
    && (forall i :: 0 <= i < |e| ==> e[i] in AllExterns(sf.modules))
    && (forall j :: 0 <= j < |AllExterns(sf.modules)| && FirstOfKey(ExternName, AllExterns(sf.modules), j) ==> AllExterns(sf.modules)[j] in e)
    && var u := out.modules[0].useItems;
    && DistinctBy(printUse, u)
    && (forall i :: 0 <= i < |u| ==> u[i] in AllUses(sf.modules) && ReexportsNone(u[i], sf.modules))
    && (forall j :: 0 <= j < |AllUses(sf.modules)| && FirstOfKey(printUse, AllUses(sf.modules), j) && ReexportsNone(AllUses(sf.modules)[j], sf.modules) ==> AllUses(sf.modules)[j] in u)
    && var items := out.modules[0].items;
    && (forall i, j :: 0 <= i < j < |items| && IsOtherFn(items[j]) ==> IsOtherFn(items[i]))
    && multiset(items) == multiset(AllItems(renamed))
  }

  /** Everything `merge` does after the renaming. */
  function MergeRenamed(sf: SourceFile, renamed: seq<ModuleItem>, printUse: UseItem -> string): (r: Result<SourceFile>)
    requires SameShape(sf.modules, renamed)
    ensures r.Ok? <==> MergeUses(renamed, printUse).Ok?
    ensures r.Ok? ==> Merged(sf, renamed, printUse, r.value)
  {
    ShapeKeepsParts(sf.modules, renamed);
    assert forall u :: ReexportsNone(u, renamed) == ReexportsNone(u, sf.modules);
    var uses :- MergeUses(renamed, printUse);
    var externs := UniqueBy(ExternName, AllExterns(renamed), {});
    assert forall j :: 0 <= j < |AllExterns(renamed)| && FirstOfKey(ExternName, AllExterns(renamed), j) ==> AllExterns(renamed)[j] in externs by {
      forall j | 0 <= j < |AllExterns(renamed)| && FirstOfKey(ExternName, AllExterns(renamed), j) ensures AllExterns(renamed)[j] in externs {
        UniqueByKeepsFirst(ExternName, AllExterns(renamed), {}, j);
      }
    }
    Ok(SourceFile(sf.attrs, [ModuleItem("", "", externs, uses, FnFirst(AllItems(renamed)))]))
  }

  /** `merge` as written: `resolve_ident_conflicts` as written, then the
      folding into one module. It aborts whenever the renaming does. */
  function Merge(sf: SourceFile, order: seq<Ident>, printUse: UseItem -> string): (r: Result<SourceFile>)
    requires Occurrences(sf.modules).Ok? ==> Enumerates(order, Occurrences(sf.modules).value, true)
    ensures ResolveIdentConflictsAsWritten(sf.modules, order).Abort? ==> r.Abort?
    ensures r.Ok? ==> ResolveIdentConflictsAsWritten(sf.modules, order).Ok?
    ensures r.Ok? ==> Merged(sf, ResolveIdentConflictsAsWritten(sf.modules, order).value, printUse, r.value)
  {
    var modules :- ResolveIdentConflictsAsWritten(sf.modules, order);
    MergeRenamed(sf, modules, printUse)
  }

  /** `merge` over the corrected renaming, which lists each module once per
      identifier. */
  function MergeCorrected(sf: SourceFile, order: seq<Ident>, printUse: UseItem -> string): (r: Result<SourceFile>)
    requires Occurrences(sf.modules).Ok? ==> Enumerates(order, Occurrences(sf.modules).value, false)
    ensures ResolveIdentConflicts(sf.modules, order).Abort? ==> r.Abort?
    ensures r.Ok? ==> ResolveIdentConflicts(sf.modules, order).Ok?
    ensures r.Ok? ==> Merged(sf, ResolveIdentConflicts(sf.modules, order).value, printUse, r.value)
  {
    var modules :- ResolveIdentConflicts(sf.modules, order);
    MergeRenamed(sf, modules, printUse)
  }

  /** A file whose module holds `struct Foo` and `fn Foo` cannot be merged as
      written. */
  lemma SameModuleMergeAborts(m: string, ident: Ident, printUse: UseItem -> string)
    requires CanPrefix(m, ident)
    ensures Occurrences(Twice(m, ident)).Ok?
    ensures Enumerates([ident], Occurrences(Twice(m, ident)).value, true)
    ensures Merge(SourceFile([], Twice(m, ident)), [ident], printUse) == Abort(UnwrapNone)
  {
    SameModuleConflictAborts(m, ident);
  }

  /** The corrected version merges it, keeping both declarations. */
  lemma SameModuleMergeCorrected(m: string, ident: Ident, printUse: UseItem -> string)
    ensures Occurrences(Twice(m, ident)).Ok?
    ensures Enumerates([], Occurrences(Twice(m, ident)).value, false)
    ensures MergeCorrected(SourceFile([], Twice(m, ident)), [], printUse).Ok?
    ensures multiset(MergeCorrected(SourceFile([], Twice(m, ident)), [], printUse).value.modules[0].items) == multiset{Unit(ident), Nullary(ident)}
  {
    var modules := Twice(m, ident);
    SameModuleNoConflict(m, ident);
    assert modules[1..] == [];
    assert AllUses(modules) == [];
    assert UniqueBy(printUse, [], {}) == [];
    RemovePrefixesEmpty(Prefixes(modules));
    assert MergeUses(modules, printUse).Ok?;
    assert AllItems(modules) == [Unit(ident), Nullary(ident)];
  }

  lemma {:induction false} RemovePrefixesEmpty(prefixes: seq<Path>)
    ensures RemovePrefixes([], prefixes) == Ok([])
    decreases |prefixes|
  {
    if |prefixes| > 0 {
      assert KeepNotStarting([], prefixes[0]) == Ok([]);
      RemovePrefixesEmpty(prefixes[1..]);
    }
  }

  /** Renaming keeps every module's extern crates, use items and file name. */
  lemma {:induction false} ShapeKeepsParts(a: seq<ModuleItem>, b: seq<ModuleItem>)
    requires SameShape(a, b)
    ensures AllExterns(a) == AllExterns(b) && AllUses(a) == AllUses(b)
    ensures |a| == |b| && forall k :: 0 <= k < |a| ==> a[k].fileName == b[k].fileName
    decreases |a|
  {
    assert |Outlines(a)| == |a| && |Outlines(b)| == |b|;
    forall k | 0 <= k < |a| ensures a[k].fileName == b[k].fileName {
      assert Outlines(a)[k] == Outlines(b)[k];
    }
    if |a| > 0 {
      assert Outlines(a)[0] == Outlines(b)[0];
      assert Outlines(a[1..]) == Outlines(a)[1..];
      assert Outlines(b[1..]) == Outlines(b)[1..];
      ShapeKeepsParts(a[1..], b[1..]);
    }
  }

  /** Dropping use items never makes two of them print alike. */
  lemma {:induction false} RemovePrefixesDistinct(uses: seq<UseItem>, prefixes: seq<Path>, key: UseItem -> string)
    requires RemovePrefixes(uses, prefixes).Ok?
    requires DistinctBy(key, uses)
    ensures DistinctBy(key, RemovePrefixes(uses, prefixes).value)
    decreases |prefixes|
  {
    if |prefixes| > 0 {
      var kept := KeepNotStarting(uses, prefixes[0]).value;
      FilterDistinct(key, NotStarting(prefixes[0]), uses);
      RemovePrefixesDistinct(kept, prefixes[1..], key);
    }
  }

  lemma {:induction false} FilterDistinct<T, K>(key: T -> K, p: T -> bool, xs: seq<T>)
    requires DistinctBy(key, xs)
    ensures DistinctBy(key, Filter(p, xs))
    decreases |xs|
  {
    if |xs| > 0 {
      FilterDistinct(key, p, xs[1..]);
      var rest := Filter(p, xs[1..]);
      if p(xs[0]) {
        forall i | 0 <= i < |rest| ensures key(rest[i]) != key(xs[0]) {
          assert rest[i] in xs[1..];
          var j :| 0 <= j < |xs[1..]| && xs[1..][j] == rest[i];
          assert xs[j + 1] == rest[i];
        }
        var r := [xs[0]] + rest;
        assert Filter(p, xs) == r;
        forall i, j | 0 <= i < j < |r| ensures key(r[i]) != key(r[j]) {
          assert r[j] == rest[j - 1];
          if i > 0 {
            assert r[i] == rest[i - 1];
          } else {
            assert r[i] == xs[0];
          }
        }
      } else {
        assert Filter(p, xs) == rest;
      }
    }
  }

  // ---------------------------------------------------------------------
  // `trim_path::from_source_file`

  function TrimPathItems(items: seq<Item>, prefix: Path): (r: Result<seq<Item>>)
    ensures r.Ok? <==> forall i :: 0 <= i < |items| ==> TrimPathItem(items[i], prefix).Ok?
    ensures r.Ok? ==> |r.value| == |items|
    ensures r.Ok? ==> forall i :: 0 <= i < |items| ==> r.value[i] == TrimPathItem(items[i], prefix).value
  {
    if |items| == 0 then Ok([])
    else
      var a :- TrimPathItem(items[0], prefix);
      var b :- TrimPathItems(items[1..], prefix);
      Ok([a] + b)
  }

  function TrimPathModules(modules: seq<ModuleItem>, prefix: Path): (r: Result<seq<ModuleItem>>)
    ensures r.Ok? <==> forall k :: 0 <= k < |modules| ==> TrimPathItems(modules[k].items, prefix).Ok?
    ensures r.Ok? ==> |r.value| == |modules|
    ensures r.Ok? ==> forall k :: 0 <= k < |modules| ==> r.value[k] == modules[k].(items := TrimPathItems(modules[k].items, prefix).value)
  {
    if |modules| == 0 then Ok([])
    else
      var a :- TrimPathItems(modules[0].items, prefix);
      var b :- TrimPathModules(modules[1..], prefix);
      Ok([modules[0].(items := a)] + b)
  }

  /** `from_source_file`: every item of every module walked with the
      trimming context; the file keeps its attributes and module outlines. */
  function TrimPathSourceFile(sf: SourceFile, prefix: Path): (r: Result<SourceFile>)
    ensures r.Ok? <==> forall k, i :: 0 <= k < |sf.modules| && 0 <= i < |sf.modules[k].items| ==> TrimPathItem(sf.modules[k].items[i], prefix).Ok?
    ensures r.Ok? ==> r.value.attrs == sf.attrs && SameShape(sf.modules, r.value.modules)
    ensures r.Ok? ==> forall k, i :: 0 <= k < |sf.modules| && 0 <= i < |sf.modules[k].items| ==>
      i < |r.value.modules[k].items| && r.value.modules[k].items[i] == TrimPathItem(sf.modules[k].items[i], prefix).value
  {
    var modules :- TrimPathModules(sf.modules, prefix);
    assert forall k :: 0 <= k < |sf.modules| ==> Outlines(modules)[k] == Outlines(sf.modules)[k];
    Ok(SourceFile(sf.attrs, modules))
  }
}
