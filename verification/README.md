# ast-shaper, modelled in Dafny

ast-shaper is a Rust library that rewrites `syn` syntax trees. It can merge
several parsed files into one module, rename declarations so their names stay
apart, strip a path prefix from qualified names, and apply a caller's
expression rewrite. This project models its core as pure functions over a
reduced syntax tree of its own, and proves properties of that model. The core
has five parts:

- the scoped-name `Path` (`utils/path.rs`) and the `use`-tree prefix test and
  prefix trimming (`items/use_item.rs`), with the tree builders of
  `utils/mod.rs` (modules `Paths`, `UseTrees`, `Trimming`);
- the naming-convention tokeniser and its five case conversions
  (`NamingConventions`);
- the declaration wrappers (`Items`), the module container (`Modules`) and
  the source file with its conflict renaming and `merge` (`SourceFiles`);
- the walker engine with its five-slot predicate `Context` (`Walkers`,
  `ItemWalkers`, `ItemWalks`) and the three passes built on it: rename, trim
  path and transform (`Passes`);
- the statement builders of `utils/statement.rs` (`Statements`).

How the walker is modelled:

- A predicate is a pure function `(state, node) -> Step(handled, node, state)`.
  The state stands for whatever a Rust `FnMut` closure captures, so it
  persists from one call to the next.
- A walk returns the rewritten node and the final state, or `Abort(reason)`.
  `Abort` stands for every `panic!`, `todo!` or failed `unwrap` that an input
  can reach.
- The walker descends into the node a declining predicate gave back, as the
  Rust code does.
- `Visits` writes down, once per node kind, the list of predicate calls a
  walk makes. `Replays` then proves that with a passive context the walk is a
  fold of the predicates over that list. A passive context is one whose
  predicates never handle a node and never rewrite one. The fold fixes the
  order in which every walker consults the context. It also shows that a walk
  with all slots empty leaves the tree as it was.

How trimming is modelled:

- `Walkers.TrimStart` is the queue loop of `Path::trim_start`.
- `Trimming` closes that loop in terms of the names alone (`TrimsAt`,
  `Dropped`). It does so through `Trimming.Scan`, which is `Walkers.TrimScan`
  with the trimming of nested type arguments passed in as a parameter.
  `Trimming.TrimScanIsScan` proves that the two agree.

## Model

| member | source | states |
|---|---|---|
| Paths.Names | src/utils/path.rs:199-205 | the segment names, one per segment, in order |
| Paths.CreateIdent | src/utils/mod.rs:25-34 | the result is raw exactly when the input starts with `r#`; it is never longer than the input; a name that does not start with `r#` is kept as it is |
| Paths.CreateIdentKeepsPrinted | src/utils/mod.rs:25-34 | an identifier's printed form goes through `create_ident` unchanged |
| Paths.NewPath | src/utils/path.rs:21-27 | exactly one segment, with no arguments, named by `create_ident` |
| Paths.JoinSegment | src/utils/path.rs:29-34 | one bare segment is appended and the earlier segments are unchanged |
| Paths.ToSynPath | src/utils/path.rs:207-212 | the same segments, never a leading `::` |
| Paths.FromSynPath | src/utils/path.rs:265-273 | the segments are kept |
| Paths.SynPathRoundTrip | src/utils/path.rs:207-212 | converting a crate path to a syn path and back is the identity; the reverse trip is the identity exactly when there is no leading `::` |
| Paths.ReplaceLastArgs | src/utils/path.rs:36-54 | only the last segment's arguments change |
| Paths.WithAngleArgument | src/utils/path.rs:36-54 | succeeds exactly on a non-empty path whose last segment is not parenthesised; the argument is appended to the angle list (created if absent) and every name and earlier segment is kept |
| Paths.WithParenthesizedArgument | src/utils/path.rs:56-73 | succeeds exactly when the last segment has no angle list; the input is appended to the `(..)` inputs (created if absent) and the output is kept |
| Paths.With | src/utils/path.rs:75-81 | `with`: the argument path becomes a type argument at the end of the last segment's angle list; aborts on an empty path or a parenthesised last segment |
| Paths.WithParameter | src/utils/path.rs:83-89 | `with_parameter`: the argument path becomes the last `(..)` input; aborts on an empty path or an angle-bracketed last segment |
| Paths.MixedArgumentsAbort | src/utils/path.rs:36-89 | `with` after `with_parameter` on one segment aborts, and so does the reverse |
| Paths.WithAppendsInOrder | src/utils/path.rs:75-81 | two `with` calls give both arguments, in call order, in one angle list |
| Paths.CreateGenericType | src/utils/mod.rs:109-118 | aborts exactly on an empty argument list; otherwise one segment named `ty` carrying all arguments in order |
| Paths.TypeArgs | src/utils/path.rs:75-81 | each path becomes the type argument `with` makes of it, in order |
| Paths.WithAll | src/utils/mod.rs:109-118 | repeated `with` on one segment never aborts and appends every argument in order |
| Paths.Flatten | src/utils/path.rs:91-116 | succeeds exactly on `Flattenable` paths (non-empty, and so is every type path nested in the last segment's angle list); the result is `Flat`; one segment named as the last; non-angle arguments kept; an angle list keeps its length |
| Paths.FlattenArgs | src/utils/path.rs:95-107 | succeeds exactly when every nested type path is flattenable; the result is flat; arguments that are not type paths are kept; the list keeps its length |
| Paths.FlattenTypeArg | src/utils/path.rs:97-101 | a type-path argument's path is flattened (succeeds exactly when that path is flattenable), the qualified self is kept and the new path has no leading `::` |
| Paths.TypePaths | src/utils/path.rs:174-186 | every type-path argument's path is in the result, every result path comes from a type-path argument, at most one per argument |
| Paths.DecomposeArguments | src/utils/path.rs:165-193 | succeeds exactly when the path is non-empty and its last segment has an angle list; the result is then the type paths of that list |
| Paths.FlattenArgsEach | src/utils/path.rs:97-101 | the i-th flattened argument is exactly the i-th argument's own path flattened, under its qualified self |
| Paths.FlatFixed | src/utils/path.rs:91-116 | a flat path is a fixed point of `flatten` |
| Paths.FlatArgsFixed | src/utils/path.rs:95-107 | flattening an already flat angle list gives it back |
| Paths.FlattenIdempotent | src/utils/path.rs:91-116 | flattening twice is flattening once |
| Paths.TypePathsAppend | src/utils/path.rs:174-186 | extraction distributes over concatenation and a single argument yields its path exactly when it is a type path, so the result is the type paths in order |
| Paths.TypePathsOfTypeArgs | src/utils/path.rs:174-186 | extracting the type paths of `with`-built arguments gives back those paths |
| Paths.DecomposeGenericType | src/utils/mod.rs:109-118 | `decompose_arguments` is the inverse of `create_generic_type` on a non-empty list |
| UseTrees.Descend | src/items/use_item.rs:11-36 | below `k` `Path` nodes, the remaining `Path` names are the rest of the list |
| UseTrees.StartWith | src/items/use_item.rs:10-41 | aborts exactly where `WalkAborts` says; otherwise true exactly when the prefix is non-empty and its names are a prefix of the tree's spine |
| UseTrees.TrimPathPrefix | src/items/use_item.rs:43-77 | an untrimmed item is unchanged, and the leading `::` is always kept |
| UseTrees.StartWalkCloses | src/items/use_item.rs:11-36 | closed form of the queue walk: where it aborts, and when it answers true |
| UseTrees.TrimAgreesWithStart | src/items/use_item.rs:44-67 | the trimming walk aborts exactly when `start_with`'s walk aborts, and trims exactly when that walk answers true |
| UseTrees.TrimLeavesRest | src/items/use_item.rs:44-67 | on a match, what remains is the subtree below the last matched `Path` node, or the matched `Name` node |
| UseTrees.TrimPathPrefixAgrees | src/items/use_item.rs:43-77 | `trim_path_prefix` reports a trim exactly when `start_with` is true, and aborts exactly when it aborts |
| UseTrees.GroupNeverMatches | src/items/use_item.rs:32-34 | a prefix that reaches into a `{..}` group is never matched |
| UseTrees.MismatchBeforePathAborts | src/items/use_item.rs:14-29 | a mismatch at the last prefix name walks on with an empty queue and aborts at the next `Path` node |
| UseTrees.EmptyPrefixAborts | src/items/use_item.rs:37-40 | an empty prefix aborts on a tree that starts with a `Path` node |
| UseTrees.WrapPathsShape | src/utils/mod.rs:36-50 | wrapping puts the segment names, in order, above the tree, and descending past them gives the tree back |
| UseTrees.WrapPathsNames | src/utils/mod.rs:36-50 | the `Path` names and the spine gain the segment names in front |
| UseTrees.WrapPathsDescend | src/utils/mod.rs:36-50 | descending past the wrapped segments gives the inner tree |
| UseTrees.CreateUseTree | src/utils/mod.rs:36-50 | aborts exactly on an empty path; the spine is the path's names, and the last name is the `Name` node |
| UseTrees.CreateUseGroupTree | src/utils/mod.rs:52-69 | every segment becomes a `Path` node above a group with one `Name` per given name, in order |
| UseTrees.GroupNames | src/utils/mod.rs:59-63 | one `Name` node per name, in order |
| UseTrees.CreateUseGlobTree | src/utils/mod.rs:71-85 | every segment becomes a `Path` node above a glob |
| UseTrees.CreateUse | src/utils/mod.rs:87-96 | aborts exactly on an empty path; no leading `::`; the spine is the path's names |
| UseTrees.CreateUseAsGlob | src/utils/mod.rs:98-107 | no leading `::`; the spine is the path's names |
| UseTrees.CreateUseStartsWith | src/utils/mod.rs:87-96 | a use item built from a non-empty path starts with that path |
| UseTrees.CreateUseAsGlobStartsWith | src/utils/mod.rs:98-107 | a glob import built from a non-empty path starts with that path |
| UseTrees.CreateUseTrimsToName | src/items/use_item.rs:43-77 | a use item built from `p::name`, trimmed by `p`, leaves `use name` |
| Walkers.TrimStart | src/utils/path.rs:118-163 | an untrimmed path keeps its segment names |
| Walkers.TrimScan | src/utils/path.rs:143-162 | an untrimmed scan keeps the names of the visited and the unvisited segments |
| Walkers.TrimSegmentArgs | src/utils/path.rs:126-142 | a segment's name is never changed; a segment without an angle list is untouched |
| Walkers.TrimTypeArgs | src/utils/path.rs:128-139 | the argument list keeps its length |
| Trimming.Matches | src/utils/path.rs:143-162 | counts the agreeing positions below `k`, never more than `k` |
| Trimming.Dropped | src/utils/path.rs:154-159 | a trim drops between one segment and the prefix's length |
| Trimming.TrimScanIsScan | src/utils/path.rs:126-162 | the walker's scan is the abstract scan with the nested-argument trimming passed in |
| Trimming.ScanCloses | src/utils/path.rs:143-162 | from any state satisfying the loop invariant, the scan ends as `ScanClosed` describes |
| Trimming.EmptyQueueStep | src/utils/path.rs:149-151 | once the prefix is used up, a segment is passed over and the invariant holds again |
| Trimming.MatchStep | src/utils/path.rs:154-156 | a match with more names queued is counted and the invariant holds again |
| Trimming.MismatchStep | src/utils/path.rs:152-156 | a mismatch consumes the queued name without being counted |
| Trimming.ScanLast | src/utils/path.rs:157-159 | a match of the last queued name trims `count` leading segments |
| Trimming.TrimStartCloses | src/utils/path.rs:118-163 | `trim_start` trims exactly when `TrimsAt` holds of the names, then drops `Dropped` leading segments; otherwise the names are unchanged |
| NamingConventions.Lower | src/utils/name_conventions.rs:76-80 | ASCII lower-casing, character by character |
| NamingConventions.Upper | src/utils/name_conventions.rs:115-121 | ASCII upper-casing, character by character |
| NamingConventions.Classify | src/utils/name_conventions.rs:19-40 | succeeds exactly on a non-empty name that does not mix `_` and `-` and is not kebab with a leading capital; each style matches its three facts in both directions |
| NamingConventions.Split | src/utils/name_conventions.rs:65-74 | at least one piece, and no piece holds the separator |
| NamingConventions.SplitJoin | src/utils/name_conventions.rs:65-74 | joining the pieces with the separator gives the input back |
| NamingConventions.SplitCaseShape | src/utils/name_conventions.rs:42-64 | the case-change tokens concatenate to the name; none is empty; each after the first starts uppercase; no other uppercase letter occurs except as the name's last character |
| NamingConventions.SplitCaseFromShape | src/utils/name_conventions.rs:47-63 | the scan from any position keeps the token shape |
| NamingConventions.SplitCaseCut | src/utils/name_conventions.rs:49-57 | an uppercase letter before the last position closes the current token |
| NamingConventions.LowerAll | src/utils/name_conventions.rs:65-80 | each token lower-cased, in order |
| NamingConventions.Parse | src/utils/name_conventions.rs:17-81 | succeeds exactly when the style can be classified |
| NamingConventions.ParseSeparated | src/utils/name_conventions.rs:65-74 | a kebab or snake name parses to its pieces, lower-cased |
| NamingConventions.ParseUnseparated | src/utils/name_conventions.rs:42-64 | a separator-free name parses to its case-change tokens, lower-cased |
| NamingConventions.CapitalizeFirst | src/utils/name_conventions.rs:87-90 | aborts exactly on an empty token; only the first character changes, to uppercase |
| NamingConventions.CapitalizeAll | src/utils/name_conventions.rs:87-91 | succeeds exactly when no token is empty; each token capitalised |
| NamingConventions.UpperAll | src/utils/name_conventions.rs:115-121 | each token upper-cased |
| NamingConventions.LowerJoin | src/utils/name_conventions.rs:105-113 | lower-casing a joined name is joining the lower-cased tokens |
| NamingConventions.UpperJoin | src/utils/name_conventions.rs:115-121 | upper-casing a joined name is joining the upper-cased tokens |
| NamingConventions.UpperOfLower | src/utils/name_conventions.rs:115-121 | upper-casing lower-cased tokens is upper-casing the originals |
| NamingConventions.SnakeRoundTrip | src/utils/name_conventions.rs:110-121 | a snake name converts to snake case as its lower-cased self, and to screaming snake case as its upper-cased self |
| NamingConventions.KebabRoundTrip | src/utils/name_conventions.rs:105-108 | a kebab name converts to kebab case as its lower-cased self |
| NamingConventions.LowerCapitalFirst | src/utils/name_conventions.rs:87-90 | lower-casing undoes the capital put on a lower-cased token |
| NamingConventions.LowerOfCapitalized | src/utils/name_conventions.rs:85-93 | capitalised tokens lower-case to the lower-cased originals |
| NamingConventions.LowerJoinCapitalized | src/utils/name_conventions.rs:85-93 | joined capitalised tokens have the letters of the joined originals |
| NamingConventions.LowerJoinHeadKept | src/utils/name_conventions.rs:95-103 | a lower-cased first token followed by capitalised tokens keeps the letters and length of the original join |
| NamingConventions.PascalOfTokens | src/utils/name_conventions.rs:95-103 | the pascal join keeps letters and length, and starts with the lower-cased first character |
| NamingConventions.CamelCaseKeepsLetters | src/utils/name_conventions.rs:85-93 | a separator-free name of two or more characters converts without aborting, differs only in letter case and starts with a capital |
| NamingConventions.PascalCaseKeepsLetters | src/utils/name_conventions.rs:95-103 | the same for pascal case, with a lower-case first letter |
| NamingConventions.OneCharacterName | src/utils/name_conventions.rs:47-63 | a one-character name has no tokens: camel case gives the empty string and pascal case aborts |
| NamingConventions.EmptyTokenAborts | src/utils/name_conventions.rs:87-90 | `a__b` parses with an empty token, and camel case aborts on it |
| Items.FnTypeToSynItem | src/items/fn_item.rs:15-22 | a global function becomes an item; a method aborts |
| Items.Defaultness | src/items/fn_item.rs:38-43 | defined exactly for methods |
| Items.WithSignature | src/items/fn_item.rs:45-57 | replacing the signature keeps the variant, body, attributes and visibility |
| Items.WithBody | src/items/fn_item.rs:59-71 | replacing the body keeps the variant, signature, attributes and visibility |
| Items.FnTypeAccessorsRoundTrip | src/items/fn_item.rs:45-71 | writing back what was read changes nothing, and the two edits commute |
| Items.MethodsOf | src/items/implementation_item.rs:20-29 | every function member appears as a method copy, and nothing else does |
| Items.MethodsOfAppend | src/items/implementation_item.rs:20-29 | the copies keep the block's order: collecting distributes over concatenation and a single member gives a copy exactly when it is a function |
| Items.MethodsCounted | src/items/implementation_item.rs:20-29 | one copy per function member |
| Items.NewImplementationItem | src/items/implementation_item.rs:19-34 | keeps the block; its functions are exactly the method copies of `MethodsOf`, one per function member |
| Items.ImplIdent | src/items/implementation_item.rs:38-48 | the last segment of the self type's path; any other self type, or an empty path, aborts |
| Items.WrapImpls | src/items/struct_item.rs:15-22 | each block wrapped, in order |
| Items.WrapImplsKeepsBlocks | src/items/struct_item.rs:15-22 | unwrapping the wrapped blocks gives them back |
| Items.NewStructItem | src/items/struct_item.rs:15-22 | keeps the struct and every given block, in order |
| Items.NewEnumItem | src/items/enum_item.rs:15-22 | keeps the enum and every given block, in order |
| Items.OtherIdent | src/items/other_item.rs:34-45 | defined exactly for kinds with a name of their own (a macro only when named); the name is that field |
| Items.ItemIdent | src/items/item.rs:45-52 | dispatches to the wrapped variant's identifier |
| Items.ToSynItem | src/items/item.rs:20-27 | aborts exactly on a method; otherwise the wrapped declaration |
| Items.AsStruct | src/items/item.rs:29-41 | some exactly for a struct, and then that struct |
| Modules.NewModule | src/items/module_item.rs:23-31 | succeeds exactly when `to_camel_case` does; the name is its result, the file name the input, and all lists start empty |
| Modules.ItemImplIdent | src/items/module_item.rs:41-48 | the first segment of the self type's path, when the self type is a non-empty path |
| Modules.BlockIdent | src/items/implementation_item.rs:38-48 | the name the block answers to, defined on exactly the blocks `item_impl_ident` accepts |
| Modules.AttachAt | src/items/module_item.rs:85-102 | the wrapped block is appended to the impls of the item at `k`; every other item is unchanged |
| Modules.AttachToFirst | src/items/module_item.rs:85-121 | only the items change, and their count is kept |
| Modules.PushImplToStructAsWritten | src/items/module_item.rs:85-102 | keyed by the first segment: the first struct with that name receives the block and nothing else changes; no such struct leaves the module unchanged; aborts exactly on a self type that is not a non-empty path |
| Modules.PushImplToStruct | src/items/module_item.rs:85-102 | corrected keying (first Findings row): the first struct named as the block answers to receives it; everything else is unchanged |
| Modules.PushImplToEnumAsWritten | src/items/module_item.rs:104-121 | keyed by the first segment: the first enum with that name receives the block and nothing else changes; no such enum leaves the module unchanged; aborts exactly on a self type that is not a non-empty path |
| Modules.PushImplToEnum | src/items/module_item.rs:104-121 | corrected keying (first Findings row): the first enum named as the block answers to receives it; everything else is unchanged |
| Modules.PushImplToStructKeepsNames | src/items/module_item.rs:85-102 | under the corrected keying, every attached block answers to its owner's name, before and after |
| Modules.PushImplToEnumKeepsNames | src/items/module_item.rs:104-121 | the same for enums, under the corrected keying |
| Modules.QualifiedImplDropped | src/items/module_item.rs:41-48 | as written, `impl crate::Foo` is dropped; keyed by its answer name it is attached to `Foo` |
| Modules.NestedImplMisplaced | src/items/module_item.rs:41-48 | as written, `impl Foo::Bar` lands on struct `Foo`, breaking `ImplsNamed` |
| Modules.QualifiedEnumImplDropped | src/items/module_item.rs:104-121 | as written, `impl crate::Foo` never reaches `enum Foo`; keyed by its answer name it is attached |
| Modules.NestedEnumImplMisplaced | src/items/module_item.rs:104-121 | as written, `impl Foo::Bar` lands on `enum Foo`, breaking `ImplsNamed` |
| Modules.SameKeyAttachesAlike | src/items/module_item.rs:41-48 | when the first and last self-type segment names agree, the as-written and corrected pushes give the same module, for structs and enums |
| Modules.FindItemByIdent | src/items/module_item.rs:123-126 | the first item with that identifier, or none; an unnamed item before the match aborts the search |
| Modules.FindItemByIdentIsFirst | src/items/module_item.rs:123-126 | when every item is named, the search is the first position of the identifier |
| Modules.FindItemsBy | src/items/module_item.rs:128-132 | exactly the items the filter accepts; as many as the module has exactly when it accepts them all |
| Modules.FindItemsBySplit | src/items/module_item.rs:128-132 | the items found keep the module's order: those of the first `k` items, then those of the rest |
| Modules.FindItemBy | src/items/module_item.rs:134-137 | the first accepted item, or none when no item is accepted |
| Modules.FindItemMutBy | src/items/module_item.rs:139-142 | the position of the item `find_item_by` returns |
| Modules.FindItemByIsFirstFound | src/items/module_item.rs:128-137 | the single item found is the first of the items found |
| Modules.TakeItemsBy | src/items/module_item.rs:144-153 | the taken items are what `find_items_by` finds; the kept items are exactly the module's items the filter rejects; nothing else in the module changes |
| Modules.TakeItemsPartition | src/items/module_item.rs:144-153 | together the two halves are the module's items, nothing lost and nothing duplicated |
| Modules.TakeItemsSplit | src/items/module_item.rs:144-153 | both halves keep the module's order: taking from the first `k` items, then from the rest |
| Modules.ImplBlocks | src/items/module_item.rs:167-205 | one declaration per attached block, in order |
| Modules.DecomposeItem | src/items/module_item.rs:167-205 | succeeds exactly when the item converts; its declaration, then its blocks |
| Modules.DecomposeItems | src/items/module_item.rs:167-205 | succeeds exactly when no item is a method |
| Modules.DecomposeItemsAppend | src/items/module_item.rs:167-205 | decomposing two lists is concatenating their decompositions |
| Modules.Externs | src/items/module_item.rs:155-159 | one declaration per extern crate, in order |
| Modules.Uses | src/items/module_item.rs:161-165 | one declaration per use item, in order |
| Modules.Decompose | src/items/module_item.rs:207-213 | extern crates, then use items, then items each followed by its blocks; aborts exactly when an item is a method |
| Modules.DecomposeItemsCount | src/items/module_item.rs:167-205 | one declaration per item plus one per attached block |
| Modules.DecomposeCount | src/items/module_item.rs:207-213 | nothing is lost or duplicated |
| Modules.DecomposePushItem | src/items/module_item.rs:58-83 | a pushed item reappears at the end of the decomposition |
| Modules.DecomposeOne | src/items/module_item.rs:167-205 | a one-item list decomposes as that item |
| Modules.DecomposePushStruct | src/items/module_item.rs:58-63 | a pushed struct appears last |
| Modules.DecomposePushGlobalFunction | src/items/module_item.rs:76-78 | a pushed global function appears last |
| Modules.DecomposePushOther | src/items/module_item.rs:80-83 | a pushed other item appears last |
| Modules.DecomposePushUse | src/items/module_item.rs:54-56 | a pushed use item appears at the end of the use section |
| Modules.DecomposePushExternCrate | src/items/module_item.rs:50-52 | a pushed extern crate appears at the end of the extern section |
| Modules.KeepNotStarting | src/items/module_item.rs:215-222 | keeps, in order, exactly the use items that do not start with the prefix |
| Modules.RemoveUseItemsStartingWith | src/items/module_item.rs:215-222 | aborts exactly when some prefix test aborts; otherwise what is left starts with no prefix, every item that does not start with it is kept, and nothing else changes |
| Modules.RemoveUseItemsIdempotent | src/items/module_item.rs:215-222 | removing twice removes nothing more |
| Modules.WalkExternCrates | src/items/module_item.rs:236-241 | one extern crate per input, each keeping whether it is renamed |
| Modules.WalkModule | src/items/module_item.rs:230-242 | any use item aborts the walk; otherwise the names are kept, and the item and extern counts are unchanged |
| Modules.ExternCratesReplays | src/items/module_item.rs:236-241 | with a passive context, each name and then its rename go to the ident predicate |
| Modules.ModuleReplays | src/items/module_item.rs:230-242 | with a passive context, the module walk replays its visit list |
| SourceFiles.ItemOccurrences | src/items/source_file.rs:26-33 | one occurrence per item, with the module's name; aborts exactly when an item has no identifier |
| SourceFiles.Occurrences | src/items/source_file.rs:24-34 | succeeds exactly when every item of every module is named; every occurrence names an existing module |
| SourceFiles.ModulesOf | src/items/source_file.rs:28-32 | every module name recorded for an identifier comes from an occurrence |
| SourceFiles.Distinct | src/items/source_file.rs:35-39 | the same names without repeats |
| SourceFiles.Namespaced | src/items/source_file.rs:42-43 | the module name comes first; a name that does not hold the module name is just prefixed |
| SourceFiles.RenameItems | src/items/source_file.rs:50-57 | one item per input |
| SourceFiles.ResolveIn | src/items/source_file.rs:39-57 | keeps the file's shape and every module but the first with the name; a missing module, or a module without an item of that identifier, aborts on `unwrap` |
| SourceFiles.ResolveEach | src/items/source_file.rs:39-57 | keeps the file's shape; a module whose name is not listed is unchanged, so no names changes nothing |
| SourceFiles.ResolveAll | src/items/source_file.rs:38-59 | keeps the file's shape; a module renamed in for none of the identifiers is unchanged, so no conflicts changes nothing |
| SourceFiles.NotConflictingUntouched | src/items/source_file.rs:35-39 | a module with no conflicting declaration is renamed in for no identifier of an enumerating order |
| SourceFiles.ResolveAllUntouched | src/items/source_file.rs:38-59 | over an enumerating order, every module without a conflicting declaration comes back unchanged |
| SourceFiles.ResolveIdentConflictsAsWritten | src/items/source_file.rs:23-60 | for an order that enumerates the conflicts (each module listed once per declaration): an unnamed item aborts; otherwise keeps every module's name, file name, extern crates, use items and item count, and leaves every module without a conflicting declaration unchanged |
| SourceFiles.ResolveIdentConflicts | src/items/source_file.rs:23-60 | the same, with each module listed once per identifier |
| SourceFiles.ResolvedBy | src/items/source_file.rs:23-60 | once every declaration is collected, both versions are the outer loop over them |
| SourceFiles.SingleModuleNames | src/items/source_file.rs:35-37 | an identifier declared in one module has at most one conflict module |
| SourceFiles.SingleModuleOrders | src/items/source_file.rs:35-38 | a file of one module has no conflicts to enumerate |
| SourceFiles.ResolveSingleModule | src/items/source_file.rs:23-60 | a one-module file comes back unchanged |
| SourceFiles.ResolveInUnit | src/items/source_file.rs:39-57 | the first module with the name has its item renamed to the namespaced name |
| SourceFiles.TwoUnitsEnumerated | src/items/source_file.rs:24-37 | an identifier in two modules is a conflict of both |
| SourceFiles.ResolveTwoModules | src/items/source_file.rs:23-60 | `struct Foo` in modules `A` and `B` becomes `AFoo` and `BFoo` |
| SourceFiles.SameModuleConflictAborts | src/items/source_file.rs:38-59 | as written, two declarations of one identifier in one module abort on the second lookup |
| SourceFiles.SameModuleNoConflict | src/items/source_file.rs:38-59 | corrected, that module is no conflict, the empty order enumerates the conflicts, and it comes back unchanged |
| SourceFiles.RemoveUseItemsEach | src/items/source_file.rs:67-71 | each module edited on its own, in order |
| SourceFiles.RemoveFileUseItemsStartingWith | src/items/source_file.rs:67-71 | aborts exactly when some module's prefix test aborts; otherwise each module is that module with its use items filtered, so no remaining use item starts with the prefix, every one that does not is kept, and nothing else changes |
| SourceFiles.SelfPrefix | src/items/source_file.rs:82-88 | the path `self::<file name>` |
| SourceFiles.Prefixes | src/items/source_file.rs:82-88 | one re-export prefix per module, in order |
| SourceFiles.RemovePrefixes | src/items/source_file.rs:102-109 | what is left starts with none of the prefixes and comes from the input |
| SourceFiles.RemovePrefixesKeeps | src/items/source_file.rs:102-109 | a use item that starts with no prefix survives |
| SourceFiles.RemovePrefixesDistinct | src/items/source_file.rs:102-109 | removing use items never makes two of them print alike |
| SourceFiles.FnFirst | src/items/source_file.rs:110-127 | free functions first, and a permutation of the input |
| SourceFiles.FnFirstIsStable | src/items/source_file.rs:110-127 | within each group the input order is kept |
| SourceFiles.MergeUses | src/items/source_file.rs:98-109 | use items are distinct by printed form, re-export no merged module, and come from the input; the first of each printed form survives unless it re-exports a merged module |
| SourceFiles.Merge | src/items/source_file.rs:73-129 | as written: aborts whenever `resolve_ident_conflicts` as written does; otherwise one unnamed module with the file's attributes; extern crates distinct by name, from the input, covering every name, the first of each name kept; use items as in `MergeUses`; items a permutation of the renamed items with free functions first |
| SourceFiles.MergeRenamed | src/items/source_file.rs:75-129 | succeeds exactly when the use items can be filtered; the result then has every property listed for `Merge` |
| SourceFiles.MergeCorrected | src/items/source_file.rs:73-129 | the same as `Merge`, over the corrected renaming: aborts whenever it does, and otherwise merges its result |
| SourceFiles.SameModuleMergeAborts | src/items/source_file.rs:73-74 | as written, a file whose module holds `struct Foo` and `fn Foo` cannot be merged |
| SourceFiles.SameModuleMergeCorrected | src/items/source_file.rs:73-129 | corrected, the same file merges, keeping both declarations |
| SourceFiles.ShapeKeepsParts | src/items/source_file.rs:89-93 | renaming keeps every module's extern crates, use items and file name |
| SourceFiles.TrimPathItems | src/functions/trim_path.rs:34-36 | each item walked with the trimming context, in order |
| SourceFiles.TrimPathModules | src/functions/trim_path.rs:33-37 | each module's items walked; the rest of each module is unchanged |
| SourceFiles.TrimPathSourceFile | src/functions/trim_path.rs:31-38 | aborts exactly when some item's walk aborts; keeps attributes, module outlines and use items |
| Walkers.PredictType | src/walkers/mod.rs:25-30 | an empty slot declines and leaves the type; a set slot answers exactly as its predicate |
| Walkers.PredictExpr | src/walkers/mod.rs:32-37 | the same for expressions |
| Walkers.PredictStmt | src/walkers/mod.rs:39-44 | the same for statements |
| Walkers.PredictIdent | src/walkers/mod.rs:53-57 | the same for identifiers |
| Walkers.PredictPath | src/walkers/mod.rs:46-51 | an empty slot declines; a caller's slot answers exactly as its predicate |
| Walkers.WalkOptIdent | src/walkers/expr.rs:46-48 | an absent label stays absent and keeps the state |
| Walkers.WalkIdents | src/walkers/where_clause.rs:16-21 | one identifier per input |
| Walkers.WalkExpr | src/walkers/expr.rs:16-19 | a handled expression is the predicate's answer, and nothing below it is visited |
| Walkers.WalkExprChildren | src/walkers/expr.rs:20-241 | a leaf expression is left as it is |
| Walkers.WalkOperation | src/walkers/expr.rs:21-67 | an operation stays an operation |
| Walkers.WalkControl | src/walkers/expr.rs:42-57 | a control expression stays a control expression |
| Walkers.WalkAccess | src/walkers/expr.rs:90-98 | a leaf expression is left as it is |
| Walkers.WalkMember | src/walkers/expr.rs:92-97 | a numeric member is untouched |
| Walkers.WalkExprs | src/walkers/expr.rs:21-25 | one expression per input |
| Walkers.WalkOptExpr | src/walkers/expr.rs:189-193 | an absent expression stays absent, and a present one stays present |
| Walkers.WalkArms | src/walkers/expr.rs:140-149 | one arm per input |
| Walkers.WalkFieldValues | src/walkers/expr.rs:194-205 | one field per input, member names untouched |
| Walkers.WalkMacro | src/walkers/macro_.rs:11-22 | the delimiter and the argument count are kept |
| Walkers.WalkStmt | src/walkers/statement.rs:14-17 | a handled statement is the predicate's answer, and nothing below it is visited |
| Walkers.WalkStmtChildren | src/walkers/statement.rs:18-37 | an item statement aborts; an expression statement keeps its semicolon |
| Walkers.WalkStmts | src/walkers/expr.rs:42-45 | one statement per input |
| Walkers.WalkPat | src/walkers/pattern.rs:12-92 | unlisted patterns are untouched |
| Walkers.WalkPats | src/walkers/pattern.rs:28-32 | one pattern per input |
| Walkers.WalkFieldPats | src/walkers/pattern.rs:58-72 | one field per input |
| Walkers.WalkType | src/walkers/type_.rs:16-19 | a handled type is the predicate's answer, and nothing below it is visited |
| Walkers.WalkTypeChildren | src/walkers/type_.rs:20-92 | unlisted types are untouched |
| Walkers.WalkBareFnArgs | src/walkers/type_.rs:25-48 | one input per input |
| Walkers.WalkTypes | src/walkers/type_.rs:86-90 | one type per input |
| Walkers.WalkOptType | src/walkers/signature.rs:43-48 | an absent type stays absent, and a present one stays present |
| Walkers.WalkBound | src/walkers/type_param_bound.rs:13-39 | a verbatim bound is untouched |
| Walkers.WalkCaptured | src/walkers/type_param_bound.rs:25-37 | one captured parameter per input |
| Walkers.WalkBounds | src/walkers/type_.rs:52-56 | one bound per input |
| Walkers.WalkParam | src/walkers/generic_param.rs:13-32 | a const parameter keeps its name and default |
| Walkers.WalkParams | src/walkers/generics.rs:12-14 | the parameter count never changes |
| Walkers.WalkBoundLifetimes | src/walkers/type_param_bound.rs:14-20 | absent `for<>` lifetimes stay absent |
| Walkers.WalkPath | src/walkers/path.rs:13-44 | without a path predicate, the names and the leading `::` are kept |
| Walkers.WalkSegments | src/walkers/path.rs:36-44 | segment names never change |
| Walkers.WalkPathArgs | src/walkers/path.rs:17-35 | a segment without arguments is untouched |
| Walkers.WalkAngleArgs | src/walkers/angle_bracketed_generic_arguments.rs:12-18 | count and kinds kept; non-type arguments untouched |
| Walkers.TrimPathContext | src/functions/trim_path.rs:8-29 | the context terminates: no slot grows a node |
| Walkers.TrimPathPredicate | src/functions/trim_path.rs:13-25 | a one-segment path declines; a declined path is unchanged; a trimmed path loses its leading `::`; the state is untouched |
| ItemWalkers.WalkOptAngle | src/walkers/generic_argument.rs:28-30 | absent generics stay absent; present ones keep their count |
| ItemWalkers.WalkGenericArgument | src/walkers/generic_argument.rs:15-49 | each argument kind stays the same kind |
| ItemWalkers.GenericArgumentReplays | src/walkers/generic_argument.rs:15-49 | with a passive context: a lifetime's name; a type; a const; an associated type's name, type, then generics; an associated const's name, value, then generics; a constraint's name, bounds, then generics |
| ItemWalkers.OptAngleReplays | src/walkers/generic_argument.rs:28-30 | absent generics visit nothing |
| ItemWalkers.WalkWherePredicate | src/walkers/where_clause.rs:15-33 | each predicate kind stays the same kind |
| ItemWalkers.WalkWhereClause | src/walkers/where_clause.rs:14-34 | one predicate per input |
| ItemWalkers.WalkOptWhere | src/walkers/generics.rs:15-17 | the where clause is walked exactly when present |
| ItemWalkers.WalkGenerics | src/walkers/generics.rs:12-17 | the parameter count is kept and the where clause stays present or absent |
| ItemWalkers.WherePredicateReplays | src/walkers/where_clause.rs:15-33 | with a passive context: a lifetime predicate's name then bound names; a type predicate's type, `for<>` lifetimes, then bounds |
| ItemWalkers.WhereClauseReplays | src/walkers/where_clause.rs:14-34 | with a passive context, every predicate in order |
| ItemWalkers.GenericsReplays | src/walkers/generics.rs:12-17 | with a passive context, the parameters, then the where clause |
| ItemWalkers.WalkFieldList | src/walkers/fields.rs:31-36 | one field per input |
| ItemWalkers.WalkFields | src/walkers/fields.rs:12-20 | the fields kind is kept; a unit struct is untouched |
| ItemWalkers.FieldListReplays | src/walkers/fields.rs:31-36 | with a passive context, each field's name, then its type |
| ItemWalkers.FieldsReplays | src/walkers/fields.rs:12-20 | with a passive context, named and unnamed fields alike |
| ItemWalkers.WalkFnArg | src/walkers/signature.rs:27-42 | a receiver stays a receiver and a typed argument stays typed |
| ItemWalkers.WalkFnArgs | src/walkers/signature.rs:27-42 | one argument per input |
| ItemWalkers.WalkVariadic | src/walkers/signature.rs:22-26 | the variadic stays present or absent |
| ItemWalkers.WalkSignature | src/walkers/signature.rs:15-48 | the argument count is kept, and the variadic and return type stay present or absent |
| ItemWalkers.FnArgReplays | src/walkers/signature.rs:27-42 | with a passive context: a receiver's type, then its lifetime; a typed argument's type, then its pattern |
| ItemWalkers.FnArgsReplays | src/walkers/signature.rs:27-42 | with a passive context, every argument in order |
| ItemWalkers.SignatureReplays | src/walkers/signature.rs:15-48 | with a passive context: the name, the generics, the variadic pattern, the arguments, then the return type |
| ItemWalks.WalkFnItem | src/items/fn_item.rs:106-120 | the variant, attributes, visibility, body length and defaultness are kept |
| ItemWalks.WalkFnItems | src/items/implementation_item.rs:75-77 | one copy per input |
| ItemWalks.FnItemReplays | src/items/fn_item.rs:106-120 | with a passive context, the body statements in order, then the signature |
| ItemWalks.FnItemsReplays | src/items/implementation_item.rs:75-77 | with a passive context, every method copy in order |
| ItemWalks.WalkImplMember | src/items/implementation_item.rs:56-74 | methods are skipped; every member keeps its kind |
| ItemWalks.WalkImplMembers | src/items/implementation_item.rs:56-74 | one member per input, method members unchanged |
| ItemWalks.WalkOptPath | src/items/implementation_item.rs:52-54 | the trait path stays present or absent |
| ItemWalks.WalkImplementationItem | src/items/implementation_item.rs:50-77 | the method members inside the block are never changed; the member and copy counts are kept |
| ItemWalks.WalkImplItems | src/items/struct_item.rs:34-36 | one block per input |
| ItemWalks.ImplMemberReplays | src/items/implementation_item.rs:56-74 | with a passive context: a constant's name, generics, type, value; a type's name, generics, type; a macro |
| ItemWalks.ImplMembersReplays | src/items/implementation_item.rs:56-74 | with a passive context, every member in order |
| ItemWalks.OptPathReplays | src/items/implementation_item.rs:52-54 | with a passive context, the trait path if present |
| ItemWalks.ImplementationItemReplays | src/items/implementation_item.rs:50-77 | with a passive context: the generics, trait path, self type and members, then the method copies |
| ItemWalks.ImplItemsReplays | src/items/struct_item.rs:34-36 | with a passive context, every block in order |
| ItemWalks.WalkStructItem | src/items/struct_item.rs:30-36 | the attributes and block count are kept; the name is the ident predicate's answer |
| ItemWalks.WalkVariants | src/items/enum_item.rs:30-43 | one variant per input, each discriminant present or absent as before |
| ItemWalks.WalkEnumItem | src/items/enum_item.rs:30-43 | the attributes, variant count and block count are kept; the name is the ident predicate's answer |
| ItemWalks.StructItemReplays | src/items/struct_item.rs:30-36 | with a passive context: the name, generics, fields, then each block |
| ItemWalks.VariantsReplays | src/items/enum_item.rs:30-43 | with a passive context, each variant's name, fields, then discriminant |
| ItemWalks.EnumItemReplays | src/items/enum_item.rs:30-43 | with a passive context: the name, generics, variants, then each block |
| ItemWalks.WalkTraitMember | src/items/other_item.rs:75-107 | a trait method's signature is never changed, and its default body stays present or absent |
| ItemWalks.WalkTraitMembers | src/items/other_item.rs:75-107 | one member per input, method signatures unchanged |
| ItemWalks.WalkOtherItem | src/items/other_item.rs:47-128 | unsupported kinds abort; a function stays a function; a trait keeps its member count |
| ItemWalks.TraitMemberReplays | src/items/other_item.rs:75-107 | with a passive context: a constant's name, type, default, generics; a method's default body only; a type's name, default, generics, bounds; a macro |
| ItemWalks.TraitMembersReplays | src/items/other_item.rs:75-107 | with a passive context, every member in order |
| ItemWalks.OtherItemReplays | src/items/other_item.rs:47-128 | with a passive context, the item's name, then its parts in each kind's order |
| ItemWalks.ConstItemReplays | src/items/other_item.rs:49-54 | a constant: name, type, value, generics |
| ItemWalks.StaticItemReplays | src/items/other_item.rs:61-65 | a static: name, value, type |
| ItemWalks.TraitItemReplays | src/items/other_item.rs:66-109 | a trait: name, generics, supertraits, members; a trait with an impl restriction aborts, as the `todo!()` at other_item.rs:72-74 does |
| ItemWalks.TraitAliasItemReplays | src/items/other_item.rs:110-116 | a trait alias: name, generics, bounds |
| ItemWalks.TypeAliasItemReplays | src/items/other_item.rs:117-121 | a type alias: name, generics, type |
| ItemWalks.UnionItemReplays | src/items/other_item.rs:122-126 | a union: name, generics, named fields |
| ItemWalks.WalkItem | src/items/item.rs:54-61 | the variant is kept, and so are a function's kind and an other item's being a function |
| ItemWalks.WalkItems | src/functions/trim_path.rs:34-36 | one item per input |
| ItemWalks.ItemReplays | src/items/item.rs:54-61 | with a passive context, the wrapped variant's walk replays its list |
| ItemWalks.ItemsReplays | src/items/module_item.rs:231-233 | with a passive context, every item in order |
| Replays.IdentReplays | src/walkers/mod.rs:53-57 | with a passive context, one ident visit and the identifier unchanged |
| Replays.OptIdentReplays | src/walkers/expr.rs:46-48 | an optional label visits its name when present |
| Replays.IdentsReplays | src/walkers/where_clause.rs:16-21 | identifiers visited in order |
| Replays.MemberReplays | src/walkers/expr.rs:92-97 | a named member visits its name; a numeric one nothing |
| Replays.CapturedReplays | src/walkers/type_param_bound.rs:25-37 | each captured parameter's name in order |
| Replays.BareVariadicReplays | src/walkers/type_.rs:25-48 | a bare variadic visits its name when present |
| Replays.ExprReplays | src/walkers/expr.rs:16-241 | with a passive context the walk aborts exactly when the list does; otherwise the expression is unchanged and the state is the fold over the expression itself, then its children |
| Replays.ExprChildrenReplays | src/walkers/expr.rs:20-241 | the children of any expression replay their list |
| Replays.OperationReplays | src/walkers/expr.rs:21-67 | operations replay their list |
| Replays.OneChildReplays | src/walkers/expr.rs:21-37 | arrays, tuples, blocks without labels, wrappers and jumps visit their children in order |
| Replays.TwoChildrenReplays | src/walkers/expr.rs:26-41 | assignment and binary visit left then right; call: arguments then callee; cast: type then operand; index: index then base; range: start then end; repeat: element then length |
| Replays.CallReplays | src/walkers/expr.rs:58-63 | a call visits its arguments, then its callee |
| Replays.CastReplays | src/walkers/expr.rs:64-67 | a cast visits its type, then its operand |
| Replays.RangeReplays | src/walkers/expr.rs:171-178 | a range visits its start, then its end |
| Replays.ExprPairReplays | src/walkers/expr.rs:26-29 | two expressions walked in turn fold their lists in turn |
| Replays.ControlReplays | src/walkers/expr.rs:42-149 | control expressions replay their list |
| Replays.LabelledReplays | src/walkers/expr.rs:42-57 | block, break, continue, loop and while give their labels to the ident predicate |
| Replays.BindingReplays | src/walkers/expr.rs:68-128 | closure, for, if, let and match replay their list |
| Replays.BlockReplays | src/walkers/expr.rs:42-49 | a block visits its statements, then its label |
| Replays.BreakReplays | src/walkers/expr.rs:50-57 | a break visits its label, then its value |
| Replays.LetReplays | src/walkers/expr.rs:125-128 | a let visits its pattern, then its expression |
| Replays.LoopReplays | src/walkers/expr.rs:129-136 | a loop visits its label, then its body |
| Replays.MatchReplays | src/walkers/expr.rs:140-149 | a match visits the scrutinee, then each arm's pattern, body and guard |
| Replays.ClosureReplays | src/walkers/expr.rs:68-79 | a closure visits its body, its inputs, then its return type |
| Replays.ForLoopReplays | src/walkers/expr.rs:99-108 | a for loop visits its label, pattern, iterated expression, then body |
| Replays.IfReplays | src/walkers/expr.rs:112-120 | an if visits its condition, then branch, then else |
| Replays.WhileReplays | src/walkers/expr.rs:227-235 | a while visits its label, condition, then body |
| Replays.AccessReplays | src/walkers/expr.rs:90-170 | field accesses, method calls, paths, struct literals and macros replay their list |
| Replays.FieldAccessReplays | src/walkers/expr.rs:90-98 | a field access visits its base, then a named member |
| Replays.MethodCallReplays | src/walkers/expr.rs:150-161 | a method call visits the method name, the receiver, then the arguments; the turbofish never |
| Replays.PathExprReplays | src/walkers/expr.rs:165-170 | a path expression visits its qualified self, then its path |
| Replays.StructLitReplays | src/walkers/expr.rs:194-205 | a struct literal visits its qualified self, path, field values, then rest; member names never |
| Replays.ExprsReplays | src/walkers/expr.rs:21-25 | expressions visited in order |
| Replays.OptExprReplays | src/walkers/expr.rs:189-193 | an optional expression visits it when present |
| Replays.ArmsReplays | src/walkers/expr.rs:142-148 | arms visited in order |
| Replays.FieldValuesReplays | src/walkers/expr.rs:199-201 | field values visited in order |
| Replays.MacroReplays | src/walkers/macro_.rs:11-22 | a macro visits its path, then its arguments |
| Replays.StmtReplays | src/walkers/statement.rs:14-37 | a statement replays its own visit, then its children |
| Replays.StmtChildrenReplays | src/walkers/statement.rs:18-37 | a let visits pattern, initialiser, then diverge; an item statement aborts; expression and macro statements go to their walkers |
| Replays.StmtsReplays | src/walkers/expr.rs:42-45 | statements visited in order |
| Replays.PatReplays | src/walkers/pattern.rs:12-92 | no predicate on entry; each pattern kind replays its list |
| Replays.NestedPatReplays | src/walkers/pattern.rs:28-57 | or, paren, reference, slice and tuple patterns visit their elements in order |
| Replays.CompoundPatReplays | src/walkers/pattern.rs:36-90 | path, range, struct, tuple-struct and typed patterns replay their list |
| Replays.LeafPatReplays | src/walkers/pattern.rs:17-27 | a const pattern's statements, an identifier pattern's name, a macro pattern's macro; others nothing |
| Replays.PathPatReplays | src/walkers/pattern.rs:36-41 | a path pattern visits its qualified self, then its path |
| Replays.RangePatReplays | src/walkers/pattern.rs:42-49 | a range pattern visits its start, then its end |
| Replays.StructPatReplays | src/walkers/pattern.rs:58-72 | a struct pattern visits its qualified self, path, then each field's subpattern and member |
| Replays.TupleStructPatReplays | src/walkers/pattern.rs:78-86 | a tuple-struct pattern visits its elements before its path |
| Replays.TypedPatReplays | src/walkers/pattern.rs:87-90 | a typed pattern visits the pattern, then the type |
| Replays.PatsReplays | src/walkers/pattern.rs:28-32 | patterns visited in order |
| Replays.FieldPatsReplays | src/walkers/pattern.rs:58-72 | field patterns visited in order |
| Replays.TypeReplays | src/walkers/type_.rs:16-92 | a type replays its own visit, then its children |
| Replays.TypeChildrenReplays | src/walkers/type_.rs:20-92 | every type kind replays its list; wrapped types their element, bounded types their bounds, tuples their elements |
| Replays.CompoundTypeReplays | src/walkers/type_.rs:21-77 | array, bare fn, path and reference types replay their list |
| Replays.ArrayTypeReplays | src/walkers/type_.rs:21-24 | an array type visits its element, then its length |
| Replays.BareFnReplays | src/walkers/type_.rs:25-48 | a bare fn visits its lifetimes, variadic name, inputs, then output |
| Replays.PathTypeReplays | src/walkers/type_.rs:63-68 | a path type visits its qualified self, then its path |
| Replays.ReferenceTypeReplays | src/walkers/type_.rs:72-77 | a reference type visits its element, then its lifetime |
| Replays.BareFnArgsReplays | src/walkers/type_.rs:29-38 | each input's name, then its type |
| Replays.TypesReplays | src/walkers/type_.rs:86-90 | types visited in order |
| Replays.OptTypeReplays | src/walkers/signature.rs:43-48 | an optional type visits it when present |
| Replays.BoundReplays | src/walkers/type_param_bound.rs:13-39 | a trait bound's lifetimes then path; a lifetime bound's name; captured names |
| Replays.BoundsReplays | src/walkers/type_.rs:52-56 | bounds visited in order |
| Replays.ParamReplays | src/walkers/generic_param.rs:13-32 | a lifetime parameter's bounds then name; a type parameter's default, name, then bounds; a const parameter's type |
| Replays.ParamsReplays | src/walkers/generics.rs:12-14 | parameters visited in order |
| Replays.BoundLifetimesReplays | src/walkers/type_param_bound.rs:14-20 | `for<>` lifetimes visited in order |
| Replays.PathReplays | src/walkers/path.rs:13-44 | with a path predicate, one visit of the whole path; without, each segment's arguments |
| Replays.PredictedPathReplays | src/walkers/path.rs:13-16 | with a path predicate set, the path is one visit and nothing inside it is walked |
| Replays.SegmentsReplays | src/walkers/path.rs:36-44 | segments visited in order |
| Replays.PathArgsReplays | src/walkers/path.rs:17-35 | an angle list's types; a parenthesised list's output, then its inputs |
| Replays.AngleArgsReplays | src/walkers/angle_bracketed_generic_arguments.rs:12-18 | only type arguments are visited, left to right |
| Replays.EmptyContext | src/walkers/mod.rs:25-58 | the context with every slot empty is passive and terminates |
| Replays.FoldEmpty | src/walkers/mod.rs:25-58 | with every slot empty, no visit changes the state |
| Replays.EmptyContextKeepsExpr | src/walkers/expr.rs:20-241 | with every slot empty, a walk that does not abort gives the expression and the state back unchanged |
| Replays.EmptyContextKeepsType | src/walkers/type_.rs:20-92 | the same for types |
| Passes.RenameSegments | src/functions/rename.rs:19-24 | every segment named `from` is renamed to `to`; arguments and other segments are kept |
| Passes.RenamePath | src/functions/rename.rs:17-27 | the renamed segments, written back without a leading `::` |
| Passes.RenameIdent | src/functions/rename.rs:28-34 | handled exactly when the identifier is `from`, and then replaced by `to` |
| Passes.RenameContext | src/functions/rename.rs:8-36 | only the path and ident slots are set, with the two predicates above, and the context terminates |
| Passes.RenameItem | src/functions/rename.rs:38-41 | the item keeps its variant |
| Passes.RenamePathType | src/functions/rename.rs:17-27 | a path type is renamed as a whole by the path predicate |
| Passes.RenameKeepsGenericArguments | src/functions/rename.rs:17-27 | `Option<Foo>` renamed from `Foo` keeps `Foo` |
| Passes.RenameDropsLeadingColon | src/functions/rename.rs:18-25 | a path with no match still loses its leading `::` |
| Passes.RenameLetBinding | src/functions/rename.rs:28-34 | a `let` binding named `from` is renamed by the ident predicate |
| Passes.TrimPathTypeCloses | src/functions/trim_path.rs:13-25 | a path type of two or more segments is trimmed exactly when `TrimsAt` holds, losing `Dropped` names and its leading `::` |
| Passes.TrimPathSkipsOneSegment | src/functions/trim_path.rs:14-18 | a one-segment path, including its generic arguments, is never trimmed |
| Passes.TrimStdPath | src/functions/trim_path_test.rs:8-47 | `std::path::PathBuf` trimmed by `std::path` is `PathBuf` |
| Passes.TrimMismatchContinues | src/utils/path.rs:152-156 | `x::path::PathBuf` trimmed by `std::path` is `path::PathBuf` |
| Passes.TrimStartEmptiesOneSegment | src/utils/path.rs:146-159 | `trim_start` alone empties a one-segment path equal to the prefix |
| Passes.TransformContext | src/functions/transform.rs:7-18 | only the expression slot is set, to the caller's rewrite |
| Passes.TransformExpr | src/functions/transform.rs:28-30 | a handled expression is the rewrite's answer as it stands |
| Passes.TransformPassive | src/functions/transform.rs:20-22 | a rewrite that never handles and never rewrites leaves the item unchanged; its state is the rewrite folded over the visited expressions |
| Passes.TransformTypePassive | src/functions/transform.rs:24-26 | `from_type` with a rewrite that never handles and never rewrites leaves the type unchanged, folding the rewrite over the visited expressions; it aborts exactly when the type's visit list does |
| Passes.TransformStmtPassive | src/functions/transform.rs:32-34 | the same for `from_stmt` and statements |
| Statements.PathOf | src/utils/statement.rs:34-38 | a plain path expression with the same segments |
| Statements.ToExpr | src/utils/statement.rs:18-39 | succeeds exactly for expressions, paths, and expression or macro statements; `let` and item statements abort |
| Statements.ToStmt | src/utils/statement.rs:41-46 | succeeds exactly on a statement, giving it back |
| Statements.OperandRoundTrip | src/utils/statement.rs:18-46 | wrapping then unwrapping gives the statement or expression back, whatever the semicolon |
| Statements.ToExprs | src/utils/statement.rs:190-207 | succeeds exactly when every operand converts, in order |
| Statements.ToExprsAppend | src/utils/statement.rs:190-207 | converting two lists is concatenating their conversions |
| Statements.LastName | src/utils/statement.rs:65-79 | the last segment's name; an empty path aborts |
| Statements.AccessField | src/utils/statement.rs:65-79 | `receiver.member` without a semicolon, using the member path's last name only |
| Statements.AccessFieldAsRef | src/utils/statement.rs:81-100 | `(&receiver).member` without a semicolon |
| Statements.AccessFieldUsesLastName | src/utils/statement.rs:65-100 | member paths with the same last name give the same access |
| Statements.AssignField | src/utils/statement.rs:102-116 | an assignment whose left side is `access_field` and whose right side is the operand; an empty member aborts first |
| Statements.AssignTo | src/utils/statement.rs:293-303 | succeeds exactly when both sides convert; an assignment with a semicolon |
| Statements.ImplicitReturn | src/utils/statement.rs:118-123 | the operand's expression without a semicolon |
| Statements.LetAssign | src/utils/statement.rs:305-323 | `let name = right;` with the printed path as binding |
| Statements.LetSomeCondition | src/utils/statement.rs:125-160 | `if let Some(value) = condition { then }` with an else exactly when given; no semicolon |
| Statements.LetNoneCondition | src/utils/statement.rs:162-188 | `if let None = path { then }`, no semicolon |
| Statements.CallTo | src/utils/statement.rs:190-207 | `path(arguments..);` succeeding exactly when the arguments convert |
| Statements.MethodCallOn | src/utils/statement.rs:209-229 | arguments, then receiver, then method name: the first failure aborts; otherwise a method call named by the path's last name |
| Statements.MethodCallUsesLastName | src/utils/statement.rs:209-229 | method paths with the same last name give the same call |
| Statements.PeelStep | src/utils/statement.rs:231-266 | peeling one more receiver continues from where the last peel stopped |
| Statements.ChainFrom | src/utils/statement.rs:237-265 | each link wraps the previous call as its receiver: peeling `n` receivers gives the start |
| Statements.MethodChainCall | src/utils/statement.rs:231-266 | fewer than two calls, or a first call that is not `Start`, aborts; otherwise the last call is outermost and the start's receiver innermost |
| Statements.ChainFromSnoc | src/utils/statement.rs:237-265 | adding a link wraps the chain in one more method call |
| Statements.MethodChainCallSnoc | src/utils/statement.rs:231-266 | a chain extended by a `Chained` call is the old chain's call used as receiver |
| Statements.StructLiteral | src/utils/statement.rs:268-291 | a struct literal with one field per given pair, in the given order, and no rest |
| Statements.FieldValues | src/utils/statement.rs:268-291 | one field per pair, named by the pair |
| Statements.MacroInvocation | src/utils/statement.rs:325-349 | a block holding the one macro statement `name!(arguments..);` |
| Statements.Panic | src/utils/statement.rs:351-364 | a `panic!` whose first argument is the format literal, followed by the caller's arguments in order |
| Statements.BlockOf | src/utils/statement.rs:366-378 | `{ statements };` |
| Statements.PathStmt | src/utils/statement.rs:380-389 | the path as an expression statement with a semicolon |
| Statements.ClosureOf | src/utils/statement.rs:402-426 | a closure with the given inputs, return type and body |
| Statements.WithoutTrailingSemicolon | src/utils/statement.rs:391-400 | clears the semicolon of an expression statement; any other statement aborts |
| Statements.WithoutTrailingSemicolonKeepsExpr | src/utils/statement.rs:391-400 | the expression is kept and clearing twice changes nothing more |
| Statements.SemicolonFlags | src/utils/statement.rs:65-426 | which builders end with a semicolon and which do not |
| Base.RemoveAll | src/items/source_file.rs:42 | `replace(pat, "")`: never longer; for a non-empty pattern the length is kept exactly when the pattern does not occur, and then the string is unchanged |
| Base.RemoveAllLeading | src/items/source_file.rs:42 | a leading copy of the pattern is dropped; `"FooBarFoo".replace("Foo", "")` is `"Bar"` |
| Base.UniqueBy | src/items/source_file.rs:94-101 | `unique_by`: every result element comes from the input with an unseen key, no two share a key, and every unseen key of the input is covered |
| Base.UniqueByKeepsFirst | src/items/source_file.rs:94-101 | the first element with each unseen key is kept |
| Base.Filter | src/items/module_item.rs:144-153 | exactly the accepted elements; nothing is dropped exactly when every element is accepted, and then the list is unchanged |
| Base.FilterAppend | src/items/module_item.rs:144-153 | filtering distributes over concatenation and keeps a single element exactly when accepted, which fixes the order of the result |
| Base.FindFirst | src/items/module_item.rs:123-126 | the first accepted position, or none when nothing is accepted |
| Base.FilterPartition | src/items/module_item.rs:144-153 | the two complementary filters split the list's multiset |

## Left out

- Parsing and printing: `utils/parsing.rs` reads files, runs the parser and
  printer and writes files. The model starts from the parsed tree.
- Macro arguments are modelled as a parsed list of expressions. The
  re-parsing and re-emitting of token streams in `walkers/macro_.rs` and
  `items/macro_.rs` goes through a foreign parser and is not modelled.
- Printed forms are parameters. `printUse` stands for `UseItem::to_string`
  and `printPath` for `Path`'s `Display`.
- String literals in `panic` are kept as they are. Escaping is not
  represented.
- Identifiers are plain strings. proc_macro2's validity checks and spans are
  not modelled, so `create_ident` never aborts here.
- Hash map order is a parameter. The order in which conflicts are processed
  is the `order` argument of the renaming functions and of `Merge` and
  `MergeCorrected`; they require that it lists every conflicting identifier
  once and nothing else, as iterating the filtered map does. The field
  order of `struct_literal` is the order of the given pairs.
- `debug!` logging has no effect on results and is left out.
- The per-segment `predict_path` branch in `walkers/path.rs` is not modelled.
  It is unreachable: it needs a path predicate, and with one set the walker
  has already returned.
- `GenericArgumentWalker` is modelled on its own, because nothing in the
  crate calls it.
- Predicates are pure functions that carry their own state. A `FnMut` that
  reads other mutable state is not modelled.
- Termination assumption: every walk requires `Shrinking(cx)`, meaning a
  declining type, expression or statement predicate never returns a larger
  node. A predicate that keeps growing the tree would make the Rust walker
  loop, and is not modelled.
- Case changes are ASCII-only, and characters stand for bytes. The Rust code
  mixes char positions with byte offsets, which agree only on ASCII text.
- `Path`'s conversions from strings, identifiers, segment lists and file
  system paths (`utils/path.rs:250-343`) are not modelled. The model builds
  paths from segment lists directly.
- `Default`, `Clone` and `PartialEq` are not modelled as members. Datatype
  values are copied by value, and their equality is structural.
- `iter` and `iter_mut` on `Path` are not modelled. The model reads
  `segments` directly.
- Attributes and visibility are carried as opaque values that are never
  visited.
- SourceFiles.ResolveIdentConflicts: in general the file's shape and the
  modules left unchanged are stated, not the new contents of a renamed
  module. The new names are stated on concrete files (`ResolveTwoModules`,
  `SameModuleNoConflict`), because they depend on the rename walk of every
  item.
- SourceFiles.ResolveIdentConflictsAsWritten: likewise; its abort on a
  module listed twice is stated on a concrete file
  (`SameModuleConflictAborts`).
- SourceFiles.ResolveIn: states which modules are left alone and when the
  lookups abort, not what the rename does inside the module it edits.
- SourceFiles.ResolveEach: likewise, for each listed module.
- SourceFiles.ResolveAll: likewise, for each identifier in the order.
- Base.RemoveAll: states when the string shrinks, not that exactly whole
  copies of the pattern go; `RemoveAllLeading` states the step for a leading
  copy.
- Base.UniqueBy: does not state the relative order of the kept elements.
- Walkers.WalkOperation: its own contract only keeps the expression's group; what it visits, and in what order, is stated by `Replays.OperationReplays`.
- Walkers.WalkControl: likewise, with `Replays.ControlReplays`.
- Walkers.WalkAccess: likewise, with `Replays.AccessReplays`.

## Behaviour worth noting

Each point below is what the code does, and a lemma states it.

- `trim_start` does not stop at a segment that differs from the prefix: it
  consumes that prefix name and keeps scanning
  (`Passes.TrimMismatchContinues`).
- `trim_start` on a one-segment path equal to the prefix empties the path.
  Only the caller's guard in `trim_path.rs` keeps this from happening
  (`Passes.TrimStartEmptiesOneSegment`).
- Rename does not reach names inside generic arguments: with the path
  predicate set, the path walker never descends, so `Option<Foo>` keeps
  `Foo` (`Passes.RenameKeepsGenericArguments`).
- The path predicate is consulted once, on the whole path, and the walker
  then returns without visiting the segments (`Replays.PredictedPathReplays`).
- `impl` blocks are linked to a struct or an enum by the leading name of
  their self type, in `push_impl_to_struct` and `push_impl_to_enum` alike.
  That is the first finding below: the as-written members key by the first
  segment, and `PushImplToStruct` / `PushImplToEnum` are the corrected keying.

## Findings

| source | as written | input that shows it | evidently intended | confidence | as-written member | corrected member |
|---|---|---|---|---|---|---|
| src/items/module_item.rs:41-48 | `item_impl_ident` keys an `impl` block by the FIRST segment of its self type, but the block answers to the LAST segment (`ImplementationItem::ident`) | `impl crate::Foo` next to `struct Foo`: the block is looked up under `crate` and silently dropped; `impl Foo::Bar` lands on `struct Foo`; the same for `enum Foo` | attach the block to the struct or enum named as the block answers to | medium, not executed | Modules.PushImplToStructAsWritten, Modules.PushImplToEnumAsWritten (shown by Modules.QualifiedImplDropped, Modules.NestedImplMisplaced, Modules.QualifiedEnumImplDropped, Modules.NestedEnumImplMisplaced) | Modules.PushImplToStruct, Modules.PushImplToEnum (Modules.PushImplToStructKeepsNames, Modules.PushImplToEnumKeepsNames, Modules.SameKeyAttachesAlike) |
| src/items/source_file.rs:24-59 | conflicts are counted per declaration, so one identifier declared twice in one module (a struct and a function `Foo`) lists that module twice; the first round renames both, and the second `find_item_by_ident(..).unwrap()` aborts | module `M` holding `struct Foo` and `fn Foo` | list each module once per identifier; a module is no conflict with itself | medium, not executed | SourceFiles.ResolveIdentConflictsAsWritten, SourceFiles.Merge (shown by SourceFiles.SameModuleConflictAborts, SourceFiles.SameModuleMergeAborts) | SourceFiles.ResolveIdentConflicts, SourceFiles.MergeCorrected (SourceFiles.SameModuleNoConflict, SourceFiles.SameModuleMergeCorrected, SourceFiles.ResolveSingleModule) |
