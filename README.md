# OSelector animation tree, modelled in Dafny

OSelector scans a folder of FNIS animation lists (`FNIS_<module>_List.txt`). It reads every
line into animation records, groups them into one module per file and one package per
top-level folder, and shows them in a checkbox tree. Past 25 children, the tree pages a node's
children into "Set n" splitters. The user checks, unchecks and rearranges the tree, and the
checked part is written out as a `folder{level}` / `entry` element tree.

This project models that in-memory pipeline and proves what each step promises:

- `base.dfy` (`Base`): shared pieces.
  - Option and Result.
  - Python's `str(n)`, slicing, and string order.
  - The stable `list.sort(key=...)`, proved sorted, a permutation and stable.
- `utils.dfy` (`Utils`): `indent`.
- `animation.dfy` (`Animations`): the `Animation` record and the line parser.
  - The regular expression of `parseLine` is modelled as a tokenizer over maximal `\S*` runs.
  - The tokenizer is proved sound, complete, greedy in its optional group, and unique.
- `named_container.dfy` (`NamedContainers`): the named list that holds modules and packages.
- `tree_item.dfy` (`AnimTreeItems`): the tree item.
  - Its splitter bookkeeping: `add_nested_child`, `insert_splitter` and the overflow loop.
  - `animation_count`, `to_xml` and `set_animation`.
- `tree_build.dfy` (`TreeBuilds`): the build of the tree from packages.
  - The build is shared by `createFromPackages`, which skips duplicate stage IDs, and `createTreeByMod`, which does not.
- `tree_widget.dfy` (`AnimTreeWidgets`): the tree widget as a class over the list of top-level items.
  - Its operations: check/uncheck, cleanup, move up, insert parent, remove, count and serialise.
- `oselector_tool.dfy` (`OSelectorTools`): the scan.
  - Path handling and the line loop of one file.
  - The grouping into modules and packages.
  - The main window's `scanFolder` and `createTreeByMod`.

Modelling choices:

- **Values and classes.** Animation records, containers and tree items are values (datatypes).
  - The tree widget is a class whose field `top` holds the children of Qt's invisible root.
  - An item inside the tree is addressed by its path of child indices.
- **Aliases.** Two places in the source rely on aliasing, and the model makes both explicit:
  - `anim` in the scan is always the last animation of the current module, so extending it extends that entry.
  - `animPackage` is either not yet in `packages` or the same object as its last element (`Current` = `NotStarted | Unlisted | Listed`).
- **Helper names.** The callers use camelCase names for helpers that the item class defines in snake_case. Each pair is one operation:
  - `addChildWithSplitter` is `add_nested_child`;
  - `setAnimation` is `set_animation`;
  - `animationCount` on an item is `animation_count`;
  - `toXML` on an item is `to_xml`.
- **Build order.** The source inserts each new node and fills it afterwards. The model builds each node completely and then inserts it. Both give the same tree, because `add_nested_child` decides where a child goes from the parent's children and counters alone and never looks inside the child.
- **Qt's child edits:**
  - `insertChild` with an index past the end is refused;
  - `takeChild` past the end yields nothing, and the overflow loop then adds a blank item;
  - removals keep the order of the other children.
- **Truthiness.** Tree items and containers are taken to be truthy exactly when they exist.
- **Paths.** Paths use the Windows separator `\`.
- **Stage lists.** The build and `CreateTreeByMod` require each animation's file and object lists to be at least as long as its stage list, because `set_animation` reads all three at the same index. Every animation the scan produces has three lists of equal length (`ScanFacts`).
- **Scan result.** Each of the three exceptions the scan can raise is a `ScanError`.
  - When an exception is raised, the tree and the "Animations found" counter keep their old values.

## Model

| member | source | states |
|---|---|---|
| Base.PySlice | OSelectorTool.py:163 | `s[start:stop]`: with a negative `stop`, the text from `start` up to `stop` characters before the end; with `stop >= 0`, the text from `start` up to `stop` or the end, whichever comes first; empty when that range is empty. So `[5:-9]` drops the first 5 and the last 9 characters of any name |
| Base.SortByIsSortedPermutation | OSelectorTool.py:205 | sorting by a key gives a list sorted by that key that is a permutation of the input |
| Base.SortByStable | OSelectorTool.py:205 | the sort is stable: the items of each key keep their relative order |
| Base.SortByLength | OSelectorTool.py:167 | sorting keeps the number of items |
| Utils.IndentShape | util/utils.py:15-16 | `indent(text, level)`: `8*level` spaces then `text` for `level >= 0`, `text` alone for `level <= 0`; length `8*level` plus the length of `text`; it ends with `text` and everything before is a space |
| Animations.TypeFromStringTable | data/Animation.py:62-69 | the first TYPE in declaration order whose anchored prefix matches: `b` BASIC, `fu`/`o` ANIM_OBJ, `s` SEQUENCE, `+` ADDITIVE, `pa` PAIRED, `km` KILLMOVE, else UNKNOWN |
| Animations.OffsetNeverReturned | data/Animation.py:8-11 | OFFSET is never the result, because ANIM_OBJ already takes every token starting with `o` |
| Animations.OptionsFromString | data/Animation.py:71-80 | the result is `[NONE]` for every token, None and empty included |
| Animations.ParseLine | data/Animation.py:47-60 | a line the pattern does not match gives `(UNKNOWN, [], "", "", "")` |
| Animations.RunSound | data/Animation.py:50 | a `\S*` run and its rest give the text back; the run has no whitespace and the rest starts at whitespace or is empty |
| Animations.RunUnique | data/Animation.py:50 | any such split is the one the run makes: `\S*` is maximal |
| Animations.TokenizeSound | data/Animation.py:50-59 | every tokenization is a match of the pattern, group by group, with the tail swallowing the rest of the line |
| Animations.TokenizeComplete | data/Animation.py:50-59 | every line the pattern matches is tokenized, and a match with the options group is the one chosen |
| Animations.MatchUnique | data/Animation.py:50 | two matches that agree on using the options group agree on all five groups |
| Animations.DropLastSegment | data/Animation.py:40 | `rsplit("_", 1)[0]`: a prefix; all of the text without `_`; else the text before the last `_` |
| Animations.NameOfShape | data/Animation.py:40 | the name is a prefix of the identifier; what is cut off starts with `_` and holds exactly two of its `_` (all of them when it has fewer) |
| Animations.NewAnimation | data/Animation.py:29-40 | one stage holding exactly the given id, file and object; type and options stored; the record invariant holds |
| Animations.AddStage | data/Animation.py:42-45 | one entry appended to each stage list; kind, options and name unchanged; the invariant is kept |
| NamedContainers.AddItem | OSelectorTool.py:184 | `addItem`: the item is appended and the name kept |
| AnimTreeItems.InsertChild | widget/AnimTreeItem.py:106 | `insertChild`: in range, the child goes in at the index and the others keep their order; out of range nothing changes |
| AnimTreeItems.SetNextSplitterIndex | widget/AnimTreeItem.py:90-95 | as written: any argument but -1 gives an index below 25; -1 gives the old index plus one |
| AnimTreeItems.SetNextSplitterIndexIntended | widget/AnimTreeItem.py:90-95 | the intended wrap-around: the index is always below 25; only the index changes |
| AnimTreeItems.SetNextSplitterIndexNoWrap | widget/AnimTreeItem.py:92 | from index 24, -1 gives 25 as written and 0 as intended |
| AnimTreeItems.SetNextSplitterIndexAgree | widget/AnimTreeItem.py:93-94 | both agree on every argument but -1 |
| AnimTreeItems.InsertSplitter | widget/AnimTreeItem.py:100-109 | a splitter labelled "Set {index+1}" holding the given children goes in at `index` (refused past the end); the counter rises by one; the next index becomes `(index+1) mod 25`; nothing else changes: all six columns, the check state, the splitter flag and `levelTwoCounter` are kept |
| AnimTreeItems.InsertSplitterIds | widget/AnimTreeItem.py:100-109 | inserting a splitter adds exactly the animations it holds |
| AnimTreeItems.FirstOpenSplitter | widget/AnimTreeItem.py:24-28 | the index of the first splitter child with room, or the child count when there is none |
| AnimTreeItems.AddNestedIntoSplitter | widget/AnimTreeItem.py:24-28 | when a splitter child has room, the item goes into the first such one and nothing else changes |
| AnimTreeItems.AddNestedNewSplitter | widget/AnimTreeItem.py:31-35 | otherwise, for a next index in (0, 25), a new splitter holding only the item is inserted there and the counters advance |
| AnimTreeItems.AddNestedAppends | widget/AnimTreeItem.py:37-55 | otherwise, without exactly 25 children, the item is appended and the counters stay as they were |
| AnimTreeItems.MoveIntoInsertedShape | widget/AnimTreeItem.py:43-49 | the overflow loop leaves the children before the new splitter; the splitter receives all later ones in order, splitters relabelled by move order, followed by `index+1` blank items |
| AnimTreeItems.MoveIntoSplitterIds | widget/AnimTreeItem.py:43-49 | the overflow loop keeps every animation; `index+1` children remain when the splitter was accepted |
| AnimTreeItems.OverflowMoveFacts | widget/AnimTreeItem.py:37-49 | the first half of the overflow path keeps every animation and the ID, and leaves a next index within the children |
| AnimTreeItems.OverflowKeepsIds | widget/AnimTreeItem.py:37-53 | the overflow path keeps the node's animations, adds the item's and leaves valid counters |
| AnimTreeItems.AddToSplitterIds | widget/AnimTreeItem.py:28 | adding to a splitter child adds the item's animations |
| AnimTreeItems.AddNestedChildrenIds | widget/AnimTreeItem.py:22-55 | on every path, the children afterwards hold the node's animations plus the item's; the ID and valid counters are kept |
| AnimTreeItems.AddNestedKeepsIds | widget/AnimTreeItem.py:22-55 | the subtree afterwards holds exactly the node's animations and the item's |
| AnimTreeItems.OverflowFromFresh | widget/AnimTreeItem.py:37-53 | the 26th item into 25 plain children with fresh counters: "Set 1" holds the 25 in order plus a blank (26 children), "Set 2" holds the item, and both counters end at 2 |
| AnimTreeItems.TakeAfter | widget/AnimTreeItem.py:44-48 | one iteration's take: the child after the splitter, relabelled when it is a splitter, or a blank item when there is none |
| AnimTreeItems.MoveChildren | widget/AnimTreeItem.py:43-49 | the take loop leaves `MoveIntoSplitter`: the children up to the splitter, then the splitter holding the later children and the blanks (see MoveIntoInsertedShape, MoveIntoSplitterIds) |
| AnimTreeItems.AddNestedChild | widget/AnimTreeItem.py:22-55 | the search loop and the three other paths compute `AddNested`, whose paths and kept animations the lemmas above state |
| AnimTreeItems.AnimationCountIsCountedIds | widget/AnimTreeItem.py:57-66 | `animation_count(state)` is the number of animations reached through folders without passing a child in `state`; each has a non-empty ID |
| AnimTreeItems.CountOfIsCountedIds | widget/AnimTreeItem.py:60-64 | the same, summed over a list of children |
| AnimTreeItems.ToXmlEntries | widget/AnimTreeItem.py:68-82 | the entries written are exactly the animations `animation_count(Unchecked)` counts, in tree order; folders are numbered by depth |
| AnimTreeItems.ToXmlOfEntries | widget/AnimTreeItem.py:74-77 | the same, over the children that are not Unchecked |
| AnimTreeItems.ToXmlEntryCount | widget/AnimTreeItem.py:57-82 | the number of entries written equals the animation count |
| AnimTreeItems.Last25 | widget/AnimTreeItem.py:121 | `s[-25:]`: the last 25 characters, or all of a shorter text |
| AnimTreeItems.OptionNames | widget/AnimTreeItem.py:123 | each option's enumeration name, in order |
| AnimTreeItems.SetAnimation | widget/AnimTreeItem.py:120-126 | NAME is the last 25 characters of stage `i`, TYPE the kind's name, OPTIONS the printed name list; ID/FILE/ANIM_OBJ are stage `i`'s; nothing else changes |
| AnimTreeItems.ParsedOptionsText | widget/AnimTreeItem.py:123 | a parsed animation shows `['NONE']` in OPTIONS |
| AnimTreeWidgets.Remove | widget/AnimTreeWidget.py:216 | `removeChild`: one child fewer, the others in order |
| AnimTreeWidgets.CleanupKeepsIds | widget/AnimTreeWidget.py:63-84 | below the invisible root, cleanup loses no animation: what stays or is promoted holds exactly the item's animations |
| AnimTreeWidgets.CleanLoopKeepsIds | widget/AnimTreeWidget.py:73-76 | the child loop keeps every animation |
| AnimTreeWidgets.CleanupShape | widget/AnimTreeWidget.py:68-83 | an item with an ID is kept unchanged; a removed item has no ID; a kept folder changed only its children and does not end with exactly one |
| AnimTreeWidgets.CleanupTopIds | widget/AnimTreeWidget.py:63-84 | on the whole tree every animation is kept, except the ID of a single remaining top-level item, which is dissolved |
| AnimTreeWidgets.CleanupTopDropsLoneAnimation | widget/AnimTreeWidget.py:78-82 | a tree holding one top-level animation becomes empty |
| AnimTreeWidgets.CleanupKeepsEmptiedFolder | widget/AnimTreeWidget.py:68-77 | a folder whose only child is an empty folder loses the child but stays |
| AnimTreeWidgets.CleanupNotIdempotent | widget/AnimTreeWidget.py:63-84 | a second cleanup can change a tree the first one produced |
| AnimTreeWidgets.CleanupItem | widget/AnimTreeWidget.py:63-84 | the recursive method computes `Cleanup`, which keeps every animation (CleanupKeepsIds) |
| AnimTreeWidgets.CleanChildren | widget/AnimTreeWidget.py:73-76 | the counter loop computes `CleanLoop`: a child that is not removed moves the counter on |
| AnimTreeWidgets.SetStateFacts | widget/AnimTreeWidget.py:58-61 | after `checkSubTree` every node of the subtree is in the new state; animations, size and reached entries are unchanged |
| AnimTreeWidgets.SetStateOfFacts | widget/AnimTreeWidget.py:60-61 | the same, over a list of children |
| AnimTreeWidgets.CountAfterSetState | widget/AnimTreeWidget.py:53-56 | after setting everything to `t`, counting with `s` finds nothing when `t == s` and everything reached otherwise |
| AnimTreeWidgets.CheckSubTree | widget/AnimTreeWidget.py:58-61 | the recursive method computes `SetState` |
| AnimTreeWidgets.RemoveAtIds | widget/AnimTreeWidget.py:206-216 | removing an item takes exactly its subtree's animations out of the tree |
| AnimTreeWidgets.InsertParentAtIds | widget/AnimTreeWidget.py:159-166 | inserting a parent adds the parent's own animations and loses nothing |
| AnimTreeWidgets.InsertParentAtPlace | widget/AnimTreeWidget.py:163-166 | at the item's former place is the parent, with the item as its last child |
| AnimTreeWidgets.MoveUpAtIds | widget/AnimTreeWidget.py:169-192 | moveUp loses nothing below the top level; dissolving a top-level item loses only its own ID |
| AnimTreeWidgets.MoveUpAtPlacesLast | widget/AnimTreeWidget.py:184-191 | below the top level the item ends as the last child of its grandparent, or last at the top level |
| AnimTreeWidgets.AnimTreeWidget.constructor | widget/AnimTreeWidget.py:25-26 | a new tree is empty |
| AnimTreeWidgets.AnimTreeWidget.AnimationCount | widget/AnimTreeWidget.py:43-51 | the sum over top-level items not in `state`, which equals the number of animations reached |
| AnimTreeWidgets.AnimTreeWidget.SetAll | widget/AnimTreeWidget.py:53-56 | every top-level item gets `checkSubTree(child, s)` |
| AnimTreeWidgets.AnimTreeWidget.CheckAll | widget/AnimTreeWidget.py:53-56 | every item becomes Checked |
| AnimTreeWidgets.AnimTreeWidget.UncheckAll | widget/AnimTreeWidget.py:218-221 | every item becomes Unchecked |
| AnimTreeWidgets.AnimTreeWidget.Cleanup | widget/AnimTreeWidget.py:63-84 | `cleanup()` from the invisible root gives `CleanupTop`, whose animations CleanupTopIds states |
| AnimTreeWidgets.AnimTreeWidget.MoveUp | widget/AnimTreeWidget.py:169-192 | the top level becomes `MoveUpAt`: the item goes last under its grandparent, and a top-level item is dissolved child by child (MoveUpAtIds, MoveUpAtPlacesLast) |
| AnimTreeWidgets.AnimTreeWidget.InsertParent | widget/AnimTreeWidget.py:148-167 | the top level becomes `InsertParentAt`, with "New Parent" as the default parent (InsertParentAtIds, InsertParentAtPlace) |
| AnimTreeWidgets.AnimTreeWidget.RemoveFromParent | widget/AnimTreeWidget.py:206-216 | the top level becomes `RemoveAt`, which drops exactly the item's subtree (RemoveAtIds) |
| AnimTreeWidgets.AnimTreeWidget.ToXml | widget/AnimTreeWidget.py:194-204 | `folder0` with the plugin name and package icon; its entries are exactly what `animationCount(Unchecked)` counts; folders are numbered from 1 by depth |
| AnimTreeWidgets.AnimTreeWidget.Adopt | widget/AnimTreeWidget.py:124-128 | the temporary root's children become the top level, in order, and the root is gone |
| AnimTreeWidgets.AnimTreeWidget.CreateFromPackages | widget/AnimTreeWidget.py:86-130 | the top level is the build with the duplicate check; the result is the number of stages skipped |
| TreeBuilds.InsertingAll | OSelectorTool.py:248-252 | without the duplicate check every stage is inserted |
| TreeBuilds.InsertingDistinct | widget/AnimTreeWidget.py:114-122 | with the check, nothing is inserted twice or again, and every stage ID is inserted now or was before |
| TreeBuilds.InsertingSeen | widget/AnimTreeWidget.py:115 | the check depends only on which IDs were inserted |
| TreeBuilds.InsertingFirstOccurrences | widget/AnimTreeWidget.py:114-122 | from an empty start, exactly the first occurrence of each ID is inserted, in order |
| TreeBuilds.AddNestedKeepsColumns | widget/AnimTreeItem.py:22-55 | `add_nested_child` keeps the node's ID and name |
| TreeBuilds.AddStagesFacts | widget/AnimTreeWidget.py:114-122 | the stage loop inserts what `Inserting` says, counts the rest as duplicates and adds exactly those animations |
| TreeBuilds.AddAnimationsFacts | widget/AnimTreeWidget.py:106-122 | the same for the animation loop of a module, with its groups |
| TreeBuilds.ModuleNodeFacts | widget/AnimTreeWidget.py:98-122 | the same for one module node |
| TreeBuilds.AddModulesFacts | widget/AnimTreeWidget.py:98-122 | the same for the module loop of a package |
| TreeBuilds.AddPackagesFacts | widget/AnimTreeWidget.py:93-122 | the same for the package loop |
| TreeBuilds.BuildFacts | widget/AnimTreeWidget.py:86-130 | the tree's animations are exactly the inserted stage IDs that are not empty. Without the check that is every stage and nothing is skipped. With it, each distinct ID is inserted once, at its first occurrence, every ID is covered, and inserted plus skipped is the number of stages |
| TreeBuilds.FillStages | widget/AnimTreeWidget.py:114-122 | the stage loop computes `AddStages` |
| TreeBuilds.FillModule | widget/AnimTreeWidget.py:99-122 | the animation loop computes the module node |
| TreeBuilds.FillPackage | widget/AnimTreeWidget.py:94-122 | the module loop computes the package node |
| TreeBuilds.BuildTree | widget/AnimTreeWidget.py:92-122 | the package loop computes the build |
| OSelectorTools.JoinPath | OSelectorTool.py:161 | `os.path.join(root, file)`: the folder, one `\` and the name when the folder is not empty and does not end in `\` or `/`; otherwise the folder followed directly by the name |
| OSelectorTools.RemoveAllAbsent | OSelectorTool.py:162 | `replace` leaves text without the pattern unchanged |
| OSelectorTools.RelativePath | OSelectorTool.py:162 | for a file below the scan folder, removing `scanDir + '\'` gives the relative path |
| OSelectorTools.FirstComponent | OSelectorTool.py:162 | `split('\\', 1)[0]`: a separator-free prefix that ends at the first separator or at the end |
| OSelectorTools.LastComponent | OSelectorTool.py:163 | `rsplit('\\', 1)[1]`: missing exactly when there is no separator, else the separator-free text after the last one |
| OSelectorTools.ModuleNameOfListFile | OSelectorTool.py:163 | the module of `...\FNIS_<m>_List.txt` is `m` |
| OSelectorTools.ReadLinesCounts | OSelectorTool.py:177-203 | the counter rises by one per BASIC, ANIM_OBJ, SEQUENCE or ADDITIVE line, which is the number of stages the module gains; each opening line adds one valid animation |
| OSelectorTools.AdditiveFirstFails | OSelectorTool.py:176-201 | an ADDITIVE line before any opening line of its file stops the scan |
| OSelectorTools.SortModules | OSelectorTool.py:167 | sorting a package's modules by name gives a sorted permutation |
| OSelectorTools.Switch | OSelectorTool.py:165-168 | on a package change the listed package is kept with its modules sorted, and a new empty package starts |
| OSelectorTools.ScanOnlyListFiles | OSelectorTool.py:160 | files not named `FNIS...List.txt` play no part |
| OSelectorTools.ScanFilesFacts | OSelectorTool.py:158-211 | over the walk, the counter equals the stage lines read and the scan invariant holds |
| OSelectorTools.ScanFacts | OSelectorTool.py:158-211 | the counter is the number of stage lines of the list files. Every package has a module, and every module has sorted, valid animations. Every package but the last has its modules sorted |
| OSelectorTools.ReadFile | OSelectorTool.py:175-203 | the line loop, with `anim` as the module's last animation, computes `ReadLines` |
| OSelectorTools.AssemblePackages | OSelectorTool.py:148-211 | the walk loop computes `Scan` |
| OSelectorTools.OSelectorWindow.constructor | OSelectorTool.py:67 | a new window has an empty tree and shows 0 |
| OSelectorTools.OSelectorWindow.CreateTreeByMod | OSelectorTool.py:222-258 | the tree becomes the top level of the build without the duplicate check |
| OSelectorTools.OSelectorWindow.ScanFolder | OSelectorTool.py:139-216 | on success the tree is the cleaned-up build of the scanned packages and the counter is shown; on an exception both stay as they were |

## Left out

- The GUI: window set-up, dialogs, menus, the LCD and progress bar, colours, flags and the header, and `main.py`, `widget/QuickyGui.py` and `widget/MainWindow.py`. They only display or trigger the modelled operations.
- The file system:
  - `os.walk` is replaced by the sequence of files it yields;
  - `open` is replaced by each file's lines;
  - `create_dir` and `generatePlugin`'s writes are not modelled at all.
- The configuration file: the plugin name and icons are passed as a `Config` value.
- Logging has no effect on the model.
- Qt's automatic tri-state propagation: the check state is a stored field, set by the constructor (Checked) and by `checkSubTree`.
- The multi-selection branches of `insertParent`, `moveUp` and `removeFromParent`: they depend on the UI selection. Only the single-item calls are modelled.
- Qt's refusal to re-parent an item that already has a parent is library behaviour and is not modelled.
- The XML library: escaping, attribute order and `ET.tostring`. The output is an element datatype.
- Object identity. Items and containers are values, so two operations cannot share an item the way Qt items can be shared. The two aliases the scan relies on are modelled explicitly (see above).
- During a build the source's temporary root is itself a top-level item of the widget. The model keeps it apart and transfers its children at the end (`Adopt`), which gives the same final tree.
- Two locals are left out: `counter` in the build loops and `n1Index` in `moveUp`. They are computed but never used.
- OSelectorTools.JoinPath: it follows `os.path.join` for a bare file name only. Drive-relative names such as `C:` are not given the special handling of the Windows path rules.
- TreeBuilds.BuildFacts: it states which stage IDs the leaves carry, not that a leaf's FILE and ANIM_OBJ come from the same occurrence as its ID (the first one). A leaf with an empty ID counts as a folder, as `is_anim` says, so it is not among the tree's animations.
- TreeBuilds.AddAnimationsFacts: no lemma describes the group nodes a module gets (one per run of equal names). The splitters `add_nested_child` inserts make the module node's shape depend on how many groups there are, so only what the groups hold is stated.
- OSelectorTools.ScanFacts: the last package's modules are left in file order, because the source sorts a package's modules only when the next package starts. The lemma states exactly that.
- OSelectorTools.Attach: a package that has not been listed yet can receive a module from a file of the previously listed package, and such a module is then lost. This needs list files of two packages to be interleaved, which a directory walk does not produce. The model reproduces it and no lemma states it.
- The default argument `-1` of `set_next_splitter_index` is never passed: `insert_splitter` (widget/AnimTreeItem.py:108), its only caller, always passes `index + 1 >= 1`. The branch is modelled as written for the finding below, and `InsertSplitter` uses the corrected definition, which agrees with the written one on every argument it passes.

## Findings

| source | as written | input that shows it | evidently intended | confidence | as-written member | corrected member |
|---|---|---|---|---|---|---|
| widget/AnimTreeItem.py:92 | `self.splitterIndex+1 % self.maxChildCount` applies `%` to `1` only, so the index is not wrapped | `splitterIndex == 24`, `num == -1`: the index becomes 25 | `(self.splitterIndex + 1) % self.maxChildCount`, giving 0 | medium, not executed (`insert_splitter` at widget/AnimTreeItem.py:108, the only caller, always passes `index + 1 >= 1`, so the branch is latent) | AnimTreeItems.SetNextSplitterIndexNoWrap | AnimTreeItems.SetNextSplitterIndexIntended |
