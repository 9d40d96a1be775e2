/** The scan of OSelectorTool.py: the FNIS list files found under the chosen folder are read
    line by line into animations, grouped into one module per file and one package per
    top-level folder, and the tree is then built from the packages (createTreeByMod) and
    cleaned up. The directory walk is given as the sequence of files it yields, each with
    its folder, its name and its lines. */
module OSelectorTools {
  import opened Base
  import opened Animations
  import opened NamedContainers
  import opened AnimTreeItems
  import opened TreeBuilds
  import opened AnimTreeWidgets

  /** One file yielded by the walk: the folder it is in, its name and its lines, each with its
      line end, as iterating over the open file gives them. */
  datatype FileEntry = FileEntry(dir: string, name: string, lines: seq<string>)

  /** The ways the scan stops with an exception. */
  datatype ScanError =
    | NoFolder(path: string)               // the path has no '\' after the scan folder (IndexError)
    | StageWithoutAnimation(path: string)  // an additive line before any animation of its file
    | NoPackage(path: string)              // a module to attach while no package was started

  // ---------------------------------------------------------------------------
  // Paths.

  const Sep: char := '\\'

  /** Only the files named FNIS...List.txt are read. */
  predicate IsListFile(name: string) {
    StartsWith(name, "FNIS") && EndsWith(name, "List.txt")
  }

  /** os.path.join(dir, name) with Windows separators, for a bare file name. */
  function JoinPath(dir: string, name: string): (r: string)
    ensures EndsWith(r, name) && StartsWith(r, dir)
    ensures dir != [] && dir[|dir| - 1] != '\\' && dir[|dir| - 1] != '/' ==> r == dir + [Sep] + name
    ensures dir == [] || dir[|dir| - 1] == '\\' || dir[|dir| - 1] == '/' ==> r == dir + name
  {
    if dir == [] || dir[|dir| - 1] == '\\' || dir[|dir| - 1] == '/' then dir + name
    else dir + [Sep] + name
  }

  /** True when `pat` occurs in `s` at position `k`. */
  predicate OccursAt(s: string, pat: string, k: nat) {
    k + |pat| <= |s| && s[k..k + |pat|] == pat
  }

  /** Python's `s.replace(pat, '')`: every occurrence of `pat`, taken from left to right
      without overlap, removed. */
  function RemoveAll(s: string, pat: string): (r: string)
    requires pat != []
    ensures |r| <= |s|
    decreases |s|
  {
    if |s| < |pat| then s
    else if s[..|pat|] == pat then RemoveAll(s[|pat|..], pat)
    else [s[0]] + RemoveAll(s[1..], pat)
  }

  /** Text that does not contain `pat` comes back unchanged. */
  lemma {:induction false} RemoveAllAbsent(s: string, pat: string)
    requires pat != []
    requires forall k: nat :: !OccursAt(s, pat, k)
    ensures RemoveAll(s, pat) == s
    decreases |s|
  {
    if |s| >= |pat| {
      assert !OccursAt(s, pat, 0);
      forall k: nat ensures !OccursAt(s[1..], pat, k) {
        assert !OccursAt(s, pat, k + 1);
        if k + |pat| <= |s| - 1 {
          assert s[1..][k..k + |pat|] == s[k + 1..k + 1 + |pat|];
        }
      }
      RemoveAllAbsent(s[1..], pat);
      assert s == [s[0]] + s[1..];
    }
  }

  /** The path of a file below the scan folder, made relative: the folder and its separator
      are removed, and so is nothing else when the rest does not repeat them. */
  lemma RelativePath(scanDir: string, rel: string)
    requires forall k: nat :: !OccursAt(rel, scanDir + [Sep], k)
    ensures RemoveAll(scanDir + [Sep] + rel, scanDir + [Sep]) == rel
  {
    var pat := scanDir + [Sep];
    var s := pat + rel;
    assert s[..|pat|] == pat && s[|pat|..] == rel;
    RemoveAllAbsent(rel, pat);
  }

  /** `rel.split('\\', 1)[0]`: the text before the first separator, or all of it. */
  function FirstComponent(rel: string): (r: string)
    ensures Sep !in r && StartsWith(rel, r)
    ensures |r| == |rel| || rel[|r|] == Sep
    decreases |rel|
  {
    if rel == [] || rel[0] == Sep then []
    else
      var t := FirstComponent(rel[1..]);
      assert rel[1..][..|t|] == rel[1..|t| + 1];
      [rel[0]] + t
  }

  /** `rel.rsplit('\\', 1)[1]`: the text after the last separator, missing (an IndexError)
      when there is none. */
  function LastComponent(rel: string): (r: Option<string>)
    ensures r.None? <==> Sep !in rel
    ensures r.Some? ==> (Sep !in r.value && |r.value| < |rel|
      && EndsWith(rel, r.value) && rel[|rel| - |r.value| - 1] == Sep)
    decreases |rel|
  {
    if rel == [] then None
    else if rel[|rel| - 1] == Sep then Some([])
    else
      var front := rel[..|rel| - 1];
      assert rel == front + [rel[|rel| - 1]];
      match LastComponent(front)
      case None => None
      case Some(t) =>
        assert rel[|rel| - |t| - 1..] == front[|front| - |t|..] + [rel[|rel| - 1]];
        Some(t + [rel[|rel| - 1]])
  }

  /** The module's name: the file name without "FNIS_" in front and "_List.txt" behind. */
  function ModuleName(rel: string): (r: Option<string>) {
    match LastComponent(rel)
    case None => None
    case Some(file) => Some(PySlice(file, 5, -9))
  }

  /** For a file FNIS_<m>_List.txt the module is `m`. */
  lemma ModuleNameOfListFile(folders: string, m: string)
    requires Sep !in m
    ensures ModuleName(folders + [Sep] + "FNIS_" + m + "_List.txt") == Some(m)
  {
    var file := "FNIS_" + m + "_List.txt";
    assert folders + [Sep] + "FNIS_" + m + "_List.txt" == folders + [Sep] + file;
    assert Sep !in file by {
      assert Sep !in "FNIS_" && Sep !in "_List.txt";
    }
    LastComponentOf(folders, file);
    assert file[5..|file| - 9] == m;
  }

  lemma {:induction false} LastComponentOf(front: string, file: string)
    requires Sep !in file
    ensures LastComponent(front + [Sep] + file) == Some(file)
    decreases |file|
  {
    var rel := front + [Sep] + file;
    if file != [] {
      var init := file[..|file| - 1];
      assert rel[..|rel| - 1] == front + [Sep] + init;
      assert file == init + [file[|file| - 1]];
      LastComponentOf(front, init);
    }
  }

  // ---------------------------------------------------------------------------
  // Reading one file.

  /** A line that starts a new animation: BASIC, ANIM_OBJ or SEQUENCE. */
  predicate Opens(p: ParsedLine) {
    p.kind.Basic? || p.kind.AnimObj? || p.kind.Sequence?
  }

  /** A line that creates a stage: one that opens an animation, or an ADDITIVE one. */
  predicate MakesStage(p: ParsedLine) {
    Opens(p) || p.kind.Additive?
  }

  /** The lines loop of one file, on the module's animations so far and the stage counter.
      The current animation `anim` is always the last one added to the module, and it is
      missing exactly when the module has none yet, so it is the module's last entry. */
  function ReadLines(lines: seq<string>, items: seq<Animation>, counter: nat, path: string)
    : (r: Result<(seq<Animation>, nat), ScanError>)
    decreases |lines|
  {
    if lines == [] then Ok((items, counter))
    else
      var p := ParseLine(lines[0]);
      if Opens(p) then
        ReadLines(lines[1..], items + [NewAnimation(p.kind, p.options, p.id, p.file, p.obj)], counter + 1, path)
      else if p.kind.Additive? then
        if items == [] then Failure(StageWithoutAnimation(path))
        else
          var last := items[|items| - 1];
          ReadLines(lines[1..], items[|items| - 1 := AddStage(last, p.id, p.file, p.obj)], counter + 1, path)
      else ReadLines(lines[1..], items, counter, path)
  }

  /** The number of lines that create a stage. */
  function StageLines(lines: seq<string>): nat
    decreases |lines|
  {
    if lines == [] then 0
    else (if MakesStage(ParseLine(lines[0])) then 1 else 0) + StageLines(lines[1..])
  }

  /** The number of lines that open an animation. */
  function OpenLines(lines: seq<string>): nat
    decreases |lines|
  {
    if lines == [] then 0
    else (if Opens(ParseLine(lines[0])) then 1 else 0) + OpenLines(lines[1..])
  }

  /** The number of stages of some animations. */
  function StageCount(items: seq<Animation>): nat
    decreases |items|
  {
    if items == [] then 0 else |items[0].stages| + StageCount(items[1..])
  }

  predicate AllValid(items: seq<Animation>) {
    forall k :: 0 <= k < |items| ==> Valid(items[k])
  }

  lemma {:induction false} StageCountAppend(a: seq<Animation>, b: seq<Animation>)
    ensures StageCount(a + b) == StageCount(a) + StageCount(b)
    decreases |a|
  {
    if a == [] {
      assert a + b == b;
    } else {
      assert (a + b)[1..] == a[1..] + b;
      StageCountAppend(a[1..], b);
    }
  }

  lemma StageCountLast(items: seq<Animation>, y: Animation)
    requires items != []
    ensures StageCount(items[|items| - 1 := y])
         == StageCount(items) - |items[|items| - 1].stages| + |y.stages|
  {
    var front := items[..|items| - 1];
    assert items == front + [items[|items| - 1]];
    assert items[|items| - 1 := y] == front + [y];
    StageCountAppend(front, [items[|items| - 1]]);
    StageCountAppend(front, [y]);
  }

  /** The counter rises by one per stage line, and that is also the number of stages the
      file's animations gain; each opening line adds one animation, and what is read are
      well-formed animations. */
  lemma {:induction false} ReadLinesCounts(lines: seq<string>, items: seq<Animation>, counter: nat, path: string)
    requires AllValid(items)
    ensures var r := ReadLines(lines, items, counter, path);
      r.Ok? ==> (r.value.1 == counter + StageLines(lines)
        && StageCount(r.value.0) == StageCount(items) + StageLines(lines)
        && AllValid(r.value.0) && |r.value.0| == |items| + OpenLines(lines))
    decreases |lines|
  {
    if lines != [] {
      var p := ParseLine(lines[0]);
      if Opens(p) {
        var a := NewAnimation(p.kind, p.options, p.id, p.file, p.obj);
        StageCountAppend(items, [a]);
        assert StageCount([a]) == 1;
        ReadLinesCounts(lines[1..], items + [a], counter + 1, path);
      } else if p.kind.Additive? {
        if items != [] {
          var last := items[|items| - 1];
          var y := AddStage(last, p.id, p.file, p.obj);
          StageCountLast(items, y);
          ReadLinesCounts(lines[1..], items[|items| - 1 := y], counter + 1, path);
        }
      } else {
        ReadLinesCounts(lines[1..], items, counter, path);
      }
    }
  }

  /** An additive line that comes before every line opening an animation stops the scan. */
  lemma {:induction false} AdditiveFirstFails(lines: seq<string>, counter: nat, path: string, k: nat)
    requires k < |lines| && ParseLine(lines[k]).kind.Additive?
    requires forall j :: 0 <= j < k ==> !Opens(ParseLine(lines[j]))
    ensures ReadLines(lines, [], counter, path) == Failure(StageWithoutAnimation(path))
    decreases k, 1
  {
    var p := ParseLine(lines[0]);
    if k == 0 {
      assert !Opens(p);
    } else if !p.kind.Additive? {
      SkipToAdditive(lines, counter, path, k);
    }
  }

  lemma {:induction false} SkipToAdditive(lines: seq<string>, counter: nat, path: string, k: nat)
    requires 0 < k < |lines| && ParseLine(lines[k]).kind.Additive?
    requires forall j :: 0 <= j < k ==> !Opens(ParseLine(lines[j]))
    requires !ParseLine(lines[0]).kind.Additive?
    ensures ReadLines(lines, [], counter, path) == Failure(StageWithoutAnimation(path))
    decreases k, 0
  {
    assert !Opens(ParseLine(lines[0]));
    assert ReadLines(lines, [], counter, path) == ReadLines(lines[1..], [], counter, path);
    forall j | 0 <= j < k - 1 ensures !Opens(ParseLine(lines[1..][j])) {
      assert lines[1..][j] == lines[j + 1];
    }
    assert lines[1..][k - 1] == lines[k];
    AdditiveFirstFails(lines[1..], counter, path, k - 1);
  }

  // ---------------------------------------------------------------------------
  // Grouping files into modules and packages.

  /** The sort keys: an animation's and a module's name. */
  function AnimName(a: Animation): string { a.name }

  function ModuleKey(m: AnimModule): string { m.name }

  /** The package `animPackage` being filled: none yet, or one not yet in the list of packages,
      or the one at the end of that list (the same object, so changes to one are changes to the
      other). */
  datatype Current = NotStarted | Unlisted(p: Package) | Listed(p: Package)

  /** The scan's variables: the packages listed before the current one, `previousPackage`,
      `animPackage` and `counter`. */
  datatype ScanState = ScanState(done: seq<Package>, previous: string, current: Current, counter: nat)

  const Start: ScanState := ScanState([], "", NotStarted, 0)

  /** The list `packages`. */
  function Packages(st: ScanState): (ps: seq<Package>)
    ensures |ps| == |st.done| + (if st.current.Listed? then 1 else 0)
  {
    if st.current.Listed? then st.done + [st.current.p] else st.done
  }

  function SortModules(p: Package): (r: Package)
    ensures r.name == p.name && SortedBy(r.items, ModuleKey)
    ensures multiset(r.items) == multiset(p.items)
  {
    SortByIsSortedPermutation(p.items, ModuleKey);
    p.(items := SortBy(p.items, ModuleKey))
  }

  /** A file of another package than the previous one: the current package, if any, has its
      modules sorted, and a new, empty, unlisted package is started. */
  function Switch(st: ScanState, pkg: string): (r: ScanState)
    ensures r.current == Unlisted(NamedContainer(pkg, [])) && r.previous == st.previous
    ensures r.counter == st.counter
    ensures Packages(r) == st.done + (if st.current.Listed? then [SortModules(st.current.p)] else [])
  {
    var done := if st.current.Listed? then st.done + [SortModules(st.current.p)] else st.done;
    st.(done := done, current := Unlisted(NamedContainer(pkg, [])))
  }

  /** One list file: its package and module from its path, its lines read, its animations
      sorted by name, and the module attached to the current package when it is not empty; a
      package is listed when its first module is attached. */
  function ScanFile(st: ScanState, scanDir: string, f: FileEntry): (r: Result<ScanState, ScanError>)
  {
    var path := JoinPath(f.dir, f.name);
    var rel := RemoveAll(path, scanDir + [Sep]);
    var pkg := FirstComponent(rel);
    match ModuleName(rel)
    case None => Failure(NoFolder(path))
    case Some(name) =>
      var changed := pkg != st.previous;
      var st1 := if changed then Switch(st, pkg) else st;
      match ReadLines(f.lines, [], st1.counter, path)
      case Failure(e) => Failure(e)
      case Ok(read) =>
        Attach(st1.(counter := read.1), pkg, changed, NamedContainer(name, SortBy(read.0, AnimName)), path)
  }

  /** The end of a file: a module that is not empty goes into the current package, which is
      listed when its package differs from the previous one. */
  function Attach(st: ScanState, pkg: string, changed: bool, m: AnimModule, path: string)
    : (r: Result<ScanState, ScanError>)
  {
    if m.items == [] then Ok(st)
    else
      match st.current
      case NotStarted => Failure(NoPackage(path))
      case Unlisted(p) =>
        if changed then Ok(st.(previous := pkg, current := Listed(AddItem(p, m))))
        else Ok(st.(current := Unlisted(AddItem(p, m))))
      case Listed(p) => Ok(st.(current := Listed(AddItem(p, m))))
  }

  /** The walk: the list files in turn, the others skipped; the first exception ends it. */
  function ScanFiles(files: seq<FileEntry>, scanDir: string, st: ScanState): (r: Result<ScanState, ScanError>)
    decreases |files|
  {
    if files == [] then Ok(st)
    else if !IsListFile(files[0].name) then ScanFiles(files[1..], scanDir, st)
    else
      match ScanFile(st, scanDir, files[0])
      case Failure(e) => Failure(e)
      case Ok(st') => ScanFiles(files[1..], scanDir, st')
  }

  /** What scanFolder hands on: the packages and the stage counter; a cancelled folder choice
      (an empty path) gives no packages. */
  function Scan(scanDir: string, files: seq<FileEntry>): (r: Result<(seq<Package>, nat), ScanError>)
  {
    if scanDir == [] then Ok(([], 0))
    else
      match ScanFiles(files, scanDir, Start)
      case Failure(e) => Failure(e)
      case Ok(st) => Ok((Packages(st), st.counter))
  }

  // ---------------------------------------------------------------------------
  // What the scan produces.

  /** The list files among the files walked, in order. */
  function ListFiles(files: seq<FileEntry>): (r: seq<FileEntry>)
    ensures forall k :: 0 <= k < |r| ==> IsListFile(r[k].name)
    decreases |files|
  {
    if files == [] then []
    else (if IsListFile(files[0].name) then [files[0]] else []) + ListFiles(files[1..])
  }

  /** Files not named FNIS...List.txt play no part: the scan is the scan of the list files. */
  lemma {:induction false} ScanOnlyListFiles(files: seq<FileEntry>, scanDir: string, st: ScanState)
    ensures ScanFiles(files, scanDir, st) == ScanFiles(ListFiles(files), scanDir, st)
    decreases |files|
  {
    if files != [] {
      var rest := ListFiles(files[1..]);
      if IsListFile(files[0].name) {
        var g := ListFiles(files);
        assert g == [files[0]] + rest;
        assert g[0] == files[0] && g[1..] == rest;
        match ScanFile(st, scanDir, files[0])
        case Failure(e) =>
        case Ok(st') => ScanOnlyListFiles(files[1..], scanDir, st');
      } else {
        assert ListFiles(files) == rest;
        ScanOnlyListFiles(files[1..], scanDir, st);
      }
    }
  }

  /** The stage lines of all the list files. */
  function ScanStageLines(files: seq<FileEntry>): nat
    decreases |files|
  {
    if files == [] then 0
    else (if IsListFile(files[0].name) then StageLines(files[0].lines) else 0) + ScanStageLines(files[1..])
  }

  /** A module as the scan attaches it: not empty, its animations sorted by name, each well
      formed. */
  predicate ModuleGood(m: AnimModule) {
    |m.items| >= 1 && SortedBy(m.items, AnimName) && AllValid(m.items)
  }

  predicate PackageGood(p: Package) {
    |p.items| >= 1 && forall j :: 0 <= j < |p.items| ==> ModuleGood(p.items[j])
  }

  /** What holds of the scan's variables between files: the packages listed before the current
      one have their modules sorted by name; every listed package has a module; all modules
      are as attached. */
  predicate ScanInv(st: ScanState) {
    (forall i :: 0 <= i < |st.done| ==> PackageGood(st.done[i]) && SortedBy(st.done[i].items, ModuleKey))
    && (!st.current.NotStarted? ==> forall j :: 0 <= j < |st.current.p.items| ==> ModuleGood(st.current.p.items[j]))
    && (st.current.Listed? ==> |st.current.p.items| >= 1)
  }

  lemma SortedModuleGood(name: string, items: seq<Animation>)
    requires AllValid(items) && items != []
    ensures ModuleGood(NamedContainer(name, SortBy(items, AnimName)))
  {
    var s := SortBy(items, AnimName);
    SortByIsSortedPermutation(items, AnimName);
    SortByLength(items, AnimName);
    forall k | 0 <= k < |s| ensures Valid(s[k]) {
      assert s[k] in multiset(items);
    }
  }

  lemma SwitchInv(st: ScanState, pkg: string)
    requires ScanInv(st)
    ensures ScanInv(Switch(st, pkg))
  {
    if st.current.Listed? {
      var p := st.current.p;
      var q := SortModules(p);
      forall j | 0 <= j < |q.items| ensures ModuleGood(q.items[j]) {
        assert q.items[j] in multiset(p.items);
      }
      assert |multiset(q.items)| == |multiset(p.items)|;
    }
  }

  lemma AttachInv(st: ScanState, pkg: string, changed: bool, m: AnimModule, path: string)
    requires ScanInv(st) && (m.items != [] ==> ModuleGood(m))
    ensures var r := Attach(st, pkg, changed, m, path);
      r.Ok? ==> ScanInv(r.value) && r.value.counter == st.counter
  {
    if m.items != [] && !st.current.NotStarted? {
      var q := AddItem(st.current.p, m);
      assert forall j :: 0 <= j < |q.items| - 1 ==> q.items[j] == st.current.p.items[j];
    }
  }

  lemma ScanFileFacts(st: ScanState, scanDir: string, f: FileEntry)
    requires ScanInv(st)
    ensures var r := ScanFile(st, scanDir, f);
      r.Ok? ==> ScanInv(r.value) && r.value.counter == st.counter + StageLines(f.lines)
  {
    var path := JoinPath(f.dir, f.name);
    var rel := RemoveAll(path, scanDir + [Sep]);
    var pkg := FirstComponent(rel);
    var changed := pkg != st.previous;
    var st1 := if changed then Switch(st, pkg) else st;
    if changed { SwitchInv(st, pkg); }
    ReadLinesCounts(f.lines, [], st1.counter, path);
    var read := ReadLines(f.lines, [], st1.counter, path);
    if ModuleName(rel).Some? && read.Ok? {
      var m := NamedContainer(ModuleName(rel).value, SortBy(read.value.0, AnimName));
      if read.value.0 != [] {
        SortedModuleGood(m.name, read.value.0);
      } else {
        assert m.items == [];
      }
      AttachInv(st1.(counter := read.value.1), pkg, changed, m, path);
      assert ScanFile(st, scanDir, f) == Attach(st1.(counter := read.value.1), pkg, changed, m, path);
    }
  }

  lemma {:induction false} ScanFilesFacts(files: seq<FileEntry>, scanDir: string, st: ScanState)
    requires ScanInv(st)
    ensures var r := ScanFiles(files, scanDir, st);
      r.Ok? ==> ScanInv(r.value) && r.value.counter == st.counter + ScanStageLines(files)
    decreases |files|
  {
    if files != [] {
      if IsListFile(files[0].name) {
        ScanFileFacts(st, scanDir, files[0]);
        match ScanFile(st, scanDir, files[0])
        case Failure(e) =>
        case Ok(st') => ScanFilesFacts(files[1..], scanDir, st');
      } else {
        ScanFilesFacts(files[1..], scanDir, st);
      }
    }
  }

  /** What scanFolder hands on: the counter is the number of stage lines of the list files;
      every package has a module and every module an animation; each module's animations are
      sorted by name; each package but the last has its modules sorted by name (the last one
      keeps file order), and every animation is well formed. */
  lemma ScanFacts(scanDir: string, files: seq<FileEntry>)
    ensures var r := Scan(scanDir, files);
      r.Ok? ==> (var ps := r.value.0;
        (scanDir != [] ==> r.value.1 == ScanStageLines(files))
        && (forall i :: 0 <= i < |ps| ==> PackageGood(ps[i]))
        && (forall i :: 0 <= i < |ps| - 1 ==> SortedBy(ps[i].items, ModuleKey))
        && PackagesOk(ps))
  {
    if scanDir != [] {
      ScanFilesFacts(files, scanDir, Start);
      var r := ScanFiles(files, scanDir, Start);
      if r.Ok? {
        var st := r.value;
        var ps := Packages(st);
        assert forall i :: 0 <= i < |st.done| ==> ps[i] == st.done[i];
        forall i | 0 <= i < |ps| ensures PackageOk(ps[i]) {
          assert PackageGood(ps[i]);
          forall j, k | 0 <= j < |ps[i].items| && 0 <= k < |ps[i].items[j].items|
            ensures StagesOk(ps[i].items[j].items[k])
          {
            assert ModuleGood(ps[i].items[j]);
          }
        }
      }
    }
  }

  // ---------------------------------------------------------------------------
  // The loops of scanFolder and the window.

  /** The lines loop of one file. `anim` is the animation additive lines extend; it is the
      module's last entry, so extending it extends that entry. */
  method ReadFile(lines: seq<string>, counter: nat, path: string) returns (r: Result<(seq<Animation>, nat), ScanError>)
    ensures r == ReadLines(lines, [], counter, path)
  {
    var items: seq<Animation> := [];
    var anim: Option<Animation> := None;
    var c := counter;
    for i := 0 to |lines|
      invariant anim == LastOf(items)
      invariant ReadLines(lines[i..], items, c, path) == ReadLines(lines, [], counter, path)
    {
      var p := ParseLine(lines[i]);
      ReadLinesUnfold(lines, i, items, c, path);
      if Opens(p) {
        var a := NewAnimation(p.kind, p.options, p.id, p.file, p.obj);
        items := items + [a];
        anim := Some(a);
        c := c + 1;
      } else if p.kind.Additive? {
        if anim.None? {
          return Failure(StageWithoutAnimation(path));
        }
        var y := AddStage(anim.value, p.id, p.file, p.obj);
        anim := Some(y);
        items := items[|items| - 1 := y];
        c := c + 1;
      }
    }
    assert lines[|lines|..] == [];
    r := Ok((items, c));
  }

  /** The last animation added, if any. */
  function LastOf(items: seq<Animation>): Option<Animation> {
    if items == [] then None else Some(items[|items| - 1])
  }

  lemma ReadLinesUnfold(lines: seq<string>, i: nat, items: seq<Animation>, c: nat, path: string)
    requires i < |lines|
    ensures var p := ParseLine(lines[i]);
      ReadLines(lines[i..], items, c, path)
      == if Opens(p) then ReadLines(lines[i + 1..], items + [NewAnimation(p.kind, p.options, p.id, p.file, p.obj)], c + 1, path)
         else if !p.kind.Additive? then ReadLines(lines[i + 1..], items, c, path)
         else if items == [] then Failure(StageWithoutAnimation(path))
         else ReadLines(lines[i + 1..], items[|items| - 1 := AddStage(items[|items| - 1], p.id, p.file, p.obj)], c + 1, path)
  {
    assert lines[i..][0] == lines[i] && lines[i..][1..] == lines[i + 1..];
  }

  /** The walk loop of scanFolder, which assembles the packages and counts the stages. */
  method AssemblePackages(scanDir: string, files: seq<FileEntry>) returns (r: Result<(seq<Package>, nat), ScanError>)
    ensures r == Scan(scanDir, files)
  {
    if scanDir == [] {
      return Ok(([], 0));
    }
    var done: seq<Package> := [];
    var previous := "";
    var current: Current := NotStarted;
    var counter: nat := 0;
    for i := 0 to |files|
      invariant ScanFiles(files[i..], scanDir, ScanState(done, previous, current, counter))
             == ScanFiles(files, scanDir, Start)
    {
      var f := files[i];
      assert files[i..][0] == f && files[i..][1..] == files[i + 1..];
      if IsListFile(f.name) {
        var path := JoinPath(f.dir, f.name);
        var rel := RemoveAll(path, scanDir + [Sep]);
        var pkg := FirstComponent(rel);
        var name := ModuleName(rel);
        if name.None? {
          return Failure(NoFolder(path));
        }
        var changed := pkg != previous;
        if changed {
          if !current.NotStarted? {
            var sorted := SortModules(current.p);
            if current.Listed? {
              done := done + [sorted];
            }
          }
          current := Unlisted(NamedContainer(pkg, []));
        }
        var read := ReadFile(f.lines, counter, path);
        if read.Failure? {
          return Failure(read.error);
        }
        counter := read.value.1;
        var m := NamedContainer(name.value, SortBy(read.value.0, AnimName));
        if m.items != [] {
          if current.NotStarted? {
            return Failure(NoPackage(path));
          }
          var p := AddItem(current.p, m);
          if current.Unlisted? && changed {
            previous := pkg;
            current := Listed(p);
          } else if current.Unlisted? {
            current := Unlisted(p);
          } else {
            current := Listed(p);
          }
        }
      }
    }
    assert files[|files|..] == [];
    r := Ok((Packages(ScanState(done, previous, current, counter)), counter));
  }

  /** The main window, as far as the scan goes: its tree and the number it shows as
      "Animations found". */
  class OSelectorWindow {
    const tree: AnimTreeWidget
    var animsFound: nat

    constructor()
      ensures fresh(tree) && tree.top == [] && animsFound == 0
    {
      tree := new AnimTreeWidget();
      animsFound := 0;
    }

    /** createTreeByMod(packages): the tree becomes the top level of the build of the
        packages, every stage inserted. */
    method CreateTreeByMod(ps: seq<Package>)
      requires PackagesOk(ps)
      modifies tree
      ensures tree.top == Build(ps, false).0.children
    {
      var root, pr := BuildTree(ps, false);
      tree.Adopt(root);
    }

    /** scanFolder: the packages are assembled, the tree built from them and cleaned up, and
        the stage counter shown; an exception leaves tree and counter as they were. */
    method ScanFolder(scanDir: string, files: seq<FileEntry>) returns (error: Option<ScanError>)
      modifies this, tree
      ensures match Scan(scanDir, files)
        case Failure(e) =>
          error == Some(e) && tree.top == old(tree.top) && animsFound == old(animsFound)
        case Ok(res) =>
          error == None && animsFound == res.1 && PackagesOk(res.0)
          && tree.top == CleanupTop(Build(res.0, false).0.children)
    {
      var r := AssemblePackages(scanDir, files);
      if r.Failure? {
        return Some(r.error);
      }
      ScanFacts(scanDir, files);
      var ps := r.value.0;
      CreateTreeByMod(ps);
      tree.Cleanup();
      animsFound := r.value.1;
      error := None;
    }
  }
}
