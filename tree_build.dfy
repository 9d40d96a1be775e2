/** Building the tree from packages, shared by createFromPackages (widget/AnimTreeWidget.py),
    which skips stage IDs already inserted and counts them, and createTreeByMod
    (OSelectorTool.py), which inserts every stage. Under a root, one node per package, under
    it one per module, under it one group per run of animations with the same name, and
    under the group one leaf per stage; every insertion goes through add_nested_child.

    The source inserts each node first and fills it afterwards. add_nested_child decides
    where a child goes from the parent's own children and counters alone and never looks
    inside the child, so inserting the finished node gives the same tree; the functions
    below build each node completely and then insert it. */
module TreeBuilds {
  import opened Base
  import opened Animations
  import opened NamedContainers
  import opened AnimTreeItems

  /** What the build threads along: the stage IDs inserted so far, in order (the
      `animations` list of createFromPackages), and the stage IDs skipped as duplicates. */
  datatype Progress = Progress(inserted: seq<string>, dups: nat)

  /** Each stage has a file and an object: set_animation reads all three lists at `i`. */
  predicate StagesOk(a: Animation) {
    |a.stages| <= |a.stagesFile| && |a.stages| <= |a.stagesObj|
  }

  predicate ModuleOk(m: AnimModule) {
    forall k :: 0 <= k < |m.items| ==> StagesOk(m.items[k])
  }

  predicate PackageOk(p: Package) {
    forall j :: 0 <= j < |p.items| ==> ModuleOk(p.items[j])
  }

  predicate PackagesOk(ps: seq<Package>) {
    forall i :: 0 <= i < |ps| ==> PackageOk(ps[i])
  }

  /** The leaf for stage `i`: a fresh item showing that stage. */
  function StageLeaf(a: Animation, i: nat): Item
    requires i < |a.stages| && StagesOk(a)
  {
    SetAnimation(Blank(), a, i)
  }

  /** The stage loop from stage `i` on, adding leaves to `group`; with `dedupe`, a stage whose
      ID was inserted before is skipped and counted instead. */
  function AddStages(a: Animation, i: nat, group: Item, pr: Progress, dedupe: bool): (Item, Progress)
    requires i <= |a.stages| && StagesOk(a)
    decreases |a.stages| - i
  {
    if i == |a.stages| then (group, pr)
    else if dedupe && a.stages[i] in pr.inserted then
      AddStages(a, i + 1, group, pr.(dups := pr.dups + 1), dedupe)
    else
      AddStages(a, i + 1, AddNested(group, StageLeaf(a, i)),
                pr.(inserted := pr.inserted + [a.stages[i]]), dedupe)
  }

  /** Puts the finished group, if any, into the module node. */
  function Close(section: Item, group: Option<Item>): Item {
    if group.Some? then AddNested(section, group.value) else section
  }

  /** The animation loop of one module from animation `k` on: a new group, named after the
      animation, is opened when the name differs from the previous one or no group is open
      yet; the animation's stages go into the open group. */
  function AddAnimations(anims: seq<Animation>, k: nat, section: Item, group: Option<Item>,
                         previous: string, pr: Progress, dedupe: bool): (Item, Progress)
    requires k <= |anims| && forall j :: 0 <= j < |anims| ==> StagesOk(anims[j])
    decreases |anims| - k
  {
    if k == |anims| then (Close(section, group), pr)
    else
      var a := anims[k];
      var opens := a.name != previous || group.None?;
      var section' := if opens then Close(section, group) else section;
      var g := if opens then Labelled(a.name) else group.value;
      var st := AddStages(a, 0, g, pr, dedupe);
      AddAnimations(anims, k + 1, section', Some(st.0), a.name, st.1, dedupe)
  }

  /** The node of module `m`, filled. */
  function ModuleNode(m: AnimModule, pr: Progress, dedupe: bool): (Item, Progress)
    requires ModuleOk(m)
  {
    AddAnimations(m.items, 0, Labelled(m.name), None, "", pr, dedupe)
  }

  /** The module loop of one package from module `j` on. */
  function AddModules(ms: seq<AnimModule>, j: nat, section: Item, pr: Progress, dedupe: bool): (Item, Progress)
    requires j <= |ms| && forall k :: 0 <= k < |ms| ==> ModuleOk(ms[k])
    decreases |ms| - j
  {
    if j == |ms| then (section, pr)
    else
      var r := ModuleNode(ms[j], pr, dedupe);
      AddModules(ms, j + 1, AddNested(section, r.0), r.1, dedupe)
  }

  /** The node of package `p`, filled. */
  function PackageNode(p: Package, pr: Progress, dedupe: bool): (Item, Progress)
    requires PackageOk(p)
  {
    AddModules(p.items, 0, Labelled(p.name), pr, dedupe)
  }

  /** The package loop from package `i` on, adding to the temporary root. */
  function AddPackages(ps: seq<Package>, i: nat, root: Item, pr: Progress, dedupe: bool): (Item, Progress)
    requires i <= |ps| && PackagesOk(ps)
    decreases |ps| - i
  {
    if i == |ps| then (root, pr)
    else
      var r := PackageNode(ps[i], pr, dedupe);
      AddPackages(ps, i + 1, AddNested(root, r.0), r.1, dedupe)
  }

  /** The whole build: the temporary root, filled, and what was inserted and skipped. */
  function Build(ps: seq<Package>, dedupe: bool): (Item, Progress)
    requires PackagesOk(ps)
  {
    AddPackages(ps, 0, Blank(), Progress([], 0), dedupe)
  }

  // ---------------------------------------------------------------------------
  // Which stage IDs are inserted.

  /** The stage IDs of the animations, packages and modules, in build order. */
  function AnimStages(anims: seq<Animation>): seq<string>
    decreases |anims|
  {
    if anims == [] then [] else anims[0].stages + AnimStages(anims[1..])
  }

  function ModuleStages(ms: seq<AnimModule>): seq<string>
    decreases |ms|
  {
    if ms == [] then [] else AnimStages(ms[0].items) + ModuleStages(ms[1..])
  }

  function PackageStages(ps: seq<Package>): seq<string>
    decreases |ps|
  {
    if ps == [] then [] else ModuleStages(ps[0].items) + PackageStages(ps[1..])
  }

  /** The stage IDs of `s` that the build inserts after `seen` was inserted: all of them
      without `dedupe`; with it, those not inserted before. */
  function Inserting(seen: seq<string>, s: seq<string>, dedupe: bool): (d: seq<string>)
    ensures |d| <= |s|
    decreases |s|
  {
    if s == [] then []
    else if dedupe && s[0] in seen then Inserting(seen, s[1..], dedupe)
    else [s[0]] + Inserting(seen + [s[0]], s[1..], dedupe)
  }

  /** The non-empty IDs of a list: the animations its leaves count as. */
  function NonEmpty(s: seq<string>): multiset<string>
    decreases |s|
  {
    if s == [] then multiset{} else (if s[0] != "" then multiset{s[0]} else multiset{}) + NonEmpty(s[1..])
  }

  lemma {:induction false} NonEmptyAppend(a: seq<string>, b: seq<string>)
    ensures NonEmpty(a + b) == NonEmpty(a) + NonEmpty(b)
    decreases |a|
  {
    if a == [] {
      assert a + b == b;
    } else {
      assert (a + b)[0] == a[0] && (a + b)[1..] == a[1..] + b;
      NonEmptyAppend(a[1..], b);
    }
  }

  lemma {:induction false} InsertingAppend(seen: seq<string>, s: seq<string>, t: seq<string>, dedupe: bool)
    ensures Inserting(seen, s + t, dedupe)
         == Inserting(seen, s, dedupe) + Inserting(seen + Inserting(seen, s, dedupe), t, dedupe)
    decreases |s|
  {
    if s == [] {
      assert s + t == t && seen + [] == seen;
    } else {
      assert (s + t)[0] == s[0] && (s + t)[1..] == s[1..] + t;
      if dedupe && s[0] in seen {
        InsertingAppend(seen, s[1..], t, dedupe);
      } else {
        InsertingAppend(seen + [s[0]], s[1..], t, dedupe);
        var rest := Inserting(seen + [s[0]], s[1..], dedupe);
        assert seen + [s[0]] + rest == seen + ([s[0]] + rest);
      }
    }
  }

  /** Without the duplicate check every stage is inserted. */
  lemma {:induction false} InsertingAll(seen: seq<string>, s: seq<string>)
    ensures Inserting(seen, s, false) == s
    decreases |s|
  {
    if s != [] {
      InsertingAll(seen + [s[0]], s[1..]);
    }
  }

  /** With the duplicate check nothing is inserted twice or again, and every stage ID is
      either inserted now or was before. */
  lemma {:induction false} InsertingDistinct(seen: seq<string>, s: seq<string>)
    ensures var d := Inserting(seen, s, true);
      && (forall i, j :: 0 <= i < j < |d| ==> d[i] != d[j])
      && (forall i :: 0 <= i < |d| ==> d[i] !in seen && d[i] in s)
      && (forall x :: x in s ==> x in seen || x in d)
    decreases |s|
  {
    if s != [] {
      var d := Inserting(seen, s, true);
      if s[0] in seen {
        InsertingDistinct(seen, s[1..]);
        assert d == Inserting(seen, s[1..], true);
        assert forall x :: x in s[1..] ==> x in s;
        forall x | x in s ensures x in seen || x in d {
          if x != s[0] { assert x in s[1..]; }
        }
      } else {
        var rest := Inserting(seen + [s[0]], s[1..], true);
        InsertingDistinct(seen + [s[0]], s[1..]);
        assert d == [s[0]] + rest;
        var seen' := seen + [s[0]];
        assert forall x :: x in seen ==> x in seen';
        assert s[0] in seen';
        assert forall x :: x in s[1..] ==> x in s;
        forall i, j | 0 <= i < j < |d| ensures d[i] != d[j] {
          assert d[j] == rest[j - 1] && rest[j - 1] !in seen';
          if i > 0 { assert d[i] == rest[i - 1]; }
        }
        forall i | 0 <= i < |d| ensures d[i] !in seen && d[i] in s {
          if i > 0 {
            assert d[i] == rest[i - 1];
            assert rest[i - 1] !in seen' && rest[i - 1] in s[1..];
          }
        }
        forall x | x in s ensures x in seen || x in d {
          if x != s[0] {
            assert x in s[1..];
            assert x in rest ==> x in d;
          }
        }
      }
    }
  }

  /** The stages from `k` on that occur in `s` for the first time, in order. */
  function FirstOccurrences(s: seq<string>, k: nat): seq<string>
    requires k <= |s|
    decreases |s| - k
  {
    if k == |s| then []
    else (if s[k] !in s[..k] then [s[k]] else []) + FirstOccurrences(s, k + 1)
  }

  /** The duplicate check looks only at which IDs were inserted, not at their order. */
  lemma {:induction false} InsertingSeen(seen1: seq<string>, seen2: seq<string>, s: seq<string>)
    requires forall x :: x in seen1 <==> x in seen2
    ensures Inserting(seen1, s, true) == Inserting(seen2, s, true)
    decreases |s|
  {
    if s != [] {
      if s[0] !in seen1 {
        InsertingSeen(seen1 + [s[0]], seen2 + [s[0]], s[1..]);
      } else {
        InsertingSeen(seen1, seen2, s[1..]);
      }
    }
  }

  /** The first occurrence wins: from an empty start the duplicate check inserts exactly the
      first occurrence of each stage ID, in build order. */
  lemma {:induction false} InsertingFirstOccurrences(s: seq<string>, k: nat)
    requires k <= |s|
    ensures Inserting(s[..k], s[k..], true) == FirstOccurrences(s, k)
    decreases |s| - k
  {
    if k < |s| {
      InsertingFirstOccurrences(s, k + 1);
      assert s[k..][0] == s[k] && s[k..][1..] == s[k + 1..];
      assert s[..k + 1] == s[..k] + [s[k]];
      if s[k] in s[..k] {
        InsertingSeen(s[..k], s[..k + 1], s[k + 1..]);
      }
    }
  }

  // ---------------------------------------------------------------------------
  // What each loop of the build inserts.

  /** add_nested_child changes only the node's children and counters. */
  lemma AddNestedKeepsColumns(x: Item, item: Item)
    ensures AddNested(x, item).id == x.id && AddNested(x, item).name == x.name
  {
  }

  lemma SeqAssoc(a: seq<string>, b: seq<string>, c: seq<string>)
    ensures a + b + c == a + (b + c)
  {
  }

  /** Two consecutive stretches of the build compose: what the first inserts, skips and adds
      followed by what the second does is what the whole stretch does. */
  lemma Chain(ins: seq<string>, s1: seq<string>, s2: seq<string>, dedupe: bool,
              ins1: seq<string>, ins2: seq<string>, dups0: nat, dups1: nat, dups2: nat,
              base: multiset<string>, mid: multiset<string>, fin: multiset<string>)
    requires ins1 == ins + Inserting(ins, s1, dedupe)
    requires dups1 + |Inserting(ins, s1, dedupe)| == dups0 + |s1|
    requires mid == base + NonEmpty(Inserting(ins, s1, dedupe))
    requires ins2 == ins1 + Inserting(ins1, s2, dedupe)
    requires dups2 + |Inserting(ins1, s2, dedupe)| == dups1 + |s2|
    requires fin == mid + NonEmpty(Inserting(ins1, s2, dedupe))
    ensures ins2 == ins + Inserting(ins, s1 + s2, dedupe)
    ensures dups2 + |Inserting(ins, s1 + s2, dedupe)| == dups0 + |s1 + s2|
    ensures fin == base + NonEmpty(Inserting(ins, s1 + s2, dedupe))
  {
    var d1 := Inserting(ins, s1, dedupe);
    var d2 := Inserting(ins1, s2, dedupe);
    InsertingAppend(ins, s1, s2, dedupe);
    NonEmptyAppend(d1, d2);
    SeqAssoc(ins, d1, d2);
  }

  function GroupIds(group: Option<Item>): multiset<string> {
    if group.Some? then Ids(group.value) else multiset{}
  }

  /** What the stage loop from stage `i` on inserts and counts. */
  predicate StagesFacts(a: Animation, i: nat, g: Item, pr: Progress, dedupe: bool)
    requires i <= |a.stages| && StagesOk(a)
  {
    var r := AddStages(a, i, g, pr, dedupe);
    var d := Inserting(pr.inserted, a.stages[i..], dedupe);
    && r.1.inserted == pr.inserted + d
    && r.1.dups + |d| == pr.dups + (|a.stages| - i)
    && Ids(r.0) == Ids(g) + NonEmpty(d)
    && CountersWf(r.0)
  }

  lemma {:induction false} AddStagesFacts(a: Animation, i: nat, g: Item, pr: Progress, dedupe: bool)
    requires i <= |a.stages| && StagesOk(a) && CountersWf(g)
    ensures StagesFacts(a, i, g, pr, dedupe)
    decreases |a.stages| - i, 1
  {
    if i == |a.stages| {
      assert a.stages[i..] == [];
    } else if dedupe && a.stages[i] in pr.inserted {
      AddStagesSkip(a, i, g, pr, dedupe);
    } else {
      AddStagesInsert(a, i, g, pr, dedupe);
    }
  }

  lemma {:induction false} AddStagesSkip(a: Animation, i: nat, g: Item, pr: Progress, dedupe: bool)
    requires i < |a.stages| && StagesOk(a) && CountersWf(g)
    requires dedupe && a.stages[i] in pr.inserted
    ensures StagesFacts(a, i, g, pr, dedupe)
    decreases |a.stages| - i, 0
  {
    var s := a.stages[i..];
    assert s[0] == a.stages[i] && s[1..] == a.stages[i + 1..];
    var pr' := pr.(dups := pr.dups + 1);
    assert AddStages(a, i, g, pr, dedupe) == AddStages(a, i + 1, g, pr', dedupe);
    assert Inserting(pr.inserted, s, dedupe) == Inserting(pr'.inserted, a.stages[i + 1..], dedupe);
    AddStagesFacts(a, i + 1, g, pr', dedupe);
  }

  lemma {:induction false} AddStagesInsert(a: Animation, i: nat, g: Item, pr: Progress, dedupe: bool)
    requires i < |a.stages| && StagesOk(a) && CountersWf(g)
    requires !(dedupe && a.stages[i] in pr.inserted)
    ensures StagesFacts(a, i, g, pr, dedupe)
    decreases |a.stages| - i, 0
  {
    var s := a.stages[i..];
    assert s[0] == a.stages[i] && s[1..] == a.stages[i + 1..];
    var leaf := StageLeaf(a, i);
    var pr' := pr.(inserted := pr.inserted + [a.stages[i]]);
    var g' := AddNested(g, leaf);
    assert AddStages(a, i, g, pr, dedupe) == AddStages(a, i + 1, g', pr', dedupe);
    AddNestedKeepsIds(g, leaf);
    AddStagesFacts(a, i + 1, g', pr', dedupe);
    var rest := Inserting(pr'.inserted, a.stages[i + 1..], dedupe);
    assert Inserting(pr.inserted, s, dedupe) == [a.stages[i]] + rest;
    NonEmptyAppend([a.stages[i]], rest);
    assert NonEmpty([a.stages[i]]) == Ids(leaf);
    SeqAssoc(pr.inserted, [a.stages[i]], rest);
  }

  lemma AnimStagesCons(anims: seq<Animation>, k: nat)
    requires k < |anims|
    ensures AnimStages(anims[k..]) == anims[k].stages + AnimStages(anims[k + 1..])
  {
    assert anims[k..][0] == anims[k] && anims[k..][1..] == anims[k + 1..];
  }

  /** What the animation loop of a module from animation `k` on inserts and counts. */
  predicate AnimationsFacts(anims: seq<Animation>, k: nat, section: Item, group: Option<Item>,
                            previous: string, pr: Progress, dedupe: bool)
    requires k <= |anims| && forall j :: 0 <= j < |anims| ==> StagesOk(anims[j])
  {
    var r := AddAnimations(anims, k, section, group, previous, pr, dedupe);
    var d := Inserting(pr.inserted, AnimStages(anims[k..]), dedupe);
    && r.1.inserted == pr.inserted + d
    && r.1.dups + |d| == pr.dups + |AnimStages(anims[k..])|
    && Ids(r.0) == Ids(section) + GroupIds(group) + NonEmpty(d)
    && CountersWf(r.0)
  }

  lemma {:induction false} AddAnimationsFacts(anims: seq<Animation>, k: nat, section: Item, group: Option<Item>,
                                             previous: string, pr: Progress, dedupe: bool)
    requires k <= |anims| && forall j :: 0 <= j < |anims| ==> StagesOk(anims[j])
    requires CountersWf(section) && (group.Some? ==> CountersWf(group.value))
    ensures AnimationsFacts(anims, k, section, group, previous, pr, dedupe)
    decreases |anims| - k, 1
  {
    if k == |anims| {
      assert anims[k..] == [];
      if group.Some? { AddNestedKeepsIds(section, group.value); }
    } else {
      AddAnimationsStep(anims, k, section, group, previous, pr, dedupe);
    }
  }

  /** Opening a group closes the previous one into the module node; either way the node and
      the open group together hold the same animations. */
  lemma OpenFacts(section: Item, group: Option<Item>, name: string, opens: bool)
    requires CountersWf(section) && (group.Some? ==> CountersWf(group.value))
    requires !opens ==> group.Some?
    ensures var section' := if opens then Close(section, group) else section;
      var g := if opens then Labelled(name) else group.value;
      && CountersWf(section') && CountersWf(g)
      && Ids(section') + Ids(g) == Ids(section) + GroupIds(group)
  {
    if opens && group.Some? { AddNestedKeepsIds(section, group.value); }
  }

  lemma {:induction false} AddAnimationsStep(anims: seq<Animation>, k: nat, section: Item, group: Option<Item>,
                                            previous: string, pr: Progress, dedupe: bool)
    requires k < |anims| && forall j :: 0 <= j < |anims| ==> StagesOk(anims[j])
    requires CountersWf(section) && (group.Some? ==> CountersWf(group.value))
    ensures AnimationsFacts(anims, k, section, group, previous, pr, dedupe)
    decreases |anims| - k, 0
  {
    var a := anims[k];
    var opens := a.name != previous || group.None?;
    var section' := if opens then Close(section, group) else section;
    var g := if opens then Labelled(a.name) else group.value;
    OpenFacts(section, group, a.name, opens);
    assert a.stages[0..] == a.stages;
    AddStagesFacts(a, 0, g, pr, dedupe);
    var st := AddStages(a, 0, g, pr, dedupe);
    assert StagesFacts(a, 0, g, pr, dedupe);
    assert AddAnimations(anims, k, section, group, previous, pr, dedupe)
        == AddAnimations(anims, k + 1, section', Some(st.0), a.name, st.1, dedupe);
    AddAnimationsFacts(anims, k + 1, section', Some(st.0), a.name, st.1, dedupe);
    assert AnimationsFacts(anims, k + 1, section', Some(st.0), a.name, st.1, dedupe);
    var r := AddAnimations(anims, k + 1, section', Some(st.0), a.name, st.1, dedupe);
    AnimStagesCons(anims, k);
    Chain(pr.inserted, a.stages, AnimStages(anims[k + 1..]), dedupe, st.1.inserted, r.1.inserted,
          pr.dups, st.1.dups, r.1.dups, Ids(section) + GroupIds(group), Ids(section') + Ids(st.0), Ids(r.0));
  }

  lemma ModuleNodeFacts(m: AnimModule, pr: Progress, dedupe: bool)
    requires ModuleOk(m)
    ensures var r := ModuleNode(m, pr, dedupe);
      var d := Inserting(pr.inserted, AnimStages(m.items), dedupe);
      && r.1.inserted == pr.inserted + d
      && r.1.dups + |d| == pr.dups + |AnimStages(m.items)|
      && Ids(r.0) == NonEmpty(d)
      && CountersWf(r.0)
  {
    assert m.items[0..] == m.items;
    AddAnimationsFacts(m.items, 0, Labelled(m.name), None, "", pr, dedupe);
    assert AnimationsFacts(m.items, 0, Labelled(m.name), None, "", pr, dedupe);
    assert Ids(Labelled(m.name)) == multiset{} && GroupIds(None) == multiset{};
  }

  lemma {:induction false} AddModulesFacts(ms: seq<AnimModule>, j: nat, section: Item, pr: Progress, dedupe: bool)
    requires j <= |ms| && forall k :: 0 <= k < |ms| ==> ModuleOk(ms[k])
    requires CountersWf(section)
    ensures var r := AddModules(ms, j, section, pr, dedupe);
      var d := Inserting(pr.inserted, ModuleStages(ms[j..]), dedupe);
      && r.1.inserted == pr.inserted + d
      && r.1.dups + |d| == pr.dups + |ModuleStages(ms[j..])|
      && Ids(r.0) == Ids(section) + NonEmpty(d)
      && CountersWf(r.0)
    decreases |ms| - j
  {
    if j == |ms| {
      assert ms[j..] == [];
    } else {
      var m := ms[j];
      var r := ModuleNode(m, pr, dedupe);
      assert AddModules(ms, j, section, pr, dedupe) == AddModules(ms, j + 1, AddNested(section, r.0), r.1, dedupe);
      ModuleNodeFacts(m, pr, dedupe);
      AddNestedKeepsIds(section, r.0);
      AddModulesFacts(ms, j + 1, AddNested(section, r.0), r.1, dedupe);
      assert ms[j..][0] == m && ms[j..][1..] == ms[j + 1..];
      var d1 := Inserting(pr.inserted, AnimStages(m.items), dedupe);
      var d2 := Inserting(pr.inserted + d1, ModuleStages(ms[j + 1..]), dedupe);
      InsertingAppend(pr.inserted, AnimStages(m.items), ModuleStages(ms[j + 1..]), dedupe);
      NonEmptyAppend(d1, d2);
      SeqAssoc(pr.inserted, d1, d2);
    }
  }

  lemma {:induction false} AddPackagesFacts(ps: seq<Package>, i: nat, root: Item, pr: Progress, dedupe: bool)
    requires i <= |ps| && PackagesOk(ps) && CountersWf(root)
    ensures var r := AddPackages(ps, i, root, pr, dedupe);
      var d := Inserting(pr.inserted, PackageStages(ps[i..]), dedupe);
      && r.1.inserted == pr.inserted + d
      && r.1.dups + |d| == pr.dups + |PackageStages(ps[i..])|
      && Ids(r.0) == Ids(root) + NonEmpty(d)
      && CountersWf(r.0) && r.0.id == root.id
    decreases |ps| - i
  {
    if i == |ps| {
      assert ps[i..] == [];
    } else {
      var p := ps[i];
      var r := PackageNode(p, pr, dedupe);
      assert AddPackages(ps, i, root, pr, dedupe) == AddPackages(ps, i + 1, AddNested(root, r.0), r.1, dedupe);
      assert p.items[0..] == p.items;
      AddModulesFacts(p.items, 0, Labelled(p.name), pr, dedupe);
      AddNestedKeepsIds(root, r.0);
      AddNestedKeepsColumns(root, r.0);
      AddPackagesFacts(ps, i + 1, AddNested(root, r.0), r.1, dedupe);
      assert ps[i..][0] == p && ps[i..][1..] == ps[i + 1..];
      var d1 := Inserting(pr.inserted, ModuleStages(p.items), dedupe);
      var d2 := Inserting(pr.inserted + d1, PackageStages(ps[i + 1..]), dedupe);
      InsertingAppend(pr.inserted, ModuleStages(p.items), PackageStages(ps[i + 1..]), dedupe);
      NonEmptyAppend(d1, d2);
      SeqAssoc(pr.inserted, d1, d2);
    }
  }

  /** The build as a whole: the root's children hold one leaf per inserted stage ID (the
      leaves with an empty ID count as folders); without the duplicate check that is every
      stage; with it, it is the first occurrence of every stage ID — each distinct ID once —
      and the duplicate count is the number of stages skipped. */
  lemma BuildFacts(ps: seq<Package>, dedupe: bool)
    requires PackagesOk(ps)
    ensures var r := Build(ps, dedupe);
      var all := PackageStages(ps);
      && IdsOf(r.0.children) == NonEmpty(r.1.inserted)
      && r.1.dups + |r.1.inserted| == |all|
      && (!dedupe ==> r.1.inserted == all && r.1.dups == 0)
      && (dedupe ==> r.1.inserted == FirstOccurrences(all, 0))
      && (dedupe ==> forall i, j :: 0 <= i < j < |r.1.inserted| ==> r.1.inserted[i] != r.1.inserted[j])
      && (dedupe ==> forall x :: x in all <==> x in r.1.inserted)
      && r.0.id == "" && CountersWf(r.0)
  {
    var all := PackageStages(ps);
    assert ps[0..] == ps;
    BlankWf();
    AddPackagesFacts(ps, 0, Blank(), Progress([], 0), dedupe);
    var r := Build(ps, dedupe);
    assert [] + Inserting([], all, dedupe) == Inserting([], all, dedupe);
    assert Ids(Blank()) == multiset{};
    assert Ids(r.0) == IdsOf(r.0.children);
    if dedupe {
      InsertingDistinct([], all);
      InsertingFirstOccurrences(all, 0);
      assert all[..0] == [] && all[0..] == all;
    } else {
      InsertingAll([], all);
    }
  }

  // ---------------------------------------------------------------------------
  // The loops themselves, one method per level, each proved to compute its fold.

  /** The stage loop: one leaf per stage, inserted with add_nested_child; with `dedupe`, a
      stage whose ID is already in `pr.inserted` is counted as a duplicate instead. */
  method FillStages(a: Animation, group: Item, pr: Progress, dedupe: bool) returns (g: Item, p: Progress)
    requires StagesOk(a)
    ensures (g, p) == AddStages(a, 0, group, pr, dedupe)
  {
    g, p := group, pr;
    for i := 0 to |a.stages|
      invariant AddStages(a, i, g, p, dedupe) == AddStages(a, 0, group, pr, dedupe)
    {
      if dedupe && a.stages[i] in p.inserted {
        p := p.(dups := p.dups + 1);
      } else {
        var leaf := SetAnimation(Blank(), a, i);
        g := AddNestedChild(g, leaf);
        p := p.(inserted := p.inserted + [a.stages[i]]);
      }
    }
  }

  /** The animation loop of one module, opening a group per run of equal names. */
  method FillModule(m: AnimModule, pr: Progress, dedupe: bool) returns (node: Item, p: Progress)
    requires ModuleOk(m)
    ensures (node, p) == ModuleNode(m, pr, dedupe)
  {
    var section := Labelled(m.name);
    var group: Option<Item> := None;
    var previous := "";
    p := pr;
    for k := 0 to |m.items|
      invariant AddAnimations(m.items, k, section, group, previous, p, dedupe) == ModuleNode(m, pr, dedupe)
    {
      var a := m.items[k];
      var g: Item;
      if a.name != previous || group.None? {
        previous := a.name;
        if group.Some? {
          section := AddNestedChild(section, group.value);
        }
        g := Labelled(a.name);
      } else {
        g := group.value;
      }
      g, p := FillStages(a, g, p, dedupe);
      group := Some(g);
    }
    node := section;
    if group.Some? {
      node := AddNestedChild(section, group.value);
    }
  }

  /** The module loop of one package. */
  method FillPackage(pk: Package, pr: Progress, dedupe: bool) returns (node: Item, p: Progress)
    requires PackageOk(pk)
    ensures (node, p) == PackageNode(pk, pr, dedupe)
  {
    node, p := Labelled(pk.name), pr;
    for j := 0 to |pk.items|
      invariant AddModules(pk.items, j, node, p, dedupe) == PackageNode(pk, pr, dedupe)
    {
      var child;
      child, p := FillModule(pk.items[j], p, dedupe);
      node := AddNestedChild(node, child);
    }
  }

  /** The package loop under the temporary root. */
  method BuildTree(ps: seq<Package>, dedupe: bool) returns (root: Item, p: Progress)
    requires PackagesOk(ps)
    ensures (root, p) == Build(ps, dedupe)
  {
    root, p := Blank(), Progress([], 0);
    for i := 0 to |ps|
      invariant AddPackages(ps, i, root, p, dedupe) == Build(ps, dedupe)
    {
      var child;
      child, p := FillPackage(ps[i], p, dedupe);
      root := AddNestedChild(root, child);
    }
  }
}
