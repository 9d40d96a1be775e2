/** The tree view (widget/AnimTreeWidget.py): the list of top-level items under Qt's invisible
    root, and the operations of its context menu — check or uncheck everything, cleanup, move
    up, insert a parent, remove — together with its animation count and its serialisation.
    Items are addressed by their path of child indices from the top level. */
module AnimTreeWidgets {
  import opened Base
  import opened Animations
  import opened NamedContainers
  import opened AnimTreeItems
  import opened TreeBuilds

  // ---------------------------------------------------------------------------
  // Sizes, for termination of cleanup.

  /** The number of nodes of a subtree. */
  function Size(x: Item): nat
    decreases x, 1
  {
    1 + SizeOf(x.children)
  }

  function SizeOf(cs: seq<Item>): nat
    decreases cs, 0
  {
    if cs == [] then 0 else Size(cs[0]) + SizeOf(cs[1..])
  }

  lemma {:induction false} SizeOfAppend(a: seq<Item>, b: seq<Item>)
    ensures SizeOf(a + b) == SizeOf(a) + SizeOf(b)
    decreases |a|
  {
    if a == [] {
      assert a + b == b;
    } else {
      assert (a + b)[0] == a[0] && (a + b)[1..] == a[1..] + b;
      SizeOfAppend(a[1..], b);
    }
  }

  lemma SizeOfSplit(cs: seq<Item>, i: nat)
    requires i < |cs|
    ensures SizeOf(cs) == SizeOf(cs[..i]) + Size(cs[i]) + SizeOf(cs[i + 1..])
  {
    var t := [cs[i]] + cs[i + 1..];
    assert cs == cs[..i] + t;
    SizeOfAppend(cs[..i], t);
    assert t[0] == cs[i] && t[1..] == cs[i + 1..];
  }

  /** Qt's removeChild / takeChild of the child at `i`: the others keep their order. */
  function Remove(cs: seq<Item>, i: nat): (r: seq<Item>)
    requires i < |cs|
    ensures |r| == |cs| - 1
    ensures forall k :: 0 <= k < i ==> r[k] == cs[k]
    ensures forall k :: i <= k < |r| ==> r[k] == cs[k + 1]
  {
    cs[..i] + cs[i + 1..]
  }

  lemma RemoveSize(cs: seq<Item>, i: nat)
    requires i < |cs|
    ensures SizeOf(Remove(cs, i)) + Size(cs[i]) == SizeOf(cs)
  {
    SizeOfSplit(cs, i);
    SizeOfAppend(cs[..i], cs[i + 1..]);
  }

  lemma ReplaceSize(cs: seq<Item>, i: nat, y: Item)
    requires i < |cs|
    ensures SizeOf(cs[i := y]) + Size(cs[i]) == SizeOf(cs) + Size(y)
  {
    SizeOfSplit(cs, i);
    SizeOfSplit(cs[i := y], i);
    assert cs[i := y][..i] == cs[..i] && cs[i := y][i + 1..] == cs[i + 1..];
  }

  lemma IdsOfRemove(cs: seq<Item>, i: nat)
    requires i < |cs|
    ensures IdsOf(Remove(cs, i)) + Ids(cs[i]) == IdsOf(cs)
  {
    IdsOfSplit(cs, i);
    IdsOfAppend(cs[..i], cs[i + 1..]);
  }

  lemma IdsOfReplace(cs: seq<Item>, i: nat, y: Item)
    requires i < |cs|
    ensures IdsOf(cs[i := y]) == IdsOf(cs[..i]) + Ids(y) + IdsOf(cs[i + 1..])
  {
    IdsOfSplit(cs, i);
    IdsOfSplit(cs[i := y], i);
    assert cs[i := y][..i] == cs[..i] && cs[i := y][i + 1..] == cs[i + 1..];
  }

  // ---------------------------------------------------------------------------
  // cleanup.

  /** What cleanup(item) does to the item in its parent: it stays (possibly changed), or it
      is removed, and then possibly one descendant was moved up to the end of the parent's
      children in its place. */
  datatype Outcome = Kept(item: Item) | Removed(promoted: Option<Item>)

  /** What an outcome leaves at the end of the parent's children when the item was removed. */
  function Promoted(o: Outcome): Option<Item> {
    match o
    case Kept(y) => Some(y)
    case Removed(p) => p
  }

  /** cleanup(item) below the invisible root: an item with an ID is left alone; an item
      without an ID and without children is removed; otherwise its children are cleaned in
      order and, if exactly one child remains, that child is moved up to the end of the
      parent's children, the item is removed and the child is cleaned where it now is. */
  function Cleanup(x: Item): (o: Outcome)
    ensures o.Kept? ==> Size(o.item) <= Size(x)
    ensures o.Removed? && o.promoted.Some? ==> Size(o.promoted.value) < Size(x)
    decreases Size(x), 0
  {
    if x.id != "" then Kept(x)
    else if x.children == [] then Removed(None)
    else
      var l := CleanLoop(x.children, 0, |x.children|);
      if |l| == 1 then
        assert SizeOf(l) == Size(l[0]) + SizeOf(l[1..]);
        Removed(Promoted(Cleanup(l[0])))
      else Kept(x.(children := l))
  }

  /** One iteration of cleanup's loop over the children `cs`: the child at `counter` is
      cleaned; the counter moves on only when that child stayed, otherwise the child is gone
      and whatever it promoted was appended to the children. */
  function CleanStep(cs: seq<Item>, counter: nat): (r: (seq<Item>, nat))
    requires counter < |cs|
    ensures SizeOf(r.0) <= SizeOf(cs)
    ensures r.1 <= counter + 1 && |r.0| - r.1 >= |cs| - counter - 1
    decreases SizeOf(cs), 1
  {
    SizeOfSplit(cs, counter);
    match Cleanup(cs[counter])
    case Kept(y) =>
      ReplaceSize(cs, counter, y);
      (cs[counter := y], counter + 1)
    case Removed(None) =>
      RemoveSize(cs, counter);
      (Remove(cs, counter), counter)
    case Removed(Some(g)) =>
      RemoveSize(cs, counter);
      SizeOfAppend(Remove(cs, counter), [g]);
      assert SizeOf([g]) == Size(g) + SizeOf([g][1..]);
      (Remove(cs, counter) + [g], counter)
  }

  /** The loop of cleanup over the children `cs`, with `r` of its iterations to go. */
  function CleanLoop(cs: seq<Item>, counter: nat, r: nat): (l: seq<Item>)
    requires counter + r <= |cs|
    ensures SizeOf(l) <= SizeOf(cs)
    decreases SizeOf(cs), 2, r
  {
    if r == 0 then cs
    else
      var next := CleanStep(cs, counter);
      CleanLoop(next.0, next.1, r - 1)
  }

  /** cleanup() on the invisible root (what the menu calls): the top-level items are cleaned
      by the same loop; if exactly one remains, its children are moved up to the top level
      and the item itself is removed, whatever its ID. */
  function CleanupTop(top: seq<Item>): seq<Item> {
    var l := CleanLoop(top, 0, |top|);
    if |l| == 1 then l[0].children else l
  }

  /** The animations an outcome leaves in the parent. */
  function OutcomeIds(o: Outcome): multiset<string> {
    match o
    case Kept(y) => Ids(y)
    case Removed(None) => multiset{}
    case Removed(Some(g)) => Ids(g)
  }

  /** Below the invisible root, cleanup loses no animation: what stays or is promoted
      holds exactly the item's animations. */
  lemma {:induction false} CleanupKeepsIds(x: Item)
    ensures OutcomeIds(Cleanup(x)) == Ids(x)
    decreases Size(x), 0
  {
    if x.id == "" && x.children != [] {
      var l := CleanLoop(x.children, 0, |x.children|);
      CleanLoopKeepsIds(x.children, 0, |x.children|);
      if |l| == 1 {
        assert SizeOf(l) == Size(l[0]) + SizeOf(l[1..]);
        CleanupKeepsIds(l[0]);
        assert IdsOf(l) == Ids(l[0]) + IdsOf(l[1..]);
        match Cleanup(l[0])
        case Kept(y) =>
        case Removed(p) =>
      }
    }
  }

  lemma {:induction false} CleanStepKeepsIds(cs: seq<Item>, counter: nat)
    requires counter < |cs|
    ensures IdsOf(CleanStep(cs, counter).0) == IdsOf(cs)
    decreases SizeOf(cs), 1
  {
    SizeOfSplit(cs, counter);
    CleanupKeepsIds(cs[counter]);
    match Cleanup(cs[counter])
    case Kept(y) =>
      IdsOfReplace(cs, counter, y);
      IdsOfSplit(cs, counter);
    case Removed(None) =>
      IdsOfRemove(cs, counter);
    case Removed(Some(g)) =>
      IdsOfRemove(cs, counter);
      IdsOfAppend(Remove(cs, counter), [g]);
      IdsOfSingle(g);
  }

  lemma {:induction false} CleanLoopKeepsIds(cs: seq<Item>, counter: nat, r: nat)
    requires counter + r <= |cs|
    ensures IdsOf(CleanLoop(cs, counter, r)) == IdsOf(cs)
    decreases SizeOf(cs), 2, r
  {
    if r > 0 {
      var next := CleanStep(cs, counter);
      CleanStepKeepsIds(cs, counter);
      CleanLoopKeepsIds(next.0, next.1, r - 1);
    }
  }

  /** Which items cleanup keeps or removes: an item with an ID stays as it is; a removed item
      has no ID; a kept item without an ID has changed only in its children, and does not end
      with exactly one child. */
  lemma CleanupShape(x: Item)
    ensures x.id != "" ==> Cleanup(x) == Kept(x)
    ensures Cleanup(x).Removed? ==> x.id == ""
    ensures Cleanup(x).Kept? && x.id == "" ==>
              Cleanup(x).item == x.(children := Cleanup(x).item.children)
              && |Cleanup(x).item.children| != 1
  {
  }

  /** On the whole tree, cleanup keeps every animation except the ID of a single remaining
      top-level item, which is dissolved into its children. */
  lemma CleanupTopIds(top: seq<Item>)
    ensures var l := CleanLoop(top, 0, |top|);
      && (|l| != 1 ==> IdsOf(CleanupTop(top)) == IdsOf(top))
      && (|l| == 1 ==>
            IdsOf(CleanupTop(top)) + (if l[0].id != "" then multiset{l[0].id} else multiset{})
            == IdsOf(top))
  {
    var l := CleanLoop(top, 0, |top|);
    CleanLoopKeepsIds(top, 0, |top|);
    if |l| == 1 {
      assert IdsOf(l) == Ids(l[0]) + IdsOf(l[1..]);
    }
  }

  /** A tree that holds a single top-level animation loses it to cleanup. */
  lemma CleanupTopDropsLoneAnimation(a: Item)
    requires a.id != "" && a.children == []
    ensures CleanupTop([a]) == []
  {
    assert SizeOf([a]) == Size(a) + SizeOf([a][1..]);
    assert Cleanup(a) == Kept(a);
    assert [a][0 := a] == [a];
    assert CleanStep([a], 0) == ([a], 1);
    assert CleanLoop([a], 0, 1) == CleanLoop([a], 1, 0);
  }

  /** A folder whose only child is an empty folder keeps no child, but stays itself: the
      test for an empty folder comes before its children are cleaned. */
  lemma CleanupKeepsEmptiedFolder(x: Item)
    requires x.id == "" && |x.children| == 1
    requires x.children[0].id == "" && x.children[0].children == []
    ensures Cleanup(x) == Kept(x.(children := []))
  {
    var cs := x.children;
    assert SizeOf(cs) == Size(cs[0]) + SizeOf(cs[1..]);
    assert Cleanup(cs[0]) == Removed(None);
    assert Remove(cs, 0) == [];
    assert CleanStep(cs, 0) == ([], 0);
    assert CleanLoop(cs, 0, 1) == CleanLoop([], 0, 0);
  }

  /** cleanup is not idempotent: in X[A[B], D], with only D an animation, the first run
      empties A but keeps it, and only a second run removes A and then dissolves X. */
  lemma CleanupNotIdempotent()
    ensures var d := Blank().(id := "d");
      var x := Blank().(children := [AddChild(Blank(), Blank()), d]);
      && Cleanup(x) == Kept(x.(children := [Blank(), d]))
      && Cleanup(Cleanup(x).item) == Removed(Some(d))
  {
    var b := Blank();
    var d := Blank().(id := "d");
    var a := AddChild(b, b);
    var x := b.(children := [a, d]);
    // First run: B is removed from A, A stays empty, D stays.
    assert SizeOf([b]) == Size(b) + SizeOf([b][1..]);
    assert Cleanup(b) == Removed(None);
    assert Remove([b], 0) == [];
    assert CleanStep([b], 0) == ([], 0);
    assert CleanLoop([b], 0, 1) == CleanLoop([], 0, 0);
    assert a.children == [b] && a.(children := []) == b;
    assert CleanLoop(a.children, 0, |a.children|) == [];
    assert Cleanup(a) == Kept(b);
    var cs := [a, d];
    assert SizeOf(cs) == Size(a) + SizeOf(cs[1..]);
    assert cs[1..] == [d] && SizeOf([d]) == Size(d) + SizeOf([d][1..]);
    assert cs[0 := b] == [b, d];
    assert CleanStep(cs, 0) == ([b, d], 1);
    assert Cleanup(d) == Kept(d);
    assert [b, d][1 := d] == [b, d];
    assert SizeOf([b, d]) == Size(b) + SizeOf([b, d][1..]);
    assert [b, d][1..] == [d];
    assert CleanStep([b, d], 1) == ([b, d], 2);
    assert CleanLoop(cs, 0, 2) == CleanLoop([b, d], 1, 1) == CleanLoop([b, d], 2, 0);
    assert Cleanup(x) == Kept(x.(children := [b, d]));
    // Second run: the empty A goes, D is the only child left and is promoted.
    var y := x.(children := [b, d]);
    assert Remove([b, d], 0) == [d];
    assert CleanStep([b, d], 0) == ([d], 0);
    assert Cleanup(d) == Kept(d);
    assert [d][0 := d] == [d];
    assert CleanStep([d], 0) == ([d], 1);
    assert CleanLoop([b, d], 0, 2) == CleanLoop([d], 0, 1) == CleanLoop([d], 1, 0);
    assert Cleanup(y) == Removed(Some(d));
  }

  /** cleanup(item) as the source performs it below the invisible root, recursively and
      with the counter loop over the children. */
  method CleanupItem(x: Item) returns (o: Outcome)
    ensures o == Cleanup(x)
    decreases Size(x), 0
  {
    if x.id != "" {
      return Kept(x);
    }
    if x.children == [] {
      return Removed(None);
    }
    var l := CleanChildren(x.children);
    if |l| == 1 {
      assert SizeOf(l) == Size(l[0]) + SizeOf(l[1..]);
      var p := CleanupItem(l[0]);
      return Removed(Promoted(p));
    }
    return Kept(x.(children := l));
  }

  /** The loop of cleanup over the children `cs`. */
  method CleanChildren(cs: seq<Item>) returns (l: seq<Item>)
    ensures l == CleanLoop(cs, 0, |cs|)
    decreases SizeOf(cs), 2
  {
    l := cs;
    var counter := 0;
    for i := 0 to |cs|
      invariant counter + (|cs| - i) <= |l|
      invariant SizeOf(l) <= SizeOf(cs)
      invariant CleanLoop(l, counter, |cs| - i) == CleanLoop(cs, 0, |cs|)
    {
      ghost var next := CleanStep(l, counter);
      SizeOfSplit(l, counter);
      var o := CleanupItem(l[counter]);
      if o.Kept? {
        l := l[counter := o.item];
        counter := counter + 1;
      } else {
        l := Remove(l, counter);
        if o.promoted.Some? {
          l := l + [o.promoted.value];
        }
      }
      assert (l, counter) == next;
    }
  }

  // ---------------------------------------------------------------------------
  // checkSubTree, checkAll, uncheckAll.

  /** checkSubTree(item, state): the item and all its descendants get `state`. */
  function SetState(x: Item, s: CheckState): Item
    decreases x, 1
  {
    x.(state := s, children := SetStateOf(x.children, s))
  }

  function SetStateOf(cs: seq<Item>, s: CheckState): (r: seq<Item>)
    ensures |r| == |cs|
    decreases cs, 0
  {
    if cs == [] then [] else [SetState(cs[0], s)] + SetStateOf(cs[1..], s)
  }

  /** The animations reachable through folders, whatever the check states: the entries
      animation_count and to_xml see when nothing is excluded. */
  function ReachedIds(x: Item): seq<string>
    decreases x, 1
  {
    if IsFolder(x) then ReachedIdsOf(x.children) else [x.id]
  }

  function ReachedIdsOf(cs: seq<Item>): seq<string>
    decreases cs, 0
  {
    if cs == [] then [] else ReachedIds(cs[0]) + ReachedIdsOf(cs[1..])
  }

  /** Every node of the subtree is in state `s`. */
  predicate AllInState(x: Item, s: CheckState)
    decreases x, 1
  {
    x.state == s && AllInStateOf(x.children, s)
  }

  predicate AllInStateOf(cs: seq<Item>, s: CheckState)
    decreases cs, 0
  {
    cs == [] || (AllInState(cs[0], s) && AllInStateOf(cs[1..], s))
  }

  /** After checkSubTree every node of the subtree is in the new state, and nothing but the
      states changed: the same animations, reached the same way. */
  lemma {:induction false} SetStateFacts(x: Item, s: CheckState)
    ensures AllInState(SetState(x, s), s)
    ensures Ids(SetState(x, s)) == Ids(x) && Size(SetState(x, s)) == Size(x)
    ensures ReachedIds(SetState(x, s)) == ReachedIds(x)
    decreases x, 1
  {
    SetStateOfFacts(x.children, s);
  }

  lemma {:induction false} SetStateOfFacts(cs: seq<Item>, s: CheckState)
    ensures AllInStateOf(SetStateOf(cs, s), s)
    ensures IdsOf(SetStateOf(cs, s)) == IdsOf(cs) && SizeOf(SetStateOf(cs, s)) == SizeOf(cs)
    ensures ReachedIdsOf(SetStateOf(cs, s)) == ReachedIdsOf(cs)
    decreases cs, 0
  {
    if cs != [] {
      var r := SetStateOf(cs, s);
      SetStateFacts(cs[0], s);
      SetStateOfFacts(cs[1..], s);
      assert r[0] == SetState(cs[0], s) && r[1..] == SetStateOf(cs[1..], s);
    }
  }

  /** Counting after everything was set to `t` (checkAll sets Checked, uncheckAll Unchecked):
      counting the items not in `s` sees nothing when `t == s`, and otherwise every
      animation reachable through folders. */
  lemma {:induction false} CountAfterSetState(cs: seq<Item>, t: CheckState, s: CheckState)
    ensures CountedIdsOf(SetStateOf(cs, t), s) == (if t == s then [] else ReachedIdsOf(cs))
    decreases cs, 0
  {
    if cs != [] {
      var r := SetStateOf(cs, t);
      assert r[0] == SetState(cs[0], t) && r[1..] == SetStateOf(cs[1..], t);
      CountAfterSetState(cs[1..], t, s);
      if t != s {
        CountAfterSetStateItem(cs[0], t, s);
      }
    }
  }

  lemma {:induction false} CountAfterSetStateItem(x: Item, t: CheckState, s: CheckState)
    requires t != s
    ensures CountedIds(SetState(x, t), s) == ReachedIds(x)
    decreases x, 1
  {
    if IsFolder(x) {
      CountAfterSetState(x.children, t, s);
    }
  }

  /** checkSubTree as the source performs it: set the item, then recurse over its children. */
  method CheckSubTree(x: Item, s: CheckState) returns (r: Item)
    ensures r == SetState(x, s)
    decreases x
  {
    var kids: seq<Item> := [];
    for i := 0 to |x.children|
      invariant kids == SetStateOf(x.children[..i], s)
    {
      var k := CheckSubTree(x.children[i], s);
      SetStateOfSnoc(x.children[..i], x.children[i], s);
      assert x.children[..i + 1] == x.children[..i] + [x.children[i]];
      kids := kids + [k];
    }
    assert x.children[..|x.children|] == x.children;
    r := x.(state := s, children := kids);
  }

  lemma {:induction false} SetStateOfSnoc(cs: seq<Item>, c: Item, s: CheckState)
    ensures SetStateOf(cs + [c], s) == SetStateOf(cs, s) + [SetState(c, s)]
    decreases |cs|
  {
    if cs == [] {
      assert [c][1..] == [];
    } else {
      assert (cs + [c])[0] == cs[0] && (cs + [c])[1..] == cs[1..] + [c];
      SetStateOfSnoc(cs[1..], c, s);
    }
  }

  // ---------------------------------------------------------------------------
  // Addressing items, and moveUp, insertParent and removeFromParent.

  /** `p` leads from the top-level list `cs` to an item: a top-level index, then child
      indices. */
  predicate ValidPath(cs: seq<Item>, p: seq<nat>)
    decreases |p|
  {
    |p| >= 1 && p[0] < |cs| && (|p| == 1 || ValidPath(cs[p[0]].children, p[1..]))
  }

  /** The item at the end of path `p`. */
  function Get(cs: seq<Item>, p: seq<nat>): Item
    requires ValidPath(cs, p)
    decreases |p|
  {
    if |p| == 1 then cs[p[0]] else Get(cs[p[0]].children, p[1..])
  }

  /** removeFromParent(item): the item leaves its parent's children (the top-level list when
      it has no parent). */
  function RemoveAt(cs: seq<Item>, p: seq<nat>): seq<Item>
    requires ValidPath(cs, p)
    decreases |p|
  {
    if |p| == 1 then Remove(cs, p[0])
    else cs[p[0] := cs[p[0]].(children := RemoveAt(cs[p[0]].children, p[1..]))]
  }

  /** insertParent(item, parent): the item is taken out of its parent, appended to `parent`'s
      children, and `parent` is inserted where the item was. */
  function InsertParentAt(cs: seq<Item>, p: seq<nat>, parent: Item): seq<Item>
    requires ValidPath(cs, p)
    decreases |p|
  {
    if |p| == 1 then cs[p[0] := AddChild(parent, cs[p[0]])]
    else cs[p[0] := cs[p[0]].(children := InsertParentAt(cs[p[0]].children, p[1..], parent))]
  }

  /** The parent insertParent creates when it is given none. */
  function NewParent(): Item {
    Labelled("New Parent")
  }

  /** moveUp(item): a top-level item is dissolved — each of its children in turn is appended
      to the top level and the item is removed; any other item is taken out of its parent and
      appended to its grandparent's children (the top level when the parent is top-level). */
  function MoveUpAt(cs: seq<Item>, p: seq<nat>): seq<Item>
    requires ValidPath(cs, p)
    decreases |p|
  {
    if |p| == 1 then Remove(cs, p[0]) + cs[p[0]].children
    else if |p| == 2 then
      var n1 := cs[p[0]];
      assert ValidPath(n1.children, p[1..]) && p[1..][0] == p[1];
      cs[p[0] := n1.(children := Remove(n1.children, p[1]))] + [n1.children[p[1]]]
    else cs[p[0] := cs[p[0]].(children := MoveUpAt(cs[p[0]].children, p[1..]))]
  }

  /** The ID part of Ids: what an item contributes itself. */
  function OwnId(x: Item): multiset<string> {
    if x.id != "" then multiset{x.id} else multiset{}
  }

  /** removeFromParent takes exactly the removed subtree's animations out of the tree. */
  lemma {:induction false} RemoveAtIds(cs: seq<Item>, p: seq<nat>)
    requires ValidPath(cs, p)
    ensures IdsOf(RemoveAt(cs, p)) + Ids(Get(cs, p)) == IdsOf(cs)
    decreases |p|
  {
    if |p| == 1 {
      IdsOfRemove(cs, p[0]);
    } else {
      var n := cs[p[0]];
      RemoveAtIds(n.children, p[1..]);
      IdsOfReplace(cs, p[0], n.(children := RemoveAt(n.children, p[1..])));
      IdsOfSplit(cs, p[0]);
    }
  }

  /** Replacing the item at `i` by one with `extra` more animations adds them to the list. */
  lemma ReplaceGrows(cs: seq<Item>, i: nat, y: Item, extra: multiset<string>)
    requires i < |cs| && Ids(y) == Ids(cs[i]) + extra
    ensures IdsOf(cs[i := y]) == IdsOf(cs) + extra
  {
    IdsOfReplace(cs, i, y);
    IdsOfSplit(cs, i);
  }

  /** Replacing the item at `i` by one with `extra` fewer animations takes them away. */
  lemma ReplaceShrinks(cs: seq<Item>, i: nat, y: Item, extra: multiset<string>)
    requires i < |cs| && Ids(cs[i]) == Ids(y) + extra
    ensures IdsOf(cs[i := y]) + extra == IdsOf(cs)
  {
    IdsOfReplace(cs, i, y);
    IdsOfSplit(cs, i);
  }

  lemma ReplaceSame(cs: seq<Item>, i: nat, y: Item)
    requires i < |cs| && Ids(cs[i]) == Ids(y)
    ensures IdsOf(cs[i := y]) == IdsOf(cs)
  {
    IdsOfReplace(cs, i, y);
    IdsOfSplit(cs, i);
  }

  lemma AdoptIds(parent: Item, n: Item)
    ensures Ids(AddChild(parent, n)) == Ids(n) + Ids(parent)
  {
    IdsOfAppend(parent.children, [n]);
    IdsOfSingle(n);
  }

  /** insertParent adds the new parent's own animations and loses nothing. */
  lemma {:induction false} InsertParentAtIds(cs: seq<Item>, p: seq<nat>, parent: Item)
    requires ValidPath(cs, p)
    ensures IdsOf(InsertParentAt(cs, p, parent)) == IdsOf(cs) + Ids(parent)
    decreases |p|
  {
    var n := cs[p[0]];
    if |p| == 1 {
      AdoptIds(parent, n);
      ReplaceGrows(cs, p[0], AddChild(parent, n), Ids(parent));
    } else {
      var kids := InsertParentAt(n.children, p[1..], parent);
      InsertParentAtIds(n.children, p[1..], parent);
      ReplaceGrows(cs, p[0], n.(children := kids), Ids(parent));
    }
  }

  /** At the item's place insertParent leaves the parent, whose last child is the item. */
  lemma {:induction false} InsertParentAtPlace(cs: seq<Item>, p: seq<nat>, parent: Item)
    requires ValidPath(cs, p)
    ensures ValidPath(InsertParentAt(cs, p, parent), p)
    ensures Get(InsertParentAt(cs, p, parent), p) == AddChild(parent, Get(cs, p))
    decreases |p|
  {
    if |p| > 1 {
      InsertParentAtPlace(cs[p[0]].children, p[1..], parent);
    }
  }

  /** Dissolving a top-level item keeps its children's animations. */
  lemma DissolveIds(cs: seq<Item>, i: nat)
    requires i < |cs|
    ensures IdsOf(Remove(cs, i) + cs[i].children) + OwnId(cs[i]) == IdsOf(cs)
  {
    IdsOfRemove(cs, i);
    IdsOfAppend(Remove(cs, i), cs[i].children);
  }

  /** Moving a grandchild of the top level to the end of the top level keeps every animation. */
  lemma LiftIds(cs: seq<Item>, i: nat, j: nat, y: Item, c: Item)
    requires i < |cs| && j < |cs[i].children|
    requires y == cs[i].(children := Remove(cs[i].children, j)) && c == cs[i].children[j]
    ensures IdsOf(cs[i := y] + [c]) == IdsOf(cs)
  {
    var n1 := cs[i];
    IdsOfRemove(n1.children, j);
    ReplaceShrinks(cs, i, y, Ids(c));
    IdsOfAppend(cs[i := y], [c]);
    IdsOfSingle(c);
  }

  /** moveUp loses nothing below the top level; dissolving a top-level item loses only that
      item's own ID. */
  lemma {:induction false} MoveUpAtIds(cs: seq<Item>, p: seq<nat>)
    requires ValidPath(cs, p)
    ensures IdsOf(MoveUpAt(cs, p)) + (if |p| == 1 then OwnId(cs[p[0]]) else multiset{}) == IdsOf(cs)
    decreases |p|
  {
    if |p| == 1 {
      DissolveIds(cs, p[0]);
    } else if |p| == 2 {
      assert p[1..][0] == p[1];
      var n1 := cs[p[0]];
      LiftIds(cs, p[0], p[1], n1.(children := Remove(n1.children, p[1])), n1.children[p[1]]);
    } else {
      var n := cs[p[0]];
      var kids := MoveUpAt(n.children, p[1..]);
      MoveUpAtIds(n.children, p[1..]);
      ReplaceSame(cs, p[0], n.(children := kids));
    }
  }

  /** Below the top level, moveUp puts the item last among its grandparent's children. */
  lemma {:induction false} MoveUpAtPlacesLast(cs: seq<Item>, p: seq<nat>)
    requires ValidPath(cs, p) && |p| >= 2
    ensures var r := MoveUpAt(cs, p);
      var g := p[..|p| - 2];
      && (g == [] ==> r != [] && r[|r| - 1] == Get(cs, p))
      && (g != [] ==> ValidPath(r, g) && Get(r, g).children != []
                      && Get(r, g).children[|Get(r, g).children| - 1] == Get(cs, p))
    decreases |p|
  {
    if |p| > 2 {
      var n := cs[p[0]];
      var q := p[1..];
      MoveUpAtPlacesLast(n.children, q);
      var r := MoveUpAt(cs, p);
      var g := p[..|p| - 2];
      assert g[0] == p[0] && g[1..] == q[..|q| - 2];
      if |q| == 2 {
        assert g == [p[0]];
      }
    }
  }

  lemma {:induction false} SetStateOfAt(cs: seq<Item>, s: CheckState, i: nat)
    requires i < |cs|
    ensures SetStateOf(cs, s)[i] == SetState(cs[i], s)
    decreases |cs|
  {
    if i > 0 {
      SetStateOfAt(cs[1..], s, i - 1);
    }
  }

  lemma {:induction false} CountOfSnoc(cs: seq<Item>, c: Item, s: CheckState)
    ensures CountOf(cs + [c], s) == CountOf(cs, s) + CountOf([c], s)
    decreases |cs|
  {
    if cs == [] {
      assert cs + [c] == [c];
    } else {
      assert (cs + [c])[0] == cs[0] && (cs + [c])[1..] == cs[1..] + [c];
      CountOfSnoc(cs[1..], c, s);
    }
  }

  // ---------------------------------------------------------------------------
  // The widget.

  /** The tree widget: `top` holds the children of Qt's invisible root, in order. */
  class AnimTreeWidget {
    var top: seq<Item>

    /** A new, empty tree. */
    constructor()
      ensures top == []
    {
      top := [];
    }

    /** animationCount(state): the animations reached from the top-level items that are not
        in `state`, through folders, never passing a child in `state`. */
    method AnimationCount(s: CheckState) returns (n: nat)
      ensures n == CountOf(top, s) && n == |CountedIdsOf(top, s)|
    {
      n := 0;
      for i := 0 to |top|
        invariant n == CountOf(top[..i], s)
      {
        var child := top[i];
        assert top[..i + 1] == top[..i] + [child];
        CountOfSnoc(top[..i], child, s);
        assert [child][1..] == [];
        if child.state != s {
          n := n + AnimTreeItems.AnimationCount(child, s);
        }
      }
      assert top[..|top|] == top;
      CountOfIsCountedIds(top, s);
    }

    /** Runs checkSubTree(child, s) on every top-level child in turn. */
    method SetAll(s: CheckState)
      modifies this
      ensures top == SetStateOf(old(top), s)
    {
      var i := 0;
      while i < |top|
        invariant i <= |top| == |old(top)|
        invariant forall j :: 0 <= j < i ==> top[j] == SetState(old(top)[j], s)
        invariant forall j :: i <= j < |top| ==> top[j] == old(top)[j]
      {
        var r := CheckSubTree(top[i], s);
        top := top[i := r];
        i := i + 1;
      }
      forall j | 0 <= j < |top| ensures top[j] == SetStateOf(old(top), s)[j] {
        SetStateOfAt(old(top), s, j);
      }
    }

    /** checkAll: every item becomes Checked, so everything reachable is counted. */
    method CheckAll()
      modifies this
      ensures top == SetStateOf(old(top), Checked)
    {
      SetAll(Checked);
    }

    /** uncheckAll: every item becomes Unchecked, so nothing is counted or written. */
    method UncheckAll()
      modifies this
      ensures top == SetStateOf(old(top), Unchecked)
    {
      SetAll(Unchecked);
    }

    /** cleanup() on the whole tree. */
    method Cleanup()
      modifies this
      ensures top == CleanupTop(old(top))
    {
      var l := CleanChildren(top);
      if |l| == 1 {
        top := l[0].children;
      } else {
        top := l;
      }
    }

    /** moveUp(item) for the item at `p`; a top-level item is dissolved child by child. */
    method MoveUp(p: seq<nat>)
      requires ValidPath(top, p)
      modifies this
      ensures top == MoveUpAt(old(top), p)
    {
      if |p| == 1 {
        var j := p[0];
        ghost var before := top;
        ghost var node := top[j];
        ghost var kids := node.children;
        var count := |top[j].children|;
        var k := 0;
        while k < count
          invariant count == |kids| && k <= count
          invariant top == before[j := node.(children := kids[k..])] + kids[..k]
        {
          var n1 := top[j];
          var c := n1.children[0];
          assert c == kids[k] && Remove(n1.children, 0) == kids[k + 1..];
          assert (before[j := node.(children := kids[k..])] + kids[..k])[j := n1.(children := kids[k + 1..])]
              == before[j := node.(children := kids[k + 1..])] + kids[..k];
          assert kids[..k + 1] == kids[..k] + [c];
          top := top[j := n1.(children := Remove(n1.children, 0))] + [c];
          k := k + 1;
        }
        assert kids[..k] == kids && kids[k..] == [];
        top := Remove(top, j);
        assert top == Remove(before, j) + kids;
      } else {
        top := MoveUpAt(top, p);
      }
    }

    /** insertParent(item, parent) for the item at `p`; without a parent a fresh item named
        "New Parent" is used. */
    method InsertParent(p: seq<nat>, parent: Option<Item>)
      requires ValidPath(top, p)
      modifies this
      ensures top == InsertParentAt(old(top), p, if parent.Some? then parent.value else NewParent())
    {
      var pa := if parent.Some? then parent.value else NewParent();
      top := InsertParentAt(top, p, pa);
    }

    /** removeFromParent(item) for the item at `p`. */
    method RemoveFromParent(p: seq<nat>)
      requires ValidPath(top, p)
      modifies this
      ensures top == RemoveAt(old(top), p)
    {
      top := RemoveAt(top, p);
    }

    /** toXML(config): a `folder0` element named after the plugin with the package icon,
        holding the elements of the top-level items that are not Unchecked: its entries are
        exactly the animations animationCount(Unchecked) counts, and its folders are numbered
        by depth from 1. */
    function ToXml(config: Config): (e: Element)
      reads this
      ensures e.Folder? && e.level == 0 && e.n == config.pluginName && e.i == config.defaultPackageIcon
      ensures EntryIdsOf(e.children) == CountedIdsOf(top, Unchecked)
      ensures LevelledOf(e.children, 1)
    {
      ToXmlOfEntries(top, 1, config);
      Folder(0, config.pluginName, config.defaultPackageIcon, ToXmlOf(top, 1, config))
    }

    /** The end of a build: the tree is cleared and holds only the temporary root; its
        children are taken one by one from the front and appended to the top level, and
        the emptied root is removed, leaving the root's children as the top-level items. */
    method Adopt(root: Item)
      modifies this
      ensures top == root.children
    {
      top := [root];
      for i := 0 to |root.children|
        invariant |top| == i + 1
        invariant top[0] == root.(children := root.children[i..])
        invariant top[1..] == root.children[..i]
      {
        var holder := top[0];
        var child := holder.children[0];
        top := [holder.(children := holder.children[1..])] + top[1..] + [child];
        assert root.children[..i + 1] == root.children[..i] + [child];
      }
      top := top[1..];
    }

    /** createFromPackages(packages): the tree becomes the top level of the build of the
        packages, in which a stage whose ID was already inserted is skipped; returns how
        many were skipped. */
    method CreateFromPackages(ps: seq<Package>) returns (dups: nat)
      requires PackagesOk(ps)
      modifies this
      ensures top == Build(ps, true).0.children && dups == Build(ps, true).1.dups
    {
      var root, pr := BuildTree(ps, true);
      Adopt(root);
      dups := pr.dups;
    }
  }
}
