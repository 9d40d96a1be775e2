/** One node of the animation tree (widget/AnimTreeItem.py): six text columns, a stored check
    state, the splitter bookkeeping that pages a node's children into "Set n" groups of
    `MaxChildCount`, the animation count and the serialisation to an element tree. */
module AnimTreeItems {
  import opened Base
  import opened Animations

  /** Qt's check states, as the item stores them. */
  datatype CheckState = Unchecked | PartiallyChecked | Checked

  /** maxChildCount: how many children a node takes before it is paged into splitters. */
  const MaxChildCount: nat := 25

  /** A tree item: the NAME, TYPE, OPTIONS, ID, FILE and ANIM_OBJ columns, the check state,
      whether it is a "Set n" splitter, its splitter counters and its children in order. */
  datatype Item = Item(
    name: string, kind: string, options: string, id: string, file: string, animObj: string,
    state: CheckState, isSplitter: bool,
    splitterCounter: nat, splitterIndex: nat, levelTwoCounter: nat,
    children: seq<Item>)

  /** AnimTreeItem(): empty columns, Checked, counters at zero, not a splitter, no children. */
  function Blank(): Item {
    Item("", "", "", "", "", "", Checked, false, 0, 0, 0, [])
  }

  /** A fresh item with `text` in its NAME column. */
  function Labelled(text: string): Item {
    Blank().(name := text)
  }

  /** The NAME text of the splitter inserted at `index`. */
  function SplitterLabel(index: int): string {
    "Set " + IntToString(index + 1)
  }

  /** A fresh splitter labelled for position `index`, holding `kids`. */
  function Splitter(index: int, kids: seq<Item>): Item {
    Blank().(name := SplitterLabel(index), isSplitter := true, children := kids)
  }

  /** addChild: `c` becomes the last child. */
  function AddChild(x: Item, c: Item): Item {
    x.(children := x.children + [c])
  }

  /** Qt's insertChild: `c` goes in at `index` when `0 <= index <= |cs|`; any other index is
      refused and `cs` is returned unchanged. */
  function InsertChild(cs: seq<Item>, index: int, c: Item): (r: seq<Item>)
    ensures 0 <= index <= |cs| ==>
              |r| == |cs| + 1 && r[index] == c && r[..index] == cs[..index] && r[index + 1..] == cs[index..]
    ensures !(0 <= index <= |cs|) ==> r == cs
  {
    if 0 <= index <= |cs| then cs[..index] + [c] + cs[index..] else cs
  }

  // ---------------------------------------------------------------------------
  // Splitter bookkeeping.

  /** next_splitter_index. */
  function NextSplitterIndex(x: Item): nat {
    x.splitterIndex
  }

  /** set_next_splitter_index as written: with `num == -1` the parenthesisation makes it
      `splitterIndex + (1 % 25)`, i.e. no wrap-around; every other `num` is reduced modulo
      `MaxChildCount` (Python's `%`, never negative for a positive modulus). */
  function SetNextSplitterIndex(x: Item, num: int): (r: Item)
    ensures num != -1 ==> r.splitterIndex < MaxChildCount
    ensures num == -1 ==> r.splitterIndex == x.splitterIndex + 1
    ensures r == x.(splitterIndex := r.splitterIndex)
  {
    if num == -1 then x.(splitterIndex := x.splitterIndex + 1 % MaxChildCount)
    else x.(splitterIndex := num % MaxChildCount)
  }

  /** The wrap-around the `num == -1` branch evidently intends. */
  function SetNextSplitterIndexIntended(x: Item, num: int): (r: Item)
    ensures r.splitterIndex < MaxChildCount
    ensures r == x.(splitterIndex := r.splitterIndex)
  {
    if num == -1 then x.(splitterIndex := (x.splitterIndex + 1) % MaxChildCount)
    else x.(splitterIndex := num % MaxChildCount)
  }

  /** From index 24 the branch as written yields 25, an index the counters otherwise never
      hold; the intended wrap-around yields 0. */
  lemma SetNextSplitterIndexNoWrap(x: Item)
    requires x.splitterIndex == MaxChildCount - 1
    ensures SetNextSplitterIndex(x, -1).splitterIndex == MaxChildCount
    ensures SetNextSplitterIndexIntended(x, -1).splitterIndex == 0
  {
  }

  /** Both agree on every argument other than -1, the only arguments the callers pass. */
  lemma SetNextSplitterIndexAgree(x: Item, num: int)
    requires num != -1
    ensures SetNextSplitterIndex(x, num) == SetNextSplitterIndexIntended(x, num)
  {
  }

  /** splitter_level: how many full rounds of `MaxChildCount` splitters were inserted. */
  function SplitterLevel(x: Item): nat {
    x.splitterCounter / MaxChildCount
  }

  /** insert_splitter(index) for a non-negative index: a splitter labelled
      "Set {index+1}" holding `kids` is inserted at `index` (or refused by Qt when `index` is
      past the end), the splitter counter rises by one and the next index becomes
      `(index + 1) mod MaxChildCount`. The default index (-1) is resolved by the caller. */
  function InsertSplitter(x: Item, index: nat, kids: seq<Item>): (r: Item)
    ensures r.splitterCounter == x.splitterCounter + 1
    ensures r.splitterIndex == (index + 1) % MaxChildCount
    ensures index <= |x.children| ==>
              && |r.children| == |x.children| + 1
              && r.children[index] == Splitter(index, kids)
              && r.children[..index] == x.children[..index]
              && r.children[index + 1..] == x.children[index..]
    ensures index > |x.children| ==> r.children == x.children
    ensures r.id == x.id && r.name == x.name && r.isSplitter == x.isSplitter
      && r.levelTwoCounter == x.levelTwoCounter && r.state == x.state
    ensures r == x.(children := r.children, splitterCounter := r.splitterCounter,
                    splitterIndex := r.splitterIndex)
  {
    var inserted := x.(children := InsertChild(x.children, index, Splitter(index, kids)),
                       splitterCounter := x.splitterCounter + 1);
    SetNextSplitterIndexIntended(inserted, index + 1)
  }

  // ---------------------------------------------------------------------------
  // add_nested_child.

  /** A splitter child that still has room. */
  predicate OpenSplitter(c: Item) {
    c.isSplitter && |c.children| < MaxChildCount
  }

  /** Index of the first open splitter child, or |cs| when there is none. */
  function FirstOpenSplitter(cs: seq<Item>): (k: nat)
    ensures k <= |cs|
    ensures k < |cs| ==> OpenSplitter(cs[k])
    ensures forall j :: 0 <= j < k ==> !OpenSplitter(cs[j])
    decreases |cs|
  {
    if cs == [] then 0
    else if OpenSplitter(cs[0]) then 0
    else 1 + FirstOpenSplitter(cs[1..])
  }

  /** A child moved by the overflow loop in iteration `i` is renamed "Set {i+1}" when it is a
      splitter. */
  function Relabeled(c: Item, i: nat): Item {
    if c.isSplitter then c.(name := SplitterLabel(i)) else c
  }

  /** The children moved by the overflow loop, relabelled by the iteration that moves them. */
  function Relabel(cs: seq<Item>, from: nat): (r: seq<Item>)
    ensures |r| == |cs|
    decreases |cs|
  {
    if cs == [] then [] else [Relabeled(cs[0], from)] + Relabel(cs[1..], from + 1)
  }

  /** `n` fresh blank items: what the overflow loop adds once takeChild finds nothing. */
  function Blanks(n: nat): (r: seq<Item>)
    ensures |r| == n
    decreases n
  {
    if n == 0 then [] else [Blank()] + Blanks(n - 1)
  }

  /** The overflow path of add_nested_child (a full node): a first splitter is inserted at the
      next index, or at the advanced level-two counter once more than one round of splitters
      exists; the loop that runs once per child then takes every child after that splitter
      into it — a blank item each time nothing is left to take — and a second splitter,
      inserted at the next index, receives the item. */
  function Overflow(x: Item, item: Item): Item {
    var moved := OverflowMove(x);
    InsertSplitter(moved, moved.splitterIndex, [item])
  }

  /** The first half of the overflow path: the first splitter and the loop that fills it. */
  function OverflowMove(x: Item): Item {
    var lifted := SplitterLevel(x) > 1;
    var x1 := if lifted then x.(levelTwoCounter := x.levelTwoCounter + 1) else x;
    var index := if lifted then x1.levelTwoCounter else x.splitterIndex;
    var x2 := InsertSplitter(x1, index, []);
    x2.(children := MoveIntoSplitter(x2.children, index))
  }

  /** The loop of the overflow path over children `k`, in which the new splitter sits at
      `index` unless Qt refused it: it runs `|k|` times, each time taking the child after
      the splitter (a blank item once there is none) into the splitter. */
  function MoveIntoSplitter(k: seq<Item>, index: nat): seq<Item> {
    var cut := if index + 1 <= |k| then index + 1 else |k|;
    var taken := Relabel(k[cut..], 0) + Blanks(cut);
    if index < cut then k[..cut][index := Splitter(index, taken)] else k[..cut]
  }

  /** add_nested_child, by the four paths of the source: into the first splitter with room;
      into a new splitter at the next index when that index is strictly between 0 and
      `MaxChildCount`; through the overflow path when the node is full; else appended. */
  function AddNested(x: Item, item: Item): Item {
    var f := FirstOpenSplitter(x.children);
    if f < |x.children| then
      x.(children := x.children[f := AddChild(x.children[f], item)])
    else if 0 < NextSplitterIndex(x) < MaxChildCount then
      InsertSplitter(x, NextSplitterIndex(x), [item])
    else if |x.children| == MaxChildCount then
      Overflow(x, item)
    else
      AddChild(x, item)
  }

  /** When the child at `f` is the first splitter with room, the item goes into it and
      nothing else changes. */
  lemma AddNestedIntoSplitter(x: Item, item: Item, f: nat)
    requires f < |x.children| && OpenSplitter(x.children[f])
    requires forall j :: 0 <= j < f ==> !OpenSplitter(x.children[j])
    ensures AddNested(x, item) == x.(children := x.children[f := AddChild(x.children[f], item)])
  {
    assert FirstOpenSplitter(x.children) == f;
  }

  /** With no splitter with room and a next index strictly between 0 and `MaxChildCount`, a
      new splitter holding only the item is inserted at that index. */
  lemma AddNestedNewSplitter(x: Item, item: Item)
    requires forall j :: 0 <= j < |x.children| ==> !OpenSplitter(x.children[j])
    requires 0 < x.splitterIndex < MaxChildCount && x.splitterIndex <= |x.children|
    ensures var r := AddNested(x, item);
      var k := x.splitterIndex;
      && |r.children| == |x.children| + 1 && r.children[k] == Splitter(k, [item])
      && r.children[..k] == x.children[..k] && r.children[k + 1..] == x.children[k..]
      && r.splitterCounter == x.splitterCounter + 1 && r.splitterIndex == (k + 1) % MaxChildCount
  {
    assert FirstOpenSplitter(x.children) == |x.children|;
  }

  /** With no splitter with room, no next index strictly between 0 and `MaxChildCount` and
      not exactly `MaxChildCount` children, the item becomes the last child and the counters
      stay as they were. */
  lemma AddNestedAppends(x: Item, item: Item)
    requires forall j :: 0 <= j < |x.children| ==> !OpenSplitter(x.children[j])
    requires !(0 < x.splitterIndex < MaxChildCount) && |x.children| != MaxChildCount
    ensures AddNested(x, item) == x.(children := x.children + [item])
  {
    assert FirstOpenSplitter(x.children) == |x.children|;
  }

  // ---------------------------------------------------------------------------
  // The animations a subtree holds, and what add_nested_child does to them.

  /** The non-empty ID texts of `x` and its descendants: the animations of the subtree. */
  function Ids(x: Item): multiset<string>
    decreases x, 1
  {
    (if x.id != "" then multiset{x.id} else multiset{}) + IdsOf(x.children)
  }

  function IdsOf(cs: seq<Item>): multiset<string>
    decreases cs, 0
  {
    if cs == [] then multiset{} else Ids(cs[0]) + IdsOf(cs[1..])
  }

  lemma {:induction false} IdsOfAppend(a: seq<Item>, b: seq<Item>)
    ensures IdsOf(a + b) == IdsOf(a) + IdsOf(b)
    decreases |a|
  {
    if a == [] {
      assert a + b == b;
    } else {
      assert (a + b)[0] == a[0] && (a + b)[1..] == a[1..] + b;
      IdsOfAppend(a[1..], b);
    }
  }

  lemma IdsOfSplit(cs: seq<Item>, i: nat)
    requires i < |cs|
    ensures IdsOf(cs) == IdsOf(cs[..i]) + Ids(cs[i]) + IdsOf(cs[i + 1..])
  {
    var t := [cs[i]] + cs[i + 1..];
    assert cs == cs[..i] + t;
    IdsOfAppend(cs[..i], t);
    assert t != [] && t[0] == cs[i] && t[1..] == cs[i + 1..];
    assert IdsOf(t) == Ids(cs[i]) + IdsOf(cs[i + 1..]);
  }

  lemma {:induction false} IdsOfRelabel(cs: seq<Item>, from: nat)
    ensures IdsOf(Relabel(cs, from)) == IdsOf(cs)
    decreases |cs|
  {
    if cs != [] {
      IdsOfRelabel(cs[1..], from + 1);
      var r := Relabel(cs, from);
      assert r[0] == Relabeled(cs[0], from) && r[1..] == Relabel(cs[1..], from + 1);
    }
  }

  lemma {:induction false} IdsOfBlanks(n: nat)
    ensures IdsOf(Blanks(n)) == multiset{}
    decreases n
  {
    if n > 0 {
      IdsOfBlanks(n - 1);
      assert Blanks(n)[0] == Blank() && Blanks(n)[1..] == Blanks(n - 1);
    }
  }

  /** The overflow loop moves the children in order; a moved splitter is renamed after the
      iteration that moved it, anything else is unchanged. */
  lemma {:induction false} RelabelAt(cs: seq<Item>, from: nat, i: nat)
    requires i < |cs|
    ensures Relabel(cs, from)[i] == Relabeled(cs[i], from + i)
    decreases i
  {
    if i > 0 { RelabelAt(cs[1..], from + 1, i - 1); }
  }

  /** The counters add_nested_child keeps: the next splitter index is a valid position to
      insert at. Fresh items have it, and add_nested_child preserves it. */
  predicate CountersWf(x: Item) {
    x.splitterIndex < MaxChildCount && x.splitterIndex <= |x.children|
  }

  lemma BlankWf()
    ensures CountersWf(Blank()) && Ids(Blank()) == multiset{}
  {
  }

  lemma InsertSplitterIds(x: Item, index: nat, kids: seq<Item>)
    requires index <= |x.children|
    ensures IdsOf(InsertSplitter(x, index, kids).children) == IdsOf(x.children) + IdsOf(kids)
  {
    var r := InsertSplitter(x, index, kids).children;
    assert r == x.children[..index] + ([Splitter(index, kids)] + x.children[index..]);
    IdsOfAppend(x.children[..index], [Splitter(index, kids)] + x.children[index..]);
    assert ([Splitter(index, kids)] + x.children[index..])[1..] == x.children[index..];
    assert x.children == x.children[..index] + x.children[index..];
    IdsOfAppend(x.children[..index], x.children[index..]);
  }

  lemma IdsOfSingle(c: Item)
    ensures IdsOf([c]) == Ids(c)
  {
    assert [c][1..] == [];
  }

  /** When Qt accepted the splitter at `index`, the loop leaves the children before it in
      place and moves all the later ones, relabelled, into it, followed by `index + 1`
      blank items. */
  lemma MoveIntoInsertedShape(c: seq<Item>, index: nat)
    requires index <= |c|
    ensures MoveIntoSplitter(InsertChild(c, index, Splitter(index, [])), index)
         == c[..index] + [Splitter(index, Relabel(c[index..], 0) + Blanks(index + 1))]
  {
    var k := InsertChild(c, index, Splitter(index, []));
    assert k[index + 1..] == c[index..];
    assert k[..index + 1] == c[..index] + [Splitter(index, [])];
  }

  lemma SplitterIds(index: int, kids: seq<Item>)
    ensures IdsOf([Splitter(index, kids)]) == IdsOf(kids)
  {
    IdsOfSingle(Splitter(index, kids));
  }

  lemma TakenIds(rest: seq<Item>, n: nat)
    ensures IdsOf(Relabel(rest, 0) + Blanks(n)) == IdsOf(rest)
  {
    IdsOfAppend(Relabel(rest, 0), Blanks(n));
    IdsOfRelabel(rest, 0);
    IdsOfBlanks(n);
  }

  lemma ReplaceTailIds(c: seq<Item>, index: nat, taken: seq<Item>)
    requires index <= |c|
    requires IdsOf(taken) == IdsOf(c[index..])
    ensures IdsOf(c[..index] + [Splitter(index, taken)]) == IdsOf(c)
  {
    IdsOfAppend(c[..index], [Splitter(index, taken)]);
    SplitterIds(index, taken);
    assert c == c[..index] + c[index..];
    IdsOfAppend(c[..index], c[index..]);
  }

  /** The loop of the overflow path keeps every animation; it leaves `index + 1` children
      when the splitter was accepted and the original ones when it was refused. */
  lemma MoveIntoSplitterIds(c: seq<Item>, index: nat)
    requires |c| == MaxChildCount
    ensures var m := MoveIntoSplitter(InsertChild(c, index, Splitter(index, [])), index);
      IdsOf(m) == IdsOf(c) && |m| == (if index <= |c| then index + 1 else |c|)
  {
    if index <= |c| {
      MoveIntoInsertedShape(c, index);
      TakenIds(c[index..], index + 1);
      ReplaceTailIds(c, index, Relabel(c[index..], 0) + Blanks(index + 1));
    } else {
      assert MoveIntoSplitter(c, index) == c[..|c|] == c;
    }
  }

  lemma ModBound(a: nat)
    ensures a % MaxChildCount <= a && a % MaxChildCount < MaxChildCount
  {
  }

  /** The first half of the overflow path keeps every animation, the node's ID and a next
      splitter index within the children. */
  lemma OverflowMoveFacts(x: Item)
    requires |x.children| == MaxChildCount
    ensures var m := OverflowMove(x);
      && IdsOf(m.children) == IdsOf(x.children) && m.id == x.id
      && m.splitterIndex < MaxChildCount && m.splitterIndex <= |m.children|
  {
    var lifted := SplitterLevel(x) > 1;
    var x1 := if lifted then x.(levelTwoCounter := x.levelTwoCounter + 1) else x;
    var index := if lifted then x1.levelTwoCounter else x.splitterIndex;
    var x2 := InsertSplitter(x1, index, []);
    assert x2.children == InsertChild(x.children, index, Splitter(index, []));
    MoveIntoSplitterIds(x.children, index);
    ModBound(index + 1);
  }

  /** The overflow path keeps every animation of the node, adds the item's, and leaves a
      valid next splitter index and the node's ID. */
  lemma OverflowKeepsIds(x: Item, item: Item)
    requires |x.children| == MaxChildCount
    ensures IdsOf(Overflow(x, item).children) == IdsOf(x.children) + Ids(item)
    ensures CountersWf(Overflow(x, item)) && Overflow(x, item).id == x.id
  {
    var m := OverflowMove(x);
    OverflowMoveFacts(x);
    InsertSplitterIds(m, m.splitterIndex, [item]);
    IdsOfSingle(item);
    ModBound(m.splitterIndex + 1);
  }

  /** Adding to the splitter child at `f` adds the item's animations to the children's. */
  lemma AddToSplitterIds(c: seq<Item>, f: nat, item: Item)
    requires f < |c|
    ensures IdsOf(c[f := AddChild(c[f], item)]) == IdsOf(c) + Ids(item)
  {
    var s := c[f];
    var c' := c[f := AddChild(s, item)];
    IdsOfSplit(c, f);
    IdsOfSplit(c', f);
    assert c'[..f] == c[..f] && c'[f + 1..] == c[f + 1..];
    IdsOfAppend(s.children, [item]);
    IdsOfSingle(item);
  }

  lemma AppendIds(c: seq<Item>, item: Item)
    ensures IdsOf(c + [item]) == IdsOf(c) + Ids(item)
  {
    IdsOfAppend(c, [item]);
    IdsOfSingle(item);
  }

  /** add_nested_child's effect on the children and on the ID: the children afterwards hold
      the node's animations and the item's, and the node's own ID is untouched. */
  lemma AddNestedChildrenIds(x: Item, item: Item)
    requires CountersWf(x)
    ensures IdsOf(AddNested(x, item).children) == IdsOf(x.children) + Ids(item)
    ensures AddNested(x, item).id == x.id
    ensures CountersWf(AddNested(x, item))
  {
    var c := x.children;
    var f := FirstOpenSplitter(c);
    if f < |c| {
      AddToSplitterIds(c, f, item);
    } else if 0 < NextSplitterIndex(x) < MaxChildCount {
      InsertSplitterIds(x, x.splitterIndex, [item]);
      IdsOfSingle(item);
      ModBound(x.splitterIndex + 1);
    } else if |c| == MaxChildCount {
      OverflowKeepsIds(x, item);
    } else {
      AppendIds(c, item);
    }
  }

  /** add_nested_child loses nothing and keeps its counters valid: the subtree afterwards
      holds exactly the node's animations and the item's. */
  lemma AddNestedKeepsIds(x: Item, item: Item)
    requires CountersWf(x)
    ensures Ids(AddNested(x, item)) == Ids(x) + Ids(item)
    ensures CountersWf(AddNested(x, item))
  {
    AddNestedChildrenIds(x, item);
  }

  lemma RelabelPlain(cs: seq<Item>, from: nat)
    requires forall i :: 0 <= i < |cs| ==> !cs[i].isSplitter
    ensures Relabel(cs, from) == cs
  {
    forall i | 0 <= i < |cs| ensures Relabel(cs, from)[i] == cs[i] {
      RelabelAt(cs, from, i);
    }
  }

  lemma FirstSplitterLabels()
    ensures SplitterLabel(0) == "Set 1" && SplitterLabel(1) == "Set 2"
  {
    assert NatToString(1) == "1" && NatToString(2) == "2";
  }

  /** The overflow path on 25 plain children and fresh counters, before the labels are
      spelled out. */
  lemma OverflowFreshShape(x: Item, item: Item)
    requires |x.children| == MaxChildCount
    requires forall i :: 0 <= i < |x.children| ==> !x.children[i].isSplitter
    requires x.splitterCounter == 0 && x.splitterIndex == 0 && x.levelTwoCounter == 0
    ensures var r := Overflow(x, item);
      && r.children == [Splitter(0, x.children + [Blank()]), Splitter(1, [item])]
      && r.splitterCounter == 2 && r.splitterIndex == 2
  {
    var c := x.children;
    var x2 := InsertSplitter(x, 0, []);
    assert x2.children == [Splitter(0, [])] + c;
    assert x2.children[1..] == c;
    RelabelPlain(c, 0);
    assert Blanks(1) == [Blank()];
    assert MoveIntoSplitter(x2.children, 0) == [Splitter(0, c + [Blank()])];
  }

  /** The 26th item into a node holding 25 plain children and fresh counters: "Set 1" takes
      the 25 children in order followed by one blank item (so it holds 26), "Set 2" holds the
      new item, and both counters end at 2. */
  lemma OverflowFromFresh(x: Item, item: Item)
    requires |x.children| == MaxChildCount
    requires forall i :: 0 <= i < |x.children| ==> !x.children[i].isSplitter
    requires x.splitterCounter == 0 && x.splitterIndex == 0 && x.levelTwoCounter == 0
    ensures var r := AddNested(x, item);
      && r.children == [Splitter(0, x.children + [Blank()]), Splitter(1, [item])]
      && r.children[0].name == "Set 1" && r.children[1].name == "Set 2"
      && |r.children[0].children| == MaxChildCount + 1
      && r.splitterCounter == 2 && r.splitterIndex == 2
  {
    assert FirstOpenSplitter(x.children) == |x.children|;
    assert AddNested(x, item) == Overflow(x, item);
    OverflowFreshShape(x, item);
    FirstSplitterLabels();
  }

  lemma {:induction false} BlanksAt(n: nat, i: nat)
    requires i < n
    ensures Blanks(n)[i] == Blank()
    decreases n
  {
    if i > 0 { BlanksAt(n - 1, i - 1); }
  }

  /** The element the overflow loop takes in iteration `t`: the `t`-th child after the
      splitter, relabelled, or a blank item once they are used up. */
  lemma TakenAt(rest: seq<Item>, n: nat, t: nat)
    requires t < |rest| + n
    ensures t < |rest| ==> (Relabel(rest, 0) + Blanks(n))[t] == Relabeled(rest[t], t)
    ensures t >= |rest| ==> (Relabel(rest, 0) + Blanks(n))[t] == Blank()
  {
    if t < |rest| {
      RelabelAt(rest, 0, t);
    } else {
      BlanksAt(n, t - |rest|);
    }
  }

  /** One iteration of the overflow loop on the children `kids` left after `t` takes: the
      child after the splitter exists exactly while unmoved children remain, and taking it
      moves the next one. */
  lemma TakeStep(k: seq<Item>, index: nat, cut: nat, t: nat, kids: seq<Item>)
    requires cut <= |k| && (cut == index + 1 || (cut == |k| && index + 1 > |k|))
    requires kids == k[..cut] + k[cut..][if t <= |k| - cut then t else |k| - cut..]
    ensures (index + 1 < |kids|) == (t < |k| - cut)
    ensures t < |k| - cut ==>
              && kids[index + 1] == k[cut..][t]
              && kids[..index + 1] + kids[index + 2..] == k[..cut] + k[cut..][t + 1..]
  {
    if t < |k| - cut {
      var rest := k[cut..];
      assert kids[..index + 1] == k[..cut];
      assert kids[index + 1..] == rest[t..];
      assert kids[index + 2..] == rest[t + 1..];
    }
  }

  lemma PrefixSnoc(s: seq<Item>, t: nat)
    requires t < |s|
    ensures s[..t + 1] == s[..t] + [s[t]]
  {
    assert s[..t + 1][..t] == s[..t];
  }

  /** What iteration `t` of the overflow loop takes is the `t`-th element of what the new
      splitter ends up holding, and what stays behind is the rest of the children. */
  lemma TakeMatches(k: seq<Item>, index: nat, cut: nat, t: nat, kids: seq<Item>)
    requires cut == (if index + 1 <= |k| then index + 1 else |k|) && t < |k|
    requires kids == k[..cut] + k[cut..][if t <= |k| - cut then t else |k| - cut..]
    ensures var full := Relabel(k[cut..], 0) + Blanks(cut);
      var left := k[..cut] + k[cut..][if t + 1 <= |k| - cut then t + 1 else |k| - cut..];
      && (index + 1 < |kids| ==>
            (Relabeled(kids[index + 1], t) == full[t] && kids[..index + 1] + kids[index + 2..] == left))
      && (index + 1 >= |kids| ==> (Blank() == full[t] && kids == left))
  {
    var rest := k[cut..];
    TakenAt(rest, cut, t);
    TakeStep(k, index, cut, t, kids);
  }

  /** One iteration's take: the child after the splitter, or a blank item when there is
      none, renamed `Set {t+1}` when it is a splitter. */
  method TakeAfter(kids: seq<Item>, index: nat, t: nat) returns (child: Item, left: seq<Item>)
    ensures index + 1 < |kids| ==>
              child == Relabeled(kids[index + 1], t) && left == kids[..index + 1] + kids[index + 2..]
    ensures index + 1 >= |kids| ==> child == Blank() && left == kids
  {
    left := kids;
    if index + 1 < |kids| {
      child := kids[index + 1];
      left := kids[..index + 1] + kids[index + 2..];
    } else {
      child := Blank();
    }
    if child.isSplitter {
      child := child.(name := SplitterLabel(t));
    }
  }

  /** The loop of the overflow path over the children `k`, the new splitter sitting at
      `index` unless Qt refused it: `|k|` times it takes the child after the splitter (a
      blank item once there is none), renames a taken splitter after the iteration, and
      adds it to the splitter. */
  method MoveChildren(k: seq<Item>, index: nat) returns (kept: seq<Item>)
    ensures kept == MoveIntoSplitter(k, index)
  {
    var taken: seq<Item> := [];
    var kids := k;
    var count := |kids|;
    ghost var cut := if index + 1 <= count then index + 1 else count;
    ghost var rest := k[cut..];
    ghost var full := Relabel(rest, 0) + Blanks(cut);
    var t := 0;
    while t < count
      invariant 0 <= t <= count && |full| == count
      invariant taken == full[..t]
      invariant kids == k[..cut] + rest[if t <= |rest| then t else |rest|..]
    {
      TakeMatches(k, index, cut, t, kids);
      var child;
      child, kids := TakeAfter(kids, index, t);
      PrefixSnoc(full, t);
      taken := taken + [child];
      t := t + 1;
    }
    assert full[..t] == full;
    assert kids == k[..cut] + [];
    if index < |kids| {
      kids := kids[index := Splitter(index, taken)];
    }
    kept := kids;
  }

  /** add_nested_child as the source runs it: the search loop over the children for a
      splitter with room, the two splitter paths and the final append. */
  method AddNestedChild(x: Item, item: Item) returns (r: Item)
    ensures r == AddNested(x, item)
  {
    var i := 0;
    while i < |x.children|
      invariant 0 <= i <= |x.children|
      invariant forall j :: 0 <= j < i ==> !OpenSplitter(x.children[j])
    {
      var s := x.children[i];
      if s.isSplitter && |s.children| < MaxChildCount {
        r := x.(children := x.children[i := AddChild(s, item)]);
        return;
      }
      i := i + 1;
    }

    if 0 < NextSplitterIndex(x) < MaxChildCount {
      r := InsertSplitter(x, NextSplitterIndex(x), [item]);
      return;
    }

    if |x.children| == MaxChildCount {
      var node := x;
      var index := NextSplitterIndex(node);
      if SplitterLevel(node) > 1 {
        node := node.(levelTwoCounter := node.levelTwoCounter + 1);
        index := node.levelTwoCounter;
      }
      node := InsertSplitter(node, index, []);
      var kept := MoveChildren(node.children, index);
      node := node.(children := kept);
      r := InsertSplitter(node, NextSplitterIndex(node), [item]);
      return;
    }

    r := AddChild(x, item);
  }

  // ---------------------------------------------------------------------------
  // animation_count.

  /** is_anim: the ID column is non-empty. */
  predicate IsAnim(x: Item) {
    x.id != ""
  }

  /** The nodes animation_count and to_xml treat as folders: splitters and items without
      an ID. */
  predicate IsFolder(x: Item) {
    x.isSplitter || !IsAnim(x)
  }

  /** animation_count(state): 1 for an animation; for a folder, the sum over the children
      whose check state differs from `state`. */
  function AnimationCount(x: Item, s: CheckState): nat
    decreases x, 1
  {
    if IsFolder(x) then CountOf(x.children, s) else 1
  }

  function CountOf(cs: seq<Item>, s: CheckState): nat
    decreases cs, 0
  {
    if cs == [] then 0
    else (if cs[0].state != s then AnimationCount(cs[0], s) else 0) + CountOf(cs[1..], s)
  }

  /** The IDs animation_count counts, in tree order. */
  function CountedIds(x: Item, s: CheckState): seq<string>
    decreases x, 1
  {
    if IsFolder(x) then CountedIdsOf(x.children, s) else [x.id]
  }

  function CountedIdsOf(cs: seq<Item>, s: CheckState): seq<string>
    decreases cs, 0
  {
    if cs == [] then []
    else (if cs[0].state != s then CountedIds(cs[0], s) else []) + CountedIdsOf(cs[1..], s)
  }

  /** The count is the number of animations reached through folders without passing a child
      in `state`, each a non-splitter with a non-empty ID. */
  lemma {:induction false} AnimationCountIsCountedIds(x: Item, s: CheckState)
    ensures AnimationCount(x, s) == |CountedIds(x, s)|
    ensures forall k :: 0 <= k < |CountedIds(x, s)| ==> CountedIds(x, s)[k] != ""
    decreases x, 1
  {
    if IsFolder(x) { CountOfIsCountedIds(x.children, s); }
  }

  lemma {:induction false} CountOfIsCountedIds(cs: seq<Item>, s: CheckState)
    ensures CountOf(cs, s) == |CountedIdsOf(cs, s)|
    ensures forall k :: 0 <= k < |CountedIdsOf(cs, s)| ==> CountedIdsOf(cs, s)[k] != ""
    decreases cs, 0
  {
    if cs != [] {
      if cs[0].state != s { AnimationCountIsCountedIds(cs[0], s); }
      CountOfIsCountedIds(cs[1..], s);
    }
  }

  // ---------------------------------------------------------------------------
  // to_xml.

  /** The configured values to_xml and toXML read from the PLUGIN section. */
  datatype Config = Config(
    pluginName: string, defaultPackageIcon: string, defaultFolderIcon: string,
    defaultAnimationIcon: string)

  /** The serialised form: a `folder{level}` element with its `n` and `i` attributes and its
      sub-elements, or an `entry` element with `n`, `i` and `id`. */
  datatype Element =
    | Folder(level: int, n: string, i: string, children: seq<Element>)
    | Entry(n: string, i: string, id: string)

  /** The element's tag. */
  function Tag(e: Element): string {
    match e
    case Folder(level, _, _, _) => "folder" + IntToString(level)
    case Entry(_, _, _) => "entry"
  }

  /** to_xml(parent, level, config): the element this item appends to `parent`. */
  function ToXml(x: Item, level: int, config: Config): Element
    decreases x, 1
  {
    if IsFolder(x) then Folder(level, x.name, config.defaultFolderIcon, ToXmlOf(x.children, level + 1, config))
    else Entry(x.name, config.defaultAnimationIcon, x.id)
  }

  /** The elements of the children that are not Unchecked, in order. */
  function ToXmlOf(cs: seq<Item>, level: int, config: Config): seq<Element>
    decreases cs, 0
  {
    if cs == [] then []
    else (if cs[0].state != Unchecked then [ToXml(cs[0], level, config)] else []) + ToXmlOf(cs[1..], level, config)
  }

  /** The `id` attributes of the entries of an element tree, in document order. */
  function EntryIds(e: Element): seq<string>
    decreases e, 1
  {
    match e
    case Entry(_, _, id) => [id]
    case Folder(_, _, _, children) => EntryIdsOf(children)
  }

  function EntryIdsOf(es: seq<Element>): seq<string>
    decreases es, 0
  {
    if es == [] then [] else EntryIds(es[0]) + EntryIdsOf(es[1..])
  }

  /** Every folder sits at its parent's level plus one, starting from `level`. */
  predicate Levelled(e: Element, level: int)
    decreases e, 1
  {
    match e
    case Entry(_, _, _) => true
    case Folder(l, _, _, children) => l == level && LevelledOf(children, level + 1)
  }

  predicate LevelledOf(es: seq<Element>, level: int)
    decreases es, 0
  {
    es == [] || (Levelled(es[0], level) && LevelledOf(es[1..], level))
  }

  /** The document lists exactly the animations animation_count(Unchecked) counts, in tree
      order, and its folders are numbered by depth. */
  lemma {:induction false} ToXmlEntries(x: Item, level: int, config: Config)
    ensures EntryIds(ToXml(x, level, config)) == CountedIds(x, Unchecked)
    ensures Levelled(ToXml(x, level, config), level)
    decreases x, 1
  {
    if IsFolder(x) { ToXmlOfEntries(x.children, level + 1, config); }
  }

  lemma {:induction false} ToXmlOfEntries(cs: seq<Item>, level: int, config: Config)
    ensures EntryIdsOf(ToXmlOf(cs, level, config)) == CountedIdsOf(cs, Unchecked)
    ensures LevelledOf(ToXmlOf(cs, level, config), level)
    decreases cs, 0
  {
    if cs != [] {
      ToXmlOfEntries(cs[1..], level, config);
      var head := if cs[0].state != Unchecked then [ToXml(cs[0], level, config)] else [];
      var tail := ToXmlOf(cs[1..], level, config);
      if cs[0].state != Unchecked {
        ToXmlEntries(cs[0], level, config);
        assert (head + tail)[0] == head[0] && (head + tail)[1..] == tail;
      } else {
        assert head + tail == tail;
      }
    }
  }

  /** Entry count and animation count agree. */
  lemma ToXmlEntryCount(x: Item, level: int, config: Config)
    ensures |EntryIds(ToXml(x, level, config))| == AnimationCount(x, Unchecked)
  {
    ToXmlEntries(x, level, config);
    AnimationCountIsCountedIds(x, Unchecked);
  }

  // ---------------------------------------------------------------------------
  // set_animation.

  /** Python's `s[-25:]`: the last 25 characters, or all of a shorter string. */
  function Last25(s: string): (r: string)
    ensures |r| == (if |s| < 25 then |s| else 25) && EndsWith(s, r)
  {
    if |s| <= 25 then s else s[|s| - 25..]
  }

  /** Python's `repr` of a list of enumeration names: `['A', 'B']`. */
  function NamesListText(names: seq<string>): string {
    "[" + JoinQuoted(names) + "]"
  }

  function JoinQuoted(names: seq<string>): string
    decreases |names|
  {
    if names == [] then ""
    else if |names| == 1 then "'" + names[0] + "'"
    else "'" + names[0] + "', " + JoinQuoted(names[1..])
  }

  function OptionNames(options: seq<AnimOption>): (r: seq<string>)
    ensures |r| == |options| && forall k :: 0 <= k < |r| ==> r[k] == OptionName(options[k])
    decreases |options|
  {
    if options == [] then [] else [OptionName(options[0])] + OptionNames(options[1..])
  }

  /** set_animation(animation, i): NAME shows the last 25 characters of stage `i`, TYPE the
      kind's name, OPTIONS the list of option names as Python prints it, and ID, FILE and
      ANIM_OBJ stage `i`'s identifier, file and object; nothing else changes. */
  function SetAnimation(x: Item, a: Animation, i: nat): (r: Item)
    requires i < |a.stages| && i < |a.stagesFile| && i < |a.stagesObj|
    ensures EndsWith(a.stages[i], r.name) && |r.name| == (if |a.stages[i]| < 25 then |a.stages[i]| else 25)
    ensures r.kind == TypeName(a.kind) && r.options == NamesListText(OptionNames(a.options))
    ensures r.id == a.stages[i] && r.file == a.stagesFile[i] && r.animObj == a.stagesObj[i]
    ensures r == x.(name := r.name, kind := r.kind, options := r.options, id := r.id,
                    file := r.file, animObj := r.animObj)
  {
    x.(name := Last25(a.stages[i]), kind := TypeName(a.kind),
       options := NamesListText(OptionNames(a.options)),
       id := a.stages[i], file := a.stagesFile[i], animObj := a.stagesObj[i])
  }

  /** A parsed animation carries the single option NONE, which the OPTIONS column shows as
      `['NONE']`. */
  lemma ParsedOptionsText()
    ensures NamesListText(OptionNames(OptionsFromString(None))) == "['NONE']"
  {
    assert OptionNames([NoOption]) == ["NONE"];
  }
}
