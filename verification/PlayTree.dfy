/** The items of playtree.c and the tree they form through their links. */
module PlayTree {
  import opened Config
  import opened Streams

  const ENTRY_NODE := -1   // a group
  const ENTRY_FILE := 3

  /** A playtree item. A parameter is a name with what the option's parser makes of its value;
      `rnd` and `rndPlayed` are the two bits of `flags`. */
  class Item {
    var parent: Item?
    var child: Item?
    var next: Item?
    var prev: Item?
    var params: seq<SubParam>
    var loop: int
    var files: seq<string>
    var entryType: int
    var rnd: bool
    var rndPlayed: bool

    constructor ()
      ensures parent == child == next == prev == null
      ensures params == [] && loop == 0 && files == [] && entryType == ENTRY_NODE
      ensures !rnd && !rndPlayed
    {
      parent, child, next, prev := null, null, null, null;
      params, loop, files, entryType := [], 0, [], ENTRY_NODE;
      rnd, rndPlayed := false, false;
    }
  }

  /** The tree an item heads: its own data and its children, left to right. */
  datatype Shape = Shape(node: Item, loop: int, entry: bool, rnd: bool, files: seq<string>, kids: seq<Shape>)

  /** All items of a list of trees. */
  ghost function Nodes(l: seq<Shape>): (s: set<Item>)
    ensures forall i {:trigger l[i].node} :: 0 <= i < |l| ==> l[i].node in s
    ensures forall i {:trigger Nodes(l[i].kids)} :: 0 <= i < |l| ==> Nodes(l[i].kids) <= s
  {
    if l == [] then {}
    else
      assert forall i :: 1 <= i < |l| ==> l[i] == l[1..][i-1];
      {l[0].node} + Nodes(l[0].kids) + Nodes(l[1..])
  }

  lemma NodesAllocated(l: seq<Shape>)
    ensures forall n :: n in Nodes(l) ==> allocated(n)
  {
  }

  /** The items of the list itself. */
  ghost function Heads(l: seq<Shape>): set<Item> { set k | 0 <= k < |l| :: l[k].node }

  ghost function First(l: seq<Shape>): Item? { if l == [] then null else l[0].node }

  ghost function NodeAt(l: seq<Shape>, i: int): (n: Item?)
    ensures n != null <==> 0 <= i < |l|
  {
    if 0 <= i < |l| then l[i].node else null
  }

  /** The items of `l` are siblings under `parent`, linked in this order, and so on below. */
  ghost predicate Linked(l: seq<Shape>, parent: Item?)
    reads Nodes(l)
    decreases l, 1
  {
    forall i :: 0 <= i < |l| ==> LinkedAt(l, i, parent)
  }

  ghost predicate LinkedAt(l: seq<Shape>, i: nat, parent: Item?)
    requires i < |l|
    reads Nodes(l)
    decreases l, 0
  {
    Hooked(l, i, parent) && Linked(l[i].kids, l[i].node)
  }

  /** The fields of one item are right for its place in the list. */
  ghost predicate Hooked(l: seq<Shape>, i: nat, parent: Item?)
    requires i < |l|
    reads l[i].node
  {
    var s := l[i];
    && s.node.parent == parent
    && s.node.prev == NodeAt(l, i - 1)
    && s.node.next == NodeAt(l, i + 1)
    && s.node.child == First(s.kids)
    && Described(s)
  }

  ghost predicate Described(s: Shape)
    reads s.node
  {
    && s.node.loop == s.loop
    && s.node.files == s.files
    && s.node.rnd == s.rnd
    && s.entry == (s.node.entryType != ENTRY_NODE)
    && (s.entry ==> s.kids == [])
  }

  // ---------------------------------------------------------------------------------
  // What a tree plays

  /** There is something to play in the tree. */
  ghost predicate Playable(s: Shape) {
    s.entry || exists i :: 0 <= i < |s.kids| && Playable(s.kids[i])
  }

  /** Nothing useless is left anywhere in the trees. */
  ghost predicate Clean(l: seq<Shape>) {
    forall i :: 0 <= i < |l| ==> Playable(l[i]) && Clean(l[i].kids)
  }

  /** No group asks for random order. */
  ghost predicate NoShuffle(l: seq<Shape>) {
    forall i :: 0 <= i < |l| ==> !l[i].rnd && NoShuffle(l[i].kids)
  }

  /** The entries that a tree plays, in order: an entry plays itself, a group plays its
      children one after the other, `loop` times over (once for 0, for ever below 0). */
  ghost function Expand(s: Shape): Stream<Shape>
    decreases s, 1
  {
    if s.entry then Stream([s], []) else Again(Rounds(s.loop), ExpandAll(s.kids))
  }

  ghost function ExpandAll(l: seq<Shape>): Stream<Shape>
    decreases l, 0
  {
    if l == [] then Empty() else Expand(l[0]).Then(ExpandAll(l[1..]))
  }

  ghost function Rounds(loop: int): int { if loop == 0 then 1 else loop }

  lemma {:induction false} PlayableExpands(s: Shape)
    requires Playable(s)
    ensures !Expand(s).IsEmpty()
    decreases s, 1
  {
    if !s.entry {
      var i :| 0 <= i < |s.kids| && Playable(s.kids[i]);
      SomePlayableExpands(s.kids, i);
      if Rounds(s.loop) > 0 && ExpandAll(s.kids).cyc == [] {
        assert Times(Rounds(s.loop), ExpandAll(s.kids).pre) != [];
      }
    }
  }

  lemma {:induction false} SomePlayableExpands(l: seq<Shape>, i: nat)
    requires i < |l| && Playable(l[i])
    ensures !ExpandAll(l).IsEmpty()
    decreases l, 0
  {
    if i == 0 {
      PlayableExpands(l[0]);
    } else {
      SomePlayableExpands(l[1..], i - 1);
    }
  }

  /** play_tree_is_valid. */
  method IsValid(pt: Item, ghost l: seq<Shape>, ghost i: nat, ghost parent: Item?) returns (ok: bool)
    requires i < |l| && Linked(l, parent) && pt == l[i].node
    ensures ok == Playable(l[i])
    decreases l[i]
  {
    assert LinkedAt(l, i, parent);
    if pt.entryType != ENTRY_NODE {
      return true;
    }
    ghost var kids := l[i].kids;
    NodesAllocated(kids);
    var iter := pt.child;
    ghost var k := 0;
    while iter != null
      invariant Linked(kids, pt)
      invariant 0 <= k <= |kids| && iter == NodeAt(kids, k)
      invariant forall j :: 0 <= j < k ==> !Playable(kids[j])
      decreases |kids| - k
    {
      assert LinkedAt(kids, k, pt);
      var valid := IsValid(iter, kids, k, pt);
      if valid { return true; }
      iter := iter.next;
      k := k + 1;
    }
    return false;
  }

  /** The first of the siblings. */
  method FirstSibling(tree: Item, ghost list: seq<Shape>, ghost at: nat, ghost group: Item?) returns (pt: Item)
    requires Linked(list, group) && at < |list| && tree == list[at].node
    ensures pt == list[0].node
  {
    pt := tree;
    ghost var k := at;
    assert LinkedAt(list, k, group);
    while pt.prev != null
      invariant 0 <= k < |list| && pt == list[k].node && LinkedAt(list, k, group)
      decreases k
    {
      pt, k := pt.prev, k - 1;
      assert LinkedAt(list, k, group);
    }
  }

  /** The last of the siblings. */
  method LastSibling(tree: Item, ghost list: seq<Shape>, ghost at: nat, ghost group: Item?) returns (pt: Item)
    requires Linked(list, group) && at < |list| && tree == list[at].node
    ensures pt == list[|list|-1].node
  {
    pt := tree;
    ghost var k := at;
    assert LinkedAt(list, k, group);
    while pt.next != null
      invariant 0 <= k < |list| && pt == list[k].node && LinkedAt(list, k, group)
      decreases |list| - k
    {
      pt, k := pt.next, k + 1;
      assert LinkedAt(list, k, group);
    }
  }
}
