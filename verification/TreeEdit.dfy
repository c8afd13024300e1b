/** List surgery on playlist trees and the removal of what cannot be played. */
module TreeEdit {
  import opened PlayTree
  import opened Streams

  /** The items of one tree. */
  ghost function Own(s: Shape): set<Item> { {s.node} + Nodes(s.kids) }

  /** No item occurs twice. */
  ghost predicate Distinct(l: seq<Shape>) {
    l == [] ||
    (l[0].node !in Nodes(l[0].kids) && Distinct(l[0].kids) && Own(l[0]) !! Nodes(l[1..]) && Distinct(l[1..]))
  }

  ghost function Without(l: seq<Shape>, i: nat): seq<Shape>
    requires i < |l|
  {
    l[..i] + l[i+1..]
  }

  /** The heads of a list are apart from each other and from what is below the heads. */
  lemma {:induction false} HeadsApart(l: seq<Shape>)
    requires Distinct(l)
    ensures forall j, k :: 0 <= j < |l| && 0 <= k < |l| ==> l[k].node !in Nodes(l[j].kids)
    ensures forall j, k :: 0 <= j < |l| && 0 <= k < |l| && j != k ==>
      l[k].node != l[j].node && Nodes(l[k].kids) !! Nodes(l[j].kids)
    ensures forall k :: 0 <= k < |l| ==> Distinct(l[k].kids)
  {
    if l != [] {
      HeadsApart(l[1..]);
      assert forall k :: 1 <= k < |l| ==> l[k] == l[1..][k-1];
      assert forall k :: 1 <= k < |l| ==> l[k].node in Nodes(l[1..]) && Nodes(l[k].kids) <= Nodes(l[1..]);
      assert Own(l[0]) !! Nodes(l[1..]);
    }
  }

  lemma {:induction false} DistinctWithout(l: seq<Shape>, i: nat)
    requires Distinct(l) && i < |l|
    ensures Distinct(Without(l, i)) && Nodes(Without(l, i)) <= Nodes(l)
  {
    if i == 0 {
      assert Without(l, 0) == l[1..];
    } else {
      DistinctWithout(l[1..], i - 1);
      var l' := Without(l, i);
      assert l'[0] == l[0] && l'[1..] == Without(l[1..], i - 1);
    }
  }

  lemma Unfold(l: seq<Shape>, group: Item?)
    requires Linked(l, group)
    ensures forall k {:trigger Hooked(l, k, group)} :: 0 <= k < |l| ==> Hooked(l, k, group)
    ensures forall k :: 0 <= k < |l| ==> Linked(l[k].kids, l[k].node)
  {
    forall k | 0 <= k < |l| ensures Hooked(l, k, group) && Linked(l[k].kids, l[k].node) {
      assert LinkedAt(l, k, group);
    }
  }

  /** All that the surgery on a list needs to know of it. */
  lemma Survey(l: seq<Shape>, group: Item?)
    requires Linked(l, group) && Distinct(l)
    ensures forall k {:trigger Hooked(l, k, group)} :: 0 <= k < |l| ==> Hooked(l, k, group)
    ensures forall k :: 0 <= k < |l| ==> Linked(l[k].kids, l[k].node)
    ensures forall k :: 0 <= k < |l| ==> Nodes(l[k].kids) <= Nodes(l) && l[k].node in Nodes(l)
    ensures forall j, k :: 0 <= j < |l| && 0 <= k < |l| ==> l[k].node !in Nodes(l[j].kids)
    ensures forall j, k :: 0 <= j < |l| && 0 <= k < |l| && j != k ==>
      l[k].node != l[j].node
    ensures forall n :: n in Nodes(l) ==> allocated(n)
  {
    HeadsApart(l);
    NodesAllocated(l);
    Unfold(l, group);
    KidsWithin(l);
  }

  lemma Fold(l: seq<Shape>, group: Item?)
    requires forall k {:trigger Hooked(l, k, group)} :: 0 <= k < |l| ==> Hooked(l, k, group)
    requires forall k :: 0 <= k < |l| ==> Linked(l[k].kids, l[k].node)
    ensures Linked(l, group)
  {
    assert forall k :: 0 <= k < |l| ==> LinkedAt(l, k, group);
  }

  lemma KidsWithin(l: seq<Shape>)
    ensures forall k :: 0 <= k < |l| ==> Nodes(l[k].kids) <= Nodes(l)
  {
  }

  /** Nothing of `n` but its links has changed. */
  twostate predicate SameData(n: Item)
    reads n
  {
    && n.params == old(n.params) && n.loop == old(n.loop) && n.files == old(n.files)
    && n.entryType == old(n.entryType) && n.rnd == old(n.rnd) && n.rndPlayed == old(n.rndPlayed)
  }

  twostate predicate OnlyChild(n: Item)
    reads n
  {
    SameData(n) && n.parent == old(n.parent) && n.prev == old(n.prev) && n.next == old(n.next)
  }

  twostate predicate OnlyNext(n: Item)
    reads n
  {
    SameData(n) && n.parent == old(n.parent) && n.prev == old(n.prev) && n.child == old(n.child)
  }

  twostate predicate OnlyPrev(n: Item)
    reads n
  {
    SameData(n) && n.parent == old(n.parent) && n.next == old(n.next) && n.child == old(n.child)
  }

  /** What play_tree_remove does to the links around `pt`. */
  twostate predicate Unlinked(pt: Item)
    reads *
  {
    && pt.prev == null && pt.next == null && pt.parent == null && SameData(pt) && pt.child == old(pt.child)
    && (var p := old(pt.prev); p != null ==> p.next == old(pt.next) && OnlyNext(p))
    && (var n := old(pt.next); n != null ==> n.prev == old(pt.prev) && OnlyPrev(n))
    && (var g := old(pt.parent); g != null ==>
          g.child == (if old(pt.prev) == null then old(pt.next) else old(pt.parent.child)) && OnlyChild(g))
  }

  /** play_tree_remove, for an item that is not its own neighbour. */
  method Unlink(pt: Item)
    requires pt !in {pt.prev, pt.next, pt.parent}
    requires pt.prev != null ==> pt.prev !in {pt.next, pt.parent}
    requires pt.next != null ==> pt.next != pt.parent
    modifies pt, pt.prev, pt.next, pt.parent
    ensures Unlinked(pt)
  {
    if pt.prev != null && pt.next != null {  // neighbours on both sides
      pt.prev.next := pt.next;
      pt.next.prev := pt.prev;
    } else if pt.prev != null {  // the last sibling
      pt.prev.next := null;
    } else if pt.next != null {  // the first sibling
      pt.next.prev := null;
      if pt.parent != null {
        pt.parent.child := pt.next;
      }
    } else if pt.parent != null {  // no siblings
      pt.parent.child := null;
    }
    pt.prev, pt.next, pt.parent := null, null, null;
  }

  /** The place of the item `k` in the list without the item `i`. */
  lemma PlaceWithout(l: seq<Shape>, i: nat, k: nat)
    requires i < |l| && k < |l| && k != i
    ensures var l', j := Without(l, i), if k < i then k else k - 1;
      && |l'| == |l| - 1 && l'[j] == l[k]
      && NodeAt(l', j - 1) == NodeAt(l, if k == i + 1 then i - 1 else k - 1)
      && NodeAt(l', j + 1) == NodeAt(l, if k + 1 == i then i + 1 else k + 1)
  {
  }

  /** The item `k` is linked as if the item `i` were not between its neighbours. */
  ghost predicate Bypasses(l: seq<Shape>, i: nat, k: nat, group: Item?)
    requires i < |l| && k < |l|
    reads l[k].node
  {
    var n := l[k].node;
    && n.parent == group && n.child == First(l[k].kids) && Described(l[k])
    && n.prev == NodeAt(l, if k == i + 1 then i - 1 else k - 1)
    && n.next == NodeAt(l, if k + 1 == i then i + 1 else k + 1)
  }

  lemma Closed(l: seq<Shape>, i: nat, group: Item?)
    requires i < |l|
    requires forall k {:trigger Bypasses(l, i, k, group)} :: 0 <= k < |l| && k != i ==> Bypasses(l, i, k, group)
    requires forall k :: 0 <= k < |l| && k != i ==> Linked(l[k].kids, l[k].node)
    ensures Linked(Without(l, i), group)
  {
    hide Linked, LinkedAt, Nodes;
    var l' := Without(l, i);
    forall j | 0 <= j < |l'| ensures Hooked(l', j, group) && Linked(l'[j].kids, l'[j].node) {
      var k: nat := if j < i then j else j + 1;
      PlaceWithout(l, i, k);
      assert Bypasses(l, i, k, group);
    }
    Fold(l', group);
  }

  /** Takes `pt`, the item `i` of the list `l` below `group`, out of the list. */
  method Remove(pt: Item, ghost l: seq<Shape>, ghost i: nat, ghost group: Item?)
    requires Linked(l, group) && Distinct(l) && i < |l| && pt == l[i].node
    requires group != null ==> group !in Nodes(l) && group.child == First(l)
    modifies pt, pt.prev, pt.next, pt.parent
    ensures Linked(Without(l, i), group) && Linked([l[i]], null)
    ensures group != null ==> group.child == First(Without(l, i)) && OnlyChild(group)
  {
    hide Linked, LinkedAt, Nodes, Distinct, Without;
    Survey(l, group);
    assert Hooked(l, i, group);
    FirstWithout(l, i);
    Unlink(pt);
    forall k | 0 <= k < |l| ensures Linked(l[k].kids, l[k].node) {
      assert forall n :: n in Nodes(l[k].kids) ==> n.child == old(n.child);
    }
    forall k | 0 <= k < |l| && k != i ensures Bypasses(l, i, k, group) {
      assert old(Hooked(l, k, group));
      if k + 1 != i && k != i + 1 { assert unchanged(l[k].node); }
    }
    Closed(l, i, group);
    Fold([l[i]], null);
  }

  lemma FirstWithout(l: seq<Shape>, i: nat)
    requires i < |l|
    ensures First(Without(l, i)) == if i == 0 then NodeAt(l, 1) else l[0].node
  {
  }

  // ---------------------------------------------------------------------------------
  // Putting an item into a list

  ghost function With(l: seq<Shape>, i: nat, e: Shape): seq<Shape>
    requires i <= |l|
  {
    l[..i] + [e] + l[i..]
  }

  /** A tree whose head may hang anywhere. */
  ghost predicate Loose(e: Shape)
    reads Own(e)
  {
    e.node.child == First(e.kids) && Described(e) && e.node !in Nodes(e.kids) && Linked(e.kids, e.node)
  }

  /** The item `k` is linked as if `e` came just before the item `i`. */
  ghost predicate MakesRoom(l: seq<Shape>, i: nat, e: Shape, k: nat, group: Item?)
    requires i <= |l| && k < |l|
    reads l[k].node
  {
    var n := l[k].node;
    && n.parent == group && n.child == First(l[k].kids) && Described(l[k])
    && n.prev == (if k == i then e.node else NodeAt(l, k - 1))
    && n.next == (if k + 1 == i then e.node else NodeAt(l, k + 1))
  }

  lemma PlaceWith(l: seq<Shape>, i: nat, e: Shape, k: nat)
    requires i <= |l| && k < |l|
    ensures var l', j := With(l, i, e), if k < i then k else k + 1;
      && |l'| == |l| + 1 && l'[i] == e && l'[j] == l[k]
      && NodeAt(l', j - 1) == (if k == i then e.node else NodeAt(l, k - 1))
      && NodeAt(l', j + 1) == (if k + 1 == i then e.node else NodeAt(l, k + 1))
  {
  }

  lemma Opened(l: seq<Shape>, i: nat, e: Shape, group: Item?)
    requires i <= |l|
    requires forall k {:trigger MakesRoom(l, i, e, k, group)} :: 0 <= k < |l| ==> MakesRoom(l, i, e, k, group)
    requires forall k :: 0 <= k < |l| ==> Linked(l[k].kids, l[k].node)
    requires Loose(e) && e.node.parent == group
    requires e.node.prev == NodeAt(l, i - 1) && e.node.next == NodeAt(l, i)
    ensures Linked(With(l, i, e), group)
  {
    hide Linked, LinkedAt, Nodes;
    var l' := With(l, i, e);
    forall j | 0 <= j < |l'| ensures Hooked(l', j, group) && Linked(l'[j].kids, l'[j].node) {
      if j == i {
        assert l'[j] == e && NodeAt(l', i - 1) == NodeAt(l, i - 1) && NodeAt(l', i + 1) == NodeAt(l, i);
      } else {
        var k: nat := if j < i then j else j - 1;
        PlaceWith(l, i, e, k);
        assert MakesRoom(l, i, e, k, group);
      }
    }
    Fold(l', group);
  }

  /** `e` can be put among `l`: it is not part of it, and `group` is not part of it. */
  ghost predicate Apart(e: Shape, l: seq<Shape>, group: Item?) {
    Own(e) !! Nodes(l) && group !in Nodes(l) && group !in Own(e)
  }

  lemma OwnAllocated(e: Shape)
    ensures forall n :: n in Own(e) ==> allocated(n)
  {
    NodesAllocated(e.kids);
  }

  /** The links set by play_tree_append_entry. */
  method HookLast(iter: Item, entry: Item)
    requires iter != entry
    modifies entry, iter
    ensures entry.prev == iter && entry.next == null && entry.parent == old(iter.parent)
    ensures SameData(entry) && entry.child == old(entry.child)
    ensures iter.next == entry && OnlyNext(iter)
  {
    entry.parent := iter.parent;
    entry.prev := iter;
    entry.next := null;
    iter.next := entry;
  }

  /** play_tree_append_entry: after the last sibling of `pt`. */
  method Append(pt: Item, entry: Item, ghost l: seq<Shape>, ghost i: nat, ghost group: Item?, ghost e: Shape)
    requires Linked(l, group) && Distinct(l) && i < |l| && pt == l[i].node
    requires pt != entry ==> Loose(e) && entry == e.node && Apart(e, l, group)
    modifies entry, l[|l|-1].node
    ensures pt == entry ==> Linked(l, group)
    ensures pt != entry ==> Linked(With(l, |l|, e), group)
    ensures pt != entry ==> unchanged(l[|l|-1].node`child)
  {
    hide Linked, LinkedAt, Nodes, Distinct, With;
    Survey(l, group);
    OwnAllocated(e);
    if pt == entry { return; }
    assert Hooked(l, |l| - 1, group);
    var iter := LastSibling(pt, l, i, group);
    HookLast(iter, entry);
    forall k | 0 <= k < |l| ensures Linked(l[k].kids, l[k].node) {
      assert forall n :: n in Nodes(l[k].kids) ==> n.child == old(n.child);
    }
    forall k | 0 <= k < |l| ensures MakesRoom(l, |l|, e, k, group) {
      assert old(Hooked(l, k, group));
      if k + 1 < |l| { assert unchanged(l[k].node); }
    }
    assert forall n :: n in Nodes(e.kids) ==> n.child == old(n.child);
    Opened(l, |l|, e, group);
  }

  /** The links set by play_tree_prepend_entry. */
  method HookBefore(iter: Item, entry: Item)
    requires iter != entry && iter.parent !in {iter, entry}
    modifies entry, iter, iter.parent
    ensures entry.prev == null && entry.next == iter && entry.parent == old(iter.parent)
    ensures SameData(entry) && entry.child == old(entry.child)
    ensures iter.prev == entry && OnlyPrev(iter)
    ensures iter.parent != null ==> iter.parent.child == entry && OnlyChild(iter.parent)
  {
    entry.prev := null;
    entry.next := iter;
    entry.parent := iter.parent;
    iter.prev := entry;
    if entry.parent != null {
      entry.parent.child := entry;
    }
  }

  /** play_tree_prepend_entry: before the first sibling of `pt`. */
  method Prepend(pt: Item, entry: Item, ghost l: seq<Shape>, ghost i: nat, ghost group: Item?, ghost e: Shape)
    requires Linked(l, group) && Distinct(l) && i < |l| && pt == l[i].node
    requires group != null ==> group.child == First(l)
    requires Loose(e) && entry == e.node && Apart(e, l, group)
    modifies entry, l[0].node, group
    ensures Linked(With(l, 0, e), group)
    ensures group != null ==> group.child == First(With(l, 0, e)) && OnlyChild(group)
  {
    hide Linked, LinkedAt, Nodes, Distinct, With;
    Survey(l, group);
    OwnAllocated(e);
    assert Hooked(l, 0, group);
    var iter := FirstSibling(pt, l, i, group);
    HookBefore(iter, entry);
    forall k | 0 <= k < |l| ensures Linked(l[k].kids, l[k].node) {
      assert forall n :: n in Nodes(l[k].kids) ==> n.child == old(n.child);
    }
    forall k | 0 <= k < |l| ensures MakesRoom(l, 0, e, k, group) {
      assert old(Hooked(l, k, group));
      if k > 0 { assert unchanged(l[k].node); }
    }
    assert forall n :: n in Nodes(e.kids) ==> n.child == old(n.child);
    Opened(l, 0, e, group);
    FirstWith(l, e);
  }

  lemma FirstWith(l: seq<Shape>, e: Shape)
    ensures First(With(l, 0, e)) == e.node
  {
  }

  /** The links set by play_tree_insert_entry. */
  method HookAfter(pt: Item, entry: Item)
    requires pt !in {entry, pt.next} && pt.next != entry
    modifies entry, pt, pt.next
    ensures entry.prev == pt && entry.next == old(pt.next) && entry.parent == old(pt.parent)
    ensures SameData(entry) && entry.child == old(entry.child)
    ensures pt.next == entry && OnlyNext(pt)
    ensures var n := old(pt.next); n != null ==> n.prev == entry && OnlyPrev(n)
  {
    entry.parent := pt.parent;
    entry.prev := pt;
    if pt.next != null {
      entry.next := pt.next;
      entry.next.prev := entry;
    } else {
      entry.next := null;
    }
    pt.next := entry;
  }

  /** play_tree_insert_entry: right after `pt`. */
  method Insert(pt: Item, entry: Item, ghost l: seq<Shape>, ghost i: nat, ghost group: Item?, ghost e: Shape)
    requires Linked(l, group) && Distinct(l) && i < |l| && pt == l[i].node
    requires Loose(e) && entry == e.node && Apart(e, l, group)
    modifies entry, pt, pt.next
    ensures Linked(With(l, i + 1, e), group)
  {
    hide Linked, LinkedAt, Nodes, Distinct, With;
    Survey(l, group);
    OwnAllocated(e);
    ghost var at := i + 1;
    assert Hooked(l, i, group);
    assert pt.next == NodeAt(l, at);
    HookAfter(pt, entry);
    forall k | 0 <= k < |l| ensures Linked(l[k].kids, l[k].node) {
      assert forall n :: n in Nodes(l[k].kids) ==> n.child == old(n.child);
    }
    forall k | 0 <= k < |l| ensures MakesRoom(l, at, e, k, group) {
      assert old(Hooked(l, k, group));
      if k != i && k != at { assert unchanged(l[k].node); }
    }
    assert forall n :: n in Nodes(e.kids) ==> n.child == old(n.child);
    Opened(l, at, e, group);
  }

  /** One of the loops that give all siblings from `first` on a new parent. */
  method Reparent(first: Item?, group: Item?, ghost l: seq<Shape>, ghost was: Item?)
    requires Linked(l, was) && Distinct(l) && first == First(l)
    modifies Heads(l)
    ensures Linked(l, group)
    ensures forall n :: n in Nodes(l) && old(allocated(n)) ==> n.child == old(n.child)
  {
    hide Linked, LinkedAt, Nodes, Distinct;
    Survey(l, was);
    var iter := first;
    ghost var k := 0;
    while iter != null
      invariant 0 <= k <= |l| && iter == NodeAt(l, k)
      invariant forall j {:trigger Hooked(l, j, was)} :: k <= j < |l| ==> Hooked(l, j, was)
      invariant forall j {:trigger Hooked(l, j, group)} :: 0 <= j < k ==> Hooked(l, j, group)
      invariant forall j :: 0 <= j < |l| ==> Linked(l[j].kids, l[j].node)
      invariant forall n :: n in Nodes(l) ==> n.child == old(n.child)
      decreases |l| - k
    {
      assert Hooked(l, k, was);
      iter.parent := group;
      assert Hooked(l, k, group);
      forall j | 0 <= j < |l| ensures Linked(l[j].kids, l[j].node) {
        assert forall n :: n in Nodes(l[j].kids) ==> n.child == old(n.child);
      }
      iter, k := iter.next, k + 1;
    }
    Fold(l, group);
  }

  /** play_tree_set_child: the siblings of `child` become the children of `pt`, the former
      children lose their parent. */
  method SetChild(pt: Item, child: Item, ghost former: seq<Shape>, ghost l: seq<Shape>, ghost i: nat, ghost was: Item?)
    requires pt.child == First(former) && Linked(former, pt) && Distinct(former)
    requires Linked(l, was) && Distinct(l) && i < |l| && child == l[i].node
    requires pt !in Nodes(former) && pt !in Nodes(l) && Nodes(former) !! Nodes(l)
    modifies pt`child, Heads(former), Heads(l)
    ensures pt.child == First(l) && Linked(l, pt) && Linked(former, null)
    ensures forall n :: n in Nodes(l) && old(allocated(n)) ==> n.child == old(n.child)
  {
    hide Linked, LinkedAt, Distinct, Nodes;
    NodesAllocated(former);
    NodesAllocated(l);
    Reparent(pt.child, null, former, pt);
    assert forall n :: n in Nodes(l) ==> n.child == old(n.child);
    var iter := FirstSibling(child, l, i, was);
    pt.child := iter;
    assert Linked(l, was);
    Reparent(iter, pt, l, was);
    assert forall n :: n in Nodes(former) ==> allocated(n);
  }

  // ---------------------------------------------------------------------------------
  // Cleanup

  /** The playable trees of a list, themselves cleaned. */
  ghost function Cleaned(l: seq<Shape>): seq<Shape> {
    if l == [] then []
    else if Playable(l[0]) then [CleanedTree(l[0])] + Cleaned(l[1..])
    else Cleaned(l[1..])
  }

  ghost function CleanedTree(s: Shape): Shape { s.(kids := Cleaned(s.kids)) }

  /** Entries have no children. */
  ghost predicate Leafy(l: seq<Shape>) {
    forall i :: 0 <= i < |l| ==> (l[i].entry ==> l[i].kids == []) && Leafy(l[i].kids)
  }

  lemma {:induction false} LinkedLeafy(l: seq<Shape>, group: Item?)
    requires Linked(l, group)
    ensures Leafy(l)
    decreases l
  {
    forall i | 0 <= i < |l| ensures (l[i].entry ==> l[i].kids == []) && Leafy(l[i].kids) {
      assert LinkedAt(l, i, group);
      LinkedLeafy(l[i].kids, l[i].node);
    }
  }

  /** The entries of the trees from left to right, each one once. */
  ghost function Leaves(l: seq<Shape>): seq<Shape> {
    if l == [] then []
    else (if l[0].entry then [l[0]] else Leaves(l[0].kids)) + Leaves(l[1..])
  }

  /** A list has entries exactly when something in it can be played. */
  lemma {:induction false} LeavesPlayable(l: seq<Shape>)
    ensures Leaves(l) != [] <==> exists i :: 0 <= i < |l| && Playable(l[i])
    decreases l
  {
    if l != [] {
      LeavesPlayable(l[0].kids);
      LeavesPlayable(l[1..]);
      assert Leaves(l) != [] <==> Playable(l[0]) || Leaves(l[1..]) != [];
      assert forall i :: 0 < i < |l| ==> l[i] == l[1..][i-1];
      if exists i :: 0 <= i < |l| && Playable(l[i]) {
        var i :| 0 <= i < |l| && Playable(l[i]);
        assert i > 0 ==> Playable(l[1..][i-1]);
      }
    }
  }

  /** Cleaning keeps every entry, in its order, behind endless groups too. */
  lemma {:induction false} CleanedLeaves(l: seq<Shape>)
    requires Leafy(l)
    ensures Leaves(Cleaned(l)) == Leaves(l)
    decreases l
  {
    if l != [] {
      CleanedLeaves(l[0].kids);
      CleanedLeaves(l[1..]);
      LeavesPlayable(l[0].kids);
    }
  }

  lemma {:induction false} CleanedClean(l: seq<Shape>)
    ensures Clean(Cleaned(l)) && Nodes(Cleaned(l)) <= Nodes(l)
    ensures (exists i :: 0 <= i < |l| && Playable(l[i])) <==> Cleaned(l) != []
    ensures Cleaned(l) != [] ==> Playable(Cleaned(l)[0])
    decreases l
  {
    if l != [] {
      CleanedClean(l[0].kids);
      CleanedClean(l[1..]);
      SomePlayable(l);
      PlayableCleaned(l[0]);
    }
  }

  lemma SomePlayable(l: seq<Shape>)
    requires l != []
    ensures (exists i :: 0 <= i < |l| && Playable(l[i])) <==>
      Playable(l[0]) || exists i :: 0 <= i < |l[1..]| && Playable(l[1..][i])
  {
    assert forall i :: 0 < i < |l| ==> l[i] == l[1..][i-1];
    if i :| 0 < i < |l| && Playable(l[i]) {
      assert Playable(l[1..][i-1]);
    }
    if i :| 0 <= i < |l[1..]| && Playable(l[1..][i]) {
      assert Playable(l[i+1]);
    }
  }

  lemma PlayableCleaned(s: Shape)
    requires (exists i :: 0 <= i < |s.kids| && Playable(s.kids[i])) ==>
      (Cleaned(s.kids) != [] && Playable(Cleaned(s.kids)[0]))
    ensures Playable(s) ==> Playable(CleanedTree(s))
  {
  }

  lemma {:induction false} CleanedExpands(l: seq<Shape>)
    requires Leafy(l)
    ensures ExpandAll(Cleaned(l)) == ExpandAll(l)
    decreases l, 0
  {
    if l != [] {
      CleanedExpands(l[1..]);
      CleanedTreeExpands(l[0]);
      ThenEmpty(ExpandAll(l[1..]));
    }
  }

  lemma {:induction false} CleanedTreeExpands(s: Shape)
    requires Leafy(s.kids) && (s.entry ==> s.kids == [])
    ensures Playable(s) ==> Expand(CleanedTree(s)) == Expand(s)
    ensures !Playable(s) ==> Expand(s).IsEmpty()
    decreases s, 1
  {
    CleanedExpands(s.kids);
    CleanedClean(s.kids);
    if Rounds(s.loop) > 0 { TimesNothing<Shape>(Rounds(s.loop)); }
  }

  /** Cleaning leaves nothing useless behind, and what is left holds every entry that was there, in
      its order, and plays what it played before. */
  lemma CleanedGood(l: seq<Shape>)
    requires Leafy(l)
    ensures Clean(Cleaned(l)) && Nodes(Cleaned(l)) <= Nodes(l)
    ensures ExpandAll(Cleaned(l)) == ExpandAll(l) && Leaves(Cleaned(l)) == Leaves(l)
    ensures (exists i :: 0 <= i < |l| && Playable(l[i])) <==> Cleaned(l) != []
  {
    CleanedClean(l);
    CleanedExpands(l);
    CleanedLeaves(l);
  }

  lemma CleanedTreeGood(s: Shape)
    requires Leafy(s.kids) && (s.entry ==> s.kids == [])
    ensures Playable(s) ==> Playable(CleanedTree(s)) && Clean(CleanedTree(s).kids)
    ensures Own(CleanedTree(s)) <= Own(s)
    ensures Playable(s) ==> Expand(CleanedTree(s)) == Expand(s)
    ensures !Playable(s) ==> Expand(s).IsEmpty()
  {
    CleanedClean(s.kids);
    PlayableCleaned(s);
    CleanedTreeExpands(s);
  }

  lemma TimesNothing<T>(n: nat)
    ensures Times<T>(n, []) == []
  {
  }

  /** The playable trees of a list. */
  ghost function Keep(l: seq<Shape>): seq<Shape> {
    if l == [] then [] else (if Playable(l[0]) then [l[0]] else []) + Keep(l[1..])
  }

  ghost function CleanAll(l: seq<Shape>): seq<Shape> {
    seq(|l|, i requires 0 <= i < |l| => CleanedTree(l[i]))
  }

  lemma {:induction false} CleanedInTwoPasses(l: seq<Shape>)
    ensures Cleaned(l) == CleanAll(Keep(l))
    ensures forall i :: 0 <= i < |Keep(l)| ==> Playable(Keep(l)[i])
  {
    if l != [] {
      CleanedInTwoPasses(l[1..]);
      assert Playable(l[0]) ==> CleanAll(Keep(l)) == [CleanedTree(l[0])] + CleanAll(Keep(l[1..]));
    }
  }

  lemma KeepNext(kids: seq<Shape>, k: nat, kept: seq<Shape>)
    requires k < |kids| && Keep(kids) == kept + Keep(kids[k..])
    ensures Keep(kids) == (if Playable(kids[k]) then kept + [kids[k]] else kept) + Keep(kids[k+1..])
  {
    hide Playable;
    assert kids[k..][1..] == kids[k+1..] && kids[k..][0] == kids[k];
    KeepHead(kids[k..]);
    hide Keep;
    Regroup(kept, if Playable(kids[k]) then [kids[k]] else [], Keep(kids[k+1..]));
  }

  lemma KeepHead(l: seq<Shape>)
    requires l != []
    ensures Keep(l) == (if Playable(l[0]) then [l[0]] else []) + Keep(l[1..])
  {
  }

  lemma Regroup(a: seq<Shape>, b: seq<Shape>, c: seq<Shape>)
    ensures a + (b + c) == a + b + c
    ensures b == [] ==> a + b == a
  {
  }

  lemma DropAt(kids: seq<Shape>, k: nat, kept: seq<Shape>)
    requires k < |kids|
    ensures kept + [kids[k]] + kids[k+1..] == kept + kids[k..]
    ensures kept + kids[k+1..] == Without(kept + kids[k..], |kept|)
  {
  }

  lemma KeepNothing()
    ensures Keep([]) == []
  {
  }

  /** The first loop of play_tree_cleanup: children with nothing to play are removed. */
  method DropUseless(pt: Item, ghost kids: seq<Shape>) returns (first: Item?)
    requires pt.child == First(kids) && Linked(kids, pt) && Distinct(kids) && pt !in Nodes(kids)
    modifies pt, set n | n in Nodes(kids) :: n
    ensures OnlyChild(pt) && first == pt.child == First(Keep(kids)) && Linked(Keep(kids), pt)
    ensures Distinct(Keep(kids)) && Nodes(Keep(kids)) <= Nodes(kids)
  {
    hide Linked, LinkedAt, Distinct, Keep, Nodes, Playable;
    first := pt.child;
    var iter := pt.child;
    ghost var k, kept, cur := 0, [], kids;
    NodesAllocated(kids);
    assert kids[0..] == kids && kept + kids == kids;
    while iter != null
      invariant 0 <= k <= |kids| && iter == NodeAt(kids, k) && cur == kept + kids[k..]
      invariant Keep(kids) == kept + Keep(kids[k..])
      invariant Linked(cur, pt) && Distinct(cur) && Nodes(cur) <= Nodes(kids)
      invariant OnlyChild(pt) && first == pt.child == First(cur)
      decreases |kids| - k
    {
      KeepNext(kids, k, kept);
      DropAt(kids, k, kept);
      var tmp := iter;
      ghost var at := |kept|;
      assert cur[at] == kids[k] && NodeAt(cur, at + 1) == NodeAt(kids, k + 1);
      Survey(cur, pt);
      assert Hooked(cur, at, pt);
      iter := iter.next;
      var valid := IsValid(tmp, cur, at, pt);
      if !valid {
        DistinctWithout(cur, at);
        FirstWithout(cur, at);
        Remove(tmp, cur, at, pt);
        if tmp == first { first := iter; }
        cur := Without(cur, at);
      } else {
        kept := kept + [kids[k]];
      }
      k := k + 1;
    }
    assert kids[|kids|..] == [];
    KeepNothing();
  }

  /** Only what is below the item `j` of `l` has changed. */
  lemma Replaced(l: seq<Shape>, j: nat, s: Shape, group: Item?)
    requires j < |l| && s.node == l[j].node
    requires forall k {:trigger Hooked(l, k, group)} :: 0 <= k < |l| && k != j ==> Hooked(l, k, group)
    requires forall k :: 0 <= k < |l| && k != j ==> Linked(l[k].kids, l[k].node)
    requires Hooked(l[j := s], j, group) && Linked(s.kids, s.node)
    ensures Linked(l[j := s], group)
  {
    hide Linked, LinkedAt, Nodes;
    var l' := l[j := s];
    forall k | 0 <= k < |l'| ensures Hooked(l', k, group) && Linked(l'[k].kids, l'[k].node) {
      if k != j {
        assert Hooked(l, k, group);
        assert NodeAt(l', k - 1) == NodeAt(l, k - 1) && NodeAt(l', k + 1) == NodeAt(l, k + 1);
      }
    }
    Fold(l', group);
  }

  lemma {:induction false} CleanedNodes(l: seq<Shape>)
    ensures Nodes(Cleaned(l)) <= Nodes(l)
    decreases l
  {
    if l != [] {
      CleanedNodes(l[0].kids);
      CleanedNodes(l[1..]);
    }
  }

  lemma {:induction false} KeepWithin(l: seq<Shape>)
    ensures forall i :: 0 <= i < |Keep(l)| ==> Keep(l)[i] in l
  {
    if l != [] { KeepWithin(l[1..]); }
  }

  /** The body of play_tree_cleanup for a valid item: useless children are removed, the
      others are cleaned in turn. */
  method CleanChildren(pt: Item, ghost kids: seq<Shape>)
    requires pt.child == First(kids) && Linked(kids, pt) && Distinct(kids) && pt !in Nodes(kids)
    modifies pt, set n | n in Nodes(kids) :: n
    ensures OnlyChild(pt) && pt.child == First(Cleaned(kids)) && Linked(Cleaned(kids), pt)
    decreases kids, 1
  {
    hide Linked, LinkedAt, Distinct, Keep, Cleaned, Nodes;
    NodesAllocated(kids);
    CleanedInTwoPasses(kids);
    KeepWithin(kids);
    var first := DropUseless(pt, kids);
    CleanSiblings(first, pt, Keep(kids), kids);
  }

  /** The second loop: cleanup of each child that is left. They are valid, so each keeps its place. */
  method CleanSiblings(first: Item?, ghost pt: Item, ghost l: seq<Shape>, ghost whole: seq<Shape>)
    requires first == First(l) && Linked(l, pt) && Distinct(l) && pt !in Nodes(l)
    requires forall i :: 0 <= i < |l| ==> l[i] in whole
    modifies set n | n in Nodes(l) :: n
    ensures Linked(CleanAll(l), pt)
    decreases whole, 0
  {
    hide Linked, LinkedAt, Distinct, Cleaned, Playable, Nodes;
    Survey(l, pt);
    var iter := first;
    ghost var j, cur := 0, l;
    while iter != null
      invariant 0 <= j <= |l| == |cur| && iter == NodeAt(l, j)
      invariant forall k :: 0 <= k < |l| ==> cur[k] == if k < j then CleanedTree(l[k]) else l[k]
      invariant Linked(cur, pt)
      decreases |l| - j
    {
      var tmp := iter;
      Unfold(cur, pt);
      assert Hooked(cur, j, pt);
      iter := iter.next;
      ghost var m :| 0 <= m < |whole| && whole[m] == l[j];
      CleanOne(tmp, l, j, cur, pt);
      cur := cur[j := CleanedTree(l[j])];
      j := j + 1;
    }
    assert cur == CleanAll(l);
  }

  method CleanOne(tmp: Item, ghost l: seq<Shape>, ghost j: nat, ghost cur: seq<Shape>, ghost pt: Item?)
    requires Distinct(l) && j < |l| == |cur| && tmp == l[j].node && cur[j] == l[j]
    requires forall k :: 0 <= k < |l| ==> cur[k] == l[k] || cur[k] == CleanedTree(l[k])
    requires Linked(cur, pt)
    modifies tmp, set n | n in Nodes(l[j].kids) :: n
    ensures Linked(cur[j := CleanedTree(l[j])], pt)
    decreases l[j].kids, 2
  {
    hide Linked, LinkedAt, Distinct, Cleaned, Playable, Nodes;
    HeadsApart(l);
    Unfold(cur, pt);
    NodesAllocated(cur);
    KidsWithin(cur);
    forall k | 0 <= k < |l| ensures Nodes(cur[k].kids) <= Nodes(l[k].kids) { CleanedNodes(l[k].kids); }
    assert Hooked(cur, j, pt);
    CleanChildren(tmp, l[j].kids);
    forall k | 0 <= k < |l| && k != j ensures Hooked(cur, k, pt) {
      assert old(Hooked(cur, k, pt)) && unchanged(l[k].node);
    }
    forall k | 0 <= k < |l| && k != j ensures Linked(cur[k].kids, cur[k].node) {
      assert forall n :: n in Nodes(cur[k].kids) ==> n.child == old(n.child);
    }
    ghost var s := CleanedTree(l[j]);
    assert s.kids == Cleaned(l[j].kids) && s.node == cur[j].node;
    assert NodeAt(cur[j := s], j - 1) == NodeAt(cur, j - 1) && NodeAt(cur[j := s], j + 1) == NodeAt(cur, j + 1);
    CleanedNothing();
    Replaced(cur, j, s, pt);
  }

  lemma CleanedNothing()
    ensures Cleaned([]) == []
  {
  }

  /** play_tree_cleanup. */
  method Cleanup(pt: Item, ghost l: seq<Shape>, ghost i: nat, ghost group: Item?) returns (r: Item?)
    requires Linked(l, group) && Distinct(l) && i < |l| && pt == l[i].node
    requires group != null ==> group !in Nodes(l) && group.child == First(l)
    modifies pt, (if Playable(l[i]) then {} else {pt.prev, pt.next, pt.parent}), set n | n in Nodes(l[i].kids) :: n
    ensures Playable(l[i]) ==> r == pt && Linked(l[i := CleanedTree(l[i])], group)
    ensures !Playable(l[i]) ==> r == null && Linked(Without(l, i), group)
  {
    hide Linked, LinkedAt, Distinct, Nodes, Playable;
    NodesAllocated(l);
    var valid := IsValid(pt, l, i, group);
    if !valid {
      Remove(pt, l, i, group);
      return null;
    }
    CleanOne(pt, l, i, l, group);
    r := pt;
  }
}
