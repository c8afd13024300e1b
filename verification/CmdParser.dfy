/** The command line parser of parser-mpcmd.c: it hangs items into the tree as it reads. */
module CmdParser {
  import opened Basics
  import C = CommandLine
  import N = Numbers
  import opened Config
  import opened PlayTree
  import opened TreeEdit

  /** A group on the way from the root to where the parser is: its item, and its children
      but for the next group on the way. */
  datatype Level = Level(node: Item, loop: int, before: seq<Shape>)

  ghost function Of(f: Level): set<Item> { {f.node} + Nodes(f.before) }

  /** The items of a level are linked, with `next` at the end of the row. */
  ghost predicate Ends(l: seq<Shape>, k: nat, next: Item?, group: Item)
    requires k < |l|
    reads l[k].node
  {
    var n := l[k].node;
    && n.parent == group && n.child == First(l[k].kids) && Described(l[k])
    && n.prev == NodeAt(l, k - 1)
    && n.next == (if k + 1 == |l| then next else NodeAt(l, k + 1))
  }

  ghost predicate Row(f: Level, next: Item?)
    reads Of(f)
  {
    && f.node.child == (if f.before == [] then next else f.before[0].node)
    && IsGroup(f)
    && (forall k {:trigger Ends(f.before, k, next, f.node)} :: 0 <= k < |f.before| ==> Ends(f.before, k, next, f.node))
    && (forall k :: 0 <= k < |f.before| ==> Linked(f.before[k].kids, f.before[k].node))
  }

  ghost predicate IsGroup(f: Level)
    reads f.node
  {
    f.node.loop == f.loop && f.node.files == [] && f.node.entryType == ENTRY_NODE && !f.node.rnd
  }

  /** `n` is the last child of the level. */
  ghost predicate Tail(n: Item, f: Level)
    reads n
  {
    n.parent == f.node && n.prev == NodeAt(f.before, |f.before| - 1) && n.next == null
  }

  ghost function Next(spine: seq<Level>, i: nat): Item?
    requires i < |spine|
  {
    if i + 1 < |spine| then spine[i+1].node else null
  }

  /** No item is used twice. */
  ghost predicate Separate(spine: seq<Level>) {
    && (forall i :: 0 <= i < |spine| ==> spine[i].node !in Nodes(spine[i].before) && Distinct(spine[i].before))
    && (forall i, j :: 0 <= i < j < |spine| ==> Of(spine[i]) !! Of(spine[j]))
  }

  ghost predicate LevelOk(spine: seq<Level>, i: nat)
    requires i < |spine|
    reads Of(spine[i]), Next(spine, i)
  {
    Row(spine[i], Next(spine, i)) && (i + 1 < |spine| ==> Tail(spine[i+1].node, spine[i]))
  }

  /** All levels but the last are rows that end in the next level. */
  ghost predicate Outer(spine: seq<Level>, items: set<Item>)
    reads items
  {
    && (forall i :: 0 <= i < |spine| ==> Of(spine[i]) <= items)
    && (forall i {:trigger LevelOk(spine, i)} :: 0 <= i < |spine| - 1 ==>
          spine[i+1].node in items && LevelOk(spine, i))
  }

  lemma SeparateAt(spine: seq<Level>, i: nat, j: nat)
    requires Separate(spine) && i < j < |spine|
    ensures Of(spine[i]) !! Of(spine[j]) && spine[i].node in Of(spine[i])
  {
  }

  // ---------------------------------------------------------------------------------
  // The plan that a tree stands for

  ghost function PlanOf(s: Shape): C.Plan
    decreases s, 1
  {
    if s.entry then C.One(s.files) else C.Group(s.loop, PlansOf(s.kids))
  }

  ghost function PlansOf(l: seq<Shape>): seq<C.Plan>
    decreases l, 0
  {
    if l == [] then [] else [PlanOf(l[0])] + PlansOf(l[1..])
  }

  ghost function FramesOf(spine: seq<Level>): seq<C.Frame> {
    seq(|spine|, i requires 0 <= i < |spine| => C.Frame(spine[i].loop, PlansOf(spine[i].before)))
  }

  lemma {:induction false} PlansAt(l: seq<Shape>)
    ensures |PlansOf(l)| == |l| && forall i :: 0 <= i < |l| ==> PlansOf(l)[i] == PlanOf(l[i])
  {
    if l != [] { PlansAt(l[1..]); }
  }

  /** What the parser builds: groups without shuffle, entries with files. */
  ghost predicate Plain(l: seq<Shape>) {
    forall i :: 0 <= i < |l| ==>
      !l[i].rnd && (l[i].entry ==> |l[i].files| == 1 && l[i].kids == []) && Plain(l[i].kids)
  }

  lemma {:induction false} NodesSnoc(l: seq<Shape>, e: Shape)
    ensures Nodes(l + [e]) == Nodes(l) + Own(e)
    ensures Distinct(l) && Own(e) !! Nodes(l) && e.node !in Nodes(e.kids) && Distinct(e.kids) ==> Distinct(l + [e])
  {
    if l == [] {
      assert l + [e] == [e] && [e][1..] == [];
    } else {
      assert (l + [e])[1..] == l[1..] + [e];
      NodesSnoc(l[1..], e);
    }
  }

  class Parser {
    const root: Item
    var lastParent: Item
    var lastEntry: Item?
    ghost var spine: seq<Level>
    ghost var items: set<Item>

    ghost predicate Valid()
      reads this, items
    {
      && spine != [] && Separate(spine) && Outer(spine, items)
      && (forall i :: 0 <= i < |spine| ==> Plain(spine[i].before))
      && Row(spine[|spine|-1], null)
      && root == spine[0].node && root in items && root.parent == null && root.prev == null && root.next == null
      && lastParent == spine[|spine|-1].node
      && lastEntry == NodeAt(spine[|spine|-1].before, |spine[|spine|-1].before| - 1)
    }

    ghost function Frames(): seq<C.Frame>
      reads this
    {
      FramesOf(spine)
    }

    constructor ()
      ensures Valid() && Frames() == C.START && fresh(items)
    {
      var r := new Item();
      root, lastParent, lastEntry := r, r, null;
      spine, items := [Level(r, 0, [])], {r};
    }

    ghost function Here(): Level
      reads this
      requires spine != []
    {
      spine[|spine|-1]
    }

    /** The row that the parser appends to is linked. */
    lemma HereLinked()
      requires Valid()
      ensures Linked(Here().before, lastParent) && lastParent.child == First(Here().before)
      ensures IsGroup(Here()) && lastParent !in Nodes(Here().before) && Distinct(Here().before)
      ensures Nodes(Here().before) <= items && lastParent in items && lastParent in Of(Here())
      ensures lastEntry != null ==> lastEntry in Of(Here())
    {
      assert Of(Here()) <= items;
      var f := Here();
      forall k | 0 <= k < |f.before| ensures Hooked(f.before, k, f.node) {
        assert Ends(f.before, k, null, f.node);
      }
      TreeEdit.Fold(f.before, f.node);
    }

    method HangLast(entry: Item, ghost l: seq<Shape>, ghost e: Shape)
      requires Linked(l, lastParent) && lastParent.child == First(l) && Distinct(l) && lastParent !in Own(e) + Nodes(l)
      requires lastEntry == NodeAt(l, |l| - 1)
      requires Loose(e) && e.node == entry && Own(e) !! Nodes(l) && Distinct(e.kids)
      requires entry.prev == null && entry.next == null
      modifies entry, lastParent`child, lastEntry
      ensures Linked(l + [e], lastParent) && lastParent.child == First(l + [e])
    {
      hide Linked, LinkedAt, Nodes, Distinct;
      if lastEntry == null {
        AloneLinked(e);
        assert l == [];
        SetChild(lastParent, entry, [], [e], 0, entry.parent);
        assert [] + [e] == [e];
      } else {
        Append(lastEntry, entry, l, |l| - 1, lastParent, e);
        assert With(l, |l|, e) == l + [e];
      }
    }

    /** The tree around the group we are in, while a new item is being hung into that group. */
    ghost predicate Hung(e: Shape)
      reads this, items, lastParent, if spine == [] then {} else Nodes(Here().before + [e])
    {
      && spine != [] && Separate(spine) && Outer(spine, items)
      && (forall i :: 0 <= i < |spine| ==> Plain(spine[i].before))
      && lastParent == Here().node && IsGroup(Here())
      && Linked(Here().before + [e], lastParent) && lastParent.child == First(Here().before + [e])
      && root == spine[0].node && root in items && root.parent == null && root.prev == null && root.next == null
    }

    method Attach(entry: Item, ghost e: Shape)
      requires Valid() && Loose(e) && e.node == entry && Own(e) !! items && Distinct(e.kids)
      requires entry.prev == null && entry.next == null
      modifies entry, lastParent, lastEntry
      ensures Hung(e)
    {
      hide Linked, LinkedAt, Nodes, Distinct, Row, Separate, Of, Plain;
      HereLinked();
      ghost var l := Here().before;
      assert lastEntry == NodeAt(l, |l| - 1);
      ghost var t := |spine| - 1;
      forall i | 0 <= i < t ensures Of(spine[i]) !! Of(Here()) && spine[i].node in Of(spine[i]) {
        SeparateAt(spine, i, t);
      }
      assert t > 0 ==> Of(spine[0]) !! Of(Here());
      HangLast(entry, l, e);
      forall i | 0 <= i < t ensures LevelOk(spine, i) {
        assert old(LevelOk(spine, i));
        if i + 1 < t { assert unchanged(spine[i+1].node); }
      }
    }

    /** The bookkeeping after a new item has been hung. */
    ghost method Note(e: Shape)
      requires Hung(e) && lastEntry == e.node
      requires Own(e) !! items && e.node !in Nodes(e.kids) && Distinct(e.kids) && Plain([e])
      modifies this`spine, this`items
      ensures Valid() && spine == Grown(old(spine), e) && items == old(items) + Own(e)
    {
      hide Linked, LinkedAt, Nodes, Distinct, Row, Tail, Separate, Plain, LevelOk;
      assert forall i :: 0 <= i < |spine| ==> Of(spine[i]) <= items;
      RowOf(Here(), e);
      GrowSeparate(spine, e);
      GrowPlain(spine, e);
      ghost var was := spine;
      spine := Grown(spine, e);
      items := items + Own(e);
      GrowOuter(was, e, items);
    }

    /** add_entry: a new item becomes the last child of the group we are in. */
    method AddEntry(entry: Item, ghost e: Shape)
      requires Valid() && Loose(e) && e.node == entry && Own(e) !! items && Distinct(e.kids) && Plain([e])
      requires entry.prev == null && entry.next == null
      modifies this`lastEntry, this`spine, this`items, entry, lastParent, lastEntry
      ensures Valid() && spine == Grown(old(spine), e) && items == old(items) + Own(e)
    {
      hide Linked, LinkedAt, Nodes, Distinct, Row, Tail, Separate, Plain, LevelOk, Outer;
      OwnAllocated(e);
      NodesAllocated(Here().before + [e]);
      Attach(entry, e);
      lastEntry := entry;
      Note(e);
    }

    /** A file name: an entry at the end of the group we are in. */
    method AddFile(name: string)
      requires Valid()
      modifies this, lastParent, lastEntry
      ensures Valid() && fresh(items - old(items))
      ensures C.Take(old(Frames()), C.File(name)) == Just(Frames())
    {
      hide Linked, LinkedAt, Nodes, Distinct, Row, Tail, Separate, Plain, Outer, LevelOk;
      var entry, e := NewFile(name);
      GrowFrames(spine, e);
      AddEntry(entry, e);
    }

    /** An opening brace: a new group is hung, and becomes the group we are in. */
    method OpenGroup()
      requires Valid()
      modifies this, lastParent, lastEntry
      ensures Valid() && fresh(items - old(items))
      ensures C.Take(old(Frames()), C.Open) == Just(Frames())
    {
      hide Linked, LinkedAt, Nodes, Distinct, Row, Tail, Separate, Plain, LevelOk, Of;
      var entry, e := NewGroup();
      ghost var was := spine;
      AddEntry(entry, e);
      assert Of(spine[|was|-1]) <= items;
      lastEntry := null;
      lastParent := entry;
      EnteredOk(was, e, items);
      spine := Entered(was, e);
      assert Of(spine[|was|]) <= items;
      EnterFrames(was, e);
      EnterPlain(was, e);
    }

    /** A closing brace: back to the group around, unless we are in the root. */
    method CloseGroup() returns (ok: bool)
      requires Valid()
      modifies this
      ensures Valid() && items == old(items)
      ensures C.Take(old(Frames()), C.Close) == if ok then Just(Frames()) else Nothing
      ensures !ok ==> Frames() == old(Frames())
    {
      hide Linked, LinkedAt, Nodes, Distinct, Row, Separate, Plain, Of;
      ghost var t := |spine| - 1;
      assert t > 0 ==> LevelOk(spine, t - 1);
      if lastParent.parent == null {
        return false;
      }
      ghost var was, e := spine[..t], ShapeOf(spine[t]);
      assert spine == Entered(was, e);
      assert Of(spine[t]) <= items && Of(spine[t-1]) <= items;
      lastEntry := lastParent;
      lastParent := lastEntry.parent;
      ClosedOk(was, e, items);
      ClosedPlain(was, e);
      ClosedFrames(was, e);
      spine := Grown(was, e);
      ok := true;
    }

    /** The row we are in, with its links alone. */
    lemma HereRow()
      requires Valid()
      ensures var f := Here();
        && (forall k {:trigger Ends(f.before, k, null, f.node)} :: 0 <= k < |f.before| ==>
              Ends(f.before, k, null, f.node))
        && (forall k :: 0 <= k < |f.before| ==> Linked(f.before[k].kids, f.before[k].node))
        && (forall j, k :: 0 <= j < |f.before| && 0 <= k < |f.before| ==> f.before[k].node !in Nodes(f.before[j].kids))
        && (forall j, k :: 0 <= j < k < |f.before| ==> f.before[k].node != f.before[j].node)
        && (forall k :: 0 <= k < |f.before| ==> f.before[k].node != f.node && f.node !in Nodes(f.before[k].kids))
        && (forall k :: 0 <= k < |f.before| ==> Nodes(f.before[k].kids) <= items)
        && f.node.child == First(f.before) && IsGroup(f) && Of(f) <= items
      ensures forall i :: 0 <= i < |spine| - 1 ==> Of(spine[i]) !! Of(Here()) && spine[i].node in Of(spine[i])
    {
      var f := Here();
      HeadsApart(f.before);
      KidsWithin(f.before);
      assert Of(f) <= items;
      forall i | 0 <= i < |spine| - 1 ensures Of(spine[i]) !! Of(Here()) && spine[i].node in Of(spine[i]) {
        SeparateAt(spine, i, |spine| - 1);
      }
    }

    /** `-loop` for the group we are in. */
    method LoopHere(l: int)
      requires Valid() && lastEntry == null
      modifies lastParent, this`spine
      ensures Valid() && items == old(items)
      ensures spine == old(spine)[|old(spine)|-1 := old(Here()).(loop := l)]
    {
      hide Linked, LinkedAt, Nodes, Distinct, Plain;
      HereRow();
      ghost var t, f := |spine| - 1, Here();
      hide Of, Separate;
      lastParent.loop := l;
      ghost var f' := f.(loop := l);
      assert f.before == [];
      SeparateLoop(spine, f');
      forall i | 0 <= i < t ensures LevelOk(spine, i) {
        assert old(LevelOk(spine, i));
        if i + 1 < t { assert unchanged(spine[i+1].node); }
      }
      ghost var was := spine;
      spine := spine[t := f'];
      OuterLoop(was, f', items);
    }

    /** `-loop` for the last entry: its loop count when it is a group with children, else a
        parameter of it. */
    method LoopLast(n: int, l: int)
      requires Valid() && lastEntry != null
      modifies lastEntry, this`spine
      ensures Valid() && items == old(items) && old(Here()).before != []
      ensures spine == old(spine)[|old(spine)|-1 := Relooped(old(Here()), l)]
    {
      hide Linked, LinkedAt, Nodes, Distinct, Plain, Row, Ends;
      HereRow();
      ghost var t, f := |spine| - 1, Here();
      ghost var k := |f.before| - 1;
      assert lastEntry == NodeAt(f.before, k) && lastEntry in Of(f);
      ghost var f' := Relooped(f, l);
      ReloopedSeparate(spine, l);
      hide Of, Separate;
      EditLast(lastEntry, f, n, l);
      forall i | 0 <= i < t ensures spine[i+1].node in items && LevelOk(spine, i) {
        assert old(LevelOk(spine, i));
      }
      assert unchanged(root);
      OuterLoop(spine, f', items);
      hide Outer;
      spine := spine[t := f'];
    }

    /** What the parser may write belongs to the tree. */
    lemma Inside()
      requires Valid()
      ensures lastParent in items && (lastEntry != null ==> lastEntry in items)
    {
      assert Of(Here()) <= items;
    }

    method TakeArg(arg: C.Arg) returns (ok: bool)
      requires Valid()
      modifies this, lastParent, lastEntry
      ensures Valid() && fresh(items - old(items))
      ensures C.Take(old(Frames()), arg) == if ok then Just(Frames()) else Nothing
    {
      hide Row, Separate, Outer, Plain, Of, LevelOk;
      ok := true;
      match arg
      case File(name) => AddFile(name);
      case Open => OpenGroup();
      case Close => ok := CloseGroup();
      case Loop(text) =>
        LoopTaken(spine, text);
        LastEntryIs();
        if lastEntry == null || lastEntry.child != null {
          var l := C.GroupLoop(text);
          if l.Nothing? {
            return false;
          }
          if lastEntry == null {
            LoopHere(l.value);
          } else {
            LoopLast(0, l.value);
          }
        } else {
          var n := C.EntryLoop(text);
          if n.Nothing? {
            return false;
          }
          LoopLast(n.value, 0);
        }
    }

    /** The last entry, as the row knows it. */
    lemma LastEntryIs()
      requires Valid()
      ensures lastEntry == null <==> Here().before == []
      ensures lastEntry != null ==>
        (lastEntry.child != null <==> Here().before[|Here().before| - 1].kids != [])
    {
      HereRow();
      if lastEntry != null {
        assert Ends(Here().before, |Here().before| - 1, null, Here().node);
      }
    }
  }

  /** `-loop` as the plan sees it. */
  lemma LoopTaken(spine: seq<Level>, text: Maybe<string>)
    requires spine != [] && Plain(spine[|spine|-1].before)
    ensures var t := |spine| - 1;
      C.Take(FramesOf(spine), C.Loop(text)) ==
      if spine[t].before != [] && spine[t].before[|spine[t].before| - 1].kids == [] then
        if C.EntryLoop(text).Nothing? then Nothing else Just(FramesOf(spine[t := Relooped(spine[t], 0)]))
      else if C.GroupLoop(text).Nothing? then Nothing
      else
        var l := C.GroupLoop(text).value;
        Just(FramesOf(spine[t := if spine[t].before == [] then spine[t].(loop := l) else Relooped(spine[t], l)]))
  {
    hide C.GroupLoop, C.EntryLoop;
    var t := |spine| - 1;
    var b := spine[t].before;
    LastPlace(spine);
    if b == [] {
      if C.GroupLoop(text).Just? {
        var l := C.GroupLoop(text).value;
        assert FramesOf(spine[t := spine[t].(loop := l)]) == FramesOf(spine)[t := C.Frame(l, PlansOf(b))];
      }
    } else if b[|b| - 1].kids == [] {
      assert Relooped(spine[t], 0) == spine[t] && spine[t := spine[t]] == spine;
    } else if C.GroupLoop(text).Just? {
      LoopedFrames(spine, C.GroupLoop(text).value);
    }
  }

  /** What `-loop` is for, in the plan's frames and on the spine. */
  lemma LastPlace(spine: seq<Level>)
    requires spine != [] && Plain(spine[|spine|-1].before)
    ensures var t := |spine| - 1; (C.PlaceOf(FramesOf(spine)[t]) ==
      if spine[t].before == [] then C.Fresh
      else if spine[t].before[|spine[t].before| - 1].kids == [] then C.BehindEntry else C.BehindGroup)
  {
    var b := spine[|spine| - 1].before;
    PlansAt(b);
    if b != [] {
      var k := |b| - 1;
      assert PlansOf(b)[k] == PlanOf(b[k]) && (b[k].entry ==> b[k].kids == []);
      PlansAt(b[k].kids);
    }
  }

  lemma LoopedFrames(spine: seq<Level>, l: int)
    requires spine != [] && Plain(spine[|spine|-1].before)
    requires var b := spine[|spine|-1].before; b != [] && b[|b| - 1].kids != []
    ensures var t := |spine| - 1;
      (C.PlaceOf(FramesOf(spine)[t]).BehindGroup?
      && FramesOf(spine[t := Relooped(spine[t], l)]) == FramesOf(spine)[t := C.Relooped(FramesOf(spine)[t], l)])
  {
    var t := |spine| - 1;
    var b := spine[t].before;
    var f := Relooped(spine[t], l);
    LastPlace(spine);
    PlansAt(b);
    assert PlansOf(b)[|b| - 1] == PlanOf(b[|b| - 1]);
    ReloopedPlans(spine[t], l);
    assert FramesOf(spine[t := f]) == FramesOf(spine)[t := C.Frame(f.loop, PlansOf(f.before))];
  }

  lemma ReloopedPlans(f: Level, l: int)
    requires f.before != [] && f.before[|f.before| - 1].kids != [] && !f.before[|f.before| - 1].entry
    ensures |PlansOf(f.before)| == |f.before|
    ensures var k := |f.before| - 1;
      PlansOf(Relooped(f, l).before) == PlansOf(f.before)[k := C.Group(l, PlansOf(f.before[k].kids))]
  {
    PlansAt(f.before);
    PlansAt(Relooped(f, l).before);
  }

  method EditLast(last: Item, ghost f: Level, n: int, l: int)
    requires Row(f, null) && Distinct(f.before) && f.node !in Nodes(f.before)
    requires f.before != [] && last == f.before[|f.before|-1].node
    modifies last`loop, last`params
    ensures Row(Relooped(f, l), null)
  {
    hide Linked, LinkedAt, Nodes, Distinct;
    HeadsApart(f.before);
    KidsWithin(f.before);
    NodesAllocated(f.before);
    ghost var k, f' := |f.before| - 1, Relooped(f, l);
    assert Ends(f.before, k, null, f.node);
    if last.child != null {
      last.loop := l;
    } else {
      last.params := last.params + [SubParam("loop", Parsed(1, N.IntText(n)))];
    }
    forall j | 0 <= j < |f'.before| ensures Ends(f'.before, j, null, f.node) {
      assert old(Ends(f.before, j, null, f.node));
      if j < k { assert unchanged(f.before[j].node); }
    }
    forall j | 0 <= j < |f'.before| ensures Linked(f'.before[j].kids, f'.before[j].node) {
      assert f'.before[j].kids == f.before[j].kids && f'.before[j].node == f.before[j].node;
    }
  }

  /** The level with the loop count of its last group set. */
  ghost function Relooped(f: Level, l: int): Level {
    var k := |f.before| - 1;
    if k < 0 || f.before[k].kids == [] then f else f.(before := f.before[k := f.before[k].(loop := l)])
  }

  lemma ReloopedSeparate(spine: seq<Level>, l: int)
    requires spine != [] && Separate(spine)
    ensures var t := |spine| - 1; var f := Relooped(spine[t], l);
      Separate(spine[t := f]) && Of(f) == Of(spine[t])
    ensures var t := |spine| - 1;
      forall i :: 0 <= i < |spine| && Plain(spine[i].before) ==> Plain(spine[t := Relooped(spine[t], l)][i].before)
  {
    var t := |spine| - 1;
    var f := Relooped(spine[t], l);
    SameNodes(spine[t].before, f.before);
    SeparateLoop(spine, f);
  }

  lemma {:induction false} SameNodes(a: seq<Shape>, b: seq<Shape>)
    requires |a| == |b| && forall j :: 0 <= j < |a| ==> a[j].node == b[j].node && a[j].kids == b[j].kids
    ensures Nodes(a) == Nodes(b) && (Distinct(a) <==> Distinct(b))
  {
    if a != [] {
      assert forall j :: 1 <= j < |a| ==> a[j] == a[1..][j-1] && b[j] == b[1..][j-1];
      SameNodes(a[1..], b[1..]);
    }
  }

  /** The loop counts of a level and of its last group say nothing about links. */
  lemma SeparateLoop(spine: seq<Level>, f: Level)
    requires spine != [] && Separate(spine)
    requires var t := |spine| - 1;
      f.node == spine[t].node && Nodes(f.before) == Nodes(spine[t].before) && Distinct(f.before)
    ensures Separate(spine[|spine|-1 := f]) && Of(f) == Of(spine[|spine|-1])
  {
  }

  lemma OuterLoop(was: seq<Level>, f: Level, items: set<Item>)
    requires was != [] && Outer(was, items)
    requires f.node == was[|was|-1].node && Of(f) == Of(was[|was|-1])
    ensures Outer(was[|was|-1 := f], items)
  {
    var t := |was| - 1;
    var spine := was[t := f];
    hide Row, Tail, Of;
    forall i | 0 <= i < |spine| ensures Of(spine[i]) <= items {
      assert Of(was[i]) <= items;
    }
    forall i | 0 <= i < t ensures spine[i+1].node in items && LevelOk(spine, i) {
      assert LevelOk(was, i) && was[i+1].node in items;
      assert spine[i] == was[i] && spine[i+1].node == was[i+1].node && Next(spine, i) == Next(was, i);
    }
  }

  ghost function ShapeOf(f: Level): Shape { Shape(f.node, f.loop, false, false, [], f.before) }

  lemma ClosedFrames(was: seq<Level>, e: Shape)
    requires was != [] && !e.entry
    ensures FramesOf(Grown(was, e)) == C.Fold(FramesOf(Entered(was, e)))
  {
    GrowFrames(was, e);
    var open := FramesOf(Entered(was, e));
    assert open[..|was|-1] == FramesOf(was)[..|was|-1];
    assert C.Fold(open) == FramesOf(Grown(was, e));
  }

  lemma ClosedPlain(was: seq<Level>, e: Shape)
    requires was != [] && !e.rnd && !e.entry
    requires forall i :: 0 <= i < |was| + 1 ==> Plain(Entered(was, e)[i].before)
    ensures forall i :: 0 <= i < |was| ==> Plain(Grown(was, e)[i].before)
  {
    var t := |was| - 1;
    forall i | 0 <= i < |was| ensures Plain(Grown(was, e)[i].before) {
      assert Plain(Entered(was, e)[i].before) && Entered(was, e)[i] == was[i];
      assert Plain(Entered(was, e)[t+1].before);
    }
  }

  lemma ClosedRow(f: Level, e: Shape)
    requires Row(f, e.node) && Tail(e.node, f) && Row(Level(e.node, e.loop, e.kids), null)
    requires !e.entry && e.files == [] && !e.rnd
    ensures Row(f.(before := f.before + [e]), null)
  {
    RowLinked(Level(e.node, e.loop, e.kids));
    var l := f.before + [e];
    forall k | 0 <= k < |l| ensures Ends(l, k, null, f.node) && Linked(l[k].kids, l[k].node) {
      if k < |f.before| {
        assert Ends(f.before, k, e.node, f.node);
        assert l[k] == f.before[k] && NodeAt(l, k - 1) == NodeAt(f.before, k - 1);
        assert k + 1 < |f.before| ==> l[k+1] == f.before[k+1];
      } else {
        assert l[k] == e && NodeAt(l, k - 1) == NodeAt(f.before, k - 1);
      }
    }
  }

  lemma SeparateClose(was: seq<Level>, e: Shape)
    requires was != [] && Separate(Entered(was, e))
    ensures Separate(Grown(was, e)) && Of(Grown(was, e)[|was|-1]) == Of(was[|was|-1]) + Own(e)
  {
    var spine := Entered(was, e);
    var n := |was|;
    assert spine[n].node !in Nodes(spine[n].before) && Distinct(spine[n].before);
    forall i | 0 <= i < n
      ensures Of(was[i]) !! Own(e) && was[i].node !in Nodes(was[i].before) && Distinct(was[i].before)
    {
      assert Of(spine[i]) !! Of(spine[n]) && spine[i] == was[i];
    }
    forall i, j | 0 <= i < j < n ensures Of(was[i]) !! Of(was[j]) {
      assert Of(spine[i]) !! Of(spine[j]) && spine[i] == was[i] && spine[j] == was[j];
    }
    GrowSeparate(was, e);
  }

  lemma ClosedOk(was: seq<Level>, e: Shape, items: set<Item>)
    requires was != [] && !e.entry && e.files == [] && !e.rnd
    requires var spine := Entered(was, e); Outer(spine, items) && Row(spine[|was|], null) && Separate(spine)
    ensures var grown := Grown(was, e); Outer(grown, items) && Row(grown[|was|-1], null) && Separate(grown)
  {
    var t := |was| - 1;
    var grown, spine := Grown(was, e), Entered(was, e);
    SeparateClose(was, e);
    assert LevelOk(spine, t) && spine[t] == was[t] && Next(spine, t) == e.node;
    ClosedRow(was[t], e);
    assert Of(spine[t+1]) == Own(e);
    hide Row, Tail, Of, Own, Linked, LinkedAt, Separate;
    forall i | 0 <= i < |grown| ensures Of(grown[i]) <= items {
      assert Of(spine[i]) <= items && Of(spine[t+1]) <= items;
      if i < t { assert grown[i] == spine[i]; }
    }
    forall i | 0 <= i < |grown| - 1 ensures grown[i+1].node in items && LevelOk(grown, i) {
      assert LevelOk(spine, i) && spine[i+1].node in items;
      assert spine[i] == grown[i] && Next(spine, i) == Next(grown, i) && grown[i+1].node == spine[i+1].node;
    }
  }

  /** Inside the group `e` that hangs at the end of the row. */
  ghost function Entered(spine: seq<Level>, e: Shape): seq<Level> {
    spine + [Level(e.node, e.loop, e.kids)]
  }

  lemma EnterFrames(spine: seq<Level>, e: Shape)
    ensures FramesOf(Entered(spine, e)) == FramesOf(spine) + [C.Frame(e.loop, PlansOf(e.kids))]
  {
  }

  lemma EnterPlain(was: seq<Level>, e: Shape)
    requires was != [] && forall i :: 0 <= i < |was| ==> Plain(Grown(was, e)[i].before)
    ensures forall i :: 0 <= i < |was| + 1 ==> Plain(Entered(was, e)[i].before)
  {
    var t := |was| - 1;
    var l := Grown(was, e)[t].before;
    assert l[|l|-1] == e;
    forall i | 0 <= i < |was| + 1 ensures Plain(Entered(was, e)[i].before) {
      if i < t { assert Grown(was, e)[i] == was[i]; }
      if i == t { assert forall k :: 0 <= k < |was[t].before| ==> l[k] == was[t].before[k]; }
    }
  }

  /** A row that ends in nothing is a linked list of children. */
  lemma RowLinked(f: Level)
    requires Row(f, null)
    ensures Linked(f.before, f.node) && f.node.child == First(f.before) && IsGroup(f)
  {
    forall k | 0 <= k < |f.before| ensures Hooked(f.before, k, f.node) {
      assert Ends(f.before, k, null, f.node);
    }
    TreeEdit.Fold(f.before, f.node);
  }

  /** The inside of a group seen as a row. */
  lemma InsideRow(e: Shape, l: seq<Shape>, k: nat, group: Item)
    requires k < |l| && l[k] == e && LinkedAt(l, k, group) && !e.entry && e.files == [] && !e.rnd
    ensures Row(Level(e.node, e.loop, e.kids), null)
  {
    Unfold(e.kids, e.node);
    forall j | 0 <= j < |e.kids| ensures Ends(e.kids, j, null, e.node) {
      assert Hooked(e.kids, j, e.node);
    }
  }

  lemma SeparateEnter(was: seq<Level>, e: Shape)
    requires was != [] && Separate(Grown(was, e))
    ensures Separate(Entered(was, e))
    ensures Of(Grown(was, e)[|was|-1]) == Of(was[|was|-1]) + Own(e)
    ensures Of(Level(e.node, e.loop, e.kids)) == Own(e)
  {
    var t := |was| - 1;
    var grown, spine := Grown(was, e), Entered(was, e);
    assert grown[t].before == was[t].before + [e] && Distinct(grown[t].before);
    NodesSnoc(was[t].before, e);
    DistinctUnsnoc(was[t].before, e);
    assert Of(grown[t]) == Of(was[t]) + Own(e) && was[t].node !in Own(e);
    forall i, j | 0 <= i < j < |spine| ensures Of(spine[i]) !! Of(spine[j]) {
      if i < t {
        assert Of(grown[i]) !! Of(grown[t]) && spine[i] == grown[i];
        if j < t { assert Of(grown[i]) !! Of(grown[j]) && spine[j] == grown[j]; }
      }
    }
    forall i | 0 <= i < |spine| ensures spine[i].node !in Nodes(spine[i].before) && Distinct(spine[i].before) {
      if i < t { assert grown[i] == spine[i]; }
    }
  }

  lemma {:induction false} DistinctUnsnoc(l: seq<Shape>, e: Shape)
    requires Distinct(l + [e])
    ensures Distinct(l) && Own(e) !! Nodes(l) && e.node !in Nodes(e.kids) && Distinct(e.kids)
  {
    if l == [] {
      assert l + [e] == [e];
    } else {
      assert (l + [e])[1..] == l[1..] + [e];
      DistinctUnsnoc(l[1..], e);
      NodesSnoc(l[1..], e);
    }
  }

  /** Standing after a group and standing inside it are two views of the same tree. */
  lemma EnteredOk(was: seq<Level>, e: Shape, items: set<Item>)
    requires was != [] && !e.entry && e.files == [] && !e.rnd
    requires var grown := Grown(was, e); Outer(grown, items) && Row(grown[|was|-1], null) && Separate(grown)
    ensures var spine := Entered(was, e); Outer(spine, items) && Row(spine[|was|], null) && Separate(spine)
  {
    var t := |was| - 1;
    var grown, spine := Grown(was, e), Entered(was, e);
    EnteredTop(was, e);
    hide Row, Tail, Of, Separate;
    forall i | 0 <= i < |spine| ensures Of(spine[i]) <= items {
      assert Of(grown[t]) <= items;
      if i < t { assert Of(grown[i]) <= items; }
    }
    forall i | 0 <= i < |spine| - 1 ensures spine[i+1].node in items && LevelOk(spine, i) {
      if i < t {
        assert LevelOk(grown, i);
        assert spine[i] == grown[i] && Next(spine, i) == Next(grown, i);
      } else {
        assert spine[t+1].node in Of(grown[t]) && Of(grown[t]) <= items;
      }
    }
  }

  /** The two innermost levels then. */
  lemma EnteredTop(was: seq<Level>, e: Shape)
    requires was != [] && !e.entry && e.files == [] && !e.rnd
    requires var grown := Grown(was, e); Row(grown[|was|-1], null) && Separate(grown)
    ensures var t, spine := |was| - 1, Entered(was, e);
      && Separate(spine) && Row(spine[t+1], null) && LevelOk(spine, t)
      && Of(spine[t]) <= Of(Grown(was, e)[t]) && Of(spine[t+1]) <= Of(Grown(was, e)[t])
      && spine[t+1].node in Of(Grown(was, e)[t])
  {
    var t := |was| - 1;
    var f := Grown(was, e)[t];
    SeparateEnter(was, e);
    RowLinked(f);
    assert f.before == was[t].before + [e];
    RowOf(was[t], e);
    assert LinkedAt(f.before, |f.before| - 1, f.node);
    InsideRow(e, f.before, |f.before| - 1, f.node);
  }

  method NewGroup() returns (entry: Item, ghost e: Shape)
    ensures fresh(entry) && e == Shape(entry, 0, false, false, [], []) && Own(e) == {entry}
    ensures Loose(e) && Distinct(e.kids) && Plain([e]) && entry.prev == null && entry.next == null
  {
    entry := new Item();
    e := Shape(entry, 0, false, false, [], []);
  }

  method NewFile(name: string) returns (entry: Item, ghost e: Shape)
    ensures fresh(entry) && e == Shape(entry, 0, true, false, [name], []) && Own(e) == {entry}
    ensures Loose(e) && Distinct(e.kids) && Plain([e]) && entry.prev == null && entry.next == null
  {
    entry := new Item();
    entry.files := entry.files + [name];
    entry.entryType := ENTRY_FILE;
    e := Shape(entry, 0, true, false, [name], []);
  }

  /** The row with `e` at its end. */
  lemma RowOf(f: Level, e: Shape)
    requires Linked(f.before + [e], f.node) && f.node.child == First(f.before + [e]) && IsGroup(f)
    ensures Row(f.(before := f.before + [e]), null)
    ensures Row(f, e.node) && Tail(e.node, f)
  {
    var l := f.before + [e];
    Unfold(l, f.node);
    forall k | 0 <= k < |l| ensures Ends(l, k, null, f.node) {
      assert Hooked(l, k, f.node);
    }
    forall k | 0 <= k < |f.before|
      ensures Ends(f.before, k, e.node, f.node) && Linked(f.before[k].kids, f.before[k].node)
    {
      assert Hooked(l, k, f.node);
      assert l[k] == f.before[k] && NodeAt(l, k - 1) == NodeAt(f.before, k - 1);
      assert k + 1 < |f.before| ==> l[k+1] == f.before[k+1];
    }
    assert Hooked(l, |l| - 1, f.node) && NodeAt(l, |l| - 2) == NodeAt(f.before, |f.before| - 1);
  }

  lemma GrowPlain(spine: seq<Level>, e: Shape)
    requires spine != [] && Plain([e]) && forall i :: 0 <= i < |spine| ==> Plain(spine[i].before)
    ensures forall i :: 0 <= i < |spine| ==> Plain(Grown(spine, e)[i].before)
  {
    assert [e][0] == e;
  }

  lemma GrowFrames(spine: seq<Level>, e: Shape)
    requires spine != []
    ensures var f := FramesOf(spine)[|spine|-1];
      FramesOf(Grown(spine, e)) == FramesOf(spine)[|spine|-1 := f.(kids := f.kids + [PlanOf(e)])]
  {
    PlansSnoc(spine[|spine|-1].before, e);
  }

  lemma {:induction false} PlansSnoc(l: seq<Shape>, e: Shape)
    ensures PlansOf(l + [e]) == PlansOf(l) + [PlanOf(e)]
  {
    if l == [] {
      assert l + [e] == [e] && [e][1..] == [];
    } else {
      assert (l + [e])[1..] == l[1..] + [e];
      PlansSnoc(l[1..], e);
    }
  }

  lemma GrownParts(was: seq<Level>, e: Shape)
    requires was != []
    ensures var spine := Grown(was, e);
      |spine| == |was| && spine[|was|-1].node == was[|was|-1].node && spine[..|was|-1] == was[..|was|-1]
    ensures forall i :: 0 <= i < |was| - 1 ==> Grown(was, e)[i] == was[i]
  {
  }

  lemma GrowOuter(was: seq<Level>, e: Shape, items: set<Item>)
    requires was != [] && Outer(was, items) && Own(e) <= items
    requires Of(Grown(was, e)[|was|-1]) == Of(was[|was|-1]) + Own(e)
    ensures Outer(Grown(was, e), items)
  {
    GrownParts(was, e);
    var spine, t := Grown(was, e), |was| - 1;
    assert Of(spine[t]) == Of(was[t]) + Own(e);
    hide Row, Tail, Of, Own, Grown, Nodes;
    forall i | 0 <= i < |spine| ensures Of(spine[i]) <= items {
      assert Of(was[i]) <= items;
      if i < t { assert spine[i] == was[i]; }
    }
    forall i | 0 <= i < |was| - 1 ensures spine[i+1].node in items && LevelOk(spine, i) {
      assert LevelOk(was, i);
      assert spine[i] == was[i] && spine[i+1].node == was[i+1].node && Next(spine, i) == Next(was, i);
    }
  }

  ghost function Grown(spine: seq<Level>, e: Shape): seq<Level>
    requires spine != []
  {
    var t := |spine| - 1;
    spine[t := spine[t].(before := spine[t].before + [e])]
  }

  lemma GrowSeparate(spine: seq<Level>, e: Shape)
    requires spine != [] && Separate(spine) && e.node !in Nodes(e.kids) && Distinct(e.kids)
    requires forall i :: 0 <= i < |spine| ==> Of(spine[i]) !! Own(e)
    ensures Separate(Grown(spine, e))
    ensures Of(Grown(spine, e)[|spine|-1]) == Of(spine[|spine|-1]) + Own(e)
  {
    var t := |spine| - 1;
    NodesSnoc(spine[t].before, e);
    assert Of(spine[t]) !! Own(e);
  }

  lemma AloneLinked(e: Shape)
    requires Loose(e) && e.node.prev == null && e.node.next == null
    ensures Linked([e], e.node.parent) && Nodes([e]) == Own(e)
    ensures Distinct(e.kids) ==> Distinct([e])
    ensures Linked([], null) && Nodes([]) == {} && Distinct([])
  {
    assert Hooked([e], 0, e.node.parent);
    TreeEdit.Fold([e], e.node.parent);
    assert [e][1..] == [];
  }

  // ---------------------------------------------------------------------------------
  // The whole tree

  /** The tree once all open groups end. */
  ghost function Collapse(spine: seq<Level>): Shape
    requires spine != []
    decreases |spine|
  {
    var t := |spine| - 1;
    if t == 0 then ShapeOf(spine[0]) else Collapse(Grown(spine[..t], ShapeOf(spine[t])))
  }

  lemma {:induction false} CollapseOk(spine: seq<Level>, items: set<Item>)
    requires spine != [] && Outer(spine, items) && Row(spine[|spine|-1], null) && Separate(spine)
    requires forall i :: 0 <= i < |spine| ==> Plain(spine[i].before)
    requires var r := spine[0].node; r in items && r.parent == null && r.prev == null && r.next == null
    ensures var s := Collapse(spine);
      && s.node == spine[0].node && Linked([s], null) && Distinct([s]) && Plain([s]) && Nodes([s]) <= items
      && PlanOf(s) == C.Whole(FramesOf(spine))
    decreases |spine|
  {
    var t := |spine| - 1;
    if t == 0 {
      var s := ShapeOf(spine[0]);
      RowLinked(spine[0]);
      assert [s][1..] == [];
      assert Hooked([s], 0, null);
      TreeEdit.Fold([s], null);
      assert FramesOf(spine)[0] == C.Frame(s.loop, PlansOf(s.kids));
    } else {
      var was, e := spine[..t], ShapeOf(spine[t]);
      assert spine == Entered(was, e);
      ClosedOk(was, e, items);
      ClosedPlain(was, e);
      ClosedFrames(was, e);
      CollapseOk(Grown(was, e), items);
    }
  }

  /** m_config_parse_mp_command_line, on file names, braces and group loops. Groups that are
      still open at the end only draw a warning. */
  method ParseCommandLine(args: seq<C.Arg>) returns (root: Item?, ghost s: Shape)
    ensures root == null <==> C.Parse(args) == Nothing
    ensures root != null ==>
      && s.node == root && Linked([s], null) && Distinct([s]) && Plain([s])
      && C.Parse(args) == Just(PlanOf(s)) && fresh(Nodes([s]))
  {
    hide Row, Separate, Outer, Linked, Distinct, Nodes, Plain, Of, LevelOk;
    var p := new Parser();
    s := ShapeOf(p.spine[0]);
    var i := 0;
    while i < |args|
      invariant 0 <= i <= |args| && p.Valid() && fresh(p) && fresh(p.items)
      invariant p.Frames() != [] && C.TakeAll(p.Frames(), args[i..]) == C.TakeAll(C.START, args)
    {
      ghost var rest := args[i..];
      assert rest[0] == args[i] && rest[1..] == args[i+1..];
      p.Inside();
      var ok := p.TakeArg(args[i]);
      if !ok {
        return null, s;
      }
      i := i + 1;
    }
    root := p.root;
    s := Collapse(p.spine);
    CollapseOk(p.spine, p.items);
  }
}
