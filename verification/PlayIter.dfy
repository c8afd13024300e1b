/** The playlist iterator of playtree.c, walking a tree that is not shuffled. */
module PlayIter {
  import opened Basics
  import opened Config
  import opened ConfigLevels
  import opened ConfigUndo
  import opened ConfigStore
  import opened PlayTree
  import opened Streams
  import opened Walk

  datatype Answer = ITER_ERROR | ITER_ENTRY | ITER_NODE | ITER_END

  lemma KeptStart(base: State)
    requires Sound(base)
    ensures Open(base, base, 0, Kept(base))
  {
    OpenStart(base, Kept(base));
  }

  lemma PushKept(base: State, st: State, m: nat)
    requires Open(base, st, m, Kept(base))
    ensures Open(base, Pushed(st), m + 1, Kept(base))
  {
    OpenPush(base, st, m, Kept(base));
  }

  /** m_config_pop, seen as closing one of the open levels. */
  method PopLevel(config: MConfig, ghost base: State, ghost m: nat)
    requires Open(base, config.Current(), m, Kept(base)) && m > 0
    modifies config
    ensures Open(base, config.Current(), m - 1, Kept(base))
    ensures config.Current() == Popped(old(config.Current()))
  {
    OpenPop(base, config.Current(), m, Kept(base));
    config.Pop();
  }

  /** m_config_push and the parameters of an item. */
  method PushLevel(config: MConfig, params: seq<SubParam>, ghost base: State, ghost m: nat)
    requires Open(base, config.Current(), m, Kept(base))
    modifies config
    ensures Open(base, config.Current(), m + 1, Kept(base))
    ensures config.Current() == WithParams(Pushed(old(config.Current())), params)
  {
    ghost var before := config.Current();
    PushKept(base, before, m);
    config.Push();
    OpenParams(base, Pushed(before), m + 1, Kept(base), params);
    SetParams(config, params);
  }

  method SetParams(config: MConfig, params: seq<SubParam>)
    requires Sound(config.Current())
    modifies config
    ensures Sound(config.Current()) && config.Current() == WithParams(old(config.Current()), params)
  {
    var n := 0;
    while n < |params|
      invariant 0 <= n <= |params|
      invariant Sound(config.Current())
      invariant WithParams(config.Current(), params[n..]) == WithParams(old(config.Current()), params)
    {
      assert params[n..][0] == params[n] && params[n..][1..] == params[n+1..];
      var e := config.ParseOption(params[n].name, params[n].outcome, true);
      n := n + 1;
    }
  }

  /** What is left of a step when the list has ended: no less than one. */
  function AtLeastOne(n: int): int { if n > 0 then n else 1 }

  /** The sibling `d` steps away, and what is left of `d` when the list ends before that. */
  method Sibling(tree: Item, d: int, ghost list: seq<Shape>, ghost at: nat, ghost group: Item?)
    returns (pt: Item?, left: int, ghost k: int)
    requires Linked(list, group) && at < |list| && tree == list[at].node
    ensures -1 <= k <= |list| && pt == NodeAt(list, k)
    ensures 0 <= at + d < |list| ==> k == at + d
    ensures !(0 <= at + d < |list|) ==> pt == null
    ensures left == if d > 0 then AtLeastOne(d - (|list| - at)) else if d < 0 then -AtLeastOne(-d - (at + 1)) else 0
  {
    pt, k := tree, at;
    var i := d;
    if d > 0 {
      while i > 0 && pt != null
        invariant 0 <= i <= d && at <= k <= |list| && pt == NodeAt(list, k) && k == at + d - i
      {
        assert LinkedAt(list, k, group);
        pt, i, k := pt.next, i - 1, k + 1;
      }
      left := if i != 0 then i else 1;
    } else if d < 0 {
      while i < 0 && pt != null
        invariant d <= i <= 0 && -1 <= k <= at && pt == NodeAt(list, k) && k == at + d - i
      {
        assert LinkedAt(list, k, group);
        pt, i, k := pt.prev, i + 1, k - 1;
      }
      left := if i != 0 then i else -1;
    } else {
      left := 0;
    }
  }

  ghost predicate Within(l: seq<Item>, s: set<Item>) { forall k :: 0 <= k < |l| ==> l[k] in s }

  lemma WithinParts(l: seq<Item>, n: Item, s: set<Item>)
    ensures Within(l + [n], s) <==> Within(l, s) && n in s
  {
    assert forall k :: 0 <= k < |l| ==> (l + [n])[k] == l[k];
    assert (l + [n])[|l|] == n;
  }

  lemma GroupsUp(c: Ctx)
    requires c.In? && c.at < |c.list|
    ensures Groups(c) == Groups(c.up) + [c.list[c.at].node]
    ensures Groups(c)[..|Groups(c)|-1] == Groups(c.up)
  {
  }

  lemma BelowUp(c: Ctx, list: seq<Shape>, top: seq<Shape>)
    requires Below(c, list, top) && c.In?
    ensures Below(c.up, c.list, top) && c.at < |c.list| && Saved(c) == Saved(c.up) + [c.saved]
    ensures Saved(c)[..|Saved(c)|-1] == Saved(c.up)
  {
  }

  /** The parameters of some items. */
  ghost function ParamsOf(l: seq<Item>): seq<seq<SubParam>>
    reads l
  {
    if l == [] then [] else ParamsOf(l[..|l|-1]) + [l[|l|-1].params]
  }

  lemma {:induction false} ParamsOfLength(l: seq<Item>)
    ensures |ParamsOf(l)| == |l|
  {
    if l != [] { ParamsOfLength(l[..|l|-1]); }
  }

  lemma {:induction false} ParamsOfTail(l: seq<Item>)
    requires l != []
    ensures ParamsOf(l) == [l[0].params] + ParamsOf(l[1..])
  {
    if |l| > 1 {
      ParamsOfTail(l[..|l|-1]);
      assert l[1..][..|l|-2] == l[..|l|-1][1..];
    }
  }

  lemma ParamsOfMore(l: seq<Item>, n: Item)
    ensures ParamsOf(l + [n]) == ParamsOf(l) + [n.params]
  {
    assert (l + [n])[..|l|] == l;
  }

  /** Each open level was opened when the values of the levels below it were in force. */
  ghost predicate Settled(base: State, st: State, applied: seq<Item>, starts: seq<State>)
    reads applied
  {
    && |starts| == |applied| && Sound(base)
    && Stack(base, starts, st) && Chained(base, starts, ParamsOf(applied))
    && forall k :: 0 <= k < |starts| ==> InForce(base, starts[k], ParamsOf(applied[..k]))
  }

  /** The values in force are those that the applied items give, each on top of the one before. */
  ghost predicate Holding(base: State, st: State, applied: seq<Item>, starts: seq<State>)
    reads applied
  {
    InForce(base, st, ParamsOf(applied)) && AsOpened(base, starts, ParamsOf(applied), st)
  }

  lemma SettledStart(base: State)
    requires Sound(base)
    ensures Settled(base, base, [], []) && Holding(base, base, [], [])
  {
    InForceStart(base);
  }

  lemma SettledPush(base: State, st: State, m: nat, applied: seq<Item>, starts: seq<State>, n: Item)
    requires Open(base, st, m, Kept(base)) && Settled(base, st, applied, starts) && Holding(base, st, applied, starts)
    ensures Settled(base, WithParams(Pushed(st), n.params), applied + [n], starts + [st])
    ensures Holding(base, WithParams(Pushed(st), n.params), applied + [n], starts + [st])
  {
    hide Open, Kept, Stack, Chained, AsOpened, InForce, Pushed, WithParams, Sound, ParamsOf, SameOptions;
    StackPush(base, starts, st, m, n.params);
    assert Sound(Opened(st, n.params)) && SameOptions(base, Opened(st, n.params)) by {
      PushKept(base, st, m);
      OpenParams(base, Pushed(st), m + 1, Kept(base), n.params);
      OpenBoth(base, Opened(st, n.params), m + 1, Kept(base));
    }
    ChainedPush(base, starts, ParamsOf(applied), st, n.params);
    InForcePush(base, st, ParamsOf(applied), n.params);
    ParamsOfMore(applied, n);
    var more := applied + [n];
    forall k | 0 <= k < |starts + [st]| ensures InForce(base, (starts + [st])[k], ParamsOf(more[..k])) {
      assert more[..k] == applied[..k];
      assert applied[..|applied|] == applied;
    }
  }

  lemma SettledLength(base: State, st: State, applied: seq<Item>, starts: seq<State>)
    requires Settled(base, st, applied, starts)
    ensures |starts| == |applied|
  {
  }

  lemma SettledPop(base: State, st: State, applied: seq<Item>, starts: seq<State>)
    requires Settled(base, st, applied, starts) && applied != []
    ensures var n := |applied| - 1;
      Settled(base, Popped(st), applied[..n], starts[..n]) && Holding(base, Popped(st), applied[..n], starts[..n])
  {
    hide Open, Kept, Stack, Chained, AsOpened, InForce, Popped, Sound, ParamsOf, SameOptions;
    var n := |applied| - 1;
    StackPop(base, starts, st);
    ParamsOfMore(applied[..n], applied[n]);
    assert applied == applied[..n] + [applied[n]];
    ChainedPop(base, starts, ParamsOf(applied), st);
    ParamsOfLength(applied[..n]);
    InForcePop(base, starts[n], Popped(st), ParamsOf(applied[..n]));
    forall k | 0 <= k < n ensures InForce(base, starts[..n][k], ParamsOf(applied[..n][..k])) {
      assert applied[..n][..k] == applied[..k];
    }
  }

  lemma SettledParams(base: State, st: State, applied: seq<Item>, starts: seq<State>, ps: seq<SubParam>)
    requires Settled(base, st, applied, starts)
    ensures Settled(base, WithParams(st, ps), applied, starts)
  {
    hide Open, Kept, Stack, Chained, InForce, WithParams, Sound, ParamsOf;
    StackParams(base, starts, st, ps);
  }

  /**
   * Inside the outermost group every saved option, whatever aliases it has, holds what the groups inside it
   * and the entry give, on top of the store in which that group had been entered.
   */
  lemma InnerHolding(base: State, st: State, applied: seq<Item>, starts: seq<State>, i: nat)
    requires Settled(base, st, applied, starts) && Holding(base, st, applied, starts)
    requires applied != [] && i in Managed(base) && Steady(base, base.opts[i].info.p.value)
    ensures Alike(Layered(Opened(starts[0], applied[0].params), ParamsOf(applied[1..])), st, base.opts[i].info.p.value)
  {
    ParamsOfTail(applied);
    InnerInForce(base, starts, ParamsOf(applied), st, i);
  }

  class Iter {
    const root: Item
    const config: MConfig?
    var tree: Item?
    var loop: int
    var file: int
    var numFiles: nat
    var entryPushed: bool
    var statusStack: seq<int>

    // The tree: the root and its siblings, their parent and its loop count
    ghost const top: seq<Shape>
    ghost const start: nat
    ghost const outer: Item?
    ghost const outerLoop: int
    ghost const items: set<Item>
    // The position in it
    ghost var ctx: Ctx
    ghost var list: seq<Shape>
    ghost var at: nat
    // The store when the iterator was made, the items whose parameters are applied now, and the
    // stores in which their levels were opened
    ghost const base: State
    ghost var applied: seq<Item>
    ghost var starts: seq<State>

    /** The tree is linked as described, clean, and none of its groups is shuffled. */
    ghost predicate Tree()
      reads items, outer
    {
      && Nodes(top) <= items && outer !in Nodes(top)
      && Linked(top, outer) && Good(top)
      && start < |top| && root == top[start].node
      && outerLoop == (if outer == null then 0 else outer.loop)
      && (outer != null ==> !outer.rnd)
    }

    /** The iterator stands on an item of the tree, or has not started. */
    ghost predicate Standing()
      reads this
    {
      && Below(ctx, list, top) && at < |list| && start < |top|
      && Saved(ctx) == statusStack
      && if tree == null then ctx == Top && at == start && loop == outerLoop else tree == list[at].node
    }

    ghost predicate Placed()
      reads this, items, outer
    {
      Tree() && Standing()
    }

    ghost function Levels(): nat
      reads this
    {
      |statusStack| + if entryPushed then 1 else 0
    }

    /** One level is open for each group entered and one for the entry. */
    ghost predicate Balanced()
      reads this, config
    {
      && (entryPushed ==> config != null && tree != null)
      && (config != null ==>
            && Open(base, config.Current(), Levels(), Kept(base))
            && |applied| == Levels()
            && applied[..|statusStack|] == Groups(ctx))
    }

    ghost predicate Valid()
      reads this, items, outer, config
    {
      Placed() && Balanced() && Set()
    }

    /** The settings of the open levels, and unless an entry plays they are those in force. */
    ghost predicate Set()
      reads this, items, config
    {
      && Within(applied, items)
      && (config != null ==>
            && Settled(base, config.Current(), applied, starts)
            && (!entryPushed ==> Holding(base, config.Current(), applied, starts)))
    }

    /** What remains after the current item. */
    ghost function Remaining(): Stream<Shape>
      reads this
    {
      Rest(ctx, list, at, loop, outerLoop)
    }

    /** What would be played if the item `k` of the current list were entered. */
    ghost function FromItem(k: nat): Stream<Shape>
      reads this
      requires k < |list|
    {
      From(ctx, list, k, loop, outerLoop)
    }

    /** The answer and the new position are right for somebody who wants to see `s` played. */
    ghost predicate Delivers(r: Answer, s: Stream<Shape>, withNodes: bool)
      reads this
    {
      if s.IsEmpty() then r == ITER_END
      else
        && at < |list|
        && if r == ITER_NODE then withNodes && !list[at].entry && Agree(FromItem(at), s)
           else r == ITER_ENTRY && list[at] == s.Head() && Remaining() == s.Tail()
    }

    lemma DeliversSame(r: Answer, s: Stream<Shape>, t: Stream<Shape>, withNodes: bool)
      requires Agree(s, t) && Delivers(r, t, withNodes)
      ensures Delivers(r, s, withNodes)
    {
    }

    lemma StopsHere()
      requires at < |list| && Playable(list[at]) && !list[at].entry
      ensures Delivers(ITER_NODE, FromItem(at), true)
    {
      PlayableExpands(list[at]);
      ThenTail(Expand(list[at]), Remaining());
    }

    /** The answer fits the position, and at the end every setting has been undone. */
    ghost predicate Consistent(r: Answer)
      reads this, items, config
    {
      match r
      case ITER_ERROR => false
      case ITER_ENTRY => tree != null && at < |list| && list[at].entry && |list[at].files| == numFiles && file == -1
                         && (config != null ==>
                               (entryPushed && applied == Groups(ctx) + [tree]
                               && Within(applied, items)
                               && Holding(base, config.Current(), applied, starts)))
      case ITER_NODE => tree != null && at < |list| && !list[at].entry && !entryPushed
      case ITER_END => ctx == Top && tree != null
    }

    ghost predicate Undone()
      reads this, config
    {
      statusStack == [] && !entryPushed &&
      (config != null ==>
         config.lvl == base.lvl && SameOptions(base, config.Current()) &&
         forall i :: i in Kept(base) ==> Unchanged(base, config.Current(), base.opts[i].info.p.value))
    }

    /** play_tree_iter_new, for a root that is valid. */
    constructor (pt: Item, config: MConfig?, ghost top: seq<Shape>, ghost start: nat, ghost outer: Item?)
      requires start < |top| && pt == top[start].node && Linked(top, outer) && Good(top)
      requires outer !in Nodes(top) && (outer != null ==> !outer.rnd)
      requires config != null ==> Sound(config.Current())
      ensures Valid() && tree == null && root == pt && this.config == config
      ensures this.top == top && this.start == start && ctx == Top && list == top && at == start
      ensures config != null ==> base == config.Current()
      ensures outerLoop == (if outer == null then 0 else outer.loop) && loop == outerLoop
    {
      hide Open, Kept, Good, Nodes, Sound, Settled, Holding;
      root, this.config, tree := pt, config, null;
      file, numFiles, entryPushed, statusStack := 0, 0, false, [];
      loop := 0;
      this.top, this.start, this.outer := top, start, outer;
      this.outerLoop := if outer == null then 0 else outer.loop;
      this.items := Nodes(top);
      ctx, list, at := Top, top, start;
      base := if config == null then State(1, ConfigFile, [], map[]) else config.Current();
      applied, starts := [], [];
      new;
      NodesAllocated(top);
      assert LinkedAt(top, start, outer);
      if pt.parent != null {
        loop := pt.parent.loop;
      }
      if config != null {
        KeptStart(base);
        SettledStart(base);
      }
    }

    /** A level is always pushed, for options set while the item plays. */
    method PushParams()
      requires Valid() && config != null && !entryPushed && tree != null
      modifies this`applied, this`starts, config
      ensures Placed() && tree in items && Within(applied, items)
      ensures Settled(base, config.Current(), applied, starts) && Holding(base, config.Current(), applied, starts)
      ensures Open(base, config.Current(), Levels() + 1, Kept(base))
      ensures config.Current() == WithParams(Pushed(old(config.Current())), tree.params)
      ensures applied == old(applied) + [tree]
    {
      hide Open, Kept, Tree, Linked, LinkedAt, Nodes, Good, Rest, From, Agree, Expand, ExpandAll, Settled, Holding,
        Within;
      InItems();
      ghost var before := config.Current();
      SettledPush(base, before, Levels(), applied, starts, tree);
      WithinParts(applied, tree, items);
      PushLevel(config, tree.params, base, Levels());
      applied, starts := applied + [tree], starts + [before];
    }

    /** The innermost level is closed, and what held before it holds again. */
    method CloseLevel()
      requires config != null && applied != [] && Within(applied, items)
      requires Settled(base, config.Current(), applied, starts)
      requires Open(base, config.Current(), |applied|, Kept(base))
      modifies this`applied, this`starts, config
      ensures applied == old(applied)[..|old(applied)|-1] && Within(applied, items)
      ensures Settled(base, config.Current(), applied, starts) && Holding(base, config.Current(), applied, starts)
      ensures Open(base, config.Current(), |applied|, Kept(base))
    {
      hide Open, Kept, Settled, Holding, Popped, Within;
      ghost var n := |applied| - 1;
      SettledLength(base, config.Current(), applied, starts);
      SettledPop(base, config.Current(), applied, starts);
      assert applied == applied[..n] + [applied[n]];
      WithinParts(applied[..n], applied[n], items);
      PopLevel(config, base, n + 1);
      applied, starts := applied[..n], starts[..n];
    }

    /** Where the iterator stands belongs to the tree. */
    lemma InItems()
      requires Placed() && tree != null
      ensures tree in items && (ctx.In? ==> ctx.list[ctx.at].node in items)
    {
      BelowGood(ctx, list, top);
    }

    /** The item `k` of the current list: its links and what is below it. */
    lemma Links(k: nat)
      requires Tree() && Below(ctx, list, top) && k < |list|
      ensures Linked(list, GroupOf(ctx, outer)) && Linked(list[k].kids, list[k].node)
    {
      BelowLinked(ctx, list, top, outer);
      assert LinkedAt(list, k, GroupOf(ctx, outer));
    }

    /** The item `k` of the current list: its fields. */
    lemma Fields(k: nat)
      requires Tree() && Below(ctx, list, top) && k < |list|
      ensures Described(list[k])
      ensures list[k].node.parent == GroupOf(ctx, outer) && list[k].node.child == First(list[k].kids)
    {
      BelowLinked(ctx, list, top, outer);
      assert LinkedAt(list, k, GroupOf(ctx, outer));
    }

    /** The item `k` of the current list: there is something to play in it. */
    lemma Plays(k: nat)
      requires Tree() && Below(ctx, list, top) && k < |list|
      ensures Playable(list[k]) && !ExpandAll(list).IsEmpty()
      ensures !list[k].entry ==>
        list[k].kids != [] && Playable(list[k].kids[0]) && !ExpandAll(list[k].kids).IsEmpty()
    {
      BelowGood(ctx, list, top);
      GoodPlays(list);
      if !list[k].entry { GoodPlays(list[k].kids); }
    }

    /** The group around the current list: where it hangs, and its loop count. */
    lemma Around()
      requires Tree() && Below(ctx, list, top) && start < |top|
      ensures root == top[start].node && root.parent == outer
      ensures ctx.In? ==> ctx.list[ctx.at].node != outer && (list != [] ==> !ctx.list[ctx.at].entry)
      ensures GroupOf(ctx, outer) == (if ctx.Top? then outer else ctx.list[ctx.at].node)
      ensures LoopOf(ctx, outerLoop) ==
              (if GroupOf(ctx, outer) == null then 0 else GroupOf(ctx, outer).loop)
    {
      BelowLinked(ctx, list, top, outer);
      BelowGood(ctx, list, top);
      assert LinkedAt(top, start, outer);
      if ctx.In? { assert LinkedAt(ctx.list, ctx.at, GroupOf(ctx.up, outer)); }
    }

    /** Another round of the current list, counted in one direction or the other. */
    method NextRound(forward: bool)
      requires Valid() && tree != null && !entryPushed && tree.parent != null
      modifies this`tree, this`at, this`loop
      ensures Valid() && tree != null
      ensures forward ==> at == 0 && loop == old(if loop > 0 then loop - 1 else loop)
    {
      hide Open, Kept, Tree, Linked, LinkedAt, Nodes, Good, Rest, From, Agree, Expand, ExpandAll, Settled, Holding,
        Within;
      Links(at);
      var pt;
      if forward {
        pt := FirstSibling(tree, list, at, GroupOf(ctx, outer));
        if loop > 0 { loop := loop - 1; }
      } else {
        pt := LastSibling(tree, list, at, GroupOf(ctx, outer));
        if loop >= 0 && loop < tree.parent.loop { loop := loop + 1; }
      }
      tree, at := pt, if forward then 0 else |list| - 1;
    }

    /** Whether the end of the current list starts another round in direction `d`. */
    method MustLoop(d: int) returns (again: bool)
      requires Placed() && tree != null
      ensures again ==> tree.parent != null
      ensures d > 0 ==> again == (LoopOf(ctx, outerLoop) != 0 && loop != 0)
    {
      hide Tree, Linked, LinkedAt, Nodes;
      Fields(at);
      Around();
      again := tree.parent != null && tree.parent.loop != 0 &&
               ((d > 0 && loop != 0) || (d < 0 && (loop < 0 || loop < tree.parent.loop)));
    }

    /** Leaves the level of an entry. */
    method PopEntry()
      requires Valid() && tree != null
      modifies this`entryPushed, this`applied, this`starts, config
      ensures Valid() && !entryPushed
    {
      hide Open, Kept, Tree, Linked, LinkedAt, Nodes, Good, Rest, From, Agree, Expand, ExpandAll, Settled, Holding,
        Within;
      if config != null && entryPushed {
        CloseLevel();
        entryPushed := false;
      }
    }

    /** Which way the recursion of a step can still go: a first call, then up, then only down. */
    ghost function Phase(d: int): nat
      reads this
    {
      if tree == null then 2 else if d != 0 then 1 else 0
    }

    method Step(d0: int, withNodes: bool) returns (r: Answer)
      requires Valid()
      modifies this, config
      ensures Valid() && Consistent(r) && (r == ITER_NODE ==> withNodes)
      ensures r == ITER_END ==> Undone()
      ensures old(tree) == null ==> Delivers(r, old(FromItem(at)), withNodes)
      ensures old(tree) != null && d0 >= 0 && old(at + d0 < |list|) ==> Delivers(r, old(FromItem(at + d0)), withNodes)
      ensures old(tree) != null && d0 == 1 ==> Delivers(r, old(Remaining()), withNodes)
      ensures old(tree) != null && d0 == 0 && withNodes && !old(list[at].entry) ==>
        r == ITER_NODE && ctx == old(ctx) && list == old(list) && at == old(at)
      decreases Phase(d0), (if d0 != 0 then |statusStack| else 0), list[at], 3
    {
      hide Open, Kept, Tree, Linked, LinkedAt, Nodes, Good, Rest, From, Agree, Expand, ExpandAll, Settled, Holding,
        Within, Consistent, Undone, Delivers;
      if tree == null {
        Around();
        tree := root;
        r := Step(0, withNodes);
      } else {
        r := StepOn(d0, withNodes);
      }
    }

    /** A step from an item of the tree. */
    method StepOn(d0: int, withNodes: bool) returns (r: Answer)
      requires Valid() && tree != null
      modifies this, config
      ensures Valid() && Consistent(r) && (r == ITER_NODE ==> withNodes)
      ensures r == ITER_END ==> Undone()
      ensures d0 >= 0 && old(at + d0 < |list|) ==> Delivers(r, old(FromItem(at + d0)), withNodes)
      ensures d0 == 1 ==> Delivers(r, old(Remaining()), withNodes)
      ensures d0 == 0 && withNodes && !old(list[at].entry) ==>
        r == ITER_NODE && ctx == old(ctx) && list == old(list) && at == old(at)
      decreases Phase(d0), (if d0 != 0 then |statusStack| else 0), list[at], 2
    {
      hide Open, Kept, Tree, Linked, LinkedAt, Nodes, Good, Rest, From, Agree, Expand, ExpandAll, Settled, Holding,
        Within, Consistent, Undone, Delivers;
      var pt, d, k := LeaveEntry(d0);
      if pt == null {
        r := StepOut(d, withNodes, d0 == 1);
      } else {
        if d0 == 1 { RestNext(ctx, list, at, loop, outerLoop); }
        r := StepOnto(pt, k, d, withNodes);
      }
    }

    /** The level of an entry is closed, and the item looked for that many places away. */
    method LeaveEntry(d0: int) returns (pt: Item?, d: int, ghost k: int)
      requires Valid() && tree != null
      modifies this`entryPushed, this`applied, this`starts, this`file, config
      ensures Valid() && !entryPushed && file == -1
      ensures -1 <= k <= |list| && pt == NodeAt(list, k)
      ensures 0 <= at + d0 < |list| ==> k == at + d0 && pt != null
      ensures !(0 <= at + d0 < |list|) ==> pt == null && d != 0
      ensures d0 > 0 ==> d > 0
      ensures d0 < 0 ==> d <= 0
      ensures d0 == 0 ==> d == 0
      ensures d0 == 1 && pt == null ==> d == 1
    {
      hide Open, Kept, Tree, Linked, LinkedAt, Nodes, Good, Rest, From, Agree, Expand, ExpandAll, Settled, Holding,
        Within;
      PopEntry();
      file := -1;
      Links(at);
      pt, d, k := Sibling(tree, d0, list, at, GroupOf(ctx, outer));
    }

    /** The part of a step for a list that has no next item. */
    method StepOut(d: int, withNodes: bool, ghost single: bool) returns (r: Answer)
      requires Valid() && tree != null && !entryPushed && d != 0
      requires single ==> d == 1 && at + 1 == |list|
      modifies this, config
      ensures Valid() && Consistent(r) && (r == ITER_NODE ==> withNodes)
      ensures r == ITER_END ==> Undone()
      ensures single ==> Delivers(r, old(Remaining()), withNodes)
      decreases 1, |statusStack|, list[at], 1
    {
      hide Open, Kept, Tree, Linked, LinkedAt, Nodes, Good, Rest, From, Agree, Expand, ExpandAll, Settled, Holding,
        Within;
      var again := MustLoop(d);
      if again {
        Plays(at);
        if single { RestRound(ctx, list, at, loop, outerLoop); }
        ghost var s := Remaining();
        NextRound(d > 0);
        ghost var t := FromItem(at);
        r := Step(0, withNodes);
        if single { DeliversSame(r, s, t, withNodes); }
      } else {
        // no more rounds: on behind the group
        if single { RestUp(ctx, list, at, loop, outerLoop); }
        r := UpStep(d, withNodes);
      }
    }

    /** The part of a step for the item that it comes to. */
    method StepOnto(pt: Item, ghost k: nat, d: int, withNodes: bool) returns (r: Answer)
      requires Valid() && tree != null && !entryPushed && k < |list| && pt == list[k].node && file == -1
      modifies this, config
      ensures Valid() && Consistent(r) && (r == ITER_NODE ==> withNodes)
      ensures r == ITER_END ==> Undone()
      ensures d >= 0 ==> Delivers(r, old(FromItem(k)), withNodes)
      ensures withNodes && !old(list[k].entry) ==>
        r == ITER_NODE && ctx == old(ctx) && list == old(list) && at == k
      decreases 0, 0, list[k], 1
    {
      hide Open, Kept, Tree, Linked, LinkedAt, Nodes, Good, Rest, From, Agree, Expand, ExpandAll, Settled, Holding,
        Within;
      Links(k);
      Fields(k);
      Plays(k);
      // a group counts only if something below it plays
      var group := false;
      if pt.child != null {
        group := IsValid(pt.child, list[k].kids, 0, pt);
      }
      if group {
        tree, at := pt, k;
        if withNodes {  // the caller wants to see groups
          StopsHere();
          return ITER_NODE;
        }
        r := DownStep(d, withNodes);
        return;
      }
      // in a clean tree it is an entry: the code's recursion on an invalid item is not reached
      Links(k);
      var valid := IsValid(pt, list, k, GroupOf(ctx, outer));
      assert valid && list[k].entry;
      EnterEntry(pt, k);
      return ITER_ENTRY;
    }

    /** Onto an entry: its level is pushed. */
    method EnterEntry(pt: Item, ghost k: nat)
      requires Valid() && tree != null && !entryPushed && k < |list| && pt == list[k].node && list[k].entry
      requires file == -1
      modifies this`tree, this`at, this`numFiles, this`entryPushed, this`applied, this`starts, config
      ensures Valid() && Consistent(ITER_ENTRY)
      ensures Delivers(ITER_ENTRY, old(FromItem(k)), false)
    {
      hide Open, Kept, Tree, Linked, LinkedAt, Nodes, Good, Rest, From, Agree, Expand, ExpandAll, Settled, Holding,
        Within;
      Fields(k);
      FromEntry(ctx, list, k, loop, outerLoop);
      tree, at := pt, k;
      numFiles := |tree.files|;
      if config != null {
        OpenEntry();
      }
    }

    /** The level of the entry. */
    method OpenEntry()
      requires Valid() && config != null && !entryPushed && tree != null
      modifies this`entryPushed, this`applied, this`starts, config
      ensures Valid() && entryPushed && applied == Groups(ctx) + [tree] && Within(applied, items)
      ensures Holding(base, config.Current(), applied, starts)
    {
      hide Open, Kept, Tree, Linked, LinkedAt, Nodes, Good, Rest, From, Agree, Expand, ExpandAll, Settled, Holding,
        Within;
      PushParams();
      entryPushed := true;
    }

    method UpStep(d: int, withNodes: bool) returns (r: Answer)
      requires Valid() && tree != null
      modifies this, config
      ensures Valid() && Consistent(r) && (r == ITER_NODE ==> withNodes)
      ensures r == ITER_END && (old(ctx.In?) || !old(entryPushed)) ==> Undone()
      ensures old(ctx.Top?) ==> r == ITER_END && Levels() == old(Levels())
      ensures d == 1 ==> Delivers(r, old(Outside(ctx, outerLoop)), withNodes)
      ensures d == 0 && old(ctx.In?) ==>
        Delivers(r, old(From(ctx.up, ctx.list, ctx.at, ctx.saved, outerLoop)), withNodes)
      ensures d == 0 && withNodes && old(ctx.In?) ==> r == ITER_NODE && ctx == old(ctx.up)
      decreases 1, |statusStack|, list[at], 0
    {
      hide Open, Kept, Tree, Linked, LinkedAt, Nodes, Good, Rest, From, Agree, Expand, ExpandAll, Settled, Holding,
        Within;
      file := -1;
      Fields(at);
      Around();
      if tree.parent == root.parent {
        if !entryPushed { AllUndone(); }
        return ITER_END;
      }
      LeaveGroup();
      r := Step(d, withNodes);
    }

    lemma AllUndone()
      requires Balanced() && statusStack == [] && !entryPushed
      ensures Undone()
    {
    }

    /** Back to the group, with the loop counter it was entered with and its level popped. */
    method LeaveGroup()
      requires Valid() && tree != null && ctx.In? && tree.parent == ctx.list[ctx.at].node
      modifies this`loop, this`statusStack, this`tree, this`applied, this`starts, this`ctx, this`list, this`at, config
      ensures Valid() && tree != null && ctx == old(ctx.up) && list == old(ctx.list) && at == old(ctx.at)
      ensures loop == old(ctx.saved) && |statusStack| == old(|statusStack|) - 1
    {
      hide Open, Kept, Tree, Linked, LinkedAt, Nodes, Good, Rest, From, Agree, Expand, ExpandAll, Settled, Holding,
        Within;
      ghost var n, was := |statusStack|, applied;
      Ascend();
      // the settings of the group end with it
      if config != null {
        assert was[..n] == Groups(ctx) + [tree];
        CloseLevel();
        assert applied[..n-1] == was[..n][..n-1];
      }
    }

    /** The iterator's own part of leaving a group. */
    method Ascend()
      requires Placed() && tree != null && ctx.In? && tree.parent == ctx.list[ctx.at].node
      modifies this`loop, this`statusStack, this`tree, this`ctx, this`list, this`at
      ensures Placed() && tree != null && ctx == old(ctx.up) && list == old(ctx.list) && at == old(ctx.at)
      ensures loop == old(ctx.saved) && |statusStack| == old(|statusStack|) - 1
      ensures old(Groups(ctx)) == Groups(ctx) + [tree]
    {
      hide Open, Kept, Tree, Linked, LinkedAt, Nodes, Good, Rest, From, Agree, Expand, ExpandAll, Settled, Holding,
        Within;
      BelowUp(ctx, list, top);
      GroupsUp(ctx);
      loop := statusStack[|statusStack|-1];
      statusStack := statusStack[..|statusStack|-1];
      tree := tree.parent;
      hide Below, Saved, Groups;
      ctx, list, at := ctx.up, ctx.list, ctx.at;
      assert Tree() && Standing();
    }

    method DownStep(d: int, withNodes: bool) returns (r: Answer)
      requires Valid() && tree != null && !list[at].entry && !entryPushed
      modifies this, config
      ensures Valid() && Consistent(r) && (r == ITER_NODE ==> withNodes)
      ensures r == ITER_END ==> Undone()
      ensures d >= 0 ==> Delivers(r, old(FromItem(at)), withNodes)
      decreases 0, 0, list[at], 0
    {
      hide Open, Kept, Tree, Linked, LinkedAt, Nodes, Good, Rest, From, Agree, Expand, ExpandAll, Settled, Holding,
        Within;
      file := -1;
      Plays(at);
      RestDown(ctx, list, at, loop, outerLoop);
      ghost var g, s := list[at], FromItem(at);
      EnterGroup(d < 0);
      assert list[at] == g.kids[at];
      ghost var t := FromItem(at);
      r := Step(0, withNodes);
      if d >= 0 { DeliversSame(r, s, t, withNodes); }
    }

    method ChildToEnter(last: bool) returns (pt: Item)
      requires Placed() && tree != null && !list[at].entry
      ensures var kids := list[at].kids; kids != [] && pt == kids[if last then |kids| - 1 else 0].node
    {
      hide Open, Kept, Tree, Linked, LinkedAt, Nodes, Good, Rest, From, Agree, Expand, ExpandAll, Settled, Holding,
        Within;
      Links(at);
      Fields(at);
      Plays(at);
      pt := tree.child;
      if last { pt := LastSibling(pt, list[at].kids, 0, tree); }
    }

    /** Into the group: its level is pushed, the loop counter saved. */
    method EnterGroup(last: bool)
      requires Valid() && tree != null && !list[at].entry && !entryPushed
      modifies this`loop, this`statusStack, this`tree, this`applied, this`starts, this`ctx, this`list, this`at, config
      ensures Valid() && tree != null
      ensures ctx == In(old(ctx), old(list), old(at), old(loop)) && list == old(list[at].kids)
      ensures at == (if last then |list| - 1 else 0) && loop == old(list[at].loop) - 1
    {
      hide Open, Kept, Tree, Linked, LinkedAt, Nodes, Good, Rest, From, Agree, Expand, ExpandAll, Settled, Holding,
        Within;
      // the settings of the group hold for all that is in it
      if config != null {
        PushParams();
      }
      Descend(last);
    }

    /** The iterator's own part of entering a group. */
    method Descend(last: bool)
      requires Placed() && tree != null && !list[at].entry && !entryPushed
      requires config != null ==> Open(base, config.Current(), Levels() + 1, Kept(base))
      requires config != null ==> applied == Groups(ctx) + [tree] && |applied| == Levels() + 1
      requires Set() && (config != null ==> Holding(base, config.Current(), applied, starts))
      modifies this`loop, this`statusStack, this`tree, this`ctx, this`list, this`at
      ensures Valid() && tree != null
      ensures ctx == In(old(ctx), old(list), old(at), old(loop)) && list == old(list[at].kids)
      ensures at == (if last then |list| - 1 else 0) && loop == old(list[at].loop) - 1
    {
      hide Open, Kept, Tree, Linked, LinkedAt, Nodes, Good, Rest, From, Agree, Expand, ExpandAll, Settled, Holding,
        Within;
      Fields(at);
      var pt := ChildToEnter(last);
      // the counter of the list around is kept for the way back
      statusStack, loop, tree := statusStack + [loop], tree.loop - 1, pt;
      ctx, list := In(ctx, list, at, old(loop)), list[at].kids;
      at := if last then |list| - 1 else 0;
      assert Groups(ctx) == Groups(ctx.up) + [ctx.list[ctx.at].node];
      assert Tree() && Standing();
    }

    /** The iterator stands on an entry, and `file` is one of its files or -1. */
    ghost predicate Playing()
      reads this
    {
      && tree != null && at < |list| && list[at].entry
      && numFiles == |list[at].files| && -1 <= file < |list[at].files|
    }

    /** play_tree_iter_get_file: the files of one entry, and Nothing after the last. */
    method GetFile(d: int) returns (r: Maybe<string>)
      requires Valid() && Playing() && d != 0
      modifies this`file
      ensures Valid() && Playing()
      ensures file == (if old(file) + 1 >= |list[at].files| then old(file)
                       else if d > 0 then old(file) + 1
                       else if old(file) <= 0 then |list[at].files| - 1 else old(file) - 1)
      ensures old(file) + 1 < |list[at].files| ==> file >= 0 && r == Just(list[at].files[file])
      ensures old(file) + 1 >= |list[at].files| ==> r == Nothing
    {
      hide Open, Kept, Tree, Linked, LinkedAt, Nodes, Good, Rest, From, Agree, Expand, ExpandAll, Settled, Holding,
        Within;
      Fields(at);
      if tree.files == [] {
        return Nothing;
      }
      if file >= numFiles - 1 || file < -1 {
        return Nothing;
      }
      if d > 0 {
        file := file + 1;
      } else {
        file := if file <= 0 then numFiles - 1 else file - 1;
      }
      Fields(at);
      r := Just(tree.files[file]);
    }
  }
}