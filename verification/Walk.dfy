/** Positions in a playlist tree and what remains to be played from them. */
module Walk {
  import opened PlayTree
  import opened Streams

  /** The groups entered on the way to a position, innermost first: the list of siblings each
      group is in, its index there, and the loop counter saved when it was entered. */
  datatype Ctx = Top | In(up: Ctx, list: seq<Shape>, at: nat, saved: int)

  /** `list` is what one finds below `c`, starting from the trees `top`. */
  ghost predicate Below(c: Ctx, list: seq<Shape>, top: seq<Shape>) {
    match c
    case Top => list == top
    case In(up, l, at, _) => at < |l| && list == l[at].kids && Below(up, l, top)
  }

  function Saved(c: Ctx): seq<int> {
    match c case Top => [] case In(up, _, _, saved) => Saved(up) + [saved]
  }

  /** The loop count of the group we are in; `outer` is that of the root's own parent. */
  ghost function LoopOf(c: Ctx, outer: int): int {
    match c
    case Top => outer
    case In(_, l, at, _) => if at < |l| then l[at].loop else 0
  }

  ghost function GroupOf(c: Ctx, outer: Item?): Item? {
    match c
    case Top => outer
    case In(_, l, at, _) => NodeAt(l, at)
  }

  ghost function Groups(c: Ctx): seq<Item> {
    match c
    case Top => []
    case In(up, l, at, _) => Groups(up) + (if at < |l| then [l[at].node] else [])
  }

  /** The rounds left once the end of `l` is reached. */
  ghost function MoreRounds(loop: int, count: int, l: seq<Shape>): Stream<Shape> {
    if loop == 0 || count == 0 then Empty() else Again(count, ExpandAll(l))
  }

  /** What remains after the item at `at`: the rest of its siblings, the rounds left in the
      group, and whatever remains after the group. */
  ghost function Rest(c: Ctx, l: seq<Shape>, at: nat, count: int, outer: int): Stream<Shape>
    decreases c, 1
  {
    (if at < |l| then ExpandAll(l[at+1..]) else Empty())
      .Then(MoreRounds(LoopOf(c, outer), count, l)).Then(Outside(c, outer))
  }

  /** What remains after the group we are in. */
  ghost function Outside(c: Ctx, outer: int): Stream<Shape>
    decreases c, 0
  {
    match c
    case Top => Empty()
    case In(up, l, at, saved) => Rest(up, l, at, saved, outer)
  }

  /** What is played from the item at `at` on, that item included. */
  ghost function From(c: Ctx, l: seq<Shape>, at: nat, count: int, outer: int): Stream<Shape>
    requires at < |l|
  {
    Expand(l[at]).Then(Rest(c, l, at, count, outer))
  }

  lemma RestNext(c: Ctx, l: seq<Shape>, at: nat, count: int, outer: int)
    requires at + 1 < |l|
    ensures Rest(c, l, at, count, outer) == From(c, l, at + 1, count, outer)
  {
    var more, out := MoreRounds(LoopOf(c, outer), count, l), Outside(c, outer);
    var x, ys := Expand(l[at+1]), ExpandAll(l[at+2..]);
    assert l[at+1..][1..] == l[at+2..];
    assert ExpandAll(l[at+1..]) == x.Then(ys);
    ThenAssoc(x, ys, more);
    ThenAssoc(x, ys.Then(more), out);
  }

  lemma RestUp(c: Ctx, l: seq<Shape>, at: nat, count: int, outer: int)
    requires at + 1 == |l| && (LoopOf(c, outer) == 0 || count == 0)
    ensures Rest(c, l, at, count, outer) == Outside(c, outer)
  {
    assert l[at+1..] == [];
    ThenEmpty(Empty<Shape>());
    ThenEmpty(Outside(c, outer));
  }

  lemma RestRound(c: Ctx, l: seq<Shape>, at: nat, count: int, outer: int)
    requires at + 1 == |l| && LoopOf(c, outer) != 0 && count != 0 && !ExpandAll(l).IsEmpty()
    ensures Agree(Rest(c, l, at, count, outer),
                  From(c, l, 0, if count > 0 then count - 1 else count, outer))
  {
    var count' := if count > 0 then count - 1 else count;
    var body, out := ExpandAll(l), Outside(c, outer);
    var more, more' := MoreRounds(LoopOf(c, outer), count, l), MoreRounds(LoopOf(c, outer), count', l);
    assert l[at+1..] == [];
    ThenEmpty(more);
    AgainStep(count, body);
    ThenAgree(more, body.Then(more'), out);
    var x, ys := Expand(l[0]), ExpandAll(l[1..]);
    ThenAssoc(x, ys, more');
    ThenAssoc(x, ys.Then(more'), out);
  }

  lemma RestDown(c: Ctx, l: seq<Shape>, at: nat, count: int, outer: int)
    requires at < |l| && !l[at].entry && l[at].kids != [] && !ExpandAll(l[at].kids).IsEmpty()
    ensures Agree(From(c, l, at, count, outer),
                  From(In(c, l, at, count), l[at].kids, 0, l[at].loop - 1, outer))
  {
    var g := l[at];
    var body, rest := ExpandAll(g.kids), Rest(c, l, at, count, outer);
    var more := MoreRounds(g.loop, g.loop - 1, g.kids);
    AgainStep(Rounds(g.loop), body);
    assert Again(if Rounds(g.loop) > 0 then Rounds(g.loop) - 1 else Rounds(g.loop), body) == more;
    ThenAgree(Expand(g), body.Then(more), rest);
    var x, ys := Expand(g.kids[0]), ExpandAll(g.kids[1..]);
    ThenAssoc(x, ys, more);
    ThenAssoc(x, ys.Then(more), rest);
    var inner := In(c, l, at, count);
    assert Rest(inner, g.kids, 0, g.loop - 1, outer) == ys.Then(more).Then(rest);
  }

  lemma FromEntry(c: Ctx, l: seq<Shape>, at: nat, count: int, outer: int)
    requires at < |l| && l[at].entry
    ensures var s := From(c, l, at, count, outer);
      !s.IsEmpty() && s.Head() == l[at] && s.Tail() == Rest(c, l, at, count, outer)
  {
    ThenTail(Expand(l[at]), Rest(c, l, at, count, outer));
    ThenEmpty(Rest(c, l, at, count, outer));
  }

  // ---------------------------------------------------------------------------------
  // The trees below a position

  ghost predicate Good(l: seq<Shape>) { Clean(l) && NoShuffle(l) }

  lemma {:induction false} BelowGood(c: Ctx, l: seq<Shape>, top: seq<Shape>)
    requires Below(c, l, top) && Good(top)
    ensures Good(l) && Nodes(l) <= Nodes(top)
    ensures c.In? ==> c.list[c.at].node in Nodes(top)
    decreases c
  {
    if c.In? { BelowGood(c.up, c.list, top); }
  }

  lemma {:induction false} BelowLinked(c: Ctx, l: seq<Shape>, top: seq<Shape>, outer: Item?)
    requires Below(c, l, top) && Linked(top, outer)
    ensures Linked(l, GroupOf(c, outer))
    ensures c.In? ==> LinkedAt(c.list, c.at, GroupOf(c.up, outer))
    decreases c
  {
    if c.In? {
      BelowLinked(c.up, c.list, top, outer);
      assert LinkedAt(c.list, c.at, GroupOf(c.up, outer));
    }
  }

  lemma GoodPlays(l: seq<Shape>)
    requires Clean(l) && l != []
    ensures !ExpandAll(l).IsEmpty()
  {
    SomePlayableExpands(l, 0);
  }
}
