/** Random order among the entries of one group (playtree.c). */
module Shuffle {
  import opened Config
  import opened ConfigUndo
  import opened ConfigStore
  import opened PlayTree
  import opened RandomDraw
  import opened DrawReach
  import PlayIter
  import TreeEdit

  datatype Answer = ITER_ENTRY | ITER_END

  /** Places without a repetition, all of them below `n`. */
  predicate Different(s: seq<nat>, n: nat) {
    (forall i :: 0 <= i < |s| ==> s[i] < n) && (forall i, j :: 0 <= i < j < |s| ==> s[i] != s[j])
  }

  /** Every place exactly once. */
  predicate Permutation(s: seq<nat>, n: nat) { |s| == n && Different(s, n) }

  function Places(n: nat): (r: set<nat>)
    ensures |r| == n && forall i: nat :: i in r <==> i < n
  {
    if n == 0 then {} else Places(n - 1) + {n - 1}
  }

  function AsSet(s: seq<nat>): set<nat> { set x | x in s }

  lemma {:induction false} DifferentSize(s: seq<nat>, n: nat)
    requires Different(s, n)
    ensures |AsSet(s)| == |s|
  {
    if s != [] {
      var k := |s| - 1;
      DifferentSize(s[..k], n);
      assert s == s[..k] + [s[k]];
      assert AsSet(s) == AsSet(s[..k]) + {s[k]};
      assert s[k] !in s[..k];
    }
  }

  lemma SmallerSet(a: set<nat>, b: set<nat>)
    requires a <= b
    ensures |a| <= |b| && (|a| == |b| ==> a == b)
  {
    assert b == a + (b - a) && a !! (b - a);
  }

  /** As many different places as there are cover all of them. */
  lemma Covers(s: seq<nat>, n: nat)
    requires Different(s, n)
    ensures |s| <= n
    ensures |s| == n <==> forall i: nat :: i < n ==> i in s
  {
    var r := AsSet(s);
    DifferentSize(s, n);
    SmallerSet(r, Places(n));
    if forall i: nat :: i < n ==> i in s {
      assert r == Places(n);
    }
    if |s| == n {
      assert r == Places(n);
      assert forall i: nat :: i in r ==> i in s;
    }
  }

  /** How many of the flags from `lo` to `hi` are not set. */
  function Free(flags: seq<bool>, lo: nat, hi: nat): (c: nat)
    requires lo <= hi <= |flags|
    ensures c == 0 <==> forall i :: lo <= i < hi ==> flags[i]
  {
    if lo == hi then 0 else Free(flags, lo, hi - 1) + if flags[hi - 1] then 0 else 1
  }

  lemma {:induction false} FreeSplit(flags: seq<bool>, lo: nat, mid: nat, hi: nat)
    requires lo <= mid <= hi <= |flags|
    ensures Free(flags, lo, hi) == Free(flags, lo, mid) + Free(flags, mid, hi)
  {
    if mid < hi {
      FreeSplit(flags, lo, mid, hi - 1);
    }
  }

  ghost predicate Flat(l: seq<Shape>) {
    && (forall i :: 0 <= i < |l| ==> l[i].entry && l[i].kids == [])
    && (forall i, j :: 0 <= i < j < |l| ==> l[i].node != l[j].node)
  }

  ghost function Flags(l: seq<Shape>): (f: seq<bool>)
    reads Nodes(l)
    ensures |f| == |l| && forall i :: 0 <= i < |l| ==> f[i] == l[i].node.rndPlayed
  {
    seq(|l|, i requires 0 <= i < |l| reads Nodes(l) => l[i].node.rndPlayed)
  }

  lemma FreeOne(flags: seq<bool>, k: nat, hi: nat)
    requires k < hi <= |flags|
    ensures Free(flags, k, hi) == Free(flags, k + 1, hi) + if flags[k] then 0 else 1
  {
    FreeSplit(flags, k, k + 1, hi);
    assert Free(flags, k, k + 1) == Free(flags, k, k) + if flags[k] then 0 else 1;
  }

  /** How many choices there are, and the first of the siblings. */
  method CountChoices(pt: Item, ghost l: seq<Shape>, ghost at: nat, ghost group: Item) returns (count: nat, head: Item)
    requires Linked(l, group) && at < |l| && pt == l[at].node
    ensures count == Free(Flags(l), 0, |l|) && head == l[0].node
  {
    hide Free, Flags;
    ghost var f := Flags(l);
    NodesAllocated(l);
    count := 0;
    var i: Item? := pt;
    ghost var k := at;
    NoneFree(f, at + 1);
    assert LinkedAt(l, k, group);
    while i.prev != null
      invariant Linked(l, group) && 0 <= k <= at && i == l[k].node && LinkedAt(l, k, group)
      invariant count == Free(f, k + 1, at + 1)
      decreases k
    {
      FreeOne(f, k, at + 1);
      if !i.rndPlayed {
        count := count + 1;
      }
      i, k := i.prev, k - 1;
      assert LinkedAt(l, k, group);
    }
    head := i;
    FreeOne(f, 0, at + 1);
    if !i.rndPlayed {
      count := count + 1;
    }
    assert LinkedAt(l, at, group);
    i, k := pt.next, at + 1;
    while i != null
      invariant Linked(l, group) && at < k <= |l| && i == NodeAt(l, k) && count == Free(f, 0, k)
      decreases |l| - k
    {
      assert LinkedAt(l, k, group);
      FreeLast(f, 0, k);
      if !i.rndPlayed {
        count := count + 1;
      }
      i, k := i.next, k + 1;
    }
  }

  lemma NoneFree(flags: seq<bool>, k: nat)
    requires k <= |flags|
    ensures Free(flags, k, k) == 0
  {
  }

  lemma FreeLast(flags: seq<bool>, lo: nat, k: nat)
    requires lo <= k < |flags|
    ensures Free(flags, lo, k + 1) == Free(flags, lo, k) + if flags[k] then 0 else 1
  {
  }

  /** The sibling that is the choice number `choice` among those not played; null if there are fewer. */
  method Choose(head: Item, choice: nat, ghost l: seq<Shape>, ghost group: Item) returns (i: Item?, ghost k: nat)
    requires Linked(l, group) && l != [] && head == l[0].node
    ensures i == null <==> choice >= Free(Flags(l), 0, |l|)
    ensures i != null ==> k < |l| && i == l[k].node && !Flags(l)[k] && Free(Flags(l), 0, k) == choice
    ensures i != null ==> i in Heads(l) && !i.rndPlayed
  {
    hide Free;
    ghost var f := Flags(l);
    NodesAllocated(l);
    var r: int := choice;
    i, k := head, 0;
    NoneFree(f, 0);
    while i != null
      invariant Linked(l, group) && 0 <= k <= |l| && i == NodeAt(l, k)
      invariant 0 <= r == choice - Free(f, 0, k)
      decreases |l| - k
    {
      assert LinkedAt(l, k, group);
      FreeLast(f, 0, k);
      if !i.rndPlayed {
        r := r - 1;
      }
      if r < 0 {
        FreeSplit(f, 0, k + 1, |l|);
        return;
      }
      i, k := i.next, k + 1;
    }
  }

  /** A choice stands among the choices where the random number stands in its range, up to rounding. */
  predicate InProportion(choice: nat, count: nat, rnd: nat) {
    choice * (RAND_MAX + 1) <= count * (rnd + 256) && count * (rnd - 256) < (choice + 1) * (RAND_MAX + 1)
  }

  lemma Proportion(count: nat, rnd: nat)
    requires 0 < count < MANTISSA && rnd <= RAND_MAX
    ensures InProportion(Draw(count, rnd), count, rnd)
  {
    hide Draw;
    DrawNear(count, rnd);
  }

  /**
   * One of the siblings that have not been played, by the next random number; null if there is none,
   * and also when the number is one of the highest, which round up to the count itself.
   */
  method RndStep(pt: Item, rand: nat -> nat, drawn: nat, ghost l: seq<Shape>, ghost at: nat, ghost group: Item)
    returns (i: Item?, drawn': nat, ghost k: nat)
    requires Linked(l, group) && at < |l| < MANTISSA && pt == l[at].node && rand(drawn) <= RAND_MAX
    ensures drawn' == drawn + if Free(Flags(l), 0, |l|) == 0 then 0 else 1
    ensures i == null <==> Free(Flags(l), 0, |l|) == 0 || Top(rand(drawn))
    ensures i != null ==> k < |l| && i == l[k].node && !Flags(l)[k]
    ensures i != null ==> Free(Flags(l), 0, k) == Draw(Free(Flags(l), 0, |l|), rand(drawn))
    ensures i != null ==> InProportion(Free(Flags(l), 0, k), Free(Flags(l), 0, |l|), rand(drawn))
  {
    hide Draw, Top, InProportion;
    NodesAllocated(l);
    var count, head := CountChoices(pt, l, at, group);
    if count == 0 {
      return null, drawn, 0;
    }
    FreeAtMost(Flags(l), 0, |l|);
    DrawExactly(count, rand(drawn));
    Proportion(count, rand(drawn));
    i, k := Choose(head, Draw(count, rand(drawn)), l, group);
    drawn' := drawn + 1;
  }

  lemma {:induction false} FreeAtMost(flags: seq<bool>, lo: nat, hi: nat)
    requires lo <= hi <= |flags|
    ensures Free(flags, lo, hi) <= hi - lo
    decreases hi - lo
  {
    if lo < hi {
      FreeAtMost(flags, lo, hi - 1);
      FreeLast(flags, lo, hi - 1);
    } else {
      NoneFree(flags, lo);
    }
  }

  ghost predicate AllHooked(l: seq<Shape>, group: Item)
    reads Heads(l)
  {
    forall i {:trigger Hooked(l, i, group)} :: 0 <= i < |l| ==> Hooked(l, i, group)
  }

  lemma LinkedFlat(l: seq<Shape>, group: Item)
    requires Flat(l)
    ensures Linked(l, group) <==> AllHooked(l, group)
  {
    if Linked(l, group) {
      forall i | 0 <= i < |l| ensures Hooked(l, i, group) {
        assert LinkedAt(l, i, group);
      }
    }
    if AllHooked(l, group) {
      forall i | 0 <= i < |l| ensures LinkedAt(l, i, group) {
        assert Hooked(l, i, group);
      }
    }
  }

  /** Marking an item leaves all links alone. */
  method Mark(i: Item, played: bool, ghost l: seq<Shape>, ghost k: nat, ghost group: Item)
    requires AllHooked(l, group) && Flat(l) && k < |l| && i == l[k].node
    modifies i`rndPlayed
    ensures AllHooked(l, group) && i.rndPlayed == played
    ensures forall j :: 0 <= j < |l| && j != k ==> l[j].node.rndPlayed == old(l[j].node.rndPlayed)
  {
    i.rndPlayed := played;
    forall j | 0 <= j < |l| ensures Hooked(l, j, group) {
      assert old(Hooked(l, j, group));
    }
  }

  /** Takes the mark off an item and everything below it. */
  method Unmark(pt: Item, ghost kids: seq<Shape>)
    requires pt.child == First(kids) && Linked(kids, pt) && TreeEdit.Distinct(kids) && pt !in Nodes(kids)
    modifies pt`rndPlayed, Nodes(kids)`rndPlayed
    ensures Linked(kids, pt) && !pt.rndPlayed && forall n :: n in Nodes(kids) ==> !n.rndPlayed
    decreases kids, 1
  {
    hide Linked, LinkedAt, TreeEdit.Distinct, Nodes, TreeEdit.Own;
    NodesAllocated(kids);
    OwnWithin(kids);
    pt.rndPlayed := false;
    var i := pt.child;
    ghost var k := 0;
    while i != null
      invariant 0 <= k <= |kids| && i == NodeAt(kids, k) && Linked(kids, pt)
      invariant forall j, n :: 0 <= j < k && n in TreeEdit.Own(kids[j]) ==> !n.rndPlayed
      invariant !pt.rndPlayed
      decreases |kids| - k
    {
      UnmarkChild(i, kids, k, pt);
      NextLinked(kids, k, pt);
      i, k := i.next, k + 1;
    }
    forall n | n in Nodes(kids) ensures !n.rndPlayed {
      var j := OwnOf(kids, n);
    }
  }

  /** One turn of its loop. */
  method UnmarkChild(i: Item, ghost kids: seq<Shape>, ghost k: nat, ghost pt: Item)
    requires Linked(kids, pt) && TreeEdit.Distinct(kids) && k < |kids| && i == kids[k].node
    modifies TreeEdit.Own(kids[k])`rndPlayed
    ensures Linked(kids, pt) && forall n :: n in TreeEdit.Own(kids[k]) ==> !n.rndPlayed
    decreases kids, 0
  {
    hide Linked, LinkedAt, TreeEdit.Distinct, Nodes;
    TreeEdit.Survey(kids, pt);
    TreeEdit.HeadsApart(kids);
    assert Hooked(kids, k, pt);
    Unmark(i, kids[k].kids);
    forall j | 0 <= j < |kids| ensures Hooked(kids, j, pt) && Linked(kids[j].kids, kids[j].node) {
      assert old(Hooked(kids, j, pt) && Linked(kids[j].kids, kids[j].node));
    }
    TreeEdit.Fold(kids, pt);
  }

  lemma OwnWithin(kids: seq<Shape>)
    ensures forall j :: 0 <= j < |kids| ==> TreeEdit.Own(kids[j]) <= Nodes(kids)
  {
  }

  lemma NextLinked(kids: seq<Shape>, k: nat, pt: Item)
    requires Linked(kids, pt) && k < |kids|
    ensures kids[k].node.next == NodeAt(kids, k + 1)
  {
    assert LinkedAt(kids, k, pt);
  }

  lemma {:induction false} OwnOf(kids: seq<Shape>, n: Item) returns (j: nat)
    requires n in Nodes(kids)
    ensures j < |kids| && n in TreeEdit.Own(kids[j])
  {
    if n in TreeEdit.Own(kids[0]) {
      j := 0;
    } else {
      j := OwnOf(kids[1..], n);
      j := j + 1;
    }
  }

  lemma {:induction false} FlatTree(l: seq<Shape>)
    requires Flat(l)
    ensures TreeEdit.Distinct(l) && Nodes(l) == Heads(l)
  {
    if l != [] {
      assert forall i :: 0 < i < |l| ==> l[i] == l[1..][i - 1];
      FlatTree(l[1..]);
      HeadsOf(l);
      assert l[0].node !in Heads(l[1..]);
    }
  }

  lemma HeadsOf(l: seq<Shape>)
    requires l != []
    ensures Heads(l) == {l[0].node} + Heads(l[1..])
  {
    assert forall i :: 0 < i < |l| ==> l[i] == l[1..][i - 1];
  }

  lemma OpenLevel(base: State, st: State, m: nat, keep: set<nat>)
    requires Open(base, st, m, keep)
    ensures st.lvl == base.lvl + m
  {
  }

  // ---------------------------------------------------------------------------------
  // Every sibling and every order can come

  /** Which places are among those played. */
  function FlagsOf(round: seq<nat>, n: nat): (f: seq<bool>)
    ensures |f| == n && forall i :: 0 <= i < n ==> f[i] == (i in round)
  {
    seq(n, i => i in round)
  }

  lemma {:induction false} FreeSet(flags: seq<bool>, k: nat, hi: nat)
    requires k < hi <= |flags| && !flags[k]
    ensures Free(flags[k := true], 0, hi) == Free(flags, 0, hi) - 1
  {
    var after := flags[k := true];
    FreeLast(flags, 0, hi - 1);
    FreeLast(after, 0, hi - 1);
    if hi - 1 > k {
      FreeSet(flags, k, hi - 1);
    } else {
      FreeSame(flags, after, k);
    }
  }

  lemma {:induction false} FreeSame(a: seq<bool>, b: seq<bool>, hi: nat)
    requires hi <= |a| == |b| && forall i :: 0 <= i < hi ==> a[i] == b[i]
    ensures Free(a, 0, hi) == Free(b, 0, hi)
  {
    if hi > 0 {
      FreeSame(a, b, hi - 1);
      FreeLast(a, 0, hi - 1);
      FreeLast(b, 0, hi - 1);
    } else {
      NoneFree(a, 0);
      NoneFree(b, 0);
    }
  }

  /** All but the places played are free. */
  lemma {:induction false} FreeCount(round: seq<nat>, n: nat)
    requires Different(round, n)
    ensures |round| + Free(FlagsOf(round, n), 0, n) == n
  {
    if round == [] {
      AllFree(FlagsOf([], n), n);
    } else {
      var k := |round| - 1;
      FreeCount(round[..k], n);
      FreeSet(FlagsOf(round[..k], n), round[k], n);
      assert FlagsOf(round, n) == FlagsOf(round[..k], n)[round[k] := true] by {
        forall i: nat | i < n ensures i in round <==> i in round[..k] || i == round[k] {
        }
      }
    }
  }

  lemma {:induction false} AllFree(flags: seq<bool>, hi: nat)
    requires hi <= |flags| && forall i :: 0 <= i < hi ==> !flags[i]
    ensures Free(flags, 0, hi) == hi
  {
    if hi > 0 {
      AllFree(flags, hi - 1);
      FreeLast(flags, 0, hi - 1);
    } else {
      NoneFree(flags, 0);
    }
  }

  /** Two free places with as many free ones before them are the same. */
  lemma FreePlace(flags: seq<bool>, a: nat, b: nat)
    requires a < |flags| && b < |flags| && !flags[a] && !flags[b] && Free(flags, 0, a) == Free(flags, 0, b)
    ensures a == b
  {
    if a < b { FreeBetween(flags, a, b); }
    if b < a { FreeBetween(flags, b, a); }
  }

  lemma FreeBetween(flags: seq<bool>, a: nat, b: nat)
    requires a < b <= |flags| && !flags[a]
    ensures Free(flags, 0, b) > Free(flags, 0, a)
  {
    FreeLast(flags, 0, a);
    FreeSplit(flags, 0, a + 1, b);
  }

  /** Every sibling that has not been played is drawn by some random number, for the counts of which all are. */
  lemma EverySibling(flags: seq<bool>, k: nat)
    requires k < |flags| < MANTISSA && !flags[k]
    requires Free(flags, 0, |flags|) > 0 ==> ReachesAll(Free(flags, 0, |flags|))
    ensures Drawn(Free(flags, 0, |flags|), Free(flags, 0, k))
  {
    hide Drawn, ReachesAll;
    FreeBetween(flags, k, |flags|);
    FreeAtMost(flags, 0, |flags|);
    AllDrawnExactly(Free(flags, 0, |flags|));
  }

  /** The random number draws the place `k` after those played in `round`. */
  predicate Draws(round: seq<nat>, n: nat, rnd: nat, k: nat)
    requires k < n
  {
    rnd <= RAND_MAX && !Top(rnd) && Draw(Free(FlagsOf(round, n), 0, n), rnd) == Free(FlagsOf(round, n), 0, k)
  }

  /** Random numbers that draw the places in that order. */
  predicate Produce(numbers: seq<nat>, order: seq<nat>, n: nat) {
    Different(order, n) && |numbers| == |order| &&
    forall j :: 0 <= j < |order| ==> Draws(order[..j], n, numbers[j], order[j])
  }

  /** Every order is produced by some random numbers. */
  lemma {:induction false} EveryOrder(order: seq<nat>, n: nat) returns (numbers: seq<nat>)
    requires Different(order, n) && n <= 0xc0_0000
    ensures Produce(numbers, order, n)
  {
    hide Draw, Drawn, Top;
    if order == [] {
      numbers := [];
    } else {
      var k := |order| - 1;
      var before := EveryOrder(order[..k], n);
      var flags := FlagsOf(order[..k], n);
      var rnd := DrawingNumber(flags, order[k]);
      numbers := before + [rnd];
      forall j | 0 <= j < |order| ensures Draws(order[..j], n, numbers[j], order[j]) {
        assert j < k ==> order[..k][..j] == order[..j] && order[..k][j] == order[j];
      }
    }
  }

  lemma DrawingNumber(flags: seq<bool>, k: nat) returns (rnd: nat)
    requires k < |flags| <= 0xc0_0000 && !flags[k]
    ensures rnd <= RAND_MAX && !Top(rnd) && Draw(Free(flags, 0, |flags|), rnd) == Free(flags, 0, k)
  {
    var count := Free(flags, 0, |flags|);
    hide Draw, Top, ReachesAll, Free;
    FreeAtMost(flags, 0, |flags|);
    if count > 0 { AllDrawnExactly(count); }
    EverySibling(flags, k);
    rnd :| rnd <= RAND_MAX && !Top(rnd) && Draw(count, rnd) == Free(flags, 0, k);
  }

  // ---------------------------------------------------------------------------------
  // Rounds

  /** How many rounds ended before all was played. */
  function Incomplete(rounds: seq<seq<nat>>, n: nat): nat {
    if rounds == [] then 0
    else Incomplete(rounds[..|rounds| - 1], n) + if |rounds[|rounds| - 1]| < n then 1 else 0
  }

  function Concat(rounds: seq<seq<nat>>): seq<nat> {
    if rounds == [] then [] else Concat(rounds[..|rounds| - 1]) + rounds[|rounds| - 1]
  }

  /** How many of the highest random numbers there are from `lo` to `hi`. */
  function Tops(rand: nat -> nat, lo: nat, hi: nat): nat
    requires lo <= hi
  {
    if lo == hi then 0 else Tops(rand, lo, hi - 1) + if Top(rand(hi - 1)) then 1 else 0
  }

  predicate AllDifferent(rounds: seq<seq<nat>>, n: nat) {
    forall j :: 0 <= j < |rounds| ==> Different(rounds[j], n)
  }

  lemma OneMore(rounds: seq<seq<nat>>, round: seq<nat>, n: nat)
    ensures Incomplete(rounds + [round], n) == Incomplete(rounds, n) + if |round| < n then 1 else 0
    ensures Concat(rounds + [round]) == Concat(rounds) + round
    ensures AllDifferent(rounds, n) && Different(round, n) ==> AllDifferent(rounds + [round], n)
  {
    hide Different;
    assert (rounds + [round])[..|rounds|] == rounds;
  }

  lemma {:induction false} TopsSplit(rand: nat -> nat, lo: nat, mid: nat, hi: nat)
    requires lo <= mid <= hi
    ensures Tops(rand, lo, hi) == Tops(rand, lo, mid) + Tops(rand, mid, hi)
  {
    if mid < hi { TopsSplit(rand, lo, mid, hi - 1); }
  }

  lemma TopsOne(rand: nat -> nat, k: nat)
    ensures Tops(rand, k, k) == 0 && Tops(rand, k, k + 1) == if Top(rand(k)) then 1 else 0
  {
    assert Tops(rand, k, k) == 0;
  }

  /** All rounds are complete exactly when none is incomplete. */
  lemma {:induction false} CompleteExactly(rounds: seq<seq<nat>>, n: nat)
    requires AllDifferent(rounds, n)
    ensures Incomplete(rounds, n) == 0 <==> forall j :: 0 <= j < |rounds| ==> Permutation(rounds[j], n)
  {
    hide Different;
    if rounds != [] {
      var k := |rounds| - 1;
      CompleteExactly(rounds[..k], n);
      Covers(rounds[k], n);
      assert forall j :: 0 <= j < k ==> rounds[..k][j] == rounds[j];
    }
  }

  /**
   * The iterator once it has entered a shuffled group of entries, with a config. `rand` is what the random
   * number generator gives, one number after the other. `round` lists the places of the entries
   * played since the marks were last taken off, `done` those of the rounds before.
   */
  class ShuffleIter {
    const root: Item
    const config: MConfig
    const rand: nat -> nat
    var drawn: nat
    var tree: Item
    var entryPushed: bool
    ghost const list: seq<Shape>
    ghost const base: State
    ghost var at: nat
    ghost var round: seq<nat>
    ghost var done: seq<seq<nat>>

    ghost predicate Valid()
      reads this, root, Heads(list), config
    {
      && Placed() && Levels() && AllDifferent(done, |list|)
      && forall k: nat :: rand(k) <= RAND_MAX
    }

    ghost predicate Placed()
      reads this, root, Heads(list)
    {
      && list != [] && |list| < MANTISSA && Flat(list) && root !in Heads(list) && AllHooked(list, root)
      && root.rnd && root.child == First(list)
      && at < |list| && tree == list[at].node
      && Different(round, |list|)
      && forall i: nat :: i < |list| ==> (list[i].node.rndPlayed <==> i in round)
    }

    /** One level is open for the group and one for the entry. */
    ghost predicate Levels()
      reads this, config
    {
      Open(base, config.Current(), if entryPushed then 2 else 1, Kept(base))
    }

    /** All places played so far. */
    ghost function Played(): seq<nat>
      reads this
    {
      Concat(done) + round
    }

    /** Enters a group whose entries have not been played: its level is pushed. */
    constructor (root: Item, first: Item, config: MConfig, rand: nat -> nat, ghost list: seq<Shape>)
      requires first == root.child && list != [] && |list| < MANTISSA
      requires Flat(list) && Linked(list, root) && root !in Nodes(list)
      requires root.rnd && root.child == First(list)
      requires forall i :: 0 <= i < |list| ==> !list[i].node.rndPlayed
      requires Sound(config.Current()) && forall k: nat :: rand(k) <= RAND_MAX
      modifies config
      ensures Valid() && round == [] && done == [] && this.root == root && this.list == list
      ensures this.config == config && base == old(config.Current()) && !entryPushed
      ensures this.rand == rand && drawn == 0
    {
      hide Open, Kept, Sound;
      this.root, this.config, this.list, tree, at := root, config, list, first, 0;
      this.rand, drawn, round, done, entryPushed := rand, 0, [], [], false;
      base := config.Current();
      new;
      FlatTree(list);
      LinkedFlat(list, root);
      assert Placed();
      hide Placed;
      PlayIter.KeptStart(base);
      PlayIter.PushLevel(config, root.params, base, 0);
    }

    /** Leaves the level of the entry that has played. */
    method PopEntry()
      requires Valid()
      modifies this`entryPushed, config
      ensures Valid() && !entryPushed
    {
      hide Open, Kept, Hooked, Different, Flat;
      if entryPushed {
        PlayIter.PopLevel(config, base, 2);
        entryPushed := false;
      }
    }

    /**
     * A step of the iterator in a shuffled group. A round ends when all was played or when the draw is
     * one of the highest; `good` is the place of a random number that is none.
     */
    method Step(ghost good: nat) returns (r: Answer)
      requires Valid() && drawn <= good && !Top(rand(good))
      modifies this`tree, this`at, this`round, this`done, this`drawn, this`entryPushed, config
      modifies root`loop, root`rndPlayed, Heads(list)`rndPlayed
      ensures Valid() && at < |list| && tree == list[at].node
      ensures entryPushed == (r == ITER_ENTRY) && drawn >= old(drawn)
      ensures |old(round)| < |list| && !Top(rand(old(drawn))) ==>
        r == ITER_ENTRY && done == old(done) && at !in old(round) && root.loop == old(root.loop)
        && round == old(round) + [at]
      ensures |old(round)| < |list| && !Top(rand(old(drawn))) ==>
        Draws(old(round), |list|, rand(old(drawn)), at) && drawn == old(drawn) + 1
      ensures |old(round)| == |list| && old(root.loop) == 0 ==> r == ITER_END && done == old(done)
      ensures r == ITER_ENTRY ==> Played() == old(Played()) + [at] && round != [] && round[|round| - 1] == at
      ensures r == ITER_END ==> Played() == old(Played()) && root.loop == 0 && config.lvl == base.lvl + 1
      ensures old(root.loop) >= 0 ==> root.loop >= 0 && |done| + root.loop == old(|done| + root.loop)
      ensures done == old(done) ==> r == ITER_END || |round| == |old(round)| + 1
      ensures |done| >= |old(done)| && (|done| == |old(done)| ==> done == old(done))
      ensures Incomplete(if r == ITER_END then done + [round] else done, |list|)
        == old(Incomplete(done, |list|)) + Tops(rand, old(drawn), drawn)
      decreases good - drawn, |round|
    {
      hide Hooked, Open, Kept, Different, Flat, AllDifferent, Incomplete, Concat, Tops, Top, Draws;
      PopEntry();
      ghost var before := drawn;
      var pt;
      ghost var k;
      pt, k := Try();
      if pt == null {
        OneMore(done, round, |list|);
        if root.loop == 0 {
          OpenLevel(base, config.Current(), 1, Kept(base));
          return ITER_END;
        }
        ghost var mid := drawn;
        NextRound();
        r := Step(good);
        TopsSplit(rand, before, mid, drawn);
        return;
      }
      Enter(pt, k);
      r := ITER_ENTRY;
    }

    lemma Fits()
      requires Valid()
      ensures Different(round, |list|) && AllDifferent(done, |list|) && |round| <= |list|
    {
      Covers(round, |list|);
    }

    /** The choice of the next entry. */
    method Try() returns (pt: Item?, ghost k: nat)
      requires Valid() && !entryPushed
      modifies this`drawn
      ensures Valid()
      ensures drawn == old(drawn) + if |round| == |list| then 0 else 1
      ensures pt == null <==> |round| == |list| || Top(rand(old(drawn)))
      ensures pt != null ==> k < |list| && pt == list[k].node && k !in round
      ensures pt != null ==> Draws(round, |list|, rand(old(drawn)), k)
      ensures |round| <= |list| && Tops(rand, old(drawn), drawn) == if pt == null && |round| < |list| then 1 else 0
    {
      hide Hooked, Open, Kept, Different, Flat, AllDifferent, Top, Draw, InProportion, Free, Tops, AllHooked;
      LinkedFlat(list, root);
      NodesAllocated(list);
      PlayedFlags();
      TopsOne(rand, drawn);
      hide Flags, FlagsOf, Linked;
      pt, drawn, k := RndStep(tree, rand, drawn, list, at, root);
    }

    /** The marks are those of the places played. */
    lemma PlayedFlags()
      requires Placed()
      ensures Flags(list) == FlagsOf(round, |list|) && |round| <= |list|
      ensures Free(Flags(list), 0, |list|) == 0 <==> |round| == |list|
      ensures forall k: nat :: k < |list| ==> Flags(list)[k] == (k in round)
    {
      FreeCount(round, |list|);
      hide Hooked, Flat, Different;
      assert Flags(list) == FlagsOf(round, |list|);
    }

    /** All marks are taken off, and the loop count goes down. */
    method NextRound()
      requires Valid() && !entryPushed
      modifies this`round, this`done, root`loop, root`rndPlayed, Heads(list)`rndPlayed
      ensures Valid() && round == [] && done == old(done) + [old(round)]
      ensures root.loop == old(root.loop) - (if old(root.loop) > 0 then 1 else 0)
    {
      hide Hooked, Open, Kept, Flat, Different, AllDifferent, Concat, Incomplete;
      ghost var last := round;
      ClearMarks();
      if root.loop > 0 {
        root.loop := root.loop - 1;
      }
      OneMore(done, last, |list|);
      done := done + [last];
    }

    method ClearMarks()
      requires Valid() && !entryPushed
      modifies this`round, root`rndPlayed, Heads(list)`rndPlayed
      ensures Valid() && round == []
    {
      hide Hooked, Open, Kept, Flat, AllDifferent;
      FlatTree(list);
      LinkedFlat(list, root);
      Unmark(root, list);
      LinkedFlat(list, root);
      round := [];
    }

    method MarkPlayed(pt: Item, ghost k: nat)
      requires Placed() && k < |list| && pt == list[k].node && k !in round
      modifies this`tree, this`at, this`round, Heads(list)`rndPlayed
      ensures Placed() && at == k && round == old(round) + [k]
    {
      hide Hooked;
      tree, at := pt, k;
      Mark(pt, true, list, k, root);
      round := round + [k];
    }

    /** Onto an entry that has not been played: its level is pushed and it is marked. */
    method Enter(pt: Item, ghost k: nat)
      requires Valid() && !entryPushed && k < |list| && pt == list[k].node && k !in round
      modifies this`tree, this`at, this`round, this`entryPushed, config, Heads(list)`rndPlayed
      ensures Valid() && entryPushed && at == k && round == old(round) + [k]
    {
      hide Hooked, Flat, Different, Open, Kept;
      PlayIter.PushLevel(config, pt.params, base, 1);
      entryPushed := true;
      MarkPlayed(pt, k);
    }
  }

  /** However far the generator has come, it still gives a number that is not one of the highest. */
  ghost predicate Fair(rand: nat -> nat) { forall n: nat :: Goes(rand, n) }

  ghost predicate Goes(rand: nat -> nat, n: nat) { exists good: nat :: good >= n && !Top(rand(good)) }

  /**
   * Steps until the end. A group that is to be looped `k` times is shuffled `1 + k` times. No round
   * repeats an entry, and as many rounds are cut short as draws were among the highest; if none was,
   * every round is a permutation.
   */
  method PlayAll(it: ShuffleIter) returns (played: seq<Item>, ghost places: seq<nat>, ghost rounds: seq<seq<nat>>)
    requires it.Valid() && it.round == [] && it.done == [] && it.root.loop >= 0 && Fair(it.rand)
    modifies it, it.root, Heads(it.list), it.config
    ensures it.Valid() && it.config.lvl == it.base.lvl + 1 && it.drawn >= old(it.drawn)
    ensures |rounds| == 1 + old(it.root.loop) && Concat(rounds) == places
    ensures AllDifferent(rounds, |it.list|)
    ensures Incomplete(rounds, |it.list|) == Tops(it.rand, old(it.drawn), it.drawn)
    ensures Tops(it.rand, old(it.drawn), it.drawn) == 0 <==>
      forall j :: 0 <= j < |rounds| ==> Permutation(rounds[j], |it.list|)
    ensures |played| == |places|
    ensures forall i :: 0 <= i < |played| ==> places[i] < |it.list| && played[i] == it.list[places[i]].node
  {
    hide Different, Flat, AllHooked, AllDifferent, Incomplete, Concat, Tops, Top, Draws, ShuffleIter.Valid;
    played, places := [], [];
    ghost var n, loops, from := |it.list|, it.root.loop, it.drawn;
    NoRounds(it.rand, from, n);
    while true
      invariant it.Valid() && it.root.loop >= 0 && |it.round| <= n && it.drawn >= from
      invariant places == it.Played() && |it.done| + it.root.loop == loops
      invariant Incomplete(it.done, n) == Tops(it.rand, from, it.drawn)
      invariant |played| == |places|
      invariant forall i :: 0 <= i < |played| ==> places[i] < n && played[i] == it.list[places[i]].node
      decreases it.root.loop, n - |it.round|
    {
      ghost var mid := it.drawn;
      assert Goes(it.rand, mid);
      ghost var good: nat :| good >= mid && !Top(it.rand(good));
      var r := it.Step(good);
      it.Fits();
      TopsSplit(it.rand, from, mid, it.drawn);
      if r == ITER_END {
        OneMore(it.done, it.round, n);
        rounds := it.done + [it.round];
        CompleteExactly(rounds, n);
        return;
      }
      played, places := played + [it.tree], places + [it.at];
    }
  }

  /** A round is played in any order that the random numbers produce; by `EveryOrder` that can be any order. */
  method PlayOrder(it: ShuffleIter, n: nat, ghost order: seq<nat>, ghost numbers: seq<nat>)
    requires it.Valid() && it.round == [] && n == |it.list| && Permutation(order, n) && Produce(numbers, order, n)
    requires forall j :: 0 <= j < n ==> it.rand(it.drawn + j) == numbers[j]
    modifies it, it.root, Heads(it.list), it.config
    ensures it.Valid() && it.round == order && it.done == old(it.done)
  {
    hide Flat, AllHooked, AllDifferent, Incomplete, Concat, Tops, Top, Draw, ShuffleIter.Valid, Draws;
    ghost var from := it.drawn;
    for i := 0 to n
      invariant it.Valid() && it.round == order[..i] && it.done == old(it.done) && it.drawn == from + i
    {
      assert Draws(order[..i], n, numbers[i], order[i]);
      assert it.rand(from + i) == numbers[i];
      NotTop(order[..i], n, numbers[i], order[i]);
      var r := it.Step(it.drawn);
      SamePlace(order[..i], n, numbers[i], it.at, order[i]);
    }
  }

  lemma NotTop(round: seq<nat>, n: nat, rnd: nat, k: nat)
    requires k < n && Draws(round, n, rnd, k)
    ensures !Top(rnd)
  {
  }

  lemma SamePlace(round: seq<nat>, n: nat, rnd: nat, a: nat, b: nat)
    requires a < n && b < n && a !in round && b !in round && Draws(round, n, rnd, a) && Draws(round, n, rnd, b)
    ensures a == b
  {
    hide Draw, Top, Free;
    FreePlace(FlagsOf(round, n), a, b);
  }

  lemma NoRounds(rand: nat -> nat, from: nat, n: nat)
    ensures Incomplete([], n) == 0 == Tops(rand, from, from) && Concat([]) == []
  {
  }
}
