/** What a command line of files and brace groups means, without any tree of items. */
module CommandLine {
  import opened Basics
  import opened Numbers
  import opened Streams

  /** An argument: a brace, a file name, or `-loop` with the text behind it, if there is one. */
  datatype Arg = Open | Close | File(name: string) | Loop(text: Maybe<string>)

  datatype Plan = One(files: seq<string>) | Group(loop: int, kids: seq<Plan>)

  /** A group that is still open, with what it holds so far. */
  datatype Frame = Frame(loop: int, kids: seq<Plan>)

  function LoopCount(n: int): int { if n <= 0 then -1 else n }

  /** The loop count of a group: any whole number in any base, cut to an int. */
  function GroupLoop(text: Maybe<string>): Maybe<int> {
    if text.Just? && Number(text.value).1 == "" then Just(LoopCount(Number(text.value).0)) else Nothing
  }

  const MIN_LOOP := -1
  const MAX_LOOP := 10000

  /** The loop option of an entry: a whole number in base 10 or else in any base, in the option's range. */
  function EntryLoop(text: Maybe<string>): Maybe<int> {
    if text.Nothing? then Nothing
    else
      var tens := Long(text.value, true);
      var r := if tens.1 == "" then tens else Long(text.value, false);
      if r.1 == "" && MIN_LOOP <= r.0 <= MAX_LOOP then Just(r.0) else Nothing
  }

  /** What one argument does to the groups that are open, innermost last; Nothing is an error. */
  function Take(open: seq<Frame>, arg: Arg): Maybe<seq<Frame>>
    requires open != []
  {
    var t := |open| - 1;
    var top := open[t];
    match arg
    case File(name) => Just(open[t := top.(kids := top.kids + [One([name])])])
    case Open => Just(open + [Frame(0, [])])
    case Close => if t == 0 then Nothing else Just(Fold(open))
    case Loop(text) =>
      match PlaceOf(top)
      case Fresh =>
        if GroupLoop(text).Nothing? then Nothing else Just(open[t := top.(loop := GroupLoop(text).value)])
      case BehindGroup =>
        if GroupLoop(text).Nothing? then Nothing else Just(open[t := Relooped(top, GroupLoop(text).value)])
      case BehindEntry =>   // a parameter of that entry, not a loop of the tree
        if EntryLoop(text).Nothing? then Nothing else Just(open)
  }

  /** What a `-loop` would be for: the open group itself, the group last closed, or an entry. */
  datatype Place = Fresh | BehindGroup | BehindEntry

  /** A group without children is taken for an entry. */
  function PlaceOf(top: Frame): Place {
    if top.kids == [] then Fresh
    else match top.kids[|top.kids| - 1]
      case Group(_, kids) => if kids == [] then BehindEntry else BehindGroup
      case One(_) => BehindEntry
  }

  function Relooped(top: Frame, loop: int): Frame
    requires PlaceOf(top).BehindGroup?
  {
    var last := |top.kids| - 1;
    top.(kids := top.kids[last := Group(loop, top.kids[last].kids)])
  }

  /** Closes the innermost group. */
  function Fold(open: seq<Frame>): (r: seq<Frame>)
    requires |open| > 1
    ensures |r| == |open| - 1
  {
    var t := |open| - 1;
    var outer := open[t-1];
    open[..t-1] + [outer.(kids := outer.kids + [Group(open[t].loop, open[t].kids)])]
  }

  /** The tree when the arguments run out: groups still open end there. */
  function Whole(open: seq<Frame>): Plan
    requires open != []
    decreases |open|
  {
    if |open| == 1 then Group(open[0].loop, open[0].kids) else Whole(Fold(open))
  }

  function TakeAll(open: seq<Frame>, args: seq<Arg>): (r: Maybe<seq<Frame>>)
    requires open != []
    ensures r.Just? ==> r.value != []
    decreases args
  {
    if args == [] then Just(open)
    else match Take(open, args[0])
      case Nothing => Nothing
      case Just(open') => TakeAll(open', args[1..])
  }

  const START := [Frame(0, [])]

  function Parse(args: seq<Arg>): Maybe<Plan> {
    match TakeAll(START, args) case Nothing => Nothing case Just(open) => Just(Whole(open))
  }

  // ---------------------------------------------------------------------------------
  // When the parse fails

  function Balance(args: seq<Arg>): int {
    if args == [] then 0
    else (match args[0] case Open => 1 case Close => -1 case _ => 0) + Balance(args[1..])
  }

  /** The same as `Place`, told from the arguments alone. */
  function PlaceAfter(args: seq<Arg>): Place {
    if args == [] then Fresh
    else
      var before := PlaceAfter(args[..|args| - 1]);
      match args[|args| - 1]
      case Open => Fresh
      case File(_) => BehindEntry
      case Loop(_) => before
      case Close => if before.Fresh? then BehindEntry else BehindGroup
  }

  /** The argument `k` is a `-loop` whose text is wrong for what it is applied to. */
  predicate BadLoop(args: seq<Arg>, k: nat)
    requires k < |args|
  {
    args[k].Loop? &&
    if PlaceAfter(args[..k]).BehindEntry? then EntryLoop(args[k].text).Nothing? else GroupLoop(args[k].text).Nothing?
  }

  /** The first `n` arguments close more groups than they open. */
  predicate OverCloses(args: seq<Arg>, n: nat)
    requires n <= |args|
  {
    Balance(args[..n]) < 0
  }

  ghost predicate Refused(args: seq<Arg>) {
    (exists n :: 0 <= n <= |args| && OverCloses(args, n)) || exists k :: 0 <= k < |args| && BadLoop(args, k)
  }

  lemma {:induction false} BalanceSnoc(args: seq<Arg>, a: Arg)
    ensures Balance(args + [a]) == Balance(args) + Balance([a])
  {
    if args == [] {
      assert args + [a] == [a];
    } else {
      assert (args + [a])[1..] == args[1..] + [a];
      BalanceSnoc(args[1..], a);
    }
  }

  lemma {:induction false} TakeAllSnoc(open: seq<Frame>, args: seq<Arg>, a: Arg)
    requires open != []
    ensures TakeAll(open, args + [a]) ==
      match TakeAll(open, args) case Nothing => Nothing case Just(open') => Take(open', a)
    decreases args
  {
    if args == [] {
      assert args + [a] == [a];
    } else {
      assert (args + [a])[0] == args[0] && (args + [a])[1..] == args[1..] + [a];
      match Take(open, args[0])
      case Nothing =>
      case Just(next) => TakeAllSnoc(next, args[1..], a);
    }
  }

  lemma RefusedSnoc(args: seq<Arg>, a: Arg)
    ensures var all := args + [a];
      Refused(all) <==> Refused(args) || Balance(all) < 0 || BadLoop(all, |args|)
  {
    hide Balance, PlaceAfter, EntryLoop, GroupLoop;
    var all := args + [a];
    forall n | 0 <= n <= |args| ensures OverCloses(all, n) == OverCloses(args, n) {
      assert all[..n] == args[..n];
    }
    forall k | 0 <= k < |args| ensures BadLoop(all, k) == BadLoop(args, k) {
      assert all[..k] == args[..k];
    }
    assert all[..|all|] == all && OverCloses(all, |all|) == (Balance(all) < 0);
    if Refused(all) && Balance(all) >= 0 && !BadLoop(all, |args|) {
      if n :| 0 <= n <= |all| && OverCloses(all, n) {
        assert OverCloses(args, n);
      }
      if k :| 0 <= k < |all| && BadLoop(all, k) {
        assert BadLoop(args, k);
      }
    }
  }

  /** What the open groups know about the arguments taken so far. */
  lemma TakeKnows(open: seq<Frame>, a: Arg)
    requires open != []
    ensures var t := |open| - 1; Take(open, a).Nothing? <==>
      (a.Close? && t == 0) || (a.Loop? && if PlaceOf(open[t]).BehindEntry? then EntryLoop(a.text).Nothing?
      else GroupLoop(a.text).Nothing?)
    ensures Take(open, a).Just? ==> (var next := Take(open, a).value;
      next != [] && |next| == |open| + Balance([a]) && PlaceOf(next[|next| - 1]) ==
      match a
        case Open => Fresh
        case File(_) => BehindEntry
        case Loop(_) => PlaceOf(open[|open| - 1])
        case Close => if PlaceOf(open[|open| - 1]).Fresh? then BehindEntry else BehindGroup)
  {
    hide EntryLoop, GroupLoop;
  }

  /** The command line is refused so far, or the open groups are as many as the balance says. */
  lemma {:induction false} TakeAllFails(args: seq<Arg>)
    ensures TakeAll(START, args).Nothing? <==> Refused(args)
    ensures TakeAll(START, args).Just? ==> (var open := TakeAll(START, args).value;
      |open| == 1 + Balance(args) && PlaceOf(open[|open| - 1]) == PlaceAfter(args))
  {
    hide Take, EntryLoop, GroupLoop, PlaceOf;
    if args == [] {
      NothingRefused();
    } else {
      var before, a := args[..|args| - 1], args[|args| - 1];
      assert args == before + [a];
      TakeAllFails(before);
      TakeAllSnoc(START, before, a);
      RefusedSnoc(before, a);
      BalanceSnoc(before, a);
      if TakeAll(START, before).Just? {
        TakeKnows(TakeAll(START, before).value, a);
      }
    }
  }

  lemma NothingRefused()
    ensures !Refused([]) && PlaceOf(START[0]) == PlaceAfter([])
  {
  }

  /**
   * A command line is refused exactly when some part of it from the start closes more groups than
   * it opens, or some `-loop` is no number, or out of range where it is for an entry.
   */
  lemma ParseFails(args: seq<Arg>)
    ensures Parse(args).Nothing? <==>
      ((exists n :: 0 <= n <= |args| && OverCloses(args, n)) || exists k :: 0 <= k < |args| && BadLoop(args, k))
  {
    TakeAllFails(args);
  }

  // ---------------------------------------------------------------------------------
  // Writing a tree as a command line and reading it back

  /** Trees that a command line can express: one name per entry, a loop count of 0 (none
      given), 1 or more that fits an int, or -1. */
  predicate Expressible(p: Plan) {
    match p
    case One(files) => |files| == 1
    case Group(loop, kids) => -1 <= loop <= INT_MAX && forall i :: 0 <= i < |kids| ==> Expressible(kids[i])
  }

  function LoopArg(loop: int): seq<Arg> { if loop == 0 then [] else [Loop(Just(IntText(loop)))] }

  function Render(p: Plan): seq<Arg>
    decreases p, 1
  {
    match p
    case One(files) => seq(|files|, i requires 0 <= i < |files| => File(files[i]))
    case Group(loop, kids) => [Open] + LoopArg(loop) + RenderAll(kids) + [Close]
  }

  function RenderAll(ps: seq<Plan>): seq<Arg>
    decreases ps, 0
  {
    if ps == [] then [] else Render(ps[0]) + RenderAll(ps[1..])
  }

  function Adding(open: seq<Frame>, ps: seq<Plan>): seq<Frame>
    requires open != []
  {
    var t := |open| - 1;
    open[t := open[t].(kids := open[t].kids + ps)]
  }

  lemma AddingParts(open: seq<Frame>, a: seq<Plan>, b: seq<Plan>)
    requires open != []
    ensures Adding(open, []) == open && Adding(Adding(open, a), b) == Adding(open, a + b)
    ensures open[|open|-1].kids == [] ==> Adding(open, a) == open[|open|-1 := Frame(open[|open|-1].loop, a)]
  {
    var kids := open[|open|-1].kids;
    assert kids + [] == kids && (kids + a) + b == kids + (a + b) && [] + a == a;
  }

  lemma TakeAllStep(open: seq<Frame>, args: seq<Arg>, a: Arg, rest: seq<Arg>)
    requires open != [] && args == [a] + rest
    ensures TakeAll(open, args) ==
            match Take(open, a) case Nothing => Nothing case Just(open') => TakeAll(open', rest)
  {
    assert args[1..] == rest;
  }

  lemma {:induction false} ReadBack(open: seq<Frame>, p: Plan, rest: seq<Arg>)
    requires open != [] && Expressible(p)
    ensures TakeAll(open, Render(p) + rest) == TakeAll(Adding(open, [p]), rest)
    decreases p, 1
  {
    match p
    case One(files) =>
      assert Render(p) == [File(files[0])] && files == [files[0]];
      TakeAllStep(open, Render(p) + rest, File(files[0]), rest);
    case Group(loop, kids) =>
      var tail := RenderAll(kids) + ([Close] + rest);
      assert Render(p) + rest == [Open] + (LoopArg(loop) + tail);
      OpenLoop(open, loop, tail);
      ReadBackAll(open + [Frame(loop, [])], kids, [Close] + rest);
      CloseGroup(open, loop, kids, rest);
  }

  lemma OpenLoop(open: seq<Frame>, loop: int, tail: seq<Arg>)
    requires open != [] && -1 <= loop <= INT_MAX
    ensures TakeAll(open, [Open] + (LoopArg(loop) + tail)) == TakeAll(open + [Frame(loop, [])], tail)
  {
    var inner := open + [Frame(0, [])];
    TakeAllStep(open, [Open] + (LoopArg(loop) + tail), Open, LoopArg(loop) + tail);
    if loop == 0 {
      assert LoopArg(loop) + tail == tail;
    } else {
      TakeAllStep(inner, LoopArg(loop) + tail, LoopArg(loop)[0], tail);
      NumberOfIntText(loop);
      assert Take(inner, LoopArg(loop)[0]).value == open + [Frame(loop, [])];
    }
  }

  lemma CloseGroup(open: seq<Frame>, loop: int, kids: seq<Plan>, rest: seq<Arg>)
    requires open != []
    ensures TakeAll(Adding(open + [Frame(loop, [])], kids), [Close] + rest) ==
            TakeAll(Adding(open, [Group(loop, kids)]), rest)
  {
    var full := open + [Frame(loop, kids)];
    AddingParts(open + [Frame(loop, [])], kids, []);
    assert Adding(open + [Frame(loop, [])], kids) == full;
    TakeAllStep(full, [Close] + rest, Close, rest);
    assert Fold(full) == Adding(open, [Group(loop, kids)]);
  }

  lemma {:induction false} ReadBackAll(open: seq<Frame>, ps: seq<Plan>, rest: seq<Arg>)
    requires open != [] && forall i :: 0 <= i < |ps| ==> Expressible(ps[i])
    ensures TakeAll(open, RenderAll(ps) + rest) == TakeAll(Adding(open, ps), rest)
    decreases ps, 0
  {
    if ps == [] {
      assert RenderAll(ps) + rest == rest;
      AddingParts(open, [], []);
    } else {
      assert RenderAll(ps) + rest == Render(ps[0]) + (RenderAll(ps[1..]) + rest);
      ReadBack(open, ps[0], RenderAll(ps[1..]) + rest);
      ReadBackAll(Adding(open, [ps[0]]), ps[1..], rest);
      assert [ps[0]] + ps[1..] == ps;
      AddingParts(open, [ps[0]], ps[1..]);
    }
  }

  /** Every expressible tree is what its command line is read as. */
  lemma ParseRender(loop: int, kids: seq<Plan>)
    requires Expressible(Group(loop, kids))
    ensures Parse(LoopArg(loop) + RenderAll(kids)) == Just(Group(loop, kids))
  {
    var args := LoopArg(loop) + RenderAll(kids);
    var looped := [Frame(loop, [])];
    if loop == 0 {
      assert args == RenderAll(kids);
    } else {
      TakeAllStep(START, args, LoopArg(loop)[0], RenderAll(kids));
      NumberOfIntText(loop);
      assert Take(START, LoopArg(loop)[0]).value == looped;
    }
    assert TakeAll(START, args) == TakeAll(looped, RenderAll(kids));
    assert RenderAll(kids) + [] == RenderAll(kids);
    ReadBackAll(looped, kids, []);
    AddingParts(looped, kids, []);
  }

  // ---------------------------------------------------------------------------------
  // What is played

  /** A number behind a group is its loop count, and no number above zero makes it loop for ever. */
  lemma LoopBehindGroup(kids: seq<Plan>, n: int)
    requires kids != [] && Expressible(Group(0, kids)) && -INT_MAX <= n <= INT_MAX
    ensures Parse([Open] + RenderAll(kids) + [Close, Loop(Just(IntText(n)))])
      == Just(Group(0, [Group(if n <= 0 then -1 else n, kids)]))
  {
    hide Number, IntText;
    var last := Loop(Just(IntText(n)));
    var args := [Open] + RenderAll(kids) + [Close, last];
    if n == 0 { NumberOfZero(); } else { NumberOfIntText(n); }
    var inner := START + [Frame(0, [])];
    assert args == [Open] + (RenderAll(kids) + [Close, last]);
    TakeAllStep(START, args, Open, RenderAll(kids) + [Close, last]);
    ReadBackAll(inner, kids, [Close, last]);
    AddingParts(inner, kids, []);
    var held := START + [Frame(0, kids)];
    assert Adding(inner, kids) == held;
    TakeAllStep(held, [Close, last], Close, [last]);
    var closed := [Frame(0, [Group(0, kids)])];
    assert held[1] == Frame(0, kids) && held[0] == Frame(0, []) && held[..0] == [];
    assert [] + [Group(0, kids)] == [Group(0, kids)];
    assert Fold(held) == [] + [held[0].(kids := held[0].kids + [Group(0, kids)])] == closed;
    TakeAllStep(closed, [last], last, []);
    LoopTaken(kids, n);
  }

  lemma LoopTaken(kids: seq<Plan>, n: int)
    requires kids != [] && Number(IntText(n)) == (n, "")
    ensures Take([Frame(0, [Group(0, kids)])], Loop(Just(IntText(n))))
      == Just([Frame(0, [Group(if n <= 0 then -1 else n, kids)])])
  {
    hide Number, IntText;
    var top, loop := Frame(0, [Group(0, kids)]), LoopCount(n);
    assert PlaceOf(top) == BehindGroup && Relooped(top, loop) == Frame(0, [Group(loop, kids)]);
    assert [top][0 := Relooped(top, loop)] == [Relooped(top, loop)];
  }

  /** Behind an entry a number must be in the range of the option. */
  lemma LoopBehindEntry(name: string, n: int)
    requires -INT_MAX <= n <= INT_MAX
    ensures Parse([File(name), Loop(Just(IntText(n)))])
      == if -1 <= n <= 10000 then Just(Group(0, [One([name])])) else Nothing
  {
    hide Long, IntText;
    var last := Loop(Just(IntText(n)));
    var held := [Frame(0, [One([name])])];
    TensOfIntText(n);
    var top := START[0];
    assert top == Frame(0, []) && top.kids + [One([name])] == [One([name])];
    assert START[0 := top.(kids := top.kids + [One([name])])] == held;
    TakeAllStep(START, [File(name), last], File(name), [last]);
    TakeAllStep(held, [last], last, []);
    assert EntryLoop(Just(IntText(n))) == if -1 <= n <= 10000 then Just(n) else Nothing;
  }

  /** The files a tree plays. */
  function PlanStream(p: Plan): Stream<string>
    decreases p, 1
  {
    match p
    case One(files) => Stream(files, [])
    case Group(loop, kids) => Again(if loop == 0 then 1 else loop, PlanStreams(kids))
  }

  function PlanStreams(ps: seq<Plan>): Stream<string>
    decreases ps, 0
  {
    if ps == [] then Empty() else PlanStream(ps[0]).Then(PlanStreams(ps[1..]))
  }

  function Names(args: seq<Arg>): seq<string> {
    if args == [] then []
    else (match args[0] case File(name) => [name] case _ => []) + Names(args[1..])
  }

  predicate NoLoops(open: seq<Frame>) {
    forall i :: 0 <= i < |open| ==> open[i].loop == 0
  }

  function Held(open: seq<Frame>): Stream<string> {
    if open == [] then Empty() else PlanStreams(open[0].kids).Then(Held(open[1..]))
  }

  lemma {:induction false} StreamsSplit(a: seq<Plan>, b: seq<Plan>)
    ensures PlanStreams(a + b) == PlanStreams(a).Then(PlanStreams(b))
  {
    if a == [] {
      assert a + b == b;
      ThenEmpty(PlanStreams(b));
    } else {
      assert (a + b)[1..] == a[1..] + b;
      StreamsSplit(a[1..], b);
      ThenAssoc(PlanStream(a[0]), PlanStreams(a[1..]), PlanStreams(b));
    }
  }

  lemma {:induction false} HeldSplit(a: seq<Frame>, b: seq<Frame>)
    ensures Held(a + b) == Held(a).Then(Held(b))
  {
    if a == [] {
      assert a + b == b;
      ThenEmpty(Held(b));
    } else {
      assert (a + b)[1..] == a[1..] + b;
      HeldSplit(a[1..], b);
      ThenAssoc(PlanStreams(a[0].kids), Held(a[1..]), Held(b));
    }
  }

  predicate LoopArgFree(args: seq<Arg>) {
    forall i :: 0 <= i < |args| ==> !args[i].Loop?
  }

  lemma FoldHeld(open: seq<Frame>)
    requires |open| > 1 && NoLoops(open)
    ensures NoLoops(Fold(open)) && Held(Fold(open)) == Held(open)
  {
    hide Held, NoLoops, Fold;
    var t := |open| - 1;
    var rest := open[..t-1];
    var outer, inner := open[t-1], open[t];
    NoLoopsAt(open, t);
    FoldParts(open);
    var folded := Folded(outer, inner);
    HeldSplit(rest, [outer, inner]);
    HeldSplit(rest, [folded]);
    FoldTwo(outer, inner);
    NoLoopsParts(rest, [outer, inner], [folded]);
  }

  function Folded(outer: Frame, inner: Frame): Frame {
    outer.(kids := outer.kids + [Group(inner.loop, inner.kids)])
  }

  lemma NoLoopsAt(open: seq<Frame>, i: nat)
    requires NoLoops(open) && i < |open|
    ensures open[i].loop == 0
  {
  }

  lemma FoldParts(open: seq<Frame>)
    requires |open| > 1
    ensures var t := |open| - 1;
      (open == open[..t-1] + [open[t-1], open[t]] && Fold(open) == open[..t-1] + [Folded(open[t-1], open[t])])
  {
  }

  lemma NoLoopsParts(rest: seq<Frame>, two: seq<Frame>, one: seq<Frame>)
    requires |two| == 2 && |one| == 1 && NoLoops(rest + two) && one[0].loop == two[0].loop
    ensures NoLoops(rest + one)
  {
    assert forall i :: 0 <= i < |rest| ==> (rest + two)[i] == rest[i];
    assert (rest + two)[|rest|] == two[0];
  }

  /** Closing a group leaves what its two frames hold. */
  lemma FoldTwo(outer: Frame, inner: Frame)
    requires inner.loop == 0
    ensures Held([Folded(outer, inner)]) == Held([outer, inner])
  {
    var g := Group(0, inner.kids);
    hide PlanStreams;
    HeldOne(Folded(outer, inner));
    StreamsSplit(outer.kids, [g]);
    GroupOnce(inner.kids);
    HeldTwo(outer, inner);
  }

  lemma HeldTwo(outer: Frame, inner: Frame)
    ensures Held([outer, inner]) == PlanStreams(outer.kids).Then(PlanStreams(inner.kids))
  {
    assert [outer, inner][1..] == [inner];
    HeldOne(inner);
  }

  lemma GroupOnce(kids: seq<Plan>)
    ensures PlanStreams([Group(0, kids)]) == PlanStreams(kids)
  {
    var g := Group(0, kids);
    assert [g][1..] == [];
    ThenEmpty(PlanStream(g));
    AgainOnce(PlanStreams(kids));
  }

  lemma AgainOnce(body: Stream<string>)
    ensures Again(1, body) == body
  {
    assert body.pre + [] == body.pre;
    assert Times(1, body.pre) == body.pre + Times(0, body.pre);
  }

  lemma HeldOne(f: Frame)
    ensures Held([f]) == PlanStreams(f.kids)
  {
    assert [f][1..] == [];
    ThenEmpty(PlanStreams(f.kids));
  }

  lemma {:induction false} WholeHeld(open: seq<Frame>)
    requires open != [] && NoLoops(open)
    ensures PlanStream(Whole(open)) == Held(open)
    decreases |open|
  {
    if |open| == 1 {
      assert open == [open[0]];
      HeldOne(open[0]);
      AgainOnce(PlanStreams(open[0].kids));
    } else {
      FoldHeld(open);
      WholeHeld(Fold(open));
    }
  }

  /** A file goes behind everything that is held; a brace changes nothing. */
  lemma TakeHeld(open: seq<Frame>, arg: Arg)
    requires open != [] && NoLoops(open) && !arg.Loop? && Take(open, arg).Just?
    ensures NoLoops(Take(open, arg).value)
    ensures Held(Take(open, arg).value) == Held(open).Then(Stream(Names([arg]), []))
  {
    var t := |open| - 1;
    var next := Take(open, arg).value;
    assert open == open[..t] + [open[t]];
    ThenEmpty(Held(open));
    match arg
    case Open =>
      HeldSplit(open, [Frame(0, [])]);
      HeldOne(Frame(0, []));
    case Close => FoldHeld(open);
    case File(name) =>
      var p := One([name]);
      assert next == open[..t] + [next[t]];
      HeldSplit(open[..t], [open[t]]);
      HeldSplit(open[..t], [next[t]]);
      HeldOne(open[t]);
      HeldOne(next[t]);
      StreamsSplit(open[t].kids, [p]);
      ThenEmpty(PlanStream(p));
      assert [p][1..] == [] && Names([arg]) == [name];
      ThenAssoc(Held(open[..t]), PlanStreams(open[t].kids), PlanStream(p));
  }

  lemma {:induction false} TakeAllHeld(open: seq<Frame>, args: seq<Arg>)
    requires open != [] && NoLoops(open) && LoopArgFree(args) && TakeAll(open, args).Just?
    ensures NoLoops(TakeAll(open, args).value)
    ensures Held(TakeAll(open, args).value) == Held(open).Then(Stream(Names(args), []))
    decreases args
  {
    if args == [] {
      ThenEmpty(Held(open));
    } else {
      TakeHeld(open, args[0]);
      var next := Take(open, args[0]).value;
      TakeAllHeld(next, args[1..]);
      assert Names(args) == Names([args[0]]) + Names(args[1..]);
      ThenAssoc(Held(open), Stream(Names([args[0]]), []), Stream(Names(args[1..]), []));
    }
  }

  /** Without loops, a command line that is accepted plays its file names in their order,
      however they are grouped. */
  lemma PlaysNamesInOrder(args: seq<Arg>)
    requires LoopArgFree(args) && Parse(args).Just?
    ensures PlanStream(Parse(args).value) == Stream(Names(args), [])
  {
    TakeAllHeld(START, args);
    WholeHeld(TakeAll(START, args).value);
    HeldOne(START[0]);
    ThenEmpty(Stream(Names(args), []));
  }
}
