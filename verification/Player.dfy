/** From the command line to the list of files that is played. */
module Player {
  import opened Basics
  import opened Config
  import opened ConfigUndo
  import opened ConfigStore
  import C = CommandLine
  import opened CmdParser
  import opened PlayTree
  import opened TreeEdit
  import opened PlayIter
  import opened Playback
  import opened Streams
  import opened Walk

  lemma {:induction false} FilesTimes(n: nat, es: seq<Shape>)
    ensures Files(Times(n, es)) == Times(n, Files(es))
  {
    if n > 0 {
      FilesTimes(n - 1, es);
      FilesSplit(es, Times(n - 1, es));
    }
  }

  lemma FilesSome(es: seq<Shape>)
    requires forall e :: e in es ==> e.files != []
    ensures Files(es) == [] <==> es == []
  {
    if es != [] { assert es[0] in es; }
  }

  lemma FileStreamThen(a: Stream<Shape>, b: Stream<Shape>)
    requires FiledStream(a)
    ensures FileStream(a.Then(b)) == FileStream(a).Then(FileStream(b))
  {
    FilesSome(a.cyc);
    FilesSplit(a.pre, b.pre);
  }

  lemma FileStreamAgain(n: int, a: Stream<Shape>)
    requires FiledStream(a)
    ensures FileStream(Again(n, a)) == Again(n, FileStream(a))
  {
    FilesSome(a.cyc);
    if n > 0 { FilesTimes(n, a.pre); }
  }

  lemma {:induction false} PlainFiled(l: seq<Shape>)
    requires Plain(l)
    ensures Filed(l) && NoShuffle(l)
    decreases l
  {
    forall i | 0 <= i < |l| ensures Filed(l[i].kids) && NoShuffle(l[i].kids) { PlainFiled(l[i].kids); }
  }

  /** The items of a tree play the files that its plan names. */
  lemma {:induction false} ExpandPlan(s: Shape)
    requires Plain([s])
    ensures FileStream(Expand(s)) == C.PlanStream(PlanOf(s))
    decreases s, 1
  {
    assert [s][0] == s;
    PlainFiled(s.kids);
    if s.entry {
      assert Files([s]) == s.files + [];
    } else {
      ExpandPlans(s.kids);
      FiledExpandAll(s.kids);
      FileStreamAgain(Rounds(s.loop), ExpandAll(s.kids));
    }
  }

  lemma {:induction false} ExpandPlans(l: seq<Shape>)
    requires Plain(l)
    ensures FileStream(ExpandAll(l)) == C.PlanStreams(PlansOf(l))
    decreases l, 0
  {
    if l != [] {
      assert Plain([l[0]]) && Plain(l[1..]);
      ExpandPlan(l[0]);
      ExpandPlans(l[1..]);
      PlainFiled(l);
      FiledExpand(l[0]);
      FileStreamThen(Expand(l[0]), ExpandAll(l[1..]));
      assert PlansOf(l)[1..] == PlansOf(l[1..]);
    }
  }

  lemma {:induction false} CleanedPlain(l: seq<Shape>)
    requires Plain(l)
    ensures Plain(Cleaned(l))
    decreases l
  {
    if l != [] {
      CleanedPlain(l[0].kids);
      CleanedPlain(l[1..]);
      assert l[0].kids == [] ==> Cleaned(l[0].kids) == [];
    }
  }

  /** Nothing surrounds a root without parent and siblings. */
  lemma FromAlone(s: Shape)
    ensures From(Top, [s], 0, 0, 0) == Expand(s)
  {
    assert [s][1..] == [];
    ThenEmpty(Empty<Shape>());
    ThenEmpty(Expand(s));
  }

  /** A cleaned tree is ready to be walked and plays the files of its plan. */
  lemma CleanedReady(s: Shape)
    requires Plain([s]) && Linked([s], null) && Playable(s)
    ensures var top := [CleanedTree(s)];
      && Good(top) && Filed(top) && From(Top, top, 0, 0, 0) == Expand(s)
      && FiledStream(Expand(s)) && !Expand(s).IsEmpty()
      && FileStream(Expand(s)) == C.PlanStream(PlanOf(s))
  {
    assert [s][0] == s;
    LinkedLeafy([s], null);
    CleanedTreeGood(s);
    CleanedPlain(s.kids);
    var top := [CleanedTree(s)];
    assert s.kids == [] ==> Cleaned(s.kids) == [];
    assert Plain(top);
    PlainFiled(top);
    PlainFiled([s]);
    FiledExpand(s);
    ExpandPlan(s);
    PlayableExpands(s);
    FromAlone(CleanedTree(s));
  }

  lemma NothingPlays(s: Shape)
    requires Plain([s]) && Linked([s], null) && !Playable(s)
    ensures C.PlanStream(PlanOf(s)).IsEmpty()
  {
    assert [s][0] == s;
    LinkedLeafy([s], null);
    CleanedTreeGood(s);
    ExpandPlan(s);
  }

  /** Every option that a run must give back has its value of `st` again, at the same level. */
  ghost predicate GivenBack(st: State, config: MConfig)
    reads config
  {
    && config.lvl == st.lvl && SameOptions(st, config.Current())
    && forall i :: i in Kept(st) ==> Unchanged(st, config.Current(), st.opts[i].info.p.value)
  }

  /** The tree of `s` is cleaned and can be walked from its root, which stands alone. */
  ghost predicate Walkable(root: Item, s: Shape)
    reads Nodes([CleanedTree(s)])
  {
    var top := [CleanedTree(s)];
    && root == top[0].node && Linked(top, null) && Good(top) && From(Top, top, 0, 0, 0) == Expand(s)
    && FiledStream(Expand(s)) && !Expand(s).IsEmpty()
  }

  /** The start of a playlist: the command line is parsed and the tree cleaned. */
  method ParseAndClean(args: seq<C.Arg>) returns (refused: bool, root: Item?, ghost s: Shape)
    ensures refused <==> C.Parse(args) == Nothing
    ensures !refused && root == null ==> C.PlanStream(C.Parse(args).value).IsEmpty()
    ensures !refused && root != null ==>
      Walkable(root, s) && FileStream(Expand(s)) == C.PlanStream(C.Parse(args).value)
  {
    root, s := ParseCommandLine(args);
    if root == null {
      return true, null, s;
    }
    refused := false;
    if Playable(s) { CleanedReady(s); } else { NothingPlays(s); }
    KidsWithin([s]);
    assert [s][0] == s && [s][0 := CleanedTree(s)] == [CleanedTree(s)];
    Unfold([s], null);
    assert Hooked([s], 0, null);
    root := Cleanup(root, [s], 0, null);
  }

  /** The command line is parsed, the tree cleaned, and the iterator lists all files: they are
      those of the plan, or there is an error exactly when the plan has one. Listing the files
      sets the parameters of every group and entry, and gives the settings in Kept back. */
  method ListCommandLine(args: seq<C.Arg>, config: MConfig?) returns (files: Maybe<seq<string>>)
    requires C.Parse(args).Just? ==> C.PlanStream(C.Parse(args).value).cyc == []
    requires config != null ==> Sound(config.Current())
    modifies config
    ensures files == match C.Parse(args) case Nothing => Nothing
                                         case Just(plan) => Just(C.PlanStream(plan).pre)
    ensures config != null ==> GivenBack(old(config.Current()), config)
  {
    hide Sound, GivenBack, Walkable, C.Parse;
    if config != null { Untouched(config.Current(), config); }
    var refused, root, s := ParseAndClean(args);
    if refused {
      return Nothing;
    }
    if root == null {
      return Just([]);
    }
    var list := ListTree(root, config, s);
    files := Just(list);
  }

  lemma Untouched(st: State, config: MConfig)
    requires Sound(st) && config.Current() == st
    ensures GivenBack(st, config)
  {
    forall i | i in Kept(st) ensures Unchanged(st, st, st.opts[i].info.p.value) {
      assert OptionOk(st, st.opts[i]);
    }
  }

  /** The part of it after the cleanup. */
  method ListTree(root: Item, config: MConfig?, ghost s: Shape) returns (files: seq<string>)
    requires Walkable(root, s) && FileStream(Expand(s)).cyc == []
    requires config != null ==> Sound(config.Current())
    modifies config
    ensures files == FileStream(Expand(s)).pre
    ensures config != null ==> GivenBack(old(config.Current()), config)
  {
    hide Open, Kept, Iter.Tree, Linked, LinkedAt, Nodes, Good, Rest, From, Agree, Expand, ExpandAll;
    ghost var top := [CleanedTree(s)];
    var iter := new Iter(root, config, top, 0, null);
    var answer := iter.Step(0, false);
    FilesNext(Expand(s));
    files := ListFiles(iter);
  }

  /** The first `n` files of a command line, for plans that loop for ever as well. */
  method PlayCommandLine(args: seq<C.Arg>, config: MConfig?, n: nat) returns (files: Maybe<seq<string>>, ended: bool)
    requires config != null ==> Sound(config.Current())
    modifies config
    ensures files.Nothing? <==> C.Parse(args) == Nothing
    ensures files.Just? ==> (var s, played := C.PlanStream(C.Parse(args).value), files.value;
      |played| <= n && (!ended ==> |played| == n) && Begins(s, played) && (ended ==> Nth(s, |played|) == End))
    ensures config != null && ended ==> GivenBack(old(config.Current()), config)
  {
    hide Sound, GivenBack, Walkable, C.Parse, Begins;
    if config != null { Untouched(config.Current(), config); }
    var refused, root, s := ParseAndClean(args);
    if refused {
      return Nothing, true;
    }
    if root == null {
      NoFilesBegin(C.PlanStream(C.Parse(args).value));
      return Just([]), true;
    }
    var list;
    list, ended := PlaySome(root, config, s, n);
    files := Just(list);
  }

  lemma NoFilesBegin(s: Stream<string>)
    requires s.IsEmpty()
    ensures Begins(s, []) && Nth(s, 0) == End
  {
  }

  /** The part of it after the cleanup: the first step already stands on the first entry. */
  method PlaySome(root: Item, config: MConfig?, ghost s: Shape, n: nat) returns (files: seq<string>, ended: bool)
    requires Walkable(root, s)
    requires config != null ==> Sound(config.Current())
    modifies config
    ensures |files| <= n && (!ended ==> |files| == n) && Begins(FileStream(Expand(s)), files)
    ensures ended ==> Nth(FileStream(Expand(s)), |files|) == End
    ensures config != null && ended ==> GivenBack(old(config.Current()), config)
  {
    hide Open, Kept, Iter.Tree, Linked, LinkedAt, Nodes, Good, Rest, From, Agree, Expand, ExpandAll, Begins;
    ghost var top := [CleanedTree(s)];
    var iter := new Iter(root, config, top, 0, null);
    var answer := iter.Step(0, false);
    FilesNext(Expand(s));
    ghost var all := FilesAhead(iter);
    forall k: nat ensures Nth(all, k) == Nth(FileStream(Expand(s)), k) {
      FilesStart(Expand(s), k);
    }
    files, ended := FirstFiles(iter, n);
    SameBeginning(FileStream(Expand(s)), all, files);
  }

  lemma SameBeginning(a: Stream<string>, b: Stream<string>, files: seq<string>)
    requires (forall k: nat :: Nth(b, k) == Nth(a, k)) && Begins(b, files)
    ensures Begins(a, files)
  {
  }
}
