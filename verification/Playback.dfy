/** Whole runs of the playlist iterator: what is played, in which order, and what is left of
    the settings afterwards. */
module Playback {
  import opened Basics
  import opened Config
  import opened ConfigLevels
  import opened ConfigUndo
  import opened ConfigStore
  import opened PlayTree
  import opened PlayIter
  import opened Streams
  import opened Walk

  /** The files of some entries, one entry after the other. */
  ghost function Files(es: seq<Shape>): seq<string> {
    if es == [] then [] else es[0].files + Files(es[1..])
  }

  ghost function FileStream(s: Stream<Shape>): Stream<string> {
    Stream(Files(s.pre), Files(s.cyc))
  }

  /** Every entry names at least one file. */
  ghost predicate Filed(l: seq<Shape>) {
    forall i :: 0 <= i < |l| ==> (l[i].entry ==> l[i].files != []) && Filed(l[i].kids)
  }

  ghost predicate FiledStream(s: Stream<Shape>) {
    (forall e :: e in s.pre ==> e.files != []) && (forall e :: e in s.cyc ==> e.files != [])
  }

  lemma {:induction false} FiledExpand(s: Shape)
    requires Filed(s.kids) && (s.entry ==> s.files != [])
    ensures FiledStream(Expand(s))
    decreases s, 1
  {
    if !s.entry {
      FiledExpandAll(s.kids);
      var body := ExpandAll(s.kids);
      if Rounds(s.loop) > 0 && body.cyc == [] { FiledTimes(Rounds(s.loop), body.pre); }
    }
  }

  lemma {:induction false} FiledExpandAll(l: seq<Shape>)
    requires Filed(l)
    ensures FiledStream(ExpandAll(l))
    decreases l, 0
  {
    if l != [] {
      FiledExpand(l[0]);
      FiledExpandAll(l[1..]);
    }
  }

  lemma FiledTimes(n: nat, es: seq<Shape>)
    requires forall e :: e in es ==> e.files != []
    ensures forall e :: e in Times(n, es) ==> e.files != []
  {
  }

  lemma {:induction false} FilesSplit(a: seq<Shape>, b: seq<Shape>)
    ensures Files(a + b) == Files(a) + Files(b)
  {
    if a == [] {
      assert a + b == b;
    } else {
      assert (a + b)[1..] == a[1..] + b;
      FilesSplit(a[1..], b);
    }
  }

  /** All files still to come. */
  ghost function FilesAhead(iter: Iter): Stream<string>
    reads iter
    requires iter.Playing()
  {
    Joined(iter.list[iter.at].files, iter.file + 1, FileStream(iter.Remaining()))
  }

  /** The files of an entry from `next` on, and then `later`. */
  function Joined(files: seq<string>, next: nat, later: Stream<string>): Stream<string> {
    if next < |files| then Stream(files[next..], []).Then(later) else later
  }

  lemma JoinedStep(files: seq<string>, next: nat, later: Stream<string>)
    requires next < |files|
    ensures !Joined(files, next, later).IsEmpty() && Joined(files, next, later).Head() == files[next]
    ensures Joined(files, next, later).Tail() == Joined(files, next + 1, later)
  {
    assert (files[next..] + later.pre)[1..] == files[next+1..] + later.pre;
  }

  ghost predicate Ready(iter: Iter)
    reads iter, iter.items, iter.outer, iter.config
  {
    iter.Valid() && iter.Playing() && FiledStream(iter.Remaining())
  }

  /** What a step onto the next entry makes of the files ahead. */
  lemma FilesNext(s: Stream<Shape>)
    requires !s.IsEmpty() && FiledStream(s)
    ensures !FileStream(s).IsEmpty() && FileStream(s).Head() == s.Head().files[0]
    ensures FileStream(s).Tail() == Joined(s.Head().files, 1, FileStream(s.Tail()))
    ensures FiledStream(s.Tail()) && s.Head().files != []
  {
    var fs, rest := s.Head().files, if s.pre != [] then Files(s.pre[1..]) else Files(s.cyc[1..]);
    assert (fs + rest)[1..] == fs[1..] + rest;
  }

  /** A step onto the next entry and its first file. */
  method NextEntryFile(iter: Iter) returns (r: Maybe<string>)
    requires Ready(iter)
    modifies iter, iter.config
    ensures iter.Valid()
    ensures old(iter.Remaining()).IsEmpty() ==> r == Nothing && iter.Undone()
    ensures !old(iter.Remaining()).IsEmpty() ==>
      var files := old(FileStream(iter.Remaining()));
      && !files.IsEmpty() && r == Just(files.Head()) && Ready(iter) && FilesAhead(iter) == files.Tail()
  {
    hide Open, Kept, Iter.Tree, Linked, LinkedAt, Nodes, Good, Rest, From, Agree, Expand, ExpandAll;
    ghost var s := iter.Remaining();
    if !s.IsEmpty() { FilesNext(s); }
    r := Nothing;
    var answer := iter.Step(1, false);
    if answer == ITER_ENTRY {
      r := iter.GetFile(1);
    }
  }

  lemma NoFiles(s: Stream<Shape>)
    requires s.IsEmpty()
    ensures FileStream(s).IsEmpty()
  {
  }

  /** pt_iter_get_file going forward: the next file of the run, whatever entry it is in. */
  method NextFile(iter: Iter) returns (r: Maybe<string>)
    requires Ready(iter)
    modifies iter, iter.config
    ensures iter.Valid()
    ensures old(FilesAhead(iter)).IsEmpty() ==> r == Nothing && iter.Undone()
    ensures !old(FilesAhead(iter)).IsEmpty() ==>
      && r == Just(old(FilesAhead(iter)).Head())
      && Ready(iter) && FilesAhead(iter) == old(FilesAhead(iter)).Tail()
  {
    hide Iter.Valid, Rest, FiledStream, FileStream, Iter.Undone, Joined;
    if iter.Remaining().IsEmpty() { NoFiles(iter.Remaining()); }
    ghost var files, next, later := iter.list[iter.at].files, iter.file + 1, FileStream(iter.Remaining());
    if next < |files| { JoinedStep(files, next, later); } else { JoinedLast(files, next, later); }
    r := iter.GetFile(1);
    while r.Nothing?
      invariant iter.Valid()
      invariant r.Nothing? ==>
        && Ready(iter) && FileStream(iter.Remaining()) == later && next >= |files|
        && (iter.Remaining().IsEmpty() ==> later.IsEmpty())
      invariant r.Just? ==>
        && !Joined(files, next, later).IsEmpty() && r == Just(Joined(files, next, later).Head())
        && Ready(iter) && FilesAhead(iter) == Joined(files, next, later).Tail()
      decreases r.Nothing?
    {
      r := NextEntryFile(iter);
      if r.Nothing? { break; }
    }
  }

  lemma JoinedLast(files: seq<string>, next: nat, later: Stream<string>)
    requires next >= |files|
    ensures Joined(files, next, later) == later
  {
  }

  /** Options set while an entry plays go into the level that its step opened. */
  method SetWhilePlaying(iter: Iter, params: seq<SubParam>)
    requires iter.Valid() && iter.entryPushed
    modifies iter.config
    ensures iter.Valid()
    ensures iter.config.Current() == WithParams(old(iter.config.Current()), params)
    ensures iter.applied == old(iter.applied)
  {
    hide Open, Kept, Iter.Tree;
    OpenSound(iter.base, iter.config.Current(), iter.Levels(), Kept(iter.base));
    OpenParams(iter.base, iter.config.Current(), iter.Levels(), Kept(iter.base), params);
    SettledParams(iter.base, iter.config.Current(), iter.applied, iter.starts, params);
    SetParams(iter.config, params);
  }

  lemma OpenSound(base: State, st: State, m: nat, keep: set<nat>)
    requires Open(base, st, m, keep)
    ensures Sound(st)
  {
  }

  /** What the next step plays first. */
  ghost function Ahead(iter: Iter): Stream<Shape>
    reads iter
    requires iter.at < |iter.list|
  {
    if iter.tree == null then iter.FromItem(iter.at) else iter.Remaining()
  }

  /** `rest` is what `s` has left after `n` entries. */
  ghost predicate Follows<T>(s: Stream<T>, n: nat, rest: Stream<T>) {
    forall k: nat :: Nth(s, n + k) == Nth(rest, k)
  }

  /** The items are the first entries of `s`. */
  ghost predicate Prefix(s: Stream<Shape>, played: seq<Item>) {
    forall k :: 0 <= k < |played| ==> Nth(s, k).Entry? && Nth(s, k).value.node == played[k]
  }

  lemma FollowsNext<T>(s: Stream<T>, n: nat, rest: Stream<T>)
    requires Follows(s, n, rest)
    ensures rest.IsEmpty() ==> Nth(s, n) == End
    ensures !rest.IsEmpty() ==> Nth(s, n) == Entry(rest.Head()) && Follows(s, n + 1, rest.Tail())
  {
    assert Nth(s, n + 0) == Nth(rest, 0);
    if !rest.IsEmpty() {
      forall k: nat ensures Nth(s, n + 1 + k) == Nth(rest.Tail(), k) {
        NthTail(rest, k);
        assert Nth(s, n + (k + 1)) == Nth(rest, k + 1);
      }
    }
  }

  lemma FollowsStep(s: Stream<Shape>, played: seq<Item>, rest: Stream<Shape>)
    requires Follows(s, |played|, rest) && Prefix(s, played)
    ensures rest.IsEmpty() ==> Nth(s, |played|) == End
    ensures !rest.IsEmpty() ==>
      Follows(s, |played| + 1, rest.Tail()) && Prefix(s, played + [rest.Head().node])
  {
    FollowsNext(s, |played|, rest);
  }

  /** One step of a run: the first enters the root, later ones go to the next entry. On arrival the
      values are in force that the groups around give and the entry's own parameters on top; what is
      set while it plays comes after that. */
  method PlayNext(iter: Iter, params: seq<SubParam>) returns (ended: bool, ghost entered: State)
    requires iter.Valid()
    modifies iter, iter.config
    ensures iter.Valid() && iter.tree != null
    ensures var s := old(Ahead(iter));
      && ended == s.IsEmpty()
      && (!ended ==> iter.tree == s.Head().node && Ahead(iter) == s.Tail())
    ensures ended ==> iter.Undone()
    ensures !ended && iter.config != null ==>
      (iter.config.Current() == WithParams(entered, params)
      && Within(iter.applied, iter.items)
      && iter.applied == Groups(iter.ctx) + [iter.tree] && Holding(iter.base, entered, iter.applied, iter.starts))
  {
    hide Open, Kept, Iter.Tree, Linked, LinkedAt, Nodes, Good, Rest, From, Agree, Expand, ExpandAll, Settled, Holding;
    var answer := iter.Step(if iter.tree == null then 0 else 1, false);
    ended := answer != ITER_ENTRY;
    entered := if iter.config == null then iter.base else iter.config.Current();
    if !ended && iter.config != null {
      SetWhilePlaying(iter, params);
    }
  }

  /** Plays `n` entries, or all of them if there are fewer, setting the options `during[k]`
      while the entry `k` plays. What is played is the expansion of the tree, entry by entry;
      when it ends, every setting made by the tree or while playing has been undone. */
  method Play(iter: Iter, n: nat, during: seq<seq<SubParam>>) returns (played: seq<Item>, ended: bool)
    requires iter.Valid() && iter.tree == null
    modifies iter, iter.config
    ensures iter.Valid() && |played| <= n && (!ended ==> |played| == n)
    ensures var s := old(Ahead(iter));
      Prefix(s, played) && (ended ==> Nth(s, |played|) == End)
    ensures ended ==> iter.Undone()
  {
    hide Open, Kept, Iter.Tree, Rest, From, Iter.Undone, Ahead, Follows, Prefix;
    ghost var s := Ahead(iter);
    StartOf(s);
    played, ended := [], false;
    while |played| < n && !ended
      invariant iter.Valid() && |played| <= n && Prefix(s, played)
      invariant !ended ==> Follows(s, |played|, Ahead(iter))
      invariant ended ==> iter.Undone() && Nth(s, |played|) == End
      decreases n - |played|, !ended
    {
      FollowsStep(s, played, Ahead(iter));
      var params := if |played| < |during| then during[|played|] else [];
      ghost var entered;
      ended, entered := PlayNext(iter, params);
      if !ended {
        played := played + [iter.tree];
      }
    }
  }

  lemma StartOf(s: Stream<Shape>)
    ensures Follows(s, 0, s) && Prefix(s, [])
  {
  }

  /** The loop that lists a playlist file by file. It ends exactly when nothing loops for ever. */
  method ListFiles(iter: Iter) returns (files: seq<string>)
    requires Ready(iter) && FilesAhead(iter).cyc == []
    modifies iter, iter.config
    ensures files == old(FilesAhead(iter)).pre && iter.Undone()
  {
    hide Iter.Valid, FiledStream, FilesAhead, Iter.Undone, Rest;
    ghost var all := FilesAhead(iter).pre;
    files := [];
    while true
      invariant Ready(iter) && FilesAhead(iter).cyc == [] && all == files + FilesAhead(iter).pre
      decreases |FilesAhead(iter).pre|
    {
      ghost var ahead := FilesAhead(iter);
      var file := NextFile(iter);
      if file.Nothing? {
        return;
      }
      files := files + [file.value];
    }
  }

  lemma PlaysNow(iter: Iter)
    requires Ready(iter)
    ensures iter.Playing()
  {
  }

  /** The files are the first ones of `s`. */
  ghost predicate Begins(s: Stream<string>, files: seq<string>) {
    forall k :: 0 <= k < |files| ==> Nth(s, k) == Entry(files[k])
  }

  lemma StartOfFiles(s: Stream<string>)
    ensures Follows(s, 0, s) && Begins(s, [])
  {
  }

  lemma BeginsNext(s: Stream<string>, files: seq<string>, rest: Stream<string>)
    requires Follows(s, |files|, rest) && Begins(s, files)
    ensures rest.IsEmpty() ==> Nth(s, |files|) == End
    ensures !rest.IsEmpty() ==>
      Follows(s, |files| + 1, rest.Tail()) && Begins(s, files + [rest.Head()])
  {
    FollowsNext(s, |files|, rest);
  }

  /** The files of some entries begin with those of the first one, though they may be written otherwise. */
  lemma FilesStart(s: Stream<Shape>, k: nat)
    requires !s.IsEmpty() && s.Head().files != []
    ensures Nth(FileStream(s), k) == Nth(Joined(s.Head().files, 0, FileStream(s.Tail())), k)
  {
    var fs := s.Head().files;
    assert fs[0..] == fs;
    assert Joined(fs, 0, FileStream(s.Tail())) ==
      Stream(fs + FileStream(s.Tail()).pre, FileStream(s.Tail()).cyc);
  }

  /** The first `n` files, or all of them if there are fewer, of a playlist that may loop for ever. */
  method FirstFiles(iter: Iter, n: nat) returns (files: seq<string>, ended: bool)
    requires Ready(iter)
    modifies iter, iter.config
    ensures |files| <= n && (!ended ==> |files| == n) && Begins(old(FilesAhead(iter)), files)
    ensures ended ==> Nth(old(FilesAhead(iter)), |files|) == End && iter.Undone()
  {
    hide Ready, FilesAhead, Iter.Undone, Rest, Follows, Begins, Nth, Iter.Valid;
    assert iter.Playing() by { PlaysNow(iter); }
    ghost var all := FilesAhead(iter);
    StartOfFiles(all);
    files, ended := [], false;
    while |files| < n && !ended
      invariant |files| <= n && Begins(all, files)
      invariant !ended ==> Ready(iter) && iter.Playing() && Follows(all, |files|, FilesAhead(iter))
      invariant ended ==> Nth(all, |files|) == End && iter.Undone()
      decreases n - |files|, !ended
    {
      PlaysNow(iter);
      BeginsNext(all, files, FilesAhead(iter));
      var file := NextFile(iter);
      if file.Nothing? {
        ended := true;
      } else {
        files := files + [file.value];
        PlaysNow(iter);
      }
    }
  }

  /** Going back to the starting point: one group up at a time, stopping on nodes. It undoes
      every setting, unless the entry playing is the root itself: then its level stays open. */
  method Rewind(iter: Iter)
    requires iter.Valid() && iter.tree != null
    modifies iter, iter.config
    ensures iter.Valid() && iter.ctx == Top
    ensures old(iter.ctx).In? || !old(iter.entryPushed) ==> iter.Undone()
    ensures old(iter.ctx).Top? ==> iter.Levels() == old(iter.Levels())
  {
    hide Open, Kept, Iter.Tree, Rest, From, Linked, LinkedAt, Good;
    var r := iter.UpStep(0, true);
    while r != ITER_END
      invariant iter.Valid() && iter.Consistent(r) && iter.tree != null
      invariant r != ITER_END ==> r == ITER_NODE && old(iter.ctx).In?
      invariant r == ITER_END && (old(iter.ctx).In? || !old(iter.entryPushed)) ==> iter.Undone()
      invariant r == ITER_END && old(iter.ctx).Top? ==> iter.Levels() == old(iter.Levels())
      decreases r != ITER_END, iter.ctx
    {
      r := iter.UpStep(0, true);
    }
  }
}
