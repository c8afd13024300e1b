/** Which values hold while several levels of settings are open. */
module ConfigLevels {
  import opened Basics
  import opened Config
  import opened ConfigUndo
  import opened ConfigStore

  /** The store after the parameters `ps` have been set one by one; errors are only logged. */
  function WithParams(st: State, ps: seq<SubParam>): State
    decreases ps
  {
    if ps == [] then st else WithParams(Parse(st, ps[0].name, ps[0].outcome, true).0, ps[1..])
  }

  /** The store when the parameters of one level after the other have been set, from `st` on. */
  function Layered(st: State, layers: seq<seq<SubParam>>): State
    decreases layers
  {
    if layers == [] then st
    else WithParams(Pushed(Layered(st, layers[..|layers| - 1])), layers[|layers| - 1])
  }

  predicate SameTable(a: State, b: State) {
    |a.opts| == |b.opts| && a.mode == b.mode && forall i :: 0 <= i < |a.opts| ==> a.opts[i].info == b.opts[i].info
  }

  /** The same options, and the same value of `p`. */
  ghost predicate Alike(a: State, b: State, p: VarId) { SameTable(a, b) && Unchanged(a, b, p) }

  function Least(a: nat, b: nat): nat { if a <= b then a else b }

  /** Some name of a sub-option of the group `name` finds the option. */
  predicate Under(i: Info, name: string) {
    var head, l := name + ":", |i.name| - 1;
    if i.wildcard && l >= 0 && i.name[l] == '*'
    then var n := Least(l, |head|); SameNoCase(i.name[..n], head[..n])
    else |head| <= |i.name| && SameNoCase(i.name[..|head|], head)
  }

  lemma UnderIs(i: Info, name: string)
    ensures Under(i, name) <==> exists sub :: Matches(i, name + ":" + sub)
  {
    hide Under, Matches;
    if sub :| Matches(i, name + ":" + sub) {
      MatchesUnder(i, name, sub);
    }
    if Under(i, name) {
      var sub := UnderMatches(i, name);
    }
  }

  lemma MatchesUnder(i: Info, name: string, sub: string)
    requires Matches(i, name + ":" + sub)
    ensures Under(i, name)
  {
    hide Lower;
    var head, arg := name + ":", name + ":" + sub;
    forall k | 0 <= k < |head| ensures arg[k] == head[k] {
    }
  }

  lemma UnderMatches(i: Info, name: string) returns (sub: string)
    requires Under(i, name)
    ensures Matches(i, name + ":" + sub)
  {
    hide Lower;
    var head := name + ":";
    var n := if i.wildcard && |i.name| > 0 && i.name[|i.name| - 1] == '*' then |i.name| - 1 else |i.name|;
    sub := if n > |head| then i.name[|head|..n] else "";
    var arg := head + sub;
    forall k | 0 <= k < n ensures Lower(i.name[k]) == Lower(arg[k]) {
      if k < |head| {
        assert i.name[..Least(n, |head|)][k] == i.name[k] && head[..Least(n, |head|)][k] == head[k];
      }
    }
  }

  /** Nothing that is set through the group `j` is a group itself or has the variable `p`. */
  predicate Spares(st: State, j: nat, p: VarId)
    requires j < |st.opts|
  {
    forall i :: 0 <= i < |st.opts| && Under(st.opts[i].info, st.opts[j].info.name) ==>
      !st.opts[i].info.hasChild && st.opts[i].info.p != Just(p)
  }

  /**
   * Whether a set reaches `p` does not hang on what was set before: `p` is not the variable of an option
   * that is set by the early pass over the command line, nor of one that belongs to such a group.
   */
  predicate Steady(st: State, p: VarId) {
    st.mode == PreParse || forall j :: 0 <= j < |st.opts| ==> SteadyAt(st, j, p)
  }

  predicate SteadyAt(st: State, j: nat, p: VarId)
    requires j < |st.opts|
  {
    st.opts[j].info.preParse ==> st.opts[j].info.p != Just(p) && (st.opts[j].info.hasChild ==> Spares(st, j, p))
  }

  lemma SameSteady(a: State, b: State, p: VarId)
    requires SameTable(a, b) && Steady(a, p)
    ensures Steady(b, p)
  {
    hide Under;
    if a.mode != PreParse {
      forall j | 0 <= j < |b.opts| ensures SteadyAt(b, j, p) {
        assert SteadyAt(a, j, p);
      }
    }
  }

  lemma AlikeTwice(a: State, b: State, c: State, p: VarId)
    requires Alike(a, b, p) && Alike(b, c, p)
    ensures Alike(a, c, p) && Alike(b, a, p)
  {
  }

  lemma AssignedAlike(a: State, b: State, i: nat, v: Value, p: VarId)
    requires Alike(a, b, p) && i < |a.opts|
    ensures Alike(Assigned(a, i, v), Assigned(b, i, v), p)
    ensures a.opts[i].info.p != Just(p) ==> Alike(Assigned(a, i, v), b, p) && Alike(a, Assigned(b, i, v), p)
  {
    AssignedIs(a, i, v, p);
    AssignedIs(b, i, v, p);
    hide Assigned;
  }

  /** What a set does to the table and to `p`. */
  lemma AssignedIs(a: State, i: nat, v: Value, p: VarId)
    requires i < |a.opts| && p in a.vars
    ensures SameTable(a, Assigned(a, i, v)) && p in Assigned(a, i, v).vars
    ensures Assigned(a, i, v).vars[p] == if a.opts[i].info.p == Just(p) then v else a.vars[p]
  {
  }

  lemma MarkTable(a: State, i: nat)
    requires i < |a.opts|
    ensures SameTable(a, MarkSet(a, i)) && MarkSet(a, i).vars == a.vars
  {
  }

  lemma TableTwice(a: State, b: State, c: State)
    requires SameTable(a, b) && SameTable(b, c)
    ensures SameTable(a, c)
  {
  }

  /** The code of a set hangs on the table only, not on what is set, nor on whether it is stored. */
  lemma {:induction false} ParseCode(a: State, b: State, arg: string, out: Outcome, s: bool, t: bool)
    requires SameTable(a, b)
    ensures Parse(a, arg, out, s).1 == Parse(b, arg, out, t).1 && SameTable(a, Parse(a, arg, out, s).0)
    decreases out, 0
  {
    SameLookup(a.opts, b.opts, |a.opts|, arg);
    var f := Lookup(a.opts, |a.opts|, arg);
    if f.Just? && !Forbidden(a.mode, a.opts[f.value].info) {
      var i := f.value;
      match out
      case Failed(_) =>
      case Parsed(_, v) => SameAssigned(a, i, v);
      case Subs(n, subs) =>
        var name, keep := a.opts[i].info.name, Stores(a.mode, a.opts[i], s);
        ParseSubsCode(a, b, name, subs, n, keep, Stores(b.mode, b.opts[i], t));
        var a' := ParseSubs(a, name, subs, n, keep).0;
        MarkTable(a', i);
        TableTwice(a, a', MarkSet(a', i));
    }
  }

  lemma {:induction false} ParseSubsCode(a: State, b: State, name: string, subs: seq<SubParam>, r: int,
      s: bool, t: bool)
    requires SameTable(a, b)
    ensures ParseSubs(a, name, subs, r, s).1 == ParseSubs(b, name, subs, r, t).1
    ensures SameTable(a, ParseSubs(a, name, subs, r, s).0)
    decreases subs, 0
  {
    hide Parse;
    if subs != [] && r >= 0 {
      var arg, out := name + ":" + subs[0].name, subs[0].outcome;
      ParseCode(a, b, arg, out, s, t);
      ParseCode(b, b, arg, out, t, t);
      var (a', sr) := Parse(a, arg, out, s);
      ParseSubsCode(a', Parse(b, arg, out, t).0, name, subs[1..], Fold(r, sr), s, t);
    }
  }

  /** A group that spares `p` leaves it alone. */
  lemma {:induction false} ParseSubsSpares(st: State, j: nat, subs: seq<SubParam>, r: int, store: bool, p: VarId)
    requires j < |st.opts| && Spares(st, j, p) && p in st.vars
    ensures Alike(st, ParseSubs(st, st.opts[j].info.name, subs, r, store).0, p)
    decreases subs
  {
    hide Parse, Spares;
    if subs != [] && r >= 0 {
      var (st', sr) := Parse(st, st.opts[j].info.name + ":" + subs[0].name, subs[0].outcome, store);
      ParseSubSpares(st, j, subs[0], store, p);
      SameSpares(st, st', j, p);
      ParseSubsSpares(st', j, subs[1..], Fold(r, sr), store, p);
    }
  }

  lemma ParseSubSpares(st: State, j: nat, sub: SubParam, store: bool, p: VarId)
    requires j < |st.opts| && Spares(st, j, p) && p in st.vars
    ensures Alike(st, Parse(st, st.opts[j].info.name + ":" + sub.name, sub.outcome, store).0, p)
  {
    hide Under, Assigned;
    var arg := st.opts[j].info.name + ":" + sub.name;
    var f := Lookup(st.opts, |st.opts|, arg);
    if f.Just? {
      UnderIs(st.opts[f.value].info, st.opts[j].info.name);
      if sub.outcome.Parsed? {
        AssignedIs(st, f.value, sub.outcome.value, p);
      }
    }
  }

  lemma SameSpares(a: State, b: State, j: nat, p: VarId)
    requires SameTable(a, b) && j < |a.opts|
    ensures Spares(a, j, p) == Spares(b, j, p)
  {
    hide Under;
  }

  /** A set does the same to `p` in stores that are alike, and has the same code. */
  lemma {:induction false} ParseAlike(a: State, b: State, arg: string, out: Outcome, store: bool, p: VarId)
    requires Alike(a, b, p) && Steady(a, p)
    ensures Alike(Parse(a, arg, out, store).0, Parse(b, arg, out, store).0, p)
    ensures Parse(a, arg, out, store).1 == Parse(b, arg, out, store).1
    ensures SameTable(a, Parse(a, arg, out, store).0)
    decreases out, 0
  {
    hide Spares;
    ParseCode(a, b, arg, out, store, store);
    SameLookup(a.opts, b.opts, |a.opts|, arg);
    var f := Lookup(a.opts, |a.opts|, arg);
    if f.Just? && !Forbidden(a.mode, a.opts[f.value].info) {
      var i := f.value;
      assert a.mode == PreParse || SteadyAt(a, i, p);
      match out
      case Failed(_) =>
      case Parsed(_, v) =>
        AssignedAlike(a, b, i, v, p);
      case Subs(n, subs) =>
        if a.opts[i].info.hasChild {
          GroupAlike(a, b, i, n, subs, store, p);
          var name := a.opts[i].info.name;
          ParseSubsCode(a, b, name, subs, n, Stores(a.mode, a.opts[i], store), false);
          MarkedAlike(ParseSubs(a, name, subs, n, Stores(a.mode, a.opts[i], store)).0,
            ParseSubs(b, name, subs, n, Stores(b.mode, b.opts[i], store)).0, i, p);
        }
    }
  }

  lemma MarkedAlike(a: State, b: State, i: nat, p: VarId)
    requires Alike(a, b, p) && i < |a.opts|
    ensures Alike(MarkSet(a, i), b, p) && Alike(a, MarkSet(b, i), p) && Alike(MarkSet(a, i), MarkSet(b, i), p)
  {
  }

  /** The part of it for an option with sub-options. */
  lemma {:induction false} GroupAlike(a: State, b: State, i: nat, n: nat, subs: seq<SubParam>, store: bool, p: VarId)
    requires Alike(a, b, p) && Steady(a, p) && i < |a.opts| && a.opts[i].info.hasChild
    ensures var name := a.opts[i].info.name;
      Alike(ParseSubs(a, name, subs, n, Stores(a.mode, a.opts[i], store)).0,
        ParseSubs(b, name, subs, n, Stores(b.mode, b.opts[i], store)).0, p)
    decreases subs, 1
  {
    hide Spares;
    var name, s, t := a.opts[i].info.name, Stores(a.mode, a.opts[i], store), Stores(b.mode, b.opts[i], store);
    var a', b' := ParseSubs(a, name, subs, n, s).0, ParseSubs(b, name, subs, n, t).0;
    if a.mode == PreParse || !a.opts[i].info.preParse {
      ParseSubsAlike(a, b, name, subs, n, s, p);
    } else {
      assert SteadyAt(a, i, p);
      SameSpares(a, b, i, p);
      ParseSubsSpares(a, i, subs, n, s, p);
      ParseSubsSpares(b, i, subs, n, t, p);
      AlikeTwice(a, a', a', p);
      AlikeTwice(a', a, b, p);
      AlikeTwice(a', b, b', p);
    }
  }

  lemma SameAssigned(a: State, i: nat, v: Value)
    requires i < |a.opts|
    ensures SameTable(a, Assigned(a, i, v))
  {
  }

  lemma {:induction false} ParseSubsAlike(a: State, b: State, name: string, subs: seq<SubParam>, r: int, store: bool,
      p: VarId)
    requires Alike(a, b, p) && Steady(a, p)
    ensures Alike(ParseSubs(a, name, subs, r, store).0, ParseSubs(b, name, subs, r, store).0, p)
    decreases subs, 0
  {
    hide Parse, Steady;
    if subs != [] && r >= 0 {
      var arg := name + ":" + subs[0].name;
      ParseAlike(a, b, arg, subs[0].outcome, store, p);
      var (a', sr) := Parse(a, arg, subs[0].outcome, store);
      SameSteady(a, a', p);
      ParseSubsAlike(a', Parse(b, arg, subs[0].outcome, store).0, name, subs[1..], Fold(r, sr), store, p);
    }
  }

  lemma {:induction false} ParamsAlike(a: State, b: State, ps: seq<SubParam>, p: VarId)
    requires Alike(a, b, p) && Steady(a, p)
    ensures Alike(WithParams(a, ps), WithParams(b, ps), p) && SameTable(a, WithParams(a, ps))
    decreases ps
  {
    hide Parse;
    if ps != [] {
      ParseAlike(a, b, ps[0].name, ps[0].outcome, true, p);
      var a' := Parse(a, ps[0].name, ps[0].outcome, true).0;
      SameSteady(a, a', p);
      ParamsAlike(a', Parse(b, ps[0].name, ps[0].outcome, true).0, ps[1..], p);
    }
  }

  lemma PushAlike(a: State, b: State, p: VarId)
    requires Alike(a, b, p)
    ensures Alike(Pushed(a), Pushed(b), p) && SameTable(a, Pushed(a))
  {
  }

  // ---------------------------------------------------------------------------------
  // The stores in which the open levels began

  lemma {:induction false} OpenParams(base: State, st: State, m: nat, keep: set<nat>, ps: seq<SubParam>)
    requires Open(base, st, m, keep) && (m > 0 || keep == {})
    ensures Open(base, WithParams(st, ps), m, keep)
    decreases ps
  {
    if ps != [] {
      OpenParse(base, st, m, keep, ps[0].name, ps[0].outcome, true);
      OpenParams(base, Parse(st, ps[0].name, ps[0].outcome, true).0, m, keep, ps[1..]);
    }
  }

  /**
   * `starts[k]` is the store in which the level `k` was opened. Closing the levels from there on gives
   * back all that could be given back when it was opened: what the base can give back, and inside
   * another level every saved option.
   */
  ghost predicate Stack(base: State, starts: seq<State>, st: State) {
    forall k :: 0 <= k < |starts| ==> StackAt(base, starts, st, k)
  }

  ghost predicate StackAt(base: State, starts: seq<State>, st: State, k: nat)
    requires k < |starts|
  {
    && Open(starts[k], st, |starts| - k, Kept(starts[k]))
    && Open(Pushed(starts[k]), st, |starts| - k - 1, {})
    && SameOptions(base, starts[k])
    && Kept(base) <= Kept(starts[k])
    && (k > 0 ==> Managed(base) <= Kept(starts[k]))
  }

  /** No alias of the base can reach a kept option's top slot later. */
  lemma StillProtected(base: State, st: State, m: nat, keep: set<nat>, i: nat)
    requires Open(base, st, m, keep) && i in keep
    ensures Protected(st, i)
  {
    assert OptionOk(base, base.opts[i]) && OptionOk(st, st.opts[i]);
    if m > 0 {
      assert ValueKept(base, st, m, i);
      LongerShields(base, st, i);
    } else {
      assert ChainKept(base, st, i);
      forall j: nat | AimsAtTop(st, j, i) ensures !Settable(st, j) {
        assert AimsAtTop(base, j, i);
        if Settable(st, j) {
          var arg :| ReachedBy(st, j, arg);
          StaysUnsettable(base, st, j, arg);
        }
      }
    }
  }

  lemma StillKept(base: State, st: State, m: nat)
    requires Open(base, st, m, Kept(base))
    ensures Kept(base) <= Kept(st) && SameOptions(base, st)
  {
    hide Protected, Sound, ChainKept, ValueKept;
    forall i | i in Kept(base) ensures i in Kept(st) {
      StillProtected(base, st, m, Kept(base), i);
    }
  }

  /** Inside a level no alias reaches the top slot of any saved option. */
  lemma InnerKept(base: State, start: State, st: State, m: nat)
    requires Sound(start) && SameOptions(base, start) && Open(Pushed(start), st, m, {})
    ensures Managed(base) <= Kept(st)
  {
    hide Sound, Protected;
    forall i | i in Managed(base) ensures i in Kept(st) {
      PushSame(start, i);
      assert ChainKept(Pushed(start), st, i);
      SameTwice(start, Pushed(start), st);
      LongerShields(start, st, i);
    }
  }

  lemma StartLevel(st: State, ps: seq<SubParam>)
    requires Sound(st)
    ensures Open(st, WithParams(Pushed(st), ps), 1, Kept(st)) && Open(Pushed(st), WithParams(Pushed(st), ps), 0, {})
  {
    hide Protected, Sound, ChainKept, ValueKept;
    OpenStart(st, Kept(st));
    KeptNotSkipped(st);
    hide Kept;
    OpenPush(st, st, 0, Kept(st));
    OpenParams(st, Pushed(st), 1, Kept(st), ps);
    PushSound(st);
    OpenStart(Pushed(st), {});
    OpenParams(Pushed(st), Pushed(st), 0, {}, ps);
  }

  lemma KeptNotSkipped(st: State)
    ensures forall i :: i in Kept(st) ==> i < |st.opts| && !PushSkips(st.opts[i]) && Protected(st, i)
  {
  }

  /** A push and the sets behind it, seen from an outer level. */
  lemma PushParamsOpen(start: State, st: State, m: nat, keep: set<nat>, ps: seq<SubParam>)
    requires Open(start, st, m, keep) && (m > 0 || keep == {})
    ensures Open(start, WithParams(Pushed(st), ps), m + 1, keep)
  {
    hide Open, Pushed;
    OpenPush(start, st, m, keep);
    OpenParams(start, Pushed(st), m + 1, keep, ps);
  }

  lemma StackPush(base: State, starts: seq<State>, st: State, m: nat, ps: seq<SubParam>)
    requires Open(base, st, m, Kept(base)) && Stack(base, starts, st)
    ensures Stack(base, starts + [st], WithParams(Pushed(st), ps))
  {
    hide Open, Kept, Pushed, Managed, SameOptions, WithParams;
    var more, now := starts + [st], WithParams(Pushed(st), ps);
    forall k | 0 <= k < |more| ensures StackAt(base, more, now, k) {
      if k == |starts| {
        StillKept(base, st, m);
        assert Sound(st) by { OpenBoth(base, st, m, Kept(base)); }
        StartLevel(st, ps);
        if k > 0 {
          assert StackAt(base, starts, st, 0);
          OpenBoth(starts[0], st, k, Kept(starts[0]));
          InnerKept(base, starts[0], st, k - 1);
        }
      } else {
        assert StackAt(base, starts, st, k);
        PushParamsOpen(starts[k], st, |starts| - k, Kept(starts[k]), ps);
        PushParamsOpen(Pushed(starts[k]), st, |starts| - k - 1, {}, ps);
      }
    }
  }

  lemma OpenBoth(base: State, st: State, m: nat, keep: set<nat>)
    requires Open(base, st, m, keep)
    ensures Sound(base) && Sound(st) && SameOptions(base, st)
  {
  }

  lemma StackParams(base: State, starts: seq<State>, st: State, ps: seq<SubParam>)
    requires Stack(base, starts, st)
    ensures Stack(base, starts, WithParams(st, ps))
  {
    hide Open, WithParams, Kept, Managed, SameOptions, Pushed;
    forall k | 0 <= k < |starts| ensures StackAt(base, starts, WithParams(st, ps), k) {
      assert StackAt(base, starts, st, k);
      OpenParams(starts[k], st, |starts| - k, Kept(starts[k]), ps);
      OpenParams(Pushed(starts[k]), st, |starts| - k - 1, {}, ps);
    }
  }

  /** Closing the innermost level gives back the store it was opened in and leaves the others open. */
  lemma StackPop(base: State, starts: seq<State>, st: State)
    requires Stack(base, starts, st) && starts != []
    ensures var n := |starts| - 1;
      (Stack(base, starts[..n], Popped(st)) && Open(starts[n], Popped(st), 0, Kept(starts[n]))
      && SameOptions(base, starts[n]) && Kept(base) <= Kept(starts[n]) && (n > 0 ==> Managed(base) <= Kept(starts[n])))
  {
    hide Open, Popped, Kept, Managed, SameOptions, Pushed;
    var n := |starts| - 1;
    assert StackAt(base, starts, st, n);
    OpenPop(starts[n], st, 1, Kept(starts[n]));
    forall k | 0 <= k < n ensures StackAt(base, starts[..n], Popped(st), k) {
      assert StackAt(base, starts, st, k);
      OpenPop(starts[k], st, |starts| - k, Kept(starts[k]));
      OpenPop(Pushed(starts[k]), st, |starts| - k - 1, {});
    }
  }

  /** The values of all saved options are those of `a`. */
  ghost predicate Regained(base: State, a: State, b: State) {
    forall i :: i in Managed(base) ==> Unchanged(a, b, base.opts[i].info.p.value)
  }

  /** The store when the parameters of the level have been set that was opened in `start`. */
  function Opened(start: State, ps: seq<SubParam>): State { WithParams(Pushed(start), ps) }

  /** Each inner level was opened with the values that the level around it had been given. */
  ghost predicate Chained(base: State, starts: seq<State>, layers: seq<seq<SubParam>>) {
    |layers| == |starts| &&
    forall k :: 0 < k < |starts| ==> Regained(base, Opened(starts[k-1], layers[k-1]), starts[k])
  }

  /** So has the store now. */
  ghost predicate AsOpened(base: State, starts: seq<State>, layers: seq<seq<SubParam>>, st: State) {
    var n := |starts| - 1;
    |layers| == |starts| && (starts != [] ==> Regained(base, Opened(starts[n], layers[n]), st))
  }

  lemma ChainedPush(base: State, starts: seq<State>, layers: seq<seq<SubParam>>, st: State, ps: seq<SubParam>)
    requires Chained(base, starts, layers) && AsOpened(base, starts, layers, st)
    requires Sound(Opened(st, ps)) && SameOptions(base, Opened(st, ps))
    ensures Chained(base, starts + [st], layers + [ps])
    ensures AsOpened(base, starts + [st], layers + [ps], Opened(st, ps))
  {
    forall i | i in Managed(base) ensures Unchanged(Opened(st, ps), Opened(st, ps), base.opts[i].info.p.value) {
      OptionsOk(Opened(st, ps), i);
    }
    hide Regained, Opened;
    var more, all := starts + [st], layers + [ps];
    assert more[|starts|] == st && all[|starts|] == ps;
    forall k | 0 < k < |more| ensures Regained(base, Opened(more[k-1], all[k-1]), more[k]) {
      assert more[k-1] == starts[k-1] && all[k-1] == layers[k-1];
    }
  }

  lemma ChainedPop(base: State, starts: seq<State>, layers: seq<seq<SubParam>>, st: State)
    requires Chained(base, starts, layers) && Stack(base, starts, st) && starts != []
    ensures var n := |starts| - 1;
      (Chained(base, starts[..n], layers[..n]) && AsOpened(base, starts[..n], layers[..n], Popped(st)))
  {
    hide Open, Popped, Kept, Stack, Opened;
    var n := |starts| - 1;
    if n > 0 {
      StackPop(base, starts, st);
      forall i | i in Managed(base)
        ensures Unchanged(Opened(starts[n-1], layers[n-1]), Popped(st), base.opts[i].info.p.value)
      {
        OpenValue(starts[n], Popped(st), Kept(starts[n]), i);
        assert Regained(base, Opened(starts[n-1], layers[n-1]), starts[n]);
      }
    }
  }

  lemma {:induction false} ParamsTable(st: State, ps: seq<SubParam>)
    ensures SameTable(st, WithParams(st, ps))
    decreases ps
  {
    hide Parse;
    if ps != [] {
      ParseCode(st, st, ps[0].name, ps[0].outcome, true, true);
      var st' := Parse(st, ps[0].name, ps[0].outcome, true).0;
      ParamsTable(st', ps[1..]);
      TableTwice(st, st', WithParams(st, ps));
    }
  }

  lemma OpenedTable(base: State, start: State, ps: seq<SubParam>)
    requires SameOptions(base, start)
    ensures SameTable(base, Opened(start, ps)) && SameTable(base, start)
  {
    hide WithParams;
    ParamsTable(Pushed(start), ps);
  }

  /**
   * Inside the outermost level every saved option, whatever aliases it has, holds what the levels from
   * there on have given it.
   */
  lemma InnerInForce(base: State, starts: seq<State>, layers: seq<seq<SubParam>>, st: State, i: nat)
    requires Stack(base, starts, st) && Chained(base, starts, layers) && AsOpened(base, starts, layers, st)
    requires starts != [] && i in Managed(base) && Steady(base, base.opts[i].info.p.value)
    ensures Alike(Layered(Opened(starts[0], layers[0]), layers[1..]), st, base.opts[i].info.p.value)
  {
    var n, p := |starts| - 1, base.opts[i].info.p.value;
    hide Open, Pushed, Managed, Kept, SameOptions, Steady, Regained, Opened, Alike, Sound;
    assert StackAt(base, starts, st, 0);
    OpenBoth(starts[0], st, |starts|, Kept(starts[0]));
    SameTwice(base, starts[0], st);
    forall k | 0 <= k < |starts| ensures SameOptions(base, starts[k]) {
      assert StackAt(base, starts, st, k);
    }
    ChainInForce(base, starts, layers, n, i);
    LinkAlike(base, starts[n], layers[n], st, i);
    UptoLayered(Opened(starts[0], layers[0]), layers, n);
    assert layers[1..n + 1] == layers[1..];
    AlikeTwice(Upto(Opened(starts[0], layers[0]), layers, n), Opened(starts[n], layers[n]), st, p);
  }

  /** The store when the layers behind the first one, up to number `n`, have been put on top of `first`. */
  function Upto(first: State, layers: seq<seq<SubParam>>, n: nat): State
    requires n < |layers|
  {
    if n == 0 then first else Opened(Upto(first, layers, n - 1), layers[n])
  }

  lemma {:induction false} UptoLayered(first: State, layers: seq<seq<SubParam>>, n: nat)
    requires n < |layers|
    ensures Upto(first, layers, n) == Layered(first, layers[1..n + 1])
  {
    hide WithParams, Pushed;
    if n > 0 {
      UptoLayered(first, layers, n - 1);
      hide Layered;
      LayeredMore(first, layers[1..n], layers[n]);
      assert layers[1..n + 1] == layers[1..n] + [layers[n]];
    }
  }

  lemma {:induction false} ChainInForce(base: State, starts: seq<State>, layers: seq<seq<SubParam>>, n: nat, i: nat)
    requires Chained(base, starts, layers) && n < |starts| && i in Managed(base) && Sound(starts[0])
    requires forall k :: 0 <= k < |starts| ==> SameOptions(base, starts[k])
    requires Steady(base, base.opts[i].info.p.value)
    ensures Alike(Upto(Opened(starts[0], layers[0]), layers, n), Opened(starts[n], layers[n]),
      base.opts[i].info.p.value)
  {
    var p, first := base.opts[i].info.p.value, Opened(starts[0], layers[0]);
    hide Managed, SameOptions, Steady, Opened, Alike, Regained, Sound, SameTable;
    if n == 0 {
      FirstAlike(base, starts[0], layers[0], i);
    } else {
      ChainInForce(base, starts, layers, n - 1, i);
      LinkAt(base, starts, layers, n, i);
      hide Chained;
      LinkLayer(base, Upto(first, layers, n - 1), Opened(starts[n - 1], layers[n - 1]), starts[n], layers[n], p);
    }
  }

  lemma LinkLayer(base: State, below: State, last: State, start: State, ps: seq<SubParam>, p: VarId)
    requires Alike(below, last, p) && Alike(last, start, p) && SameTable(base, start) && Steady(base, p)
    ensures Alike(Opened(below, ps), Opened(start, ps), p)
  {
    hide Pushed, WithParams, Steady;
    AlikeTwice(below, last, start, p);
    PushAlike(below, start, p);
    SameSteady(base, Pushed(below), p);
    ParamsAlike(Pushed(below), Pushed(start), ps, p);
  }

  lemma LinkAt(base: State, starts: seq<State>, layers: seq<seq<SubParam>>, n: nat, i: nat)
    requires Chained(base, starts, layers) && 0 < n < |starts| && i in Managed(base)
    requires SameOptions(base, starts[n - 1]) && SameOptions(base, starts[n])
    ensures Alike(Opened(starts[n - 1], layers[n - 1]), starts[n], base.opts[i].info.p.value)
    ensures SameTable(base, starts[n])
  {
    hide SameOptions, Opened, Regained, Managed;
    LinkAlike(base, starts[n - 1], layers[n - 1], starts[n], i);
    OpenedTable(base, starts[n], []);
  }

  lemma FirstAlike(base: State, start: State, ps: seq<SubParam>, i: nat)
    requires Sound(start) && SameOptions(base, start) && i in Managed(base)
    ensures Alike(Opened(start, ps), Opened(start, ps), base.opts[i].info.p.value)
  {
    PushSound(start);
    OpenStart(Pushed(start), {});
    OpenParams(Pushed(start), Pushed(start), 0, {}, ps);
    OpenBoth(Pushed(start), Opened(start, ps), 0, {});
    OptionsOk(Opened(start, ps), i);
    OpenedTable(base, start, ps);
  }

  /** The values that a level was given, and all options. */
  lemma LinkAlike(base: State, start: State, ps: seq<SubParam>, st: State, i: nat)
    requires SameOptions(base, start) && SameOptions(base, st) && i in Managed(base)
    requires Regained(base, Opened(start, ps), st)
    ensures Alike(Opened(start, ps), st, base.opts[i].info.p.value)
  {
    OpenedTable(base, start, ps);
    OpenedTable(base, st, []);
    hide Opened, SameOptions;
  }

  // ---------------------------------------------------------------------------------
  // The values in force

  /** The variable of a kept option. */
  ghost function VarOf(base: State, i: nat): VarId
    requires i in Kept(base)
  {
    base.opts[i].info.p.value
  }

  /** Every kept option has the value that the layers have given it. */
  ghost predicate InForce(base: State, st: State, layers: seq<seq<SubParam>>) {
    forall i :: i in Kept(base) && Steady(base, VarOf(base, i)) ==> Alike(Layered(base, layers), st, VarOf(base, i))
  }

  lemma InForceStart(base: State)
    requires Sound(base)
    ensures InForce(base, base, [])
  {
    forall i | i in Kept(base) ensures VarOf(base, i) in base.vars {
      assert OptionOk(base, base.opts[i]);
    }
  }

  lemma {:induction false} LayeredTable(base: State, layers: seq<seq<SubParam>>, p: VarId)
    requires p in base.vars && Steady(base, p)
    ensures SameTable(base, Layered(base, layers)) && p in Layered(base, layers).vars
  {
    hide WithParams, Pushed;
    if layers != [] {
      var before := Layered(base, layers[..|layers| - 1]);
      LayeredTable(base, layers[..|layers| - 1], p);
      PushAlike(before, before, p);
      SameSteady(base, Pushed(before), p);
      ParamsAlike(Pushed(before), Pushed(before), layers[|layers| - 1], p);
    }
  }

  /** One more level puts its own settings on top of those in force. */
  lemma InForcePush(base: State, st: State, layers: seq<seq<SubParam>>, ps: seq<SubParam>)
    requires InForce(base, st, layers) && Sound(base)
    ensures InForce(base, WithParams(Pushed(st), ps), layers + [ps])
  {
    hide Kept, Layered, Sound, WithParams, Pushed, Alike;
    LayeredMore(base, layers, ps);
    forall i | i in Kept(base) && Steady(base, VarOf(base, i))
      ensures Alike(Layered(base, layers + [ps]), WithParams(Pushed(st), ps), VarOf(base, i))
    {
      PushOne(base, Layered(base, layers), st, layers, ps, i);
    }
  }

  lemma LayeredMore(base: State, layers: seq<seq<SubParam>>, ps: seq<SubParam>)
    ensures Layered(base, layers + [ps]) == WithParams(Pushed(Layered(base, layers)), ps)
  {
    assert (layers + [ps])[..|layers|] == layers;
  }

  lemma PushOne(base: State, a: State, st: State, layers: seq<seq<SubParam>>, ps: seq<SubParam>, i: nat)
    requires Sound(base) && i in Kept(base) && Steady(base, VarOf(base, i))
    requires a == Layered(base, layers) && Alike(a, st, VarOf(base, i))
    ensures Alike(WithParams(Pushed(a), ps), WithParams(Pushed(st), ps), VarOf(base, i))
  {
    var p := VarOf(base, i);
    assert OptionOk(base, base.opts[i]);
    hide OptionOk, Sound, Layered, WithParams, Pushed, Kept;
    LayeredTable(base, layers, p);
    PushAlike(a, st, p);
    SameSteady(base, a, p);
    SameSteady(a, Pushed(a), p);
    ParamsAlike(Pushed(a), Pushed(st), ps, p);
  }

  /** Closing a level brings the values back that were in force when it was opened. */
  lemma InForcePop(base: State, start: State, st: State, layers: seq<seq<SubParam>>)
    requires Sound(base) && InForce(base, start, layers) && Open(start, st, 0, Kept(start)) && Kept(base) <= Kept(start)
    ensures InForce(base, st, layers)
  {
    hide Layered, ChainKept, Sound;
    forall i | i in Kept(base) && Steady(base, VarOf(base, i))
      ensures Alike(Layered(base, layers), st, VarOf(base, i))
    {
      OpenValue(start, st, Kept(start), i);
      assert start.opts[i].info == base.opts[i].info by { KeptInfo(base, start, layers, i); }
      AlikeTwice(Layered(base, layers), start, st, VarOf(base, i));
    }
  }

  lemma KeptInfo(base: State, start: State, layers: seq<seq<SubParam>>, i: nat)
    requires InForce(base, start, layers) && i in Kept(base) && Steady(base, VarOf(base, i)) && Sound(base)
    ensures i < |start.opts| && start.opts[i].info == base.opts[i].info
  {
    assert OptionOk(base, base.opts[i]);
    LayeredTable(base, layers, VarOf(base, i));
  }

  lemma {:induction false} ParamsSplit(st: State, a: seq<SubParam>, b: seq<SubParam>)
    ensures WithParams(st, a + b) == WithParams(WithParams(st, a), b)
    decreases a
  {
    hide Parse;
    if a == [] {
      assert a + b == b;
    } else {
      assert (a + b)[0] == a[0] && (a + b)[1..] == a[1..] + b;
      ParamsSplit(Parse(st, a[0].name, a[0].outcome, true).0, a[1..], b);
    }
  }

  /** A plain set that reaches option `i` gives its variable the value. */
  lemma ParseSets(st: State, i: nat, arg: string, n: nat, v: Value)
    requires i < |st.opts| && Lookup(st.opts, |st.opts|, arg) == Just(i) && !Forbidden(st.mode, st.opts[i].info)
    requires !st.opts[i].info.hasChild && Stores(st.mode, st.opts[i], true) && st.opts[i].info.p.Just?
    ensures var st', p := Parse(st, arg, Parsed(n, v), true).0, st.opts[i].info.p.value;
      (p in st'.vars && st'.vars[p] == v)
  {
  }

  /** What the innermost level sets last, by a name of the option, is what holds. */
  lemma InnermostWins(base: State, st: State, layers: seq<seq<SubParam>>, ps: seq<SubParam>,
      i: nat, arg: string, n: nat, v: Value)
    requires Sound(base) && i in Kept(base) && Steady(base, VarOf(base, i))
    requires ReachedBy(base, i, arg)
    requires InForce(base, st, layers + [ps + [SubParam(arg, Parsed(n, v))]])
    ensures VarOf(base, i) in st.vars && st.vars[VarOf(base, i)] == v
  {
    var p := VarOf(base, i);
    assert OptionOk(base, base.opts[i]);
    assert base.mode == PreParse || SteadyAt(base, i, p);
    hide OptionOk, Sound, Parse, Layered, Spares, Steady;
    var own := [SubParam(arg, Parsed(n, v))];
    var below := Layered(base, layers);
    LayeredTable(base, layers, p);
    LayeredMore(base, layers, ps + own);
    ParamsSplit(Pushed(below), ps, own);
    var before := WithParams(Pushed(below), ps);
    PushAlike(below, below, p);
    SameSteady(base, Pushed(below), p);
    ParamsAlike(Pushed(below), Pushed(below), ps, p);
    SameLookup(base.opts, before.opts, |base.opts|, arg);
    ParseSets(before, i, arg, n, v);
    assert WithParams(before, own) == Parse(before, arg, Parsed(n, v), true).0 by {
      assert own[1..] == [];
    }
  }

  // ---------------------------------------------------------------------------------
  // The options of the early pass

  predicate EarlyGroup(i: Info) { i.preParse && i.hasChild }

  predicate EarlyLeaf(i: Info) { i.preParse && !i.hasChild }

  /** What is set through an early group are early options, none of them a group. */
  predicate EarlyFlat(st: State) {
    forall j :: 0 <= j < |st.opts| && EarlyGroup(st.opts[j].info) ==> FlatBelow(st, st.opts[j].info.name)
  }

  predicate FlatBelow(st: State, name: string) {
    forall i :: 0 <= i < |st.opts| && Under(st.opts[i].info, name) ==> EarlyLeaf(st.opts[i].info)
  }

  predicate EarlyVar(opts: seq<Option>, p: VarId) {
    exists j :: 0 <= j < |opts| && opts[j].info.preParse && opts[j].info.p == Just(p)
  }

  /** Then only the variables of early options are not steady. */
  lemma EarlyFlatSteady(st: State, p: VarId)
    requires EarlyFlat(st)
    ensures Steady(st, p) <==> (st.mode == PreParse || !EarlyVar(st.opts, p))
  {
    hide Under;
    if st.mode != PreParse && !EarlyVar(st.opts, p) {
      forall j | 0 <= j < |st.opts| ensures SteadyAt(st, j, p) {
        assert EarlyGroup(st.opts[j].info) ==> FlatBelow(st, st.opts[j].info.name);
      }
    }
    if j :| 0 <= j < |st.opts| && st.opts[j].info.preParse && st.opts[j].info.p == Just(p) {
      assert !SteadyAt(st, j, p);
    }
  }

  const NO_SYSTEM := 0
  const NO_USER := 1
  const NO_GUI := 2

  function EarlyFlag(name: string, p: Maybe<VarId>): Table {
    Table(Info(name, false, false, true, false, false, true, false, true, p), [])
  }

  /** The only early group there is: -noconfig. */
  function Noconfig(): Table {
    Table(Info("noconfig", true, false, true, false, false, true, false, true, Nothing), [EarlyFlag("all", Nothing),
      EarlyFlag("system", Just(NO_SYSTEM)), EarlyFlag("user", Just(NO_USER)), EarlyFlag("gui", Just(NO_GUI))])
  }

  lemma {:induction false} LeavesRegistered(st: State, ts: seq<Table>, prefix: string)
    requires forall k :: 0 <= k < |ts| ==> EarlyLeaf(ts[k].info)
    ensures var now := RegisteredAll(st, ts, prefix);
      (st.opts <= now.opts && now.mode == st.mode && |now.opts| == |st.opts| + |ts|
      && forall k :: |st.opts| <= k < |now.opts| ==>
        EarlyLeaf(now.opts[k].info) && now.opts[k].info.p == ts[k - |st.opts|].info.p)
    decreases |ts|
  {
    hide AliasOf, FirstSlots;
    if ts != [] {
      LeavesRegistered(Registered(st, ts[0], prefix), ts[1..], prefix);
    }
  }

  /**
   * Registered among options of which no early one is a group and none is named below -noconfig, it
   * leaves every variable steady but those of the early options, its own three among them.
   */
  lemma NoconfigSteady(st: State, p: VarId)
    requires st.mode != PreParse && forall i :: 0 <= i < |st.opts| ==>
      !EarlyGroup(st.opts[i].info) && !Under(st.opts[i].info, "noconfig")
    ensures var now := Registered(st, Noconfig(), "");
      (Steady(now, p) <==> (p !in {NO_SYSTEM, NO_USER, NO_GUI} && !EarlyVar(st.opts, p)))
    ensures var now, n := Registered(st, Noconfig(), ""), |st.opts|;
      (|now.opts| == n + 5 && EarlyGroup(now.opts[n + 4].info))
  {
    var now, n := Registered(st, Noconfig(), ""), |st.opts|;
    NoconfigTable(st);
    hide Under, Registered, Noconfig;
    assert EarlyFlat(now);
    EarlyFlatSteady(now, p);
    hide Steady, EarlyFlat, FlatBelow;
    if j :| 0 <= j < n && st.opts[j].info.preParse && st.opts[j].info.p == Just(p) {
      assert now.opts[j] == st.opts[j];
    }
  }

  lemma NoconfigTable(st: State)
    ensures var now, n := Registered(st, Noconfig(), ""), |st.opts|;
      (st.opts <= now.opts && now.mode == st.mode && |now.opts| == n + 5
      && (forall k :: n <= k < n + 4 ==> EarlyLeaf(now.opts[k].info))
      && EarlyGroup(now.opts[n + 4].info) && now.opts[n + 4].info.p == Nothing == now.opts[n].info.p
      && now.opts[n + 4].info.name == "noconfig" && !Under(now.opts[n + 4].info, "noconfig")
      && now.opts[n + 1].info.p == Just(NO_SYSTEM) && now.opts[n + 2].info.p == Just(NO_USER)
      && now.opts[n + 3].info.p == Just(NO_GUI))
  {
    LeavesRegistered(st, Noconfig().children, "noconfig");
    hide RegisteredAll, AliasOf, FirstSlots;
  }
}
