/** What names and flags of options do, from their registration to a set. */
module ConfigNames {
  import opened Basics
  import opened Config
  import opened ConfigUndo
  import opened ConfigStore

  /** A plain name finds its option however it is written; no other text of the same case does. */
  lemma PlainMatches(i: Info, arg: string)
    requires !i.wildcard
    ensures Matches(i, i.name)
    ensures Matches(i, arg) ==> |arg| == |i.name|
  {
  }

  /** `vf*` finds every text that begins with `vf`, and no text that is shorter. */
  lemma WildcardMatches(i: Info, stem: string, tail: string)
    requires i.wildcard && i.name == stem + "*"
    ensures Matches(i, stem + tail)
    ensures forall arg: string :: |arg| < |stem| ==> !Matches(i, arg)
  {
    assert i.name[..|stem|] == stem && (stem + tail)[..|stem|] == stem;
  }

  lemma {:induction false} LeavesNamed(st: State, ts: seq<Table>, prefix: string)
    requires forall k :: 0 <= k < |ts| ==> !ts[k].info.hasChild
    ensures var now, n := RegisteredAll(st, ts, prefix), |st.opts|;
      (st.opts <= now.opts && now.mode == st.mode && |now.opts| == n + |ts|
      && forall k :: n <= k < n + |ts| ==>
        now.opts[k].info == ts[k - n].info.(name := FullName(prefix, ts[k - n].info.name)) && !now.opts[k].isSet)
    decreases |ts|
  {
    hide AliasOf, FirstSlots, FullName;
    if ts != [] {
      LeavesNamed(Registered(st, ts[0], prefix), ts[1..], prefix);
    }
  }

  /** Options of a group: each has a plain name that no other one has. */
  predicate PlainGroup(t: Table) {
    && t.info.hasChild && !t.info.wildcard && t.info.name != ""
    && (forall k :: 0 <= k < |t.children| ==> !t.children[k].info.hasChild && !t.children[k].info.wildcard)
    && forall j, k :: 0 <= j < k < |t.children| ==> !SameNoCase(t.children[j].info.name, t.children[k].info.name)
  }

  lemma SameBehind(head: string, a: string, b: string)
    requires SameNoCase(head + a, head + b)
    ensures SameNoCase(a, b)
  {
    forall i | 0 <= i < |a| ensures Lower(a[i]) == Lower(b[i]) {
      assert (head + a)[|head| + i] == a[i] && (head + b)[|head| + i] == b[i];
    }
  }

  /** A registered sub-option is found by the group's name, a colon and its own name. */
  lemma SubOptionFound(st: State, t: Table, k: nat)
    requires PlainGroup(t) && k < |t.children|
    ensures var now, n := Registered(st, t, ""), |st.opts|;
      (|now.opts| == n + |t.children| + 1
      && Lookup(now.opts, |now.opts|, t.info.name) == Just(n + |t.children|)
      && Lookup(now.opts, |now.opts|, t.info.name + ":" + t.children[k].info.name) == Just(n + k))
  {
    var now, n, m := Registered(st, t, ""), |st.opts|, |t.children|;
    var arg := t.info.name + ":" + t.children[k].info.name;
    LeavesNamed(st, t.children, t.info.name);
    hide Registered, RegisteredAll;
    assert now.opts[n + m].info.name == t.info.name by { Whole(st, t); }
    assert Matches(now.opts[n + k].info, arg) by { Whole(st, t); }
    forall j | n + k < j < n + m + 1 ensures !Matches(now.opts[j].info, arg) {
      Whole(st, t);
      if j < n + m && Matches(now.opts[j].info, arg) {
        SameBehind(t.info.name + ":", t.children[k].info.name, t.children[j - n].info.name);
      }
    }
  }

  lemma Whole(st: State, t: Table)
    requires PlainGroup(t)
    ensures var now, below := Registered(st, t, ""), RegisteredAll(st, t.children, t.info.name);
      (now.opts == below.opts + [Option(t.info, false, Nothing, [])] && now.mode == below.mode)
  {
  }

  /** Setting a group sets the variable of each sub-option that is named in the value. */
  lemma SubOptionSet(st: State, t: Table, k: nat, n: nat, m: nat, v: Value)
    requires PlainGroup(t) && k < |t.children| && t.children[k].info.p.Just? && st.mode == CommandLine
    requires !t.info.nocmd && !t.info.preParse
    requires !t.children[k].info.nocmd && !t.children[k].info.preParse
    ensures var now, p := Registered(st, t, ""), t.children[k].info.p.value;
      var (st', r) := Parse(now, t.info.name, Subs(n, [SubParam(t.children[k].info.name, Parsed(m, v))]), true);
      (r == n && p in st'.vars && st'.vars[p] == v)
  {
    var now, i := Registered(st, t, ""), |st.opts| + k;
    SubOptionFound(st, t, k);
    LeavesNamed(st, t.children, t.info.name);
    Whole(st, t);
    var arg, subs := t.info.name + ":" + t.children[k].info.name, [SubParam(t.children[k].info.name, Parsed(m, v))];
    assert now.opts[i].info == t.children[k].info.(name := FullName(t.info.name, t.children[k].info.name));
    assert now.opts[|st.opts| + |t.children|].info == t.info;
    hide Registered, RegisteredAll, Lookup, Assigned, PlainGroup;
    AssignedGives(now, i, v);
    assert Parse(now, arg, Parsed(m, v), true) == (Assigned(now, i, v), m);
    assert ParseSubs(now, t.info.name, subs, n, true) == ParseSubs(Assigned(now, i, v), t.info.name, [], n, true) by {
      assert subs[1..] == [];
    }
  }

  lemma AssignedGives(st: State, i: nat, v: Value)
    requires i < |st.opts| && st.opts[i].info.p.Just?
    ensures var st', p := Assigned(st, i, v), st.opts[i].info.p.value;
      (p in st'.vars && st'.vars[p] == v && |st'.opts| == |st.opts|)
  {
  }

  /** The mode lets the option be set at all: no file sets a `nocfg` one, no command line a `nocmd` one. */
  predicate MayName(mode: Mode, i: Info) {
    match mode
    case ConfigFile => !i.nocfg
    case CommandLine => !i.nocmd
    case PreParse => true
  }

  /** The early pass sets the early options only; later on those are set that it has not set. */
  predicate MaySet(mode: Mode, o: Option) {
    if mode == PreParse then o.info.preParse else !(o.info.preParse && o.isSet)
  }

  /**
   * A name sets the variable of the newest option that it finds, exactly when the mode and the flags of
   * the option allow it; a name that the mode does not allow is refused.
   */
  lemma SetsExactly(st: State, i: nat, arg: string, n: nat, v: Value, store: bool)
    requires Sound(st) && i < |st.opts| && !st.opts[i].info.hasChild && st.opts[i].info.p.Just?
    requires Matches(st.opts[i].info, arg) && forall j :: i < j < |st.opts| ==> !Matches(st.opts[j].info, arg)
    ensures var (st', r) := Parse(st, arg, Parsed(n, v), store); var p, o := st.opts[i].info.p.value, st.opts[i];
      (p in st.vars && p in st'.vars && (r == if MayName(st.mode, o.info) then n else INVALID)
      && st'.vars[p] == if MayName(st.mode, o.info) && store && MaySet(st.mode, o) then v else st.vars[p])
  {
    assert OptionOk(st, st.opts[i]);
    hide Sound, Matches, Assigned;
    AssignedGives(st, i, v);
  }

  /**
   * A sub-option that is unknown or lacks its value makes the whole value invalid; any other error of a
   * sub-option is passed on. Those behind it are not looked at.
   */
  lemma SubErrors(st: State, i: nat, arg: string, n: nat, sub: SubParam, later: seq<SubParam>, store: bool)
    requires i < |st.opts| && st.opts[i].info.hasChild && Lookup(st.opts, |st.opts|, arg) == Just(i)
    requires MayName(st.mode, st.opts[i].info)
    ensures var f := Lookup(st.opts, |st.opts|, st.opts[i].info.name + ":" + sub.name);
      var r := Parse(st, arg, Subs(n, [sub] + later), store);
      (f.Nothing? ==> r == (st, INVALID))
      && (f.Just? && MayName(st.mode, st.opts[f.value].info) && sub.outcome.Failed? ==>
        r == (st, if sub.outcome.code in {UNKNOWN, MISSING_PARAM} then INVALID else sub.outcome.code))
  {
    var name, keep := st.opts[i].info.name, Stores(st.mode, st.opts[i], store);
    var (st', sr) := Parse(st, name + ":" + sub.name, sub.outcome, keep);
    assert ([sub] + later)[1..] == later;
    hide Lookup, Stores;
    assert ParseSubs(st, name, [sub] + later, n, keep) == ParseSubs(st', name, later, Fold(n, sr), keep);
  }

  /**
   * An option registered on the variable of an older one is an alias of the slot that holds the older
   * one's value now, and when it can be set, pops no longer restore that option.
   */
  lemma AliasUnprotects(st: State, i: nat, t: Table)
    requires Sound(st) && i < |st.opts| && st.opts[i].info.p.Just? && IsPrimary(st.opts[i])
    requires !t.info.hasChild && !t.info.wildcard && t.info.p == st.opts[i].info.p
    requires MayName(st.mode, t.info) && (st.mode == PreParse ==> t.info.preParse)
    requires forall j :: i < j < |st.opts| ==> st.opts[j].info.p != st.opts[i].info.p
    ensures var now := Registered(st, t, "");
      (|now.opts| == |st.opts| + 1 && AimsAtTop(now, |st.opts|, i) && !Restores(now, i))
  {
    NewAlias(st, i, t);
    hide Registered, Sound, Restores, Matches, IsPrimary, AimsAtTop;
    Unprotected(st, Registered(st, t, ""), i, t.info);
  }

  lemma Unprotected(st: State, now: State, i: nat, info: Info)
    requires i < |st.opts| && st.opts[i].slots != [] && now.mode == st.mode
    requires now.opts == st.opts + [Option(info, false, Just(Alias(i, |st.opts[i].slots| - 1)), [])]
    requires !info.wildcard && MayName(st.mode, info) && (st.mode == PreParse ==> info.preParse)
    ensures AimsAtTop(now, |st.opts|, i) && !Restores(now, i)
  {
    var n := |st.opts|;
    PlainMatches(info, info.name);
    assert now.opts[i] == st.opts[i] && now.opts[n].info == info;
    hide Matches, Restores, ReachedBy;
    NewestReached(now, n, info.name);
    Aimed(now, n, i, info.name);
  }

  lemma Aimed(st: State, j: nat, i: nat, arg: string)
    requires i < |st.opts| && AimsAtTop(st, j, i) && ReachedBy(st, j, arg)
    ensures !Restores(st, i)
  {
    hide AimsAtTop, ReachedBy, PopSkips, PushSkips;
    assert Settable(st, j);
  }

  lemma NewestReached(st: State, n: nat, arg: string)
    requires |st.opts| == n + 1 && Matches(st.opts[n].info, arg) && !st.opts[n].isSet
    requires MayName(st.mode, st.opts[n].info) && (st.mode == PreParse ==> st.opts[n].info.preParse)
    ensures ReachedBy(st, n, arg)
  {
    hide Matches;
  }

  lemma {:induction false} NewestVar(opts: seq<Option>, n: nat, i: nat, p: VarId)
    requires i < n <= |opts| && opts[i].info.p == Just(p)
    requires forall j :: i < j < n ==> opts[j].info.p != Just(p)
    ensures SameVar(opts, n, p) == Just(i)
  {
    if i < n - 1 { NewestVar(opts, n - 1, i, p); }
  }

  lemma NewAlias(st: State, i: nat, t: Table)
    requires Sound(st) && i < |st.opts| && st.opts[i].info.p.Just? && IsPrimary(st.opts[i])
    requires !t.info.hasChild && t.info.p == st.opts[i].info.p
    requires forall j :: i < j < |st.opts| ==> st.opts[j].info.p != st.opts[i].info.p
    ensures st.opts[i].slots != []
    ensures var now := Registered(st, t, "");
      (now.opts == st.opts + [Option(t.info, false, Just(Alias(i, |st.opts[i].slots| - 1)), [])]
      && now.mode == st.mode)
  {
    assert OptionOk(st, st.opts[i]);
    hide Sound, OptionOk, FirstSlots, SameVar;
    NewestVar(st.opts, |st.opts|, i, t.info.p.value);
  }
}
