/** The config object of m_config.c, updated in place, and registration of options. */
module ConfigStore {
  import opened Basics
  import opened Config
  import opened ConfigUndo

  /** An option table entry with its sub-options. A group has no variable of its own. */
  datatype Table = Table(info: Info, children: seq<Table>)

  ghost predicate TableOk(t: Table, vars: set<VarId>) {
    && (t.info.hasChild ==> t.info.p.Nothing?)
    && (t.info.p.Just? ==> t.info.p.value in vars)
    && forall i :: 0 <= i < |t.children| ==> TableOk(t.children[i], vars)
  }

  function FullName(prefix: string, name: string): string {
    if prefix != "" then prefix + ":" + name else name
  }

  /** The newest option below `n` that uses variable `p`. */
  function SameVar(opts: seq<Option>, n: nat, p: VarId): (r: Maybe<nat>)
    requires n <= |opts|
    ensures r.Just? ==> r.value < n && opts[r.value].info.p == Just(p)
    ensures r.Nothing? ==> forall j :: 0 <= j < n ==> opts[j].info.p != Just(p)
  {
    if n == 0 then Nothing
    else if opts[n-1].info.p == Just(p) then Just(n-1)
    else SameVar(opts, n-1, p)
  }

  /** The new option's alias: the slot that the option found holds at this moment. */
  function AliasOf(opts: seq<Option>, p: Maybe<VarId>): Maybe<Alias> {
    if p.Nothing? then Nothing
    else
      match SameVar(opts, |opts|, p.value)
      case Nothing => Nothing
      case Just(i) =>
        if opts[i].alias.Just? then opts[i].alias
        else if opts[i].slots == [] then Nothing
        else Just(Alias(i, |opts[i].slots| - 1))
  }

  function FirstSlots(st: State, info: Info): seq<Slot> {
    var v := if info.p.Just? && info.p.value in st.vars then st.vars[info.p.value] else "";
    [Slot(0, v), Slot(st.lvl, v)]
  }

  /** Registration of one option: its children come first, then the option itself. */
  function Registered(st: State, t: Table, prefix: string): State
    decreases t, 0
  {
    var info := t.info.(name := FullName(prefix, t.info.name));
    if info.hasChild then
      var st' := RegisteredAll(st, t.children, info.name);
      st'.(opts := st'.opts + [Option(info, false, Nothing, [])])
    else
      var a := AliasOf(st.opts, info.p);
      st.(opts := st.opts + [Option(info, false, a, if a.Just? then [] else FirstSlots(st, info))])
  }

  function RegisteredAll(st: State, ts: seq<Table>, prefix: string): State
    decreases ts, 0
  {
    if ts == [] then st else RegisteredAll(Registered(st, ts[0], prefix), ts[1..], prefix)
  }

  /** Registration keeps the store sound: one owner per variable, every other option of that
      variable an alias of a live slot, and levels rising from 0. */
  lemma {:induction false} RegisterSound(st: State, t: Table, prefix: string)
    requires Sound(st) && TableOk(t, st.vars.Keys)
    ensures Sound(Registered(st, t, prefix)) && Registered(st, t, prefix).vars == st.vars
    ensures st.opts <= Registered(st, t, prefix).opts && Registered(st, t, prefix).lvl == st.lvl
    decreases t, 0
  {
    var st' := Registered(st, t, prefix);
    if t.info.hasChild {
      var name := FullName(prefix, t.info.name);
      RegisterAllSound(st, t.children, name);
      AppendSound(RegisteredAll(st, t.children, name), st'.opts[|st'.opts|-1]);
    } else {
      if t.info.p.Just? {
        var i := SameVar(st.opts, |st.opts|, t.info.p.value);
        if i.Just? { assert OptionOk(st, st.opts[i.value]); }
      }
      AppendSound(st, st'.opts[|st.opts|]);
    }
  }

  lemma {:induction false} RegisterAllSound(st: State, ts: seq<Table>, prefix: string)
    requires Sound(st) && forall i :: 0 <= i < |ts| ==> TableOk(ts[i], st.vars.Keys)
    ensures Sound(RegisteredAll(st, ts, prefix)) && RegisteredAll(st, ts, prefix).vars == st.vars
    ensures st.opts <= RegisteredAll(st, ts, prefix).opts && RegisteredAll(st, ts, prefix).lvl == st.lvl
    decreases ts, 0
  {
    if ts != [] {
      RegisterSound(st, ts[0], prefix);
      RegisterAllSound(Registered(st, ts[0], prefix), ts[1..], prefix);
    }
  }

  lemma AppendSound(st: State, o: Option)
    requires Sound(st) && OptionOk(st, o)
    requires o.alias.Just? ==> o.alias.value.depth < |st.opts[o.alias.value.primary].slots|
    requires forall i, p :: 0 <= i < |st.opts| && Owns(st.opts[i], p) ==> !Owns(o, p)
    ensures Sound(st.(opts := st.opts + [o]))
  {
    var st' := st.(opts := st.opts + [o]);
    forall i | 0 <= i < |st'.opts| ensures OptionOk(st', st'.opts[i]) {
      if i < |st.opts| { assert OptionOk(st, st.opts[i]); }
    }
  }

  lemma ParseSubsStep(st: State, name: string, subs: seq<SubParam>, k: nat, r: int, store: bool)
    requires k < |subs| && r >= 0
    ensures var (st', sr) := Parse(st, name + ":" + subs[k].name, subs[k].outcome, store);
      ParseSubs(st, name, subs[k..], r, store) == ParseSubs(st', name, subs[k+1..], Fold(r, sr), store)
  {
    assert subs[k..][0] == subs[k] && subs[k..][1..] == subs[k+1..];
  }

  lemma OptionsOk(st: State, i: nat)
    requires Sound(st) && i < |st.opts|
    ensures OptionOk(st, st.opts[i])
  {
  }

  lemma PopVarsStart(st: State)
    ensures PopVars(st, |st.opts|) == st.vars
  {
  }

  /** What the pop loop does for one option. */
  lemma PopVarsStep(st: State, i: nat)
    requires WellFormed(st) && i < |st.opts|
    ensures PopVars(st, i) == (
      var vars, o, n := PopVars(st, i + 1), st.opts[i], PopOption(st.opts[i], st.lvl);
      if |n.slots| < |o.slots| && o.info.p.Just? && n.slots != []
      then vars[o.info.p.value := n.slots[|n.slots|-1].data] else vars)
    ensures !PopSkips(st.opts[i]) ==> Chain(st.opts[i].slots) && st.opts[i].slots != []
    ensures !PopSkips(st.opts[i]) ==> st.opts[i].slots[|st.opts[i].slots|-1].lvl <= st.lvl
    ensures PopOption(st.opts[i], st.lvl) ==
      if PopSkips(st.opts[i]) then st.opts[i] else st.opts[i].(slots := Cut(st.opts[i].slots, st.lvl))
  {
    assert OptionOk(st, st.opts[i]);
  }

  lemma PoppedIs(before: State, st: State)
    requires |st.opts| == |before.opts| && st.lvl == before.lvl - 1 && st.mode == before.mode
    requires st.vars == PopVars(before, 0)
    requires forall j :: 0 <= j < |st.opts| ==> st.opts[j] == PopOption(before.opts[j], before.lvl)
    ensures st == Popped(before)
  {
    assert st.opts == Popped(before).opts;
  }

  class MConfig {
    var lvl: int
    var mode: Mode
    var opts: seq<Option>
    var vars: map<VarId, Value>   // the memory that the options point to

    ghost function Current(): State
      reads this
    {
      State(lvl, mode, opts, vars)
    }

    constructor (memory: map<VarId, Value>)
      ensures Sound(Current()) && Current() == State(1, ConfigFile, [], memory)
    {
      lvl, mode, opts, vars := 1, ConfigFile, [], memory;
    }

    /** Looks for an option that already points to this address. */
    method FindAlias(p: Maybe<VarId>) returns (alias: Maybe<Alias>)
      requires Sound(Current())
      ensures alias == AliasOf(opts, p)
    {
      hide Sound;
      alias := Nothing;
      if p.Just? {
        var i := |opts|;
        while i > 0 && opts[i-1].info.p != p
          invariant 0 <= i <= |opts|
          invariant SameVar(opts, |opts|, p.value) == SameVar(opts, i, p.value)
        {
          i := i - 1;
        }
        if i > 0 {
          OptionsOk(Current(), i - 1);
          alias := if opts[i-1].alias.Just? then opts[i-1].alias else Just(Alias(i - 1, |opts[i-1].slots| - 1));
        }
      }
    }

    method AddOption(t: Table, prefix: string)
      requires Sound(Current()) && TableOk(t, vars.Keys)
      modifies this
      ensures Sound(Current()) && Current() == Registered(old(Current()), t, prefix)
      decreases t
    {
      ghost var before := Current();
      RegisterSound(before, t, prefix);
      var info := t.info.(name := FullName(prefix, t.info.name));
      var alias := Nothing;
      var slots := [];
      if info.hasChild {
        RegisterAllSound(before, t.children, info.name);
        var i := 0;
        while i < |t.children|
          invariant 0 <= i <= |t.children|
          invariant Sound(Current()) && vars == before.vars
          invariant RegisteredAll(Current(), t.children[i..], info.name) ==
                    RegisteredAll(before, t.children, info.name)
        {
          RegisterSound(Current(), t.children[i], info.name);
          AddOption(t.children[i], info.name);
          i := i + 1;
        }
      } else {
        alias := FindAlias(info.p);
        if alias.Nothing? {
          var v := if info.p.Just? then vars[info.p.value] else "";
          slots := [Slot(0, v), Slot(lvl, v)];
        }
      }
      opts := opts + [Option(info, false, alias, slots)];
    }

    method Push()
      requires Sound(Current())
      modifies this
      ensures Sound(Current()) && Current() == Pushed(old(Current()))
    {
      ghost var before := Current();
      PushSound(before);
      lvl := lvl + 1;
      var i := |opts|;
      while i > 0
        invariant 0 <= i <= |opts| == |before.opts|
        invariant lvl == before.lvl + 1 && mode == before.mode && vars == before.vars
        invariant forall j :: 0 <= j < i ==> opts[j] == before.opts[j]
        invariant forall j :: i <= j < |opts| ==> opts[j] == PushOption(before.opts[j], lvl, vars)
      {
        i := i - 1;
        var o := opts[i];
        assert OptionOk(before, o);
        if !(o.info.hasChild || o.info.global || o.info.nosave || (o.info.legacy && !o.isSet) || o.alias.Just?) {
          var top := |o.slots| - 1;
          var v := if o.info.p.Just? then vars[o.info.p.value] else o.slots[top].data;
          o := o.(slots := o.slots[top := Slot(o.slots[top].lvl, v)]);
          o := o.(slots := o.slots + [Slot(lvl, v)], isSet := false);
          opts := opts[i := o];
        }
      }
      assert Current().opts == Pushed(before).opts;
    }

    /** The inner loop of pop. The chain never runs out: its oldest slot is at level 0. */
    static method DropSlots(chain: seq<Slot>, lvl: int) returns (slots: seq<Slot>, popped: nat)
      requires Chain(chain) && lvl > 1
      ensures slots == Cut(chain, lvl) && slots != [] && popped == |chain| - |slots|
    {
      slots, popped := chain, 0;
      while slots[|slots|-1].lvl >= lvl
        invariant slots != [] && slots <= chain
        invariant Cut(slots, lvl) == Cut(chain, lvl)
        invariant popped == |chain| - |slots|
        decreases |slots|
      {
        slots := slots[..|slots|-1];
        popped := popped + 1;
      }
    }

    method Pop()
      requires Sound(Current()) && lvl > 1
      modifies this
      ensures WellFormed(Current()) && Current() == Popped(old(Current()))
    {
      ghost var before := Current();
      assert WellFormed(before);
      hide Cut, Chain, PopVars, Sound, Popped, WellFormed, PopOption;
      var i := |opts|;
      PopVarsStart(before);
      while i > 0
        invariant 0 <= i <= |opts| == |before.opts|
        invariant lvl == before.lvl && mode == before.mode
        invariant vars == PopVars(before, i)
        invariant forall j :: 0 <= j < i ==> opts[j] == before.opts[j]
        invariant forall j :: i <= j < |opts| ==> opts[j] == PopOption(before.opts[j], lvl)
      {
        i := i - 1;
        PopVarsStep(before, i);
        PopOne(i);
      }
      lvl := lvl - 1;
      PoppedIs(before, Current());
      PopSound(before);
    }

    /** The body of the loop: one option goes back to the slot below the level. */
    method PopOne(i: nat)
      requires i < |opts| && lvl > 1
      requires !PopSkips(opts[i]) ==> Chain(opts[i].slots) && opts[i].slots[|opts[i].slots|-1].lvl <= lvl
      modifies this`opts, this`vars
      ensures opts == old(opts)[i := PopOption(old(opts[i]), lvl)]
      ensures vars == (
        var o, n := old(opts[i]), PopOption(old(opts[i]), lvl);
        if |n.slots| < |o.slots| && o.info.p.Just? && n.slots != []
        then old(vars)[o.info.p.value := n.slots[|n.slots|-1].data] else old(vars))
    {
      var o := opts[i];
      if !(o.info.hasChild || o.info.global || o.info.nosave || o.alias.Just?) {
        // the slot is never too old for its level
        assert o.slots[|o.slots|-1].lvl <= lvl;
        var slots, popped := DropSlots(o.slots, lvl);
        opts := opts[i := o.(slots := slots)];
        if popped > 0 && o.info.p.Just? {
          vars := vars[o.info.p.value := slots[|slots|-1].data];
        }
      } else {
        assert opts[i := o] == opts;
      }
    }

    /** The newest option that matches `arg`. */
    method GetOption(arg: string) returns (r: Maybe<nat>)
      ensures r == Lookup(opts, |opts|, arg)
    {
      var i := |opts|;
      while i > 0 && !Matches(opts[i-1].info, arg)
        invariant 0 <= i <= |opts|
        invariant Lookup(opts, |opts|, arg) == Lookup(opts, i, arg)
      {
        i := i - 1;
      }
      r := if i > 0 then Just(i - 1) else Nothing;
    }

    method Store(i: nat, v: Value)
      requires Sound(Current()) && i < |opts| && !opts[i].info.hasChild
      modifies this
      ensures Current() == Assigned(old(Current()), i, v)
    {
      assert OptionOk(Current(), opts[i]);
      var k, d := i, |opts[i].slots| - 1;
      if opts[i].alias.Just? {
        k, d := opts[i].alias.value.primary, opts[i].alias.value.depth;
      }
      var o := opts[k];
      opts := opts[k := o.(slots := o.slots[d := Slot(o.slots[d].lvl, v)])];
      if opts[i].info.p.Just? {
        vars := vars[opts[i].info.p.value := v];
      }
      opts := opts[i := opts[i].(isSet := true)];
    }

    /** `out` is what the option's own parser makes of the parameter. */
    method ParseOption(arg: string, out: Outcome, store: bool) returns (r: int)
      requires Sound(Current())
      modifies this
      ensures Sound(Current()) && SameOptions(old(Current()), Current()) && lvl == old(lvl)
      ensures (Current(), r) == Parse(old(Current()), arg, out, store)
      decreases out
    {
      ghost var before := Current();
      ParseSound(before, arg, out, store);
      var f := GetOption(arg);
      if f.Nothing? { return UNKNOWN; }
      var i := f.value;
      var o := opts[i];
      if (mode == ConfigFile && o.info.nocfg) || (mode == CommandLine && o.info.nocmd) { return INVALID; }
      var keep := store;
      if (mode == PreParse && !o.info.preParse) || (mode != PreParse && o.info.preParse && o.isSet) {
        keep := false;
      }
      match out {
        case Failed(code) =>
          r := code;
        case Parsed(n, v) =>
          if o.info.hasChild { return INVALID; }
          r := n;
          if keep { Store(i, v); }
        case Subs(n, subs) =>
          if !o.info.hasChild { return INVALID; }
          r := ParseSubOptions(o.info.name, subs, n, keep);
          if r >= 0 && keep {
            opts := opts[i := opts[i].(isSet := true)];
          }
      }
    }

    method ParseSubOptions(name: string, subs: seq<SubParam>, n: nat, store: bool) returns (r: int)
      requires Sound(Current())
      modifies this
      ensures Sound(Current()) && SameOptions(old(Current()), Current()) && lvl == old(lvl)
      ensures (Current(), r) == ParseSubs(old(Current()), name, subs, n, store)
      decreases subs
    {
      hide Sound, SameOptions, Parse;
      ghost var before := Current();
      ParseSubsSound(before, name, subs, n, store);
      r := n;
      var k := 0;
      while k < |subs| && r >= 0
        invariant 0 <= k <= |subs|
        invariant Sound(Current())
        invariant ParseSubs(Current(), name, subs[k..], r, store) == ParseSubs(before, name, subs, n, store)
      {
        ParseSubsStep(Current(), name, subs, k, r, store);
        var sr := ParseOption(name + ":" + subs[k].name, subs[k].outcome, store);
        if sr < 0 {
          r := if sr == UNKNOWN || sr == MISSING_PARAM then INVALID else sr;
        }
        k := k + 1;
      }
    }
  }
}
