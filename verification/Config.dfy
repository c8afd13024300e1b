/** The option store of m_config.c: every option keeps a stack of save slots, `Push` opens
    a level and `Pop` goes back to the values of the level below. */
module Config {
  import opened Basics

  type VarId = nat      // the address an option writes to
  type Value = string   // a plain value, whatever its C type

  const UNKNOWN := -1
  const MISSING_PARAM := -2
  const INVALID := -3

  type ErrorCode = c: int | c < 0 witness -1

  datatype Mode = ConfigFile | CommandLine | PreParse

  /** The constant part of an option (m_option_t). `hasChild` is M_OPT_TYPE_HAS_CHILD and
      `legacy` is M_OPT_OLD. */
  datatype Info = Info(name: string, hasChild: bool, wildcard: bool, global: bool, nosave: bool,
                       legacy: bool, nocfg: bool, nocmd: bool, preParse: bool, p: Maybe<VarId>)

  datatype Slot = Slot(lvl: int, data: Value)

  /** An alias holds a pointer to one slot of another option's chain: slot `depth` (counted
      from the oldest) of option `primary`. */
  datatype Alias = Alias(primary: nat, depth: nat)

  /** A registered option (m_config_option_t). `slots` is the chain, oldest slot first. */
  datatype Option = Option(info: Info, isSet: bool, alias: Maybe<Alias>, slots: seq<Slot>)

  /** The whole store. `opts` is in registration order, `vars` is the memory options point to. */
  datatype State = State(lvl: int, mode: Mode, opts: seq<Option>, vars: map<VarId, Value>)

  /** What parsing a parameter yields: an error code, a value, or (for an option with
      children) the list of sub-options with the outcome of parsing each. */
  datatype Outcome =
    | Failed(code: ErrorCode)
    | Parsed(count: nat, value: Value)
    | Subs(count: nat, subs: seq<SubParam>)

  datatype SubParam = SubParam(name: string, outcome: Outcome)

  // ---------------------------------------------------------------------------------
  // Well-formed stores

  /** Slot levels rise strictly from 0. */
  ghost predicate Chain(s: seq<Slot>) {
    && s != []
    && s[0].lvl == 0
    && forall i, j :: 0 <= i < j < |s| ==> s[i].lvl < s[j].lvl
  }

  predicate IsPrimary(o: Option) { !o.info.hasChild && o.alias.Nothing? }

  ghost predicate Owns(o: Option, p: VarId) { IsPrimary(o) && o.info.p == Just(p) }

  ghost predicate WellFormed(st: State) {
    && st.lvl >= 1
    && (forall i :: 0 <= i < |st.opts| ==> OptionOk(st, st.opts[i]))
    && (forall i, j, p :: 0 <= i < j < |st.opts| && Owns(st.opts[i], p) ==> !Owns(st.opts[j], p))
  }

  ghost predicate OptionOk(st: State, o: Option) {
    && (o.info.p.Just? ==> o.info.p.value in st.vars)
    && (o.info.hasChild ==> o.alias.Nothing? && o.info.p.Nothing?)
    && (IsPrimary(o) ==> Chain(o.slots))
    && (!PopSkips(o) ==> o.slots[|o.slots|-1].lvl <= st.lvl)
    && (o.alias.Just? ==>
          && o.alias.value.primary < |st.opts|
          && o.info.p.Just?
          && Owns(st.opts[o.alias.value.primary], o.info.p.value))
  }

  /** No alias points at a slot that has been freed. */
  ghost predicate AliasesAlive(st: State) {
    forall i :: 0 <= i < |st.opts| && st.opts[i].alias.Just? ==>
      var a := st.opts[i].alias.value;
      a.primary < |st.opts| && a.depth < |st.opts[a.primary].slots|
  }

  // ---------------------------------------------------------------------------------
  // The operations as functions on stores

  predicate Unsaved(i: Info) { i.hasChild || i.global || i.nosave }

  /** What m_option_save reads: the variable, or nothing new when there is no variable. */
  function Current(o: Option, vars: map<VarId, Value>): Value
    requires o.slots != []
  {
    if o.info.p.Just? && o.info.p.value in vars then vars[o.info.p.value] else o.slots[|o.slots|-1].data
  }

  predicate PushSkips(o: Option) {
    Unsaved(o.info) || (o.info.legacy && !o.isSet) || o.alias.Just?
  }

  function PushOption(o: Option, lvl: int, vars: map<VarId, Value>): Option {
    if PushSkips(o) || o.slots == [] then o
    else
      var v := Current(o, vars);
      var n := |o.slots| - 1;
      o.(slots := o.slots[n := Slot(o.slots[n].lvl, v)] + [Slot(lvl, v)], isSet := false)
  }

  function Pushed(st: State): State {
    st.(lvl := st.lvl + 1,
        opts := seq(|st.opts|, i requires 0 <= i < |st.opts| => PushOption(st.opts[i], st.lvl + 1, st.vars)))
  }

  /** Drops the slots at level `lvl` or above from the top of a chain. */
  function Cut(s: seq<Slot>, lvl: int): seq<Slot> {
    if s != [] && s[|s|-1].lvl >= lvl then Cut(s[..|s|-1], lvl) else s
  }

  predicate PopSkips(o: Option) { Unsaved(o.info) || o.alias.Just? }

  function PopOption(o: Option, lvl: int): Option {
    if PopSkips(o) then o else o.(slots := Cut(o.slots, lvl))
  }

  /** The variables after the pop loop has handled the options from the newest down to `n`. */
  function PopVars(st: State, n: nat): map<VarId, Value>
    requires n <= |st.opts|
    decreases |st.opts| - n
  {
    if n == |st.opts| then st.vars
    else
      var vars := PopVars(st, n + 1);
      var o := PopOption(st.opts[n], st.lvl);
      if |o.slots| < |st.opts[n].slots| && o.info.p.Just? && o.slots != []
      then vars[o.info.p.value := o.slots[|o.slots|-1].data] else vars
  }

  function Popped(st: State): State {
    st.(lvl := st.lvl - 1,
        opts := seq(|st.opts|, i requires 0 <= i < |st.opts| => PopOption(st.opts[i], st.lvl)),
        vars := PopVars(st, 0))
  }

  /** The slot that option `i` writes through: an alias writes the slot it points at. */
  function Target(st: State, i: nat): (nat, nat)
    requires i < |st.opts|
  {
    match st.opts[i].alias
    case Just(a) => (a.primary, a.depth)
    case Nothing => (i, if st.opts[i].slots == [] then 0 else |st.opts[i].slots| - 1)
  }

  function WriteSlot(st: State, k: nat, d: nat, v: Value): State {
    if k < |st.opts| && d < |st.opts[k].slots| then
      var o := st.opts[k];
      st.(opts := st.opts[k := o.(slots := o.slots[d := Slot(o.slots[d].lvl, v)])])
    else st
  }

  function MarkSet(st: State, i: nat): State
    requires i < |st.opts|
  {
    st.(opts := st.opts[i := st.opts[i].(isSet := true)])
  }

  /** Option `i` takes the value `v`: its slot, then its variable, then its SET flag. */
  function Assigned(st: State, i: nat, v: Value): State
    requires i < |st.opts|
  {
    var (k, d) := Target(st, i);
    var st1 := WriteSlot(st, k, d, v);
    var st2 := if st.opts[i].info.p.Just? then st1.(vars := st1.vars[st.opts[i].info.p.value := v]) else st1;
    MarkSet(st2, i)
  }

  function Lower(c: char): char {
    if 'A' <= c <= 'Z' then (c as int + 32) as char else c
  }

  predicate SameNoCase(a: string, b: string) {
    |a| == |b| && forall i :: 0 <= i < |a| ==> Lower(a[i]) == Lower(b[i])
  }

  /** A wildcard option matches on its name without the final '*'. */
  predicate Matches(i: Info, arg: string) {
    var l := |i.name| - 1;
    if i.wildcard && l >= 0 && i.name[l] == '*'
    then l <= |arg| && SameNoCase(i.name[..l], arg[..l])
    else SameNoCase(i.name, arg)
  }

  /** The newest option below `n` that matches. */
  function Lookup(opts: seq<Option>, n: nat, arg: string): (r: Maybe<nat>)
    requires n <= |opts|
    ensures r.Just? ==> r.value < n && Matches(opts[r.value].info, arg)
    ensures r.Just? ==> forall j :: r.value < j < n ==> !Matches(opts[j].info, arg)
    ensures r.Nothing? ==> forall j :: 0 <= j < n ==> !Matches(opts[j].info, arg)
  {
    if n == 0 then Nothing
    else if Matches(opts[n-1].info, arg) then Just(n-1)
    else Lookup(opts, n-1, arg)
  }

  predicate Forbidden(mode: Mode, i: Info) {
    (mode == ConfigFile && i.nocfg) || (mode == CommandLine && i.nocmd)
  }

  /** Whether a value that parses is stored, given the parse mode. */
  predicate Stores(mode: Mode, o: Option, store: bool) {
    store && !((mode == PreParse && !o.info.preParse) || (mode != PreParse && o.info.preParse && o.isSet))
  }

  /** m_config_parse_option: the new store and the return code. */
  function Parse(st: State, arg: string, out: Outcome, store: bool): (State, int)
    decreases out, 0
  {
    match Lookup(st.opts, |st.opts|, arg)
    case Nothing => (st, UNKNOWN)
    case Just(i) =>
      var o := st.opts[i];
      if Forbidden(st.mode, o.info) then (st, INVALID)
      else
        var keep := Stores(st.mode, o, store);
        match out
        case Failed(code) => (st, code)
        case Parsed(n, v) =>
          if o.info.hasChild then (st, INVALID)   // the parser of a group never yields a plain value
          else (if keep then Assigned(st, i, v) else st, n)
        case Subs(n, subs) =>
          if !o.info.hasChild then (st, INVALID)  // nor the other way round
          else
            var (st', r) := ParseSubs(st, o.info.name, subs, n, keep);
            if r < 0 || !keep || i >= |st'.opts| then (st', r) else (MarkSet(st', i), r)
  }

  /** How the code `sr` of one sub-option changes the running code `r`. */
  function Fold(r: int, sr: int): int {
    if sr >= 0 then r else if sr == UNKNOWN || sr == MISSING_PARAM then INVALID else sr
  }

  /** The loop over sub-options: it stops storing at the first failure. */
  function ParseSubs(st: State, name: string, subs: seq<SubParam>, r: int, store: bool): (State, int)
    decreases subs, 0
  {
    if subs == [] || r < 0 then (st, r)
    else
      var (st', sr) := Parse(st, name + ":" + subs[0].name, subs[0].outcome, store);
      ParseSubs(st', name, subs[1..], Fold(r, sr), store)
  }
}
