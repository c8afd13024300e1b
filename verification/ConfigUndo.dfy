/** What a balanced stretch of pushes and pops leaves behind. */
module ConfigUndo {
  import opened Basics
  import opened Config

  /** Some name reaches option `j` and the parse mode lets it be stored. */
  ghost predicate Settable(st: State, j: nat) {
    exists arg :: ReachedBy(st, j, arg)
  }

  ghost predicate ReachedBy(st: State, j: nat, arg: string) {
    && j < |st.opts|
    && Lookup(st.opts, |st.opts|, arg) == Just(j)
    && !Forbidden(st.mode, st.opts[j].info)
    && Stores(st.mode, st.opts[j], true)
  }

  /** `j` is an alias that still points at the top slot of option `i`. */
  ghost predicate AimsAtTop(st: State, j: nat, i: nat)
    requires i < |st.opts|
  {
    j < |st.opts| && st.opts[i].slots != [] && st.opts[j].alias == Just(Alias(i, |st.opts[i].slots| - 1))
  }

  /** Option `i` of `base` is a plain saved option and no alias that can be set writes into
      its top slot, the one a matching pop restores from. */
  ghost predicate Protected(base: State, i: nat) {
    && i < |base.opts|
    && !PopSkips(base.opts[i])
    && base.opts[i].info.p.Just?
    && forall j: nat :: AimsAtTop(base, j, i) ==> !Settable(base, j)
  }

  ghost predicate Sound(st: State) { WellFormed(st) && AliasesAlive(st) }

  /** The part of `i`'s chain that was there in `base` is still there. */
  ghost predicate ChainKept(base: State, st: State, i: nat)
    requires i < |base.opts| == |st.opts|
  {
    var b, s := base.opts[i].slots, st.opts[i].slots;
    && |b| <= |s|
    && (forall d :: 0 <= d < |b| ==> s[d].lvl == b[d].lvl)
    && (forall d :: |b| <= d < |s| ==> s[d].lvl > base.lvl)
  }

  ghost predicate ValueKept(base: State, st: State, m: nat, i: nat)
    requires i < |base.opts| == |st.opts|
  {
    var b, s := base.opts[i].slots, st.opts[i].slots;
    base.opts[i].info.p.Just? ==>
      var p := base.opts[i].info.p.value;
      p in base.vars && p in st.vars &&
      if m == 0 then st.vars[p] == base.vars[p]
      else 0 < |b| < |s| && s[|b|].lvl == base.lvl + 1 && s[|b|-1].data == base.vars[p]
  }

  ghost predicate SameOptions(base: State, st: State) {
    && |st.opts| == |base.opts|
    && st.mode == base.mode
    && forall i :: 0 <= i < |base.opts| ==>
         && st.opts[i].info == base.opts[i].info && st.opts[i].alias == base.opts[i].alias
         && (base.opts[i].alias.Just? && base.opts[i].isSet ==> st.opts[i].isSet)
  }

  lemma {:induction false} SameLookup(a: seq<Option>, b: seq<Option>, n: nat, arg: string)
    requires n <= |a| == |b| && forall i :: 0 <= i < |a| ==> a[i].info == b[i].info
    ensures Lookup(a, n, arg) == Lookup(b, n, arg)
  {
    if n > 0 && !Matches(a[n-1].info, arg) { SameLookup(a, b, n - 1, arg); }
  }

  /** An alias that cannot be set now cannot be set later: only primaries lose their SET flag. */
  lemma StaysUnsettable(base: State, st: State, j: nat, arg: string)
    requires SameOptions(base, st) && ReachedBy(st, j, arg) && st.opts[j].alias.Just?
    ensures Settable(base, j)
  {
    SameLookup(base.opts, st.opts, |st.opts|, arg);
    assert ReachedBy(base, j, arg);
  }

  /** `st` has `m` levels open above `base`, and closing them restores the options in `keep`. */
  ghost predicate Open(base: State, st: State, m: nat, keep: set<nat>) {
    && Sound(base) && Sound(st)
    && SameOptions(base, st)
    && st.lvl == base.lvl + m
    && (forall i :: 0 <= i < |base.opts| && IsPrimary(base.opts[i]) ==> ChainKept(base, st, i))
    && (forall i :: i in keep ==> Protected(base, i) && ValueKept(base, st, m, i))
  }

  lemma OpenStart(base: State, keep: set<nat>)
    requires Sound(base) && forall i :: i in keep ==> Protected(base, i)
    ensures Open(base, base, 0, keep)
  {
  }

  lemma PushSound(st: State)
    requires Sound(st)
    ensures Sound(Pushed(st))
  {
    var st' := Pushed(st);
    forall i | 0 <= i < |st.opts| ensures OptionOk(st', st'.opts[i]) {
      assert OptionOk(st, st.opts[i]);
    }
    assert forall i, p :: 0 <= i < |st.opts| ==> Owns(st'.opts[i], p) == Owns(st.opts[i], p);
  }

  lemma OpenPush(base: State, st: State, m: nat, keep: set<nat>)
    requires Open(base, st, m, keep)
    requires m == 0 ==> forall i :: i in keep ==> !PushSkips(st.opts[i])
    ensures Open(base, Pushed(st), m + 1, keep)
  {
    PushSound(st);
    hide Sound, Pushed, Protected;
    forall i | i in keep ensures i < |base.opts| && ValueKept(base, Pushed(st), m + 1, i) {
      PushKeepsValue(base, st, m, keep, i);
    }
    forall i | 0 <= i < |base.opts| && IsPrimary(base.opts[i]) ensures ChainKept(base, Pushed(st), i) {
      PushKeepsChain(base, st, m, keep, i);
    }
    PushedIs(base, st);
  }

  lemma PushedIs(base: State, st: State)
    requires SameOptions(base, st)
    ensures SameOptions(base, Pushed(st)) && Pushed(st).lvl == st.lvl + 1
  {
  }

  lemma PushKeepsChain(base: State, st: State, m: nat, keep: set<nat>, i: nat)
    requires Open(base, st, m, keep) && i < |base.opts| && IsPrimary(base.opts[i])
    ensures |Pushed(st).opts| == |base.opts| && ChainKept(base, Pushed(st), i)
  {
    assert OptionOk(st, st.opts[i]) && ChainKept(base, st, i);
  }

  lemma PushKeepsValue(base: State, st: State, m: nat, keep: set<nat>, i: nat)
    requires Open(base, st, m, keep) && i in keep && (m == 0 ==> !PushSkips(st.opts[i]))
    ensures i < |base.opts| == |Pushed(st).opts| && ValueKept(base, Pushed(st), m + 1, i)
  {
    assert OptionOk(st, st.opts[i]) && OptionOk(base, base.opts[i]);
    assert ChainKept(base, st, i);
  }

  lemma OpenMark(base: State, st: State, m: nat, keep: set<nat>, i: nat)
    requires Open(base, st, m, keep) && i < |st.opts|
    ensures Open(base, MarkSet(st, i), m, keep)
  {
    var st' := MarkSet(st, i);
    SoundMark(st, i);
    hide Sound, Protected;
    forall j | 0 <= j < |base.opts| && IsPrimary(base.opts[j]) ensures ChainKept(base, st', j) {
      assert ChainKept(base, st, j);
    }
    forall j | j in keep ensures ValueKept(base, st', m, j) {
      assert ValueKept(base, st, m, j);
    }
  }

  lemma SoundMark(st: State, i: nat)
    requires Sound(st) && i < |st.opts|
    ensures Sound(MarkSet(st, i))
  {
    hide Chain;
    var st' := MarkSet(st, i);
    assert forall j, p :: 0 <= j < |st.opts| ==> Owns(st'.opts[j], p) == Owns(st.opts[j], p);
    forall j | 0 <= j < |st.opts| ensures OptionOk(st', st'.opts[j]) {
      assert OptionOk(st, st.opts[j]);
    }
  }

  lemma SoundSlot(st: State, k: nat, d: nat, v: Value)
    requires Sound(st)
    ensures Sound(WriteSlot(st, k, d, v))
  {
    hide Chain;
    var st' := WriteSlot(st, k, d, v);
    assert forall j :: 0 <= j < |st.opts| ==> |st'.opts[j].slots| == |st.opts[j].slots|;
    assert forall j, p :: 0 <= j < |st.opts| ==> Owns(st'.opts[j], p) == Owns(st.opts[j], p);
    forall j | 0 <= j < |st.opts| ensures OptionOk(st', st'.opts[j]) {
      assert OptionOk(st, st.opts[j]);
      if j == k && d < |st.opts[k].slots| {
        SameChain(st.opts[k].slots, d, v);
      }
    }
  }

  lemma SameChain(s: seq<Slot>, d: nat, v: Value)
    requires d < |s|
    ensures Chain(s[d := Slot(s[d].lvl, v)]) == Chain(s)
    ensures s[d := Slot(s[d].lvl, v)][|s|-1].lvl == s[|s|-1].lvl
  {
    var t := s[d := Slot(s[d].lvl, v)];
    assert forall j :: 0 <= j < |s| ==> t[j].lvl == s[j].lvl;
  }

  lemma OpenSlot(base: State, st: State, m: nat, keep: set<nat>, k: nat, d: nat, v: Value)
    requires Open(base, st, m, keep)
    requires k < |base.opts| && (k in keep ==> d + 1 != |base.opts[k].slots|)
    ensures Open(base, WriteSlot(st, k, d, v), m, keep)
  {
    var st' := WriteSlot(st, k, d, v);
    SoundSlot(st, k, d, v);
    hide Sound, Protected;
    forall j | 0 <= j < |base.opts| && IsPrimary(base.opts[j]) ensures ChainKept(base, st', j) {
      assert ChainKept(base, st, j);
    }
    forall j | j in keep ensures ValueKept(base, st', m, j) {
      SlotKeepsValue(base, st, m, k, d, v, j);
    }
  }

  lemma SlotKeepsValue(base: State, st: State, m: nat, k: nat, d: nat, v: Value, j: nat)
    requires j < |base.opts| == |st.opts| && ValueKept(base, st, m, j)
    requires k == j ==> d + 1 != |base.opts[k].slots|
    ensures ValueKept(base, WriteSlot(st, k, d, v), m, j)
  {
  }

  /** The player may also write the variables directly. */
  function Wrote(st: State, p: VarId, v: Value): State { st.(vars := st.vars[p := v]) }

  lemma OpenWrite(base: State, st: State, m: nat, keep: set<nat>, p: VarId, v: Value)
    requires Open(base, st, m, keep) && (m > 0 || keep == {})
    ensures Open(base, Wrote(st, p, v), m, keep)
  {
    var st' := Wrote(st, p, v);
    forall j | 0 <= j < |st.opts| ensures OptionOk(st', st'.opts[j]) {
      assert OptionOk(st, st.opts[j]);
    }
    forall j | 0 <= j < |base.opts| && IsPrimary(base.opts[j]) ensures ChainKept(base, st', j) {
      assert ChainKept(base, st, j);
    }
    forall j | j in keep ensures ValueKept(base, st', m, j) {
      assert ValueKept(base, st, m, j);
    }
  }

  lemma OpenAssign(base: State, st: State, m: nat, keep: set<nat>, i: nat, v: Value)
    requires Open(base, st, m, keep) && (m > 0 || keep == {}) && i < |st.opts| && !st.opts[i].info.hasChild
    requires st.opts[i].alias.Just? ==> Settable(base, i)
    ensures Open(base, Assigned(st, i, v), m, keep)
  {
    var (k, d) := Target(st, i);
    assert OptionOk(st, st.opts[i]) && OptionOk(base, base.opts[i]);
    assert k in keep ==> ChainKept(base, st, k) && ValueKept(base, st, m, k) && OptionOk(base, base.opts[k]);
    OpenSlot(base, st, m, keep, k, d, v);
    var st1 := WriteSlot(st, k, d, v);
    if st.opts[i].info.p.Just? {
      OpenWrite(base, st1, m, keep, st.opts[i].info.p.value, v);
      OpenMark(base, Wrote(st1, st.opts[i].info.p.value, v), m, keep, i);
    } else {
      OpenMark(base, st1, m, keep, i);
    }
  }

  lemma {:induction false} OpenParse(base: State, st: State, m: nat, keep: set<nat>,
                                     arg: string, out: Outcome, store: bool)
    requires Open(base, st, m, keep) && (m > 0 || keep == {})
    ensures Open(base, Parse(st, arg, out, store).0, m, keep)
    decreases out, 0
  {
    var f := Lookup(st.opts, |st.opts|, arg);
    if f.Just? && !Forbidden(st.mode, st.opts[f.value].info) {
      var i := f.value;
      var keeps := Stores(st.mode, st.opts[i], store);
      match out
      case Failed(_) =>
      case Parsed(_, v) =>
        if !st.opts[i].info.hasChild && keeps {
          if st.opts[i].alias.Just? { StaysUnsettable(base, st, i, arg); }
          OpenAssign(base, st, m, keep, i, v);
        }
      case Subs(n, subs) =>
        OpenParseSubs(base, st, m, keep, st.opts[i].info.name, subs, n, keeps);
        var (st', r) := ParseSubs(st, st.opts[i].info.name, subs, n, keeps);
        OpenMark(base, st', m, keep, i);
    }
  }

  lemma {:induction false} OpenParseSubs(base: State, st: State, m: nat, keep: set<nat>,
                                         name: string, subs: seq<SubParam>, r: int, store: bool)
    requires Open(base, st, m, keep) && (m > 0 || keep == {})
    ensures Open(base, ParseSubs(st, name, subs, r, store).0, m, keep)
    decreases subs, 0
  {
    if subs != [] && r >= 0 {
      var arg := name + ":" + subs[0].name;
      OpenParse(base, st, m, keep, arg, subs[0].outcome, store);
      var (st', sr) := Parse(st, arg, subs[0].outcome, store);
      OpenParseSubs(base, st', m, keep, name, subs[1..], Fold(r, sr), store);
    }
  }

  // ---------------------------------------------------------------------------------
  // Pop

  lemma {:induction false} CutKeeps(s: seq<Slot>, lvl: int)
    ensures Cut(s, lvl) <= s
    ensures Cut(s, lvl) != [] ==> Cut(s, lvl)[|Cut(s, lvl)|-1].lvl < lvl
    ensures forall d :: 0 <= d < |s| && s[d].lvl < lvl ==> d < |Cut(s, lvl)|
  {
    if s != [] && s[|s|-1].lvl >= lvl { CutKeeps(s[..|s|-1], lvl); }
  }

  /** What pop leaves in the variable of one option: the value in the slot it goes back to if
      it dropped a slot, else the value there was. */
  ghost function AfterPop(st: State, i: nat, p: VarId): Value
    requires i < |st.opts| && p in st.vars
  {
    var s := PopOption(st.opts[i], st.lvl).slots;
    if |s| < |st.opts[i].slots| && s != [] then s[|s|-1].data else st.vars[p]
  }

  lemma {:induction false} PopVarsAt(st: State, n: nat, p: VarId)
    requires n <= |st.opts| && p in st.vars && WellFormed(st)
    ensures PopVars(st, n).Keys >= st.vars.Keys
    ensures (forall j :: n <= j < |st.opts| ==> !Owns(st.opts[j], p)) ==> PopVars(st, n)[p] == st.vars[p]
    ensures forall j :: n <= j < |st.opts| && Owns(st.opts[j], p) ==> PopVars(st, n)[p] == AfterPop(st, j, p)
    decreases |st.opts| - n
  {
    if n < |st.opts| {
      PopVarsAt(st, n + 1, p);
      assert OptionOk(st, st.opts[n]);
      var o := PopOption(st.opts[n], st.lvl);
      if o.info.p == Just(p) && |o.slots| < |st.opts[n].slots| {
        assert Owns(st.opts[n], p);
      }
    }
  }

  lemma PopSound(st: State)
    requires WellFormed(st) && st.lvl > 1
    ensures WellFormed(Popped(st))
    ensures forall i :: 0 <= i < |st.opts| && IsPrimary(st.opts[i]) ==>
      Popped(st).opts[i].slots <= st.opts[i].slots && Chain(Popped(st).opts[i].slots)
  {
    hide OptionOk, Cut, PopVars, Chain;
    var st' := Popped(st);
    forall i | 0 <= i < |st.opts| ensures OptionOk(st', st'.opts[i])
      ensures IsPrimary(st.opts[i]) ==>
        st'.opts[i].slots <= st.opts[i].slots && Chain(st'.opts[i].slots)
    {
      PopOptionOk(st, i);
    }
    assert forall i, p :: 0 <= i < |st.opts| ==> Owns(st'.opts[i], p) == Owns(st.opts[i], p);
  }

  lemma PopOptionOk(st: State, i: nat)
    requires WellFormed(st) && st.lvl > 1 && i < |st.opts|
    ensures OptionOk(Popped(st), Popped(st).opts[i])
    ensures IsPrimary(st.opts[i]) ==>
      Popped(st).opts[i].slots <= st.opts[i].slots && Chain(Popped(st).opts[i].slots)
  {
    hide PopVars, Cut;
    assert OptionOk(st, st.opts[i]);
    if st.opts[i].info.p.Just? { PopVarsAt(st, 0, st.opts[i].info.p.value); }
    if IsPrimary(st.opts[i]) { CutKeeps(st.opts[i].slots, st.lvl); }
  }

  lemma PopKeepsChain(base: State, st: State, i: nat)
    requires WellFormed(base) && WellFormed(st) && SameOptions(base, st)
    requires st.lvl > base.lvl && i < |base.opts| && IsPrimary(base.opts[i]) && ChainKept(base, st, i)
    ensures ChainKept(base, Popped(st), i)
  {
    assert OptionOk(base, base.opts[i]) && OptionOk(st, st.opts[i]);
    if !PopSkips(st.opts[i]) { CutKeeps(st.opts[i].slots, st.lvl); }
  }

  lemma PopKeepsValue(base: State, st: State, m: nat, i: nat)
    requires WellFormed(base) && WellFormed(st) && SameOptions(base, st)
    requires st.lvl == base.lvl + m && m > 0 && Protected(base, i)
    requires ChainKept(base, st, i) && ValueKept(base, st, m, i)
    ensures ValueKept(base, Popped(st), m - 1, i)
  {
    assert OptionOk(base, base.opts[i]);
    CutKeeps(st.opts[i].slots, st.lvl);
    var p := base.opts[i].info.p.value;
    PopVarsAt(st, 0, p);
    assert Owns(st.opts[i], p);
  }

  lemma OpenPop(base: State, st: State, m: nat, keep: set<nat>)
    requires Open(base, st, m, keep) && m > 0
    ensures Open(base, Popped(st), m - 1, keep)
  {
    hide ChainKept, ValueKept, Protected, WellFormed, AliasesAlive;
    var st' := Popped(st);
    FirstLevel(base);
    PopSound(st);
    PopSame(base, st);
    forall i | 0 <= i < |base.opts| && IsPrimary(base.opts[i]) ensures ChainKept(base, st', i) {
      PopKeepsChain(base, st, i);
    }
    forall i | i in keep ensures i < |base.opts| && Protected(base, i) && ValueKept(base, st', m - 1, i) {
      ProtectedPrimary(base, i);
      PopKeepsValue(base, st, m, i);
    }
    AliasesStay(base, st');
  }

  lemma FirstLevel(st: State)
    requires WellFormed(st)
    ensures st.lvl >= 1
  {
  }

  lemma PopSame(base: State, st: State)
    requires SameOptions(base, st)
    ensures SameOptions(base, Popped(st)) && Popped(st).lvl == st.lvl - 1
  {
  }

  lemma ProtectedPrimary(base: State, i: nat)
    requires WellFormed(base) && Protected(base, i)
    ensures i < |base.opts| && IsPrimary(base.opts[i])
  {
    assert OptionOk(base, base.opts[i]);
  }

  /** Aliases stay alive as long as no chain gets shorter than it was in `base`. */
  lemma AliasesStay(base: State, st: State)
    requires Sound(base) && WellFormed(st) && SameOptions(base, st)
    requires forall i :: 0 <= i < |base.opts| && IsPrimary(base.opts[i]) ==> ChainKept(base, st, i)
    ensures AliasesAlive(st)
  {
    forall j | 0 <= j < |st.opts| && st.opts[j].alias.Just?
      ensures st.opts[j].alias.value.depth < |st.opts[st.opts[j].alias.value.primary].slots|
    {
      assert OptionOk(base, base.opts[j]);
      assert ChainKept(base, st, base.opts[j].alias.value.primary);
    }
  }

  // ---------------------------------------------------------------------------------
  // Scripts: what may happen between a push and its pop

  datatype Op =
    | PushOp
    | PopOp
    | SetOp(arg: string, outcome: Outcome)
    | WriteOp(p: VarId, v: Value)

  function Do(st: State, op: Op): State {
    match op
    case PushOp => Pushed(st)
    case PopOp => Popped(st)
    case SetOp(arg, out) => Parse(st, arg, out, true).0
    case WriteOp(p, v) => Wrote(st, p, v)
  }

  function Run(st: State, ops: seq<Op>): State
    decreases ops
  {
    if ops == [] then st else Run(Do(st, ops[0]), ops[1..])
  }

  /** The levels open after `ops`, starting from `depth`; Nothing if a pop closes a level
      that was not opened by `ops`. */
  function Depth(ops: seq<Op>, depth: nat): Maybe<nat> {
    if ops == [] then Just(depth)
    else if ops[0].PushOp? then Depth(ops[1..], depth + 1)
    else if ops[0].PopOp? then if depth == 0 then Nothing else Depth(ops[1..], depth - 1)
    else Depth(ops[1..], depth)
  }

  predicate Balanced(ops: seq<Op>) { Depth(ops, 0) == Just(0) }

  lemma OpenDo(base: State, st: State, m: nat, keep: set<nat>, op: Op)
    requires Open(base, st, m, keep) && (m > 0 || (keep == {} && !op.PopOp?))
    ensures Open(base, Do(st, op), if op.PushOp? then m + 1 else if op.PopOp? then m - 1 else m, keep)
  {
    match op
    case PushOp => OpenPush(base, st, m, keep);
    case PopOp => OpenPop(base, st, m, keep);
    case SetOp(arg, out) => OpenParse(base, st, m, keep, arg, out, true);
    case WriteOp(p, v) => OpenWrite(base, st, m, keep, p, v);
  }

  lemma {:induction false} OpenRun(base: State, st: State, m: nat, keep: set<nat>, ops: seq<Op>, depth: nat)
    requires Open(base, st, m + depth, keep) && (m > 0 || keep == {}) && Depth(ops, depth).Just?
    ensures Open(base, Run(st, ops), m + Depth(ops, depth).value, keep)
    decreases ops
  {
    hide Open, Do;
    if ops != [] {
      OpenDo(base, st, m + depth, keep, ops[0]);
      OpenRun(base, Do(st, ops[0]), m, keep, ops[1..],
              if ops[0].PushOp? then depth + 1 else if ops[0].PopOp? then depth - 1 else depth);
    }
  }

  function PushPop(st: State, body: seq<Op>): State { Popped(Run(Pushed(st), body)) }

  /** When the matching pop is certain to put option `i` back. */
  ghost predicate Restores(st: State, i: nat) {
    Protected(st, i) && !PushSkips(st.opts[i])
  }

  ghost predicate Unchanged(st: State, st': State, p: VarId) {
    p in st.vars && p in st'.vars && st'.vars[p] == st.vars[p]
  }

  /** A push and its pop around a balanced body leave nothing open. */
  lemma PushPopOpen(base: State, st: State, keep: set<nat>, body: seq<Op>)
    requires Open(base, st, 0, keep) && Balanced(body)
    requires forall i :: i in keep ==> i < |st.opts| && !PushSkips(st.opts[i])
    ensures Open(base, PushPop(st, body), 0, keep)
  {
    hide Open, Run, Pushed, Popped;
    OpenPush(base, st, 0, keep);
    OpenRun(base, Pushed(st), 1, keep, body, 0);
    OpenPop(base, Run(Pushed(st), body), 1, keep);
  }

  /** What is open without a level above has the old value. */
  lemma OpenValue(base: State, st: State, keep: set<nat>, i: nat)
    requires Open(base, st, 0, keep) && i in keep
    ensures Sound(st) && st.lvl == base.lvl && i < |base.opts| && base.opts[i].info.p.Just?
    ensures Unchanged(base, st, base.opts[i].info.p.value)
  {
    hide Sound, ChainKept;
    assert ValueKept(base, st, 0, i);
  }

  /** Whatever happens in between, a pop puts the option back to its value at the push. */
  lemma PopRestores(st: State, i: nat, body: seq<Op>)
    requires Sound(st) && Restores(st, i) && Balanced(body)
    ensures Sound(PushPop(st, body)) && PushPop(st, body).lvl == st.lvl
    ensures Unchanged(st, PushPop(st, body), st.opts[i].info.p.value)
  {
    hide Sound, Open, PushPop, Unchanged;
    OpenStart(st, {i});
    PushPopOpen(st, st, {i}, body);
    OpenValue(st, PushPop(st, body), {i}, i);
  }

  /** A new-style option that is open is not skipped by the next push either. */
  lemma OpenNotSkipped(base: State, st: State, m: nat, keep: set<nat>, i: nat)
    requires Open(base, st, m, keep) && i in keep && !base.opts[i].info.legacy
    ensures i < |base.opts| == |st.opts| && !PushSkips(st.opts[i]) && st.opts[i].info == base.opts[i].info
  {
    hide Sound, ChainKept, ValueKept;
  }

  /** An option that the push skips keeps whatever is written in between. */
  lemma SkippedForgets(st: State, i: nat, x: Value)
    requires Sound(st) && i < |st.opts| && IsPrimary(st.opts[i]) && st.opts[i].info.p.Just?
    requires PushSkips(st.opts[i])
    ensures var p := st.opts[i].info.p.value;
      p in PushPop(st, [WriteOp(p, x)]).vars && PushPop(st, [WriteOp(p, x)]).vars[p] == x
  {
    var p := st.opts[i].info.p.value;
    assert OptionOk(st, st.opts[i]);
    PushSound(st);
    var st1 := Pushed(st);
    var st2 := Wrote(st1, p, x);
    assert Run(st1, [WriteOp(p, x)]) == st2;
    assert Owns(st2.opts[i], p);
    OpenStart(st, {});
    OpenPush(st, st, 0, {});
    OpenWrite(st, st1, 1, {}, p, x);
    PopVarsAt(st2, 0, p);
  }

  lemma AliasWritePops(st: State, i: nat, j: nat, x: Value)
    requires Sound(st) && i < |st.opts| && !PushSkips(st.opts[i]) && st.opts[i].info.p.Just?
    requires AimsAtTop(st, j, i)
    requires WellFormed(Assigned(Pushed(st), j, x))
    ensures var p := st.opts[i].info.p.value;
      var st' := Popped(Assigned(Pushed(st), j, x));
      p in st'.vars && st'.vars[p] == x
  {
    var p := st.opts[i].info.p.value;
    var st2 := Assigned(Pushed(st), j, x);
    AssignedTop(st, i, j, x);
    hide Assigned, Pushed, Sound, AimsAtTop;
    PopVarsAt(st2, 0, p);
    CutOne(st2.opts[i].slots, st2.lvl);
  }

  /** What a set through such an alias leaves: the value in the slot below the new one. */
  lemma AssignedTop(st: State, i: nat, j: nat, x: Value)
    requires Sound(st) && i < |st.opts| && !PushSkips(st.opts[i]) && st.opts[i].info.p.Just?
    requires AimsAtTop(st, j, i)
    ensures var p, st2 := st.opts[i].info.p.value, Assigned(Pushed(st), j, x);
      (p in st2.vars && i < |st2.opts| && Owns(st2.opts[i], p) && !PopSkips(st2.opts[i]) && st2.lvl > 1)
    ensures var st2 := Assigned(Pushed(st), j, x); var s := st2.opts[i].slots;
      (|s| > 1 && s[|s|-1].lvl == st2.lvl && s[|s|-2].lvl < st2.lvl && s[|s|-2].data == x)
  {
    assert OptionOk(st, st.opts[i]) && OptionOk(st, st.opts[j]);
  }

  lemma CutOne(s: seq<Slot>, lvl: int)
    requires |s| > 1 && s[|s|-1].lvl == lvl && s[|s|-2].lvl < lvl
    ensures Cut(s, lvl) == s[..|s|-1] && Cut(s, lvl)[|s|-2] == s[|s|-2]
  {
    var t := s[..|s|-1];
    assert t[|t|-1] == s[|s|-2];
    assert Cut(t, lvl) == t;
  }

  /** A value set through an alias that aims at the top slot survives the pop. */
  lemma AliasForgets(st: State, i: nat, j: nat, arg: string, x: Value)
    requires Sound(st) && i < |st.opts| && !PushSkips(st.opts[i]) && st.opts[i].info.p.Just?
    requires AimsAtTop(st, j, i) && ReachedBy(st, j, arg)
    ensures var p := st.opts[i].info.p.value;
      var st' := PushPop(st, [SetOp(arg, Parsed(0, x))]);
      p in st'.vars && st'.vars[p] == x
  {
    assert OptionOk(st, st.opts[j]);
    OpenStart(st, {});
    OpenPush(st, st, 0, {});
    var st1 := Pushed(st);
    SameLookup(st.opts, st1.opts, |st.opts|, arg);
    assert Settable(st, j);
    OpenAssign(st, st1, 1, {}, j, x);
    AliasWritePops(st, i, j, x);
    SetRuns(st1, j, arg, x);
  }

  lemma SetRuns(st: State, j: nat, arg: string, x: Value)
    requires ReachedBy(st, j, arg) && !st.opts[j].info.hasChild
    ensures Run(st, [SetOp(arg, Parsed(0, x))]) == Assigned(st, j, x)
  {
    assert Parse(st, arg, Parsed(0, x), true).0 == Assigned(st, j, x);
  }

  /** No alias that can be set aims at the top slot of option `i`. */
  ghost predicate OutOfReach(st: State, i: nat)
    requires i < |st.opts|
  {
    forall j: nat :: AimsAtTop(st, j, i) ==> !Settable(st, j)
  }

  /** An option that a push saves, told from its flags. */
  predicate SavedByFlags(o: Option) {
    !o.info.hasChild && !o.info.global && !o.info.nosave && (!o.info.legacy || o.isSet) && o.alias.Nothing?
  }

  /** Push and pop restore an option for every balanced body exactly when the option is saved
      at the push and no alias that can be set still aims at its top slot. */
  lemma PopRestoresExactly(st: State, i: nat)
    requires Sound(st) && i < |st.opts| && IsPrimary(st.opts[i]) && st.opts[i].info.p.Just?
    ensures Restores(st, i) <==>
      forall body | Balanced(body) :: Unchanged(st, PushPop(st, body), st.opts[i].info.p.value)
    ensures Restores(st, i) <==> SavedByFlags(st.opts[i]) && OutOfReach(st, i)
  {
    var p := st.opts[i].info.p.value;
    assert OptionOk(st, st.opts[i]);
    var x := st.vars[p] + "x";
    assert |x| != |st.vars[p]|;
    if Restores(st, i) {
      forall body | Balanced(body) { PopRestores(st, i, body); }
    } else if PushSkips(st.opts[i]) {
      SkippedForgets(st, i, x);
      assert Balanced([WriteOp(p, x)]);
    } else {
      var j: nat :| AimsAtTop(st, j, i) && Settable(st, j);
      var arg :| ReachedBy(st, j, arg);
      AliasForgets(st, i, j, arg, x);
      assert Balanced([SetOp(arg, Parsed(0, x))]);
    }
  }

  /**
   * Once an option has been pushed after its aliases were made, none of them aims at the slot that
   * the next pops restore from, whatever has happened since, as long as that push is not popped.
   */
  lemma LaterPopsShield(st: State, i: nat, ops: seq<Op>)
    requires Sound(st) && i < |st.opts| && !PushSkips(st.opts[i]) && st.opts[i].info.p.Just?
    requires Depth(ops, 0).Just?
    ensures Sound(Run(Pushed(st), ops)) && SameOptions(st, Run(Pushed(st), ops))
    ensures Protected(Run(Pushed(st), ops), i)
    ensures !st.opts[i].info.legacy ==> Restores(Run(Pushed(st), ops), i)
  {
    hide Run, Sound, Depth;
    var now := Run(Pushed(st), ops);
    PushSound(st);
    PushSame(st, i);
    OpenStart(Pushed(st), {});
    OpenRun(Pushed(st), Pushed(st), 0, {}, ops, 0);
    SameTwice(st, Pushed(st), now);
    assert |now.opts[i].slots| > |st.opts[i].slots| by {
      assert ChainKept(Pushed(st), now, i);
    }
    hide Pushed, PushOption;
    LongerShields(st, now, i);
  }

  lemma PushSame(st: State, i: nat)
    requires Sound(st) && i < |st.opts| && !PushSkips(st.opts[i])
    ensures SameOptions(st, Pushed(st)) && IsPrimary(Pushed(st).opts[i])
    ensures |Pushed(st).opts[i].slots| == |st.opts[i].slots| + 1
  {
    assert OptionOk(st, st.opts[i]);
  }

  lemma SameTwice(a: State, b: State, c: State)
    requires SameOptions(a, b) && SameOptions(b, c)
    ensures SameOptions(a, c)
  {
  }

  /** No alias of the time of `st` aims at a slot that has come since. */
  lemma LongerShields(st: State, now: State, i: nat)
    requires Sound(st) && SameOptions(st, now) && i < |st.opts| && !PopSkips(st.opts[i])
    requires st.opts[i].info.p.Just? && |now.opts[i].slots| > |st.opts[i].slots|
    ensures Protected(now, i)
  {
    hide Settable, Chain;
    forall j: nat | j < |now.opts| ensures !AimsAtTop(now, j, i) {
      assert OptionOk(st, st.opts[j]);
    }
  }

  /**
   * So a value set through an alias, or in any other way, is undone by every pop but those of the first
   * push after registration: why the encoder pushes once more than it pops.
   */
  lemma LaterPopsUndo(st: State, i: nat, ops: seq<Op>, body: seq<Op>)
    requires Sound(st) && i < |st.opts| && !PushSkips(st.opts[i]) && st.opts[i].info.p.Just?
    requires !st.opts[i].info.legacy && Depth(ops, 0).Just? && Balanced(body)
    ensures var now := Run(Pushed(st), ops); Unchanged(now, PushPop(now, body), st.opts[i].info.p.value)
  {
    LaterPopsShield(st, i, ops);
    PopRestores(Run(Pushed(st), ops), i, body);
  }

  /** One push and pop after the other, with the bodies between them. */
  function Repeated(st: State, bodies: seq<seq<Op>>): State
    decreases bodies
  {
    if bodies == [] then st else Repeated(PushPop(st, bodies[0]), bodies[1..])
  }

  predicate AllBalanced(bodies: seq<seq<Op>>) { forall k :: 0 <= k < |bodies| ==> Balanced(bodies[k]) }

  /** The options that whole runs give back: saved ones, not of the old style, that no live alias can reach. */
  ghost function Kept(st: State): set<nat> {
    set i | 0 <= i < |st.opts| && Protected(st, i) && !st.opts[i].info.legacy
  }

  /** The new-style options that every push saves, whatever aliases they have. */
  function Managed(st: State): set<nat> {
    set i | 0 <= i < |st.opts| && !PopSkips(st.opts[i]) && st.opts[i].info.p.Just? && !st.opts[i].info.legacy
  }

  lemma {:induction false} RoundsOpen(base: State, st: State, keep: set<nat>, bodies: seq<seq<Op>>)
    requires Open(base, st, 0, keep) && AllBalanced(bodies)
    requires forall i :: i in keep ==> i < |base.opts| && !base.opts[i].info.legacy
    ensures Open(base, Repeated(st, bodies), 0, keep)
    decreases bodies
  {
    hide Open, PushPop, Balanced;
    if bodies != [] {
      forall i | i in keep ensures i < |st.opts| && !PushSkips(st.opts[i]) {
        OpenNotSkipped(base, st, 0, keep, i);
      }
      PushPopOpen(base, st, keep, bodies[0]);
      RoundsOpen(base, PushPop(st, bodies[0]), keep, bodies[1..]);
    }
  }

  /** An old-style option that is saved by the push loses its set mark and is skipped by the next one. */
  lemma LegacyForgets(st: State, i: nat, x: Value)
    requires Sound(st) && i < |st.opts| && Protected(st, i) && !PushSkips(st.opts[i]) && st.opts[i].info.legacy
    ensures var p := st.opts[i].info.p.value; var st' := Repeated(st, [[], [WriteOp(p, x)]]);
      (p in st'.vars && st'.vars[p] == x)
  {
    hide PushPop, Run, Protected, Sound;
    EmptyRound(st, i);
    SkippedForgets(PushPop(st, []), i, x);
    TwoRounds(st, [], [WriteOp(st.opts[i].info.p.value, x)]);
  }

  lemma EmptyRound(st: State, i: nat)
    requires Sound(st) && i < |st.opts| && Protected(st, i) && !PushSkips(st.opts[i]) && st.opts[i].info.legacy
    ensures var st1 := PushPop(st, []);
      (Sound(st1) && i < |st1.opts| && PushSkips(st1.opts[i]) && st1.opts[i].info == st.opts[i].info)
    ensures IsPrimary(PushPop(st, []).opts[i]) && st.opts[i].info.p.Just?
  {
    PopRestores(st, i, []);
    hide Protected, Sound, Restores;
    assert PushPop(st, []) == Popped(Pushed(st));
  }

  lemma TwoRounds(st: State, a: seq<Op>, b: seq<Op>)
    ensures Repeated(st, [a, b]) == PushPop(PushPop(st, a), b)
  {
    hide PushPop;
    assert [a, b][1..] == [b] && [b][1..] == [];
    var next := PushPop(st, a);
    assert Repeated(next, [b]) == Repeated(PushPop(next, b), []);
  }

  /**
   * Runs of any number of pushes and pops give an option back, whatever happens between them, exactly
   * when it is saved, no settable alias aims at its top slot, and it is not of the old style.
   */
  lemma RunsRestoreExactly(st: State, i: nat)
    requires Sound(st) && i < |st.opts| && IsPrimary(st.opts[i]) && st.opts[i].info.p.Just?
    ensures i in Kept(st) <==>
      forall bodies | AllBalanced(bodies) :: Unchanged(st, Repeated(st, bodies), st.opts[i].info.p.value)
    ensures i in Kept(st) <==>
      !st.opts[i].info.global && !st.opts[i].info.nosave && !st.opts[i].info.legacy && OutOfReach(st, i)
  {
    var p := st.opts[i].info.p.value;
    assert OptionOk(st, st.opts[i]);
    hide OptionOk, Repeated, PushPop, Protected, Sound, Balanced, Unchanged;
    if i in Kept(st) {
      forall bodies | AllBalanced(bodies) ensures Unchanged(st, Repeated(st, bodies), p) {
        KeptReturns(st, i, bodies);
      }
    } else if !Restores(st, i) {
      PopRestoresExactly(st, i);
      var body :| Balanced(body) && !Unchanged(st, PushPop(st, body), p);
      assert AllBalanced([body]);
      OneRound(st, body);
    } else {
      var x := st.vars[p] + "x";
      LegacyForgets(st, i, x);
      LegacyBodies(p, x);
      ValueDiffers(st, Repeated(st, [[], [WriteOp(p, x)]]), p);
    }
  }

  lemma KeptReturns(st: State, i: nat, bodies: seq<seq<Op>>)
    requires Sound(st) && i in Kept(st) && AllBalanced(bodies)
    ensures Unchanged(st, Repeated(st, bodies), st.opts[i].info.p.value)
  {
    assert OptionOk(st, st.opts[i]);
    hide OptionOk, Repeated, Sound, ChainKept;
    OpenStart(st, {i});
    RoundsOpen(st, st, {i}, bodies);
    OpenValue(st, Repeated(st, bodies), {i}, i);
  }

  lemma OneRound(st: State, body: seq<Op>)
    ensures Repeated(st, [body]) == PushPop(st, body)
  {
    hide PushPop;
    assert [body][1..] == [];
  }

  lemma LegacyBodies(p: VarId, x: Value)
    ensures AllBalanced([[], [WriteOp(p, x)]])
  {
    assert Balanced([]) && Balanced([WriteOp(p, x)]);
  }

  lemma ValueDiffers(st: State, st': State, p: VarId)
    requires p in st.vars && p in st'.vars && st'.vars[p] == st.vars[p] + "x"
    ensures !Unchanged(st, st', p)
  {
    assert |st'.vars[p]| == |st.vars[p]| + 1;
  }

  /**
   * A global option, or one that is not to be saved, comes out of a push and its pop with the value it
   * had before the pop, whatever was done in between.
   */
  lemma GlobalsRemain(st: State, i: nat, body: seq<Op>)
    requires Sound(st) && i < |st.opts| && IsPrimary(st.opts[i]) && st.opts[i].info.p.Just? && Balanced(body)
    requires st.opts[i].info.global || st.opts[i].info.nosave
    ensures var p, last := st.opts[i].info.p.value, Run(Pushed(st), body);
      (p in last.vars && p in PushPop(st, body).vars && PushPop(st, body).vars[p] == last.vars[p])
  {
    var p, last := st.opts[i].info.p.value, Run(Pushed(st), body);
    assert OptionOk(st, st.opts[i]);
    hide Run;
    OpenStart(st, {});
    OpenPush(st, st, 0, {});
    OpenRun(st, Pushed(st), 1, {}, body, 0);
    assert OptionOk(last, last.opts[i]);
    hide Sound, Chain;
    PopVarsAt(last, 0, p);
  }

  lemma ParseSound(st: State, arg: string, out: Outcome, store: bool)
    requires Sound(st)
    ensures var st' := Parse(st, arg, out, store).0; Sound(st') && SameOptions(st, st') && st'.lvl == st.lvl
  {
    OpenStart(st, {});
    OpenParse(st, st, 0, {}, arg, out, store);
  }

  lemma ParseSubsSound(st: State, name: string, subs: seq<SubParam>, r: int, store: bool)
    requires Sound(st)
    ensures var st' := ParseSubs(st, name, subs, r, store).0; Sound(st') && SameOptions(st, st') && st'.lvl == st.lvl
  {
    OpenStart(st, {});
    OpenParseSubs(st, st, 0, {}, name, subs, r, store);
  }
}
