/** The key event queue between input drivers and the key interpreter (mp_fifo.c). */
module KeyFifo {
  import opened Basics

  /**
   * An event code. MP_KEY_DOWN (bit 29) and MP_KEY_RELEASE_ALL (bit 27) are kept apart from the
   * number the other bits make.
   */
  datatype Code = Code(key: nat, down: bool, releaseAll: bool)

  const NO_KEY := Code(0, false, false)
  const MP_NO_REPEAT_KEY := 0x1000_0000
  const MOUSE_BTN0 := 0x200 + MP_NO_REPEAT_KEY
  const MOUSE_BTN0_DBL := 0x300 + MP_NO_REPEAT_KEY
  const LAST_BUTTON := 19

  /** Every event ever queued, how many of them were read, and the key of the last one if it was a down. */
  datatype State = State(history: seq<Code>, read: nat, previousDownKey: Code)

  predicate Fits(s: State, size: nat) {
    s.read <= |s.history| <= s.read + size
  }

  function Free(s: State, size: nat): nat
    requires Fits(s, size)
  {
    s.read + size - |s.history|
  }

  /** What is queued when `code` is offered. */
  function Queued(s: State, size: nat, code: Code): Maybe<Code>
    requires Fits(s, size)
  {
    var free := Free(s, size);
    if free == 0 || (code.down && free <= size / 2) then Nothing
    else if free > 1 then Just(code)
    else if s.previousDownKey.releaseAll then Nothing
    else Just((if code == s.previousDownKey then code else NO_KEY).(releaseAll := true))
  }

  function PreviousKey(e: Code): Code {
    if e.down then e.(down := false) else NO_KEY.(releaseAll := e.releaseAll)
  }

  function Offered(s: State, size: nat, code: Code): (t: State)
    requires Fits(s, size)
    ensures Fits(t, size)
  {
    match Queued(s, size, code)
    case Nothing => s
    case Just(e) => State(s.history + [e], s.read, PreviousKey(e))
  }

  function Taken(s: State): State {
    if s.read < |s.history| then s.(read := s.read + 1) else s
  }

  /** The keys an interpreter regards as held once it has read `events`. */
  function Held(events: seq<Code>): set<nat> {
    if events == [] then {} else Press(Held(events[..|events| - 1]), events[|events| - 1])
  }

  function Press(held: set<nat>, e: Code): set<nat> {
    var before := if e.releaseAll then {} else held;
    if e.down then before + {e.key} else before - {e.key}
  }

  function Last(s: State): Code {
    if s.history == [] then NO_KEY else s.history[|s.history| - 1]
  }

  /** A full queue ends in a reset that is no key press, and `previousDownKey` belongs to the last event. */
  predicate Guarded(s: State, size: nat) {
    && Fits(s, size)
    && s.previousDownKey == PreviousKey(Last(s))
    && (|s.history| == s.read + size ==> Last(s).releaseAll && !Last(s).down)
  }

  lemma OfferedGuarded(s: State, size: nat, code: Code)
    requires Guarded(s, size) && size > 0
    ensures Guarded(Offered(s, size, code), size)
  {
  }

  lemma TakenGuarded(s: State, size: nat)
    requires Guarded(s, size) && size > 0
    ensures Guarded(Taken(s), size)
  {
  }

  lemma HeldAfter(events: seq<Code>, e: Code)
    ensures Held(events + [e]) == Press(Held(events), e)
  {
    assert (events + [e])[..|events|] == events;
  }

  /** The one event after which a release is lost. */
  predicate LosesRelease(s: State, size: nat, key: nat)
    requires Fits(s, size)
  {
    Free(s, size) == 1 && Last(s) == Code(key, true, true)
  }

  /**
   * An offered release always leaves its key released for the interpreter, with one exception:
   * one slot is free and the last event queued is the key's own down event carrying the reset flag.
   */
  lemma ReleasedExactly(s: State, size: nat, key: nat)
    requires Guarded(s, size) && size > 0
    ensures key in Held(Offered(s, size, Code(key, false, false)).history) <==> LosesRelease(s, size, key)
  {
    match Queued(s, size, Code(key, false, false))
    case Just(e) => HeldAfter(s.history, e);
    case Nothing => assert s.history != [];
  }

  /** What drivers and the reader do to the queue. */
  datatype Op = Offer(code: Code) | Take

  function Do(s: State, size: nat, op: Op): (t: State)
    requires Fits(s, size)
    ensures Fits(t, size)
  {
    match op
    case Offer(code) => Offered(s, size, code)
    case Take => Taken(s)
  }

  function Run(size: nat, ops: seq<Op>): (s: State)
    ensures Fits(s, size)
  {
    if ops == [] then State([], 0, NO_KEY) else Do(Run(size, ops[..|ops| - 1]), size, ops[|ops| - 1])
  }

  /** No offered key press carries the reset flag; drivers never set it. */
  predicate PlainPresses(ops: seq<Op>) {
    forall i :: 0 <= i < |ops| && ops[i].Offer? && ops[i].code.down ==> !ops[i].code.releaseAll
  }

  predicate PlainHistory(events: seq<Code>) {
    forall i :: 0 <= i < |events| && events[i].down ==> !events[i].releaseAll
  }

  lemma {:induction false} RunGuarded(size: nat, ops: seq<Op>)
    requires size > 0
    ensures Guarded(Run(size, ops), size)
    ensures PlainPresses(ops) ==> PlainHistory(Run(size, ops).history)
  {
    if ops != [] {
      var before, op := ops[..|ops| - 1], ops[|ops| - 1];
      RunGuarded(size, before);
      var s := Run(size, before);
      if op.Offer? {
        OfferedGuarded(s, size, op.code);
        assert PlainPresses(ops) ==> PlainPresses(before);
      } else {
        TakenGuarded(s, size);
      }
    }
  }

  /** After any run a full queue ends in an event that resets every key. */
  lemma FullEndsInReset(size: nat, ops: seq<Op>)
    requires size > 0 && |Run(size, ops).history| == Run(size, ops).read + size
    ensures Last(Run(size, ops)).releaseAll && !Last(Run(size, ops)).down
  {
    RunGuarded(size, ops);
  }

  /**
   * No stuck keys: after any run that ends by offering a release, the key is not held once the
   * interpreter has read what is queued.
   */
  lemma NoStuckKey(size: nat, ops: seq<Op>, key: nat)
    requires size > 0 && PlainPresses(ops)
    ensures key !in Held(Run(size, ops + [Offer(Code(key, false, false))]).history)
  {
    RunGuarded(size, ops);
    ReleasedExactly(Run(size, ops), size, key);
    assert (ops + [Offer(Code(key, false, false))])[..|ops|] == ops;
  }

  /** A release that follows a queued press of its key is found behind it, or a reset is. */
  lemma ReleaseFollowsPress(size: nat, ops: seq<Op>, key: nat, i: nat)
    requires size > 0 && PlainPresses(ops)
    requires i < |Run(size, ops).history| && Run(size, ops).history[i] == Code(key, true, false)
    ensures ReleasedAfter(Run(size, ops + [Offer(Code(key, false, false))]).history, i, key)
  {
    hide Held;
    RunGuarded(size, ops);
    assert (ops + [Offer(Code(key, false, false))])[..|ops|] == ops;
    LastReleases(Run(size, ops), size, key, i);
  }

  lemma LastReleases(s: State, size: nat, key: nat, i: nat)
    requires Guarded(s, size) && PlainHistory(s.history)
    requires i < |s.history| && s.history[i] == Code(key, true, false)
    ensures ReleasedAfter(Offered(s, size, Code(key, false, false)).history, i, key)
  {
    var t := Offered(s, size, Code(key, false, false));
    assert Releases(Last(t), key);
    assert t.history[i] == s.history[i];
  }

  predicate Releases(e: Code, key: nat) { !e.down && (e.key == key || e.releaseAll) }

  predicate ReleasedAfter(events: seq<Code>, i: nat, key: nat) {
    exists j :: i < j < |events| && Releases(events[j], key)
  }

  predicate NoPress(ops: seq<Op>, key: nat) {
    forall i :: 0 <= i < |ops| && ops[i].Offer? && ops[i].code.down ==> ops[i].code.key != key
  }

  lemma NotPressed(s: State, size: nat, key: nat, op: Op)
    requires Fits(s, size) && key !in Held(s.history)
    requires op.Offer? && op.code.down ==> op.code.key != key
    ensures key !in Held(Do(s, size, op).history)
  {
    if op.Offer? && Queued(s, size, op.code).Just? {
      HeldAfter(s.history, Queued(s, size, op.code).value);
    }
  }

  /** The key stays released over every run that does not press it again. */
  lemma {:induction false} StaysReleased(size: nat, ops: seq<Op>, key: nat, later: seq<Op>)
    requires size > 0 && PlainPresses(ops) && NoPress(later, key)
    ensures key !in Held(Run(size, ops + [Offer(Code(key, false, false))] + later).history)
  {
    hide Held, Do;
    var all := ops + [Offer(Code(key, false, false))] + later;
    if later == [] {
      NoStuckKey(size, ops, key);
      assert all == ops + [Offer(Code(key, false, false))];
    } else {
      var before, op := later[..|later| - 1], later[|later| - 1];
      StaysReleased(size, ops, key, before);
      assert all[..|all| - 1] == ops + [Offer(Code(key, false, false))] + before;
      NotPressed(Run(size, all[..|all| - 1]), size, key, op);
    }
  }

  /** A press with the reset flag can stay held after its release: three slots, two of them used. */
  lemma FlaggedPressSticks()
    ensures 5 in Held(Run(3, [Offer(NO_KEY), Offer(Code(5, true, true)), Offer(Code(5, false, false))]).history)
  {
    var ops := [Offer(NO_KEY), Offer(Code(5, true, true)), Offer(Code(5, false, false))];
    assert ops[..2][..1] == [Offer(NO_KEY)] && ops[..1][..0] == [];
    assert Run(3, []) == State([], 0, NO_KEY);
    var one := Run(3, ops[..1]);
    assert one == Offered(Run(3, []), 3, NO_KEY);
    assert one == State([NO_KEY], 0, NO_KEY);
    var two := Run(3, ops[..2]);
    assert ops[..2][..1] == ops[..1];
    assert two == State([NO_KEY, Code(5, true, true)], 0, Code(5, false, true));
    assert Run(3, ops) == two;
    HeldAfter([NO_KEY], Code(5, true, true));
    assert [NO_KEY] + [Code(5, true, true)] == two.history;
  }

  lemma MultipleIsFar(size: nat, d: int)
    ensures d >= 1 ==> size * d >= size
    ensures d <= 0 ==> size * d <= 0
  {
  }

  lemma SlotsDiffer(a: nat, b: nat, size: nat)
    requires a < b < a + size
    ensures a % size != b % size
  {
    var d := b / size - a / size;
    assert b - a == size * d + (b % size - a % size);
    MultipleIsFar(size, d);
  }

  /** The last two key presses with their times, for the double clicks the queue makes itself. */
  datatype Clicks = Clicks(key: Code, time: nat, previousKey: Code, previousTime: nat)

  /** Milliseconds from `past` to `now` on a 32-bit clock. */
  function Elapsed(now: nat, past: nat): nat { (now - past) % 0x1_0000_0000 }

  predicate IsButton(code: Code, first: nat) {
    !code.releaseAll && first <= code.key <= first + LAST_BUTTON
  }

  /** Double clicks the system reports are dropped when the queue makes its own. */
  predicate Ignored(code: Code, doubleclickTime: nat) {
    doubleclickTime != 0 && IsButton(code, MOUSE_BTN0_DBL)
  }

  /** The clicks known once `code` was offered. */
  function Clicked(c: Clicks, code: Code, now: nat): Clicks {
    if code.down then Clicks(code.(down := false), now, c.key, c.time) else c
  }

  /** The second event of one offer: a double click, if this is the second press or release in time. */
  function Doubled(c: Clicks, code: Code, now: nat, doubleclickTime: nat): Maybe<Code> {
    var key := code.(down := false);
    var after := Clicked(c, code, now);
    if after.key == key && after.previousKey == key && Elapsed(now, after.previousTime) < doubleclickTime
       && IsButton(key, MOUSE_BTN0)
    then Just(key.(key := key.key - MOUSE_BTN0 + MOUSE_BTN0_DBL)) else Nothing
  }

  /** All that one call offers to the queue. */
  function Offers(c: Clicks, code: Code, now: nat, doubleclickTime: nat): seq<Code> {
    if Ignored(code, doubleclickTime) then []
    else match Doubled(c, code, now, doubleclickTime) case Nothing => [code] case Just(d) => [code, d]
  }

  function OfferAll(s: State, size: nat, codes: seq<Code>): (t: State)
    requires Fits(s, size)
    ensures Fits(t, size)
    decreases |codes|
  {
    if codes == [] then s else OfferAll(Offered(s, size, codes[0]), size, codes[1..])
  }

  lemma OfferOne(s: State, size: nat, a: Code)
    requires Fits(s, size)
    ensures OfferAll(s, size, [a]) == Offered(s, size, a)
  {
  }

  lemma OfferTwo(s: State, size: nat, a: Code, b: Code)
    requires Fits(s, size)
    ensures OfferAll(s, size, [a, b]) == Offered(Offered(s, size, a), size, b)
  {
    assert [a, b][1..] == [b];
    OfferOne(Offered(s, size, a), size, b);
  }

  /** The queue as the program holds it: a ring with two counters. */
  class Fifo {
    const size: nat
    var data: array?<Code>
    var read: nat
    var write: nat
    var previousDownKey: Code
    var clicks: Clicks
    ghost var history: seq<Code>

    constructor (size: nat)
      requires size > 0
      ensures Valid() && this.size == size && Abstract() == Run(size, [])
      ensures fresh(Repr())
    {
      this.size, data, read, write, previousDownKey, history := size, null, 0, 0, NO_KEY, [];
      clicks := Clicks(NO_KEY, 0, NO_KEY, 0);
    }

    ghost function Repr(): set<object>
      reads this
    {
      {this} + if data == null then {} else {data}
    }

    ghost predicate Valid()
      reads this, data
    {
      && size > 0 && write == |history|
      && Guarded(Abstract(), size)
      && (data == null ==> history == [])
      && (data != null ==> data.Length == size && InRing())
    }

    ghost predicate InRing()
      requires data != null && data.Length == size > 0 && write == |history|
      reads this, data
    {
      forall i :: read <= i < write ==> data[i % size] == history[i]
    }

    ghost function Abstract(): State
      reads this
    {
      State(history, read, previousDownKey)
    }

    /** Queues `code`, a reset in its place, or nothing. */
    method PutInternal(code: Code)
      requires Valid()
      modifies Repr()
      ensures Valid() && fresh(Repr() - old(Repr()))
      ensures Abstract() == Offered(old(Abstract()), size, code) && clicks == old(clicks)
    {
      OfferedGuarded(Abstract(), size, code);
      var free := read + size - write;
      if data == null {
        data := new Code[size](_ => NO_KEY);
      }
      if free == 0 {
        return;
      }
      if code.down && free <= size / 2 {
        return;
      }
      var e := code;
      if free == 1 {
        if previousDownKey.releaseAll {
          return;
        }
        if e != previousDownKey {
          e := NO_KEY;
        }
        e := e.(releaseAll := true);
      }
      forall i | read <= i < write ensures i % size != write % size {
        SlotsDiffer(i, write, size);
      }
      data[write % size] := e;
      write := write + 1;
      history := history + [e];
      previousDownKey := if e.down then e.(down := false) else NO_KEY.(releaseAll := e.releaseAll);
    }

    /** Hands out the events in the order they were queued. */
    method GetKey() returns (key: Maybe<Code>)
      requires Valid()
      modifies this`read
      ensures Valid() && Abstract() == Taken(old(Abstract()))
      ensures key == if old(read) < |history| then Just(history[old(read)]) else Nothing
    {
      TakenGuarded(Abstract(), size);
      if data == null {
        return Nothing;
      }
      if write == read {
        return Nothing;
      }
      key := Just(data[read % size]);
      read := read + 1;
    }

    method PutDouble(code: Code)
      requires Valid() && !code.down
      modifies Repr()
      ensures Valid() && fresh(Repr() - old(Repr())) && clicks == old(clicks)
      ensures Abstract() == if IsButton(code, MOUSE_BTN0)
        then Offered(old(Abstract()), size, code.(key := code.key - MOUSE_BTN0 + MOUSE_BTN0_DBL))
        else old(Abstract())
    {
      if IsButton(code, MOUSE_BTN0) {
        PutInternal(code.(key := code.key - MOUSE_BTN0 + MOUSE_BTN0_DBL));
      }
    }

    /** The entry point for drivers; `now` is the clock, `doubleclickTime` a setting. */
    method PutKey(code: Code, now: nat, doubleclickTime: nat)
      requires Valid() && now < 0x1_0000_0000
      modifies Repr()
      ensures Valid() && fresh(Repr() - old(Repr()))
      ensures Abstract() == OfferAll(old(Abstract()), size, Offers(old(clicks), code, now, doubleclickTime))
      ensures clicks == if Ignored(code, doubleclickTime) then old(clicks) else Clicked(old(clicks), code, now)
    {
      hide Offered;
      match Doubled(clicks, code, now, doubleclickTime) {
        case Just(d) => OfferTwo(Abstract(), size, code, d);
        case Nothing => OfferOne(Abstract(), size, code);
      }
      if doubleclickTime != 0 && IsButton(code, MOUSE_BTN0_DBL) {
        return;
      }
      PutInternal(code);
      var key := code.(down := false);
      if code.down {
        clicks := Clicks(key, now, clicks.key, clicks.time);
        if clicks.previousKey == key && Elapsed(now, clicks.previousTime) < doubleclickTime {
          PutDouble(key);
        }
        return;
      }
      if clicks.key == code && clicks.previousKey == code && Elapsed(now, clicks.previousTime) < doubleclickTime {
        PutDouble(code);
      }
    }

    method Uninit()
      requires Valid()
      modifies this
      ensures Valid() && Abstract() == Run(size, []) && data == null
    {
      data, read, write, previousDownKey, history := null, 0, 0, NO_KEY, [];
    }
  }

  function AsOps(codes: seq<Code>): seq<Op> { seq(|codes|, i requires 0 <= i < |codes| => Offer(codes[i])) }

  /** A call of the entry point is a part of a run. */
  lemma {:induction false} OffersAreOps(size: nat, ops: seq<Op>, codes: seq<Code>)
    ensures OfferAll(Run(size, ops), size, codes) == Run(size, ops + AsOps(codes))
    decreases |codes|
  {
    if codes == [] {
      assert ops + AsOps(codes) == ops;
    } else {
      var next := ops + [Offer(codes[0])];
      assert next[..|ops|] == ops;
      OffersAreOps(size, next, codes[1..]);
      assert next + AsOps(codes[1..]) == ops + AsOps(codes);
    }
  }

  /** No call of the entry point with a release leaves its key held, whatever double clicks it adds. */
  lemma ReleasedByCall(size: nat, ops: seq<Op>, c: Clicks, key: nat, now: nat, doubleclickTime: nat)
    requires size > 0 && PlainPresses(ops) && !Ignored(Code(key, false, false), doubleclickTime)
    ensures var offered := Offers(c, Code(key, false, false), now, doubleclickTime);
      key !in Held(OfferAll(Run(size, ops), size, offered).history)
  {
    hide Run, Held;
    var code := Code(key, false, false);
    var offers := Offers(c, code, now, doubleclickTime);
    OffersAreOps(size, ops, offers);
    assert ops + AsOps(offers) == ops + [Offer(code)] + AsOps(offers[1..]);
    StaysReleased(size, ops, key, AsOps(offers[1..]));
  }

  /**
   * What becomes of an offered event: with more than one slot free it is queued as it is, except that a
   * press is dropped unless more than half of the queue is free; with one slot free a reset stands in for
   * it, unless the last event was one already.
   */
  lemma QueuedExactly(s: State, size: nat, code: Code)
    requires Fits(s, size)
    ensures var free, t := Free(s, size), Offered(s, size, code);
      ((code.down && 2 * free <= size ==> t == s)
      && ((!code.down || 2 * free > size) && free > 1 ==> t.history == s.history + [code])
      && ((!code.down || 2 * free > size) && free == 1 && s.previousDownKey.releaseAll ==> t == s)
      && ((!code.down || 2 * free > size) && free == 1 && !s.previousDownKey.releaseAll ==>
            |t.history| == |s.history| + 1 && t.history[..|s.history|] == s.history
            && Last(t) == if code == s.previousDownKey then code.(releaseAll := true) else Code(0, false, true))
      && (free == 0 ==> t == s) && t.read == s.read)
  {
  }

  /** Presses that are still to be read stand in the first half of the queue; the second half is for releases. */
  predicate PressesInFront(s: State, size: nat)
    requires Fits(s, size)
  {
    forall i :: s.read <= i < |s.history| && s.history[i].down ==> 2 * (i - s.read) < size
  }

  /** So after any run: presses never take the room that releases need. */
  lemma {:induction false} ReserveKept(size: nat, ops: seq<Op>)
    requires size > 0
    ensures PressesInFront(Run(size, ops), size)
  {
    if ops != [] {
      var before, op := ops[..|ops| - 1], ops[|ops| - 1];
      ReserveKept(size, before);
      RunGuarded(size, before);
      hide Run;
      ReserveStep(Run(size, before), size, op);
      assert Run(size, ops) == Do(Run(size, before), size, op) by { RunStep(size, ops); }
    }
  }

  lemma RunStep(size: nat, ops: seq<Op>)
    requires ops != []
    ensures Run(size, ops) == Do(Run(size, ops[..|ops| - 1]), size, ops[|ops| - 1])
  {
  }

  lemma ReserveStep(s: State, size: nat, op: Op)
    requires Guarded(s, size) && size > 0 && PressesInFront(s, size)
    ensures PressesInFront(Do(s, size, op), size)
  {
    var t := Do(s, size, op);
    forall i | t.read <= i < |t.history| && t.history[i].down ensures 2 * (i - t.read) < size {
      if i < |s.history| { assert t.history[i] == s.history[i]; }
    }
  }

  /** A second press of a mouse button in time makes the queue add the double click of that button. */
  lemma PressDoubles(c: Clicks, key: nat, now: nat, doubleclickTime: nat)
    requires now < 0x1_0000_0000
    ensures var again := c.key == Code(key, false, false) && (now - c.time) % 0x1_0000_0000 < doubleclickTime;
      var button := 0x1000_0200 <= key <= 0x1000_0213;
      Offers(c, Code(key, true, false), now, doubleclickTime) ==
        if doubleclickTime != 0 && 0x1000_0300 <= key <= 0x1000_0313 then []
        else if again && button then [Code(key, true, false), Code(key + 0x100, false, false)]
        else [Code(key, true, false)]
  {
  }

  /** So does its release, when the last two presses were of that button and the first of them is not long ago. */
  lemma ReleaseDoubles(c: Clicks, key: nat, now: nat, doubleclickTime: nat)
    ensures var code := Code(key, false, false);
      var again := c.key == code == c.previousKey && (now - c.previousTime) % 0x1_0000_0000 < doubleclickTime;
      var button := 0x1000_0200 <= key <= 0x1000_0213;
      Offers(c, code, now, doubleclickTime) ==
        if doubleclickTime != 0 && 0x1000_0300 <= key <= 0x1000_0313 then []
        else if again && button then [code, Code(key + 0x100, false, false)]
        else [code]
  {
  }
}
