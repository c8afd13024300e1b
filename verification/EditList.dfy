/** Edit decision lists: parsing, and following them during playback (edl.c, mplayer.c). */
module EditList {
  import opened Basics

  const EDL_SKIP := 0
  const EDL_MUTE := 1

  /** A line of the file, as far as it can be scanned. */
  datatype Line = Line(start: real, stop: real, action: int) | Malformed

  datatype Record = Record(start: real, stop: real, length: real, action: int)

  /** Records keep their action in 16 bits. */
  function ToShort(n: int): int { (n + 0x8000) % 0x1_0000 - 0x8000 }

  function RecordsOf(l: Line): seq<Record>
    requires l.Line?
  {
    if l.action == EDL_MUTE then
      [Record(l.start, l.start, 0.0, EDL_MUTE), Record(l.stop, l.stop, 0.0, EDL_MUTE)]
    else [Record(l.start, l.stop, l.stop - l.start, ToShort(l.action))]
  }

  /** The lines that are used: well-formed, of some length, and behind all used before them. */
  function Accepted(lines: seq<Line>): (r: seq<Line>)
    ensures forall i :: 0 <= i < |r| ==> r[i].Line?
  {
    if lines == [] then []
    else
      var before, l := Accepted(lines[..|lines| - 1]), lines[|lines| - 1];
      if l.Line? && (before == [] || l.start > before[|before| - 1].stop) && l.stop > l.start
      then before + [l] else before
  }

  function Records(used: seq<Line>): seq<Record>
    requires forall i :: 0 <= i < |used| ==> used[i].Line?
  {
    if used == [] then [] else Records(used[..|used| - 1]) + RecordsOf(used[|used| - 1])
  }

  function Parse(lines: seq<Line>): seq<Record> { Records(Accepted(lines)) }

  /** Records follow each other without overlap. */
  predicate Ordered(rs: seq<Record>) {
    && (forall i :: 0 <= i < |rs| ==> rs[i].start <= rs[i].stop)
    && (forall i, j :: 0 <= i < j < |rs| ==> rs[i].stop < rs[j].start)
  }

  predicate OrderedLines(used: seq<Line>) {
    && (forall i :: 0 <= i < |used| ==> used[i].Line? && used[i].start < used[i].stop)
    && (forall i, j :: 0 <= i < j < |used| ==> used[i].stop < used[j].start)
  }

  lemma {:induction false} AcceptedOrdered(lines: seq<Line>)
    ensures OrderedLines(Accepted(lines))
  {
    if lines != [] {
      AcceptedOrdered(lines[..|lines| - 1]);
    }
  }

  lemma {:induction false} RecordsOrdered(used: seq<Line>)
    requires OrderedLines(used)
    ensures Ordered(Records(used))
    ensures used != [] ==> Records(used) != [] && Records(used)[|Records(used)| - 1].stop == used[|used| - 1].stop
  {
    if used != [] {
      var n := |used| - 1;
      RecordsOrdered(used[..n]);
      assert n > 0 ==> used[n - 1].stop < used[n].start;
      OrderedMore(Records(used[..n]), used[n]);
    }
  }

  lemma OrderedMore(rs: seq<Record>, l: Line)
    requires Ordered(rs) && l.Line? && l.start < l.stop && (rs != [] ==> rs[|rs| - 1].stop < l.start)
    ensures Ordered(rs + RecordsOf(l))
  {
    assert forall i :: 0 <= i < |rs| ==> rs[i].stop <= rs[|rs| - 1].stop;
  }

  /** What the parser builds is strictly ordered and disjoint. */
  lemma ParseOrdered(lines: seq<Line>)
    ensures Ordered(Parse(lines))
  {
    AcceptedOrdered(lines);
    RecordsOrdered(Accepted(lines));
  }

  predicate Toggles(r: Record, pts: real) { r.action == EDL_MUTE && r.start <= pts }

  /** Muted by all the records that have started. */
  function MutedAt(rs: seq<Record>, pts: real): bool {
    if rs == [] then false else MutedAt(rs[..|rs| - 1], pts) != Toggles(rs[|rs| - 1], pts)
  }

  /** A time inside a mute line, its start included and its stop not. */
  predicate InMuteLine(used: seq<Line>, pts: real) {
    exists i :: 0 <= i < |used| && Covers(used[i], pts)
  }

  predicate Covers(l: Line, pts: real) { l.Line? && l.action == EDL_MUTE && l.start <= pts < l.stop }

  /** No action number turns into another line's mute when it is cut to 16 bits. */
  predicate HonestActions(used: seq<Line>) {
    forall i :: 0 <= i < |used| && used[i].Line? && ToShort(used[i].action) == EDL_MUTE ==> used[i].action == EDL_MUTE
  }

  lemma MutedByLine(before: seq<Record>, l: Line, pts: real)
    requires l.Line? && l.start < l.stop
    ensures MutedAt(before + RecordsOf(l), pts) == (MutedAt(before, pts) !=
      if l.action == EDL_MUTE then Covers(l, pts) else ToShort(l.action) == EDL_MUTE && l.start <= pts)
  {
    var rs := before + RecordsOf(l);
    if l.action == EDL_MUTE {
      assert rs[..|rs| - 1] == before + [RecordsOf(l)[0]];
      assert rs[..|rs| - 1][..|before|] == before;
    } else {
      assert rs[..|rs| - 1] == before;
    }
  }

  lemma {:induction false} MutedInLines(used: seq<Line>, pts: real)
    requires OrderedLines(used) && HonestActions(used)
    ensures MutedAt(Records(used), pts) <==> InMuteLine(used, pts)
  {
    if used != [] {
      var n := |used| - 1;
      MutedInLines(used[..n], pts);
      RecordsStep(used);
      hide Records, RecordsOf, MutedAt, Covers, InMuteLine;
      MutedByLine(Records(used[..n]), used[n], pts);
      InMuteLineStep(used, pts);
      if Covers(used[n], pts) {
        DisjointLines(used, pts);
      }
    }
  }

  lemma InMuteLineStep(used: seq<Line>, pts: real)
    requires used != []
    ensures InMuteLine(used, pts) <==> InMuteLine(used[..|used| - 1], pts) || Covers(used[|used| - 1], pts)
  {
    hide Covers;
    var before := used[..|used| - 1];
    if i :| 0 <= i < |before| && Covers(before[i], pts) {
      assert Covers(used[i], pts);
    }
    if i :| 0 <= i < |used| && Covers(used[i], pts) {
      assert i < |before| ==> Covers(before[i], pts);
    }
  }

  /** No time is in the last line and in an earlier one. */
  lemma DisjointLines(used: seq<Line>, pts: real)
    requires used != [] && OrderedLines(used) && Covers(used[|used| - 1], pts)
    ensures !InMuteLine(used[..|used| - 1], pts)
  {
    var before := used[..|used| - 1];
    forall i | 0 <= i < |before| ensures !Covers(before[i], pts) {
      assert before[i] == used[i] && used[i].stop < used[|used| - 1].start;
    }
  }

  lemma RecordsStep(used: seq<Line>)
    requires used != [] && OrderedLines(used)
    ensures OrderedLines(used[..|used| - 1])
    ensures Records(used) == Records(used[..|used| - 1]) + RecordsOf(used[|used| - 1])
  {
  }

  /** Nothing that has not started mutes. */
  lemma {:induction false} NotYetMuted(used: seq<Line>, k: nat, pts: real)
    requires OrderedLines(used)
    requires k <= |used| && forall i :: k <= i < |used| ==> pts < used[i].start
    ensures MutedAt(Records(used), pts) == MutedAt(Records(used[..k]), pts)
  {
    hide Records, RecordsOf, MutedAt;
    if k < |used| {
      var n := |used| - 1;
      RecordsStep(used);
      NotYetMuted(used[..n], k, pts);
      MutedByLine(Records(used[..n]), used[n], pts);
      assert used[..n][..k] == used[..k];
    } else {
      assert used[..k] == used;
    }
  }

  predicate Dishonest(l: Line) { l.Line? && ToShort(l.action) == EDL_MUTE && l.action != EDL_MUTE }

  lemma FirstDishonest(used: seq<Line>) returns (k: nat)
    requires OrderedLines(used) && !HonestActions(used)
    ensures k < |used| && HonestActions(used[..k]) && Dishonest(used[k])
  {
    hide ToShort;
    var some: nat :| some < |used| && Dishonest(used[some]);
    k := 0;
    while !Dishonest(used[k])
      invariant k <= some && HonestActions(used[..k])
      decreases some - k
    {
      k := k + 1;
    }
  }

  /** A dishonest action mutes from its line on, where no mute line is. */
  lemma DishonestMutes(used: seq<Line>, k: nat)
    requires OrderedLines(used) && k < |used| && HonestActions(used[..k]) && Dishonest(used[k])
    ensures MutedAt(Records(used), used[k].start) && !InMuteLine(used, used[k].start)
  {
    hide Records, RecordsOf, MutedAt, ToShort;
    var pts := used[k].start;
    assert OrderedLines(used[..k + 1]);
    NotYetMuted(used, k + 1, pts);
    RecordsStep(used[..k + 1]);
    assert used[..k + 1][..k] == used[..k];
    MutedByLine(Records(used[..k]), used[k], pts);
    MutedInLines(used[..k], pts);
    forall i | 0 <= i < |used| ensures !Covers(used[i], pts) {
      assert i < k ==> used[i].stop < used[k].start;
      assert i > k ==> used[k].stop < used[i].start;
    }
  }

  /** Following the records mutes exactly inside the mute lines, if and only if all action numbers fit. */
  lemma MuteExactly(lines: seq<Line>)
    ensures (forall pts :: MutedAt(Parse(lines), pts) <==> InMuteLine(Accepted(lines), pts)) <==>
      HonestActions(Accepted(lines))
  {
    hide MutedAt, Records, HonestActions, InMuteLine, Accepted;
    var used := Accepted(lines);
    AcceptedOrdered(lines);
    if HonestActions(used) {
      forall pts ensures MutedAt(Records(used), pts) <==> InMuteLine(used, pts) {
        MutedInLines(used, pts);
      }
    } else {
      var k := FirstDishonest(used);
      DishonestMutes(used, k);
    }
  }

  /** How many records from the first one on have started. */
  function FirstAfter(rs: seq<Record>, pts: real): (k: nat)
    ensures k <= |rs|
    ensures forall i :: 0 <= i < k ==> rs[i].start <= pts
    ensures k < |rs| ==> rs[k].start > pts
  {
    if rs == [] || rs[0].start > pts then 0 else 1 + FirstAfter(rs[1..], pts)
  }

  /** The mute state after the first `k` records. */
  function Parity(rs: seq<Record>, k: nat): bool
    requires k <= |rs|
  {
    if k == 0 then false else Parity(rs, k - 1) != (rs[k - 1].action == EDL_MUTE)
  }

  lemma {:induction false} ParityIsMuted(rs: seq<Record>, pts: real, k: nat)
    requires Ordered(rs) && k <= |rs|
    ensures MutedAt(rs[..k], pts) == Parity(rs, if k <= FirstAfter(rs, pts) then k else FirstAfter(rs, pts))
  {
    if k > 0 {
      ParityIsMuted(rs, pts, k - 1);
      assert rs[..k][..k - 1] == rs[..k - 1];
    }
  }

  /** For ordered records the records passed decide. */
  lemma MutedByPassed(rs: seq<Record>, pts: real)
    requires Ordered(rs)
    ensures MutedAt(rs, pts) == Parity(rs, FirstAfter(rs, pts))
  {
    ParityIsMuted(rs, pts, |rs|);
    assert rs[..|rs|] == rs;
  }

  /** Where following the list is: the next record, and the mute state. */
  datatype View = View(at: nat, muted: bool)

  /** One call without a reset passes at most one record. */
  function Advance(rs: seq<Record>, v: View, pts: real): (w: View)
    requires v.at <= |rs|
    ensures w.at <= |rs|
  {
    if v.at < |rs| && pts >= rs[v.at].start then View(v.at + 1, v.muted != (rs[v.at].action == EDL_MUTE)) else v
  }

  function Follow(rs: seq<Record>, v: View, times: seq<real>): (w: View)
    requires v.at <= |rs|
    ensures w.at <= |rs|
  {
    if times == [] then v else Advance(rs, Follow(rs, v, times[..|times| - 1]), times[|times| - 1])
  }

  predicate Rising(from: real, times: seq<real>) {
    forall i :: 0 <= i < |times| ==> from <= times[i] && forall j :: i < j < |times| ==> times[i] <= times[j]
  }

  /** What a reset at `pts` leaves, if it does not jump back. */
  function Reset(rs: seq<Record>, pts: real): View { View(FirstAfter(rs, pts), MutedAt(rs, pts)) }

  /** The next record is later than `pts`. */
  predicate Settled(rs: seq<Record>, v: View, pts: real) {
    v.at <= |rs| && (v.at < |rs| ==> rs[v.at].start > pts)
  }

  lemma {:induction false} FollowKeeps(rs: seq<Record>, from: real, times: seq<real>)
    requires Ordered(rs) && Rising(from, times)
    ensures var v := Follow(rs, Reset(rs, from), times);
      (v.muted == Parity(rs, v.at) && v.at <= FirstAfter(rs, if times == [] then from else times[|times| - 1]))
  {
    hide Ordered, FirstAfter;
    if times == [] {
      MutedByPassed(rs, from);
    } else {
      var before := times[..|times| - 1];
      FollowKeeps(rs, from, before);
      var now := times[|times| - 1];
      var last := if before == [] then from else before[|before| - 1];
      assert last <= now;
      AdvanceKeeps(rs, Follow(rs, Reset(rs, from), before), last, now);
    }
  }

  lemma AdvanceKeeps(rs: seq<Record>, v: View, last: real, now: real)
    requires last <= now && v.at <= FirstAfter(rs, last) && v.muted == Parity(rs, v.at) && Ordered(rs)
    ensures var w := Advance(rs, v, now); (w.at <= FirstAfter(rs, now) && w.muted == Parity(rs, w.at))
  {
    FirstAfterGrows(rs, last, now);
  }

  lemma {:induction false} FirstAfterGrows(rs: seq<Record>, last: real, now: real)
    requires last <= now
    ensures FirstAfter(rs, last) <= FirstAfter(rs, now)
  {
    if rs != [] {
      FirstAfterGrows(rs[1..], last, now);
    }
  }

  /**
   * One record a call at rising times: once the next record is later than the time, the state is the
   * one a reset at that time would have computed from the beginning.
   */
  lemma FollowAgrees(rs: seq<Record>, from: real, times: seq<real>)
    requires Ordered(rs) && times != [] && Rising(from, times)
    requires Settled(rs, Follow(rs, Reset(rs, from), times), times[|times| - 1])
    ensures Follow(rs, Reset(rs, from), times) == Reset(rs, times[|times| - 1])
  {
    FollowKeeps(rs, from, times);
    MutedByPassed(rs, times[|times| - 1]);
  }

  function Repeat(pts: real, n: nat): seq<real> { seq(n, _ => pts) }

  /** As many calls as records are left to pass are enough. */
  lemma {:induction false} FollowSettles(rs: seq<Record>, v: View, pts: real, n: nat)
    requires Ordered(rs) && v.at <= FirstAfter(rs, pts) && n >= FirstAfter(rs, pts) - v.at
    ensures Follow(rs, v, Repeat(pts, n)).at == FirstAfter(rs, pts)
  {
    FollowCounts(rs, v, pts, n);
  }

  lemma FollowOne(rs: seq<Record>, v: View, pts: real, n: nat)
    requires n > 0 && v.at <= |rs|
    ensures Follow(rs, v, Repeat(pts, n)) == Advance(rs, Follow(rs, v, Repeat(pts, n - 1)), pts)
  {
    hide Advance;
    assert Repeat(pts, n)[..n - 1] == Repeat(pts, n - 1);
  }

  lemma {:induction false} FollowCounts(rs: seq<Record>, v: View, pts: real, n: nat)
    requires Ordered(rs) && v.at <= FirstAfter(rs, pts)
    ensures Follow(rs, v, Repeat(pts, n)).at ==
      if v.at + n <= FirstAfter(rs, pts) then v.at + n else FirstAfter(rs, pts)
  {
    if n > 0 {
      FollowCounts(rs, v, pts, n - 1);
      FollowOne(rs, v, pts, n);
      hide Follow;
    }
  }

  // The list and the player as they run.

  class Node {
    var start: real
    var stop: real
    var length: real
    var action: int
    var next: Node?
    var prev: Node?

    constructor ()
      ensures next == null && prev == null
    {
      start, stop, length, action, next, prev := 0.0, 0.0, 0.0, 0, null, null;
    }
  }

  function At(l: seq<Node>, i: int): Node? { if 0 <= i < |l| then l[i] else null }

  ghost predicate HookedAt(l: seq<Node>, i: nat)
    requires i < |l|
    reads l
  {
    l[i].next == At(l, i + 1) && l[i].prev == At(l, i - 1)
  }

  ghost predicate Chain(l: seq<Node>)
    reads l
  {
    && (forall i {:trigger HookedAt(l, i)} :: 0 <= i < |l| ==> HookedAt(l, i))
    && (forall i, j :: 0 <= i < j < |l| ==> l[i] != l[j])
  }

  ghost function ValueOf(n: Node): Record
    reads n
  {
    Record(n.start, n.stop, n.length, n.action)
  }

  ghost function Values(l: seq<Node>): (rs: seq<Record>)
    reads l
    ensures |rs| == |l|
  {
    seq(|l|, i requires 0 <= i < |l| reads l => ValueOf(l[i]))
  }

  /** A new record at the end of the list. */
  method AllocNew(last: Node?, ghost l: seq<Node>, start: real, stop: real, length: real, action: int)
    returns (r: Node)
    requires Chain(l) && last == At(l, |l| - 1)
    modifies last
    ensures fresh(r) && Chain(l + [r])
    ensures Values(l + [r]) == old(Values(l)) + [Record(start, stop, length, action)]
  {
    r := new Node();
    if last != null {
      last.next := r;
    }
    r.prev := last;
    r.next := null;
    r.start, r.stop, r.length, r.action := start, stop, length, action;
    forall i | 0 <= i < |l + [r]| ensures HookedAt(l + [r], i) {
      assert i < |l| ==> old(HookedAt(l, i));
    }
  }

  /** One record for a line, or the two ends of a mute. */
  method AppendLine(last: Node?, ghost l: seq<Node>, line: Line)
    returns (first: Node, r: Node, ghost m: seq<Node>)
    requires Chain(l) && last == At(l, |l| - 1) && line.Line?
    modifies last
    ensures Chain(m) && l < m && first == m[|l|] && r == At(m, |m| - 1) && r.stop == line.stop
    ensures fresh(set n | n in m[|l|..])
    ensures Values(m) == old(Values(l)) + RecordsOf(line)
  {
    hide Chain;
    if line.action == EDL_MUTE {
      first := AllocNew(last, l, line.start, line.start, 0.0, EDL_MUTE);
      r := AllocNew(first, l + [first], line.stop, line.stop, 0.0, EDL_MUTE);
      m := l + [first] + [r];
    } else {
      r := AllocNew(last, l, line.start, line.stop, line.stop - line.start, ToShort(line.action));
      first, m := r, l + [r];
    }
    assert Values(m)[|m| - 1] == ValueOf(r);
  }

  lemma AcceptNext(lines: seq<Line>, k: nat)
    requires k < |lines|
    ensures var before, l := Accepted(lines[..k]), lines[k];
      Accepted(lines[..k + 1]) ==
        if l.Line? && (before == [] || l.start > before[|before| - 1].stop) && l.stop > l.start
        then before + [l] else before
  {
    assert lines[..k + 1][..k] == lines[..k];
  }

  lemma NoLines()
    ensures Accepted([]) == [] && Records([]) == []
  {
  }

  lemma RecordsMore(used: seq<Line>, l: Line)
    requires l.Line? && forall i :: 0 <= i < |used| ==> used[i].Line?
    ensures Records(used + [l]) == Records(used) + RecordsOf(l)
  {
    assert (used + [l])[..|used|] == used;
  }

  /** Reads the lines of a file into a list. */
  method ParseFile(lines: seq<Line>) returns (records: Node?, ghost l: seq<Node>)
    ensures Chain(l) && records == At(l, 0) && Values(l) == Parse(lines)
    ensures fresh(set n | n in l)
  {
    hide RecordsOf, Accepted, Records;
    var last: Node? := null;
    records, l := null, [];
    assert Accepted(lines[..0]) == [] && Records([]) == [] by { NoLines(); }
    for k := 0 to |lines|
      invariant Chain(l) && last == At(l, |l| - 1) && records == At(l, 0) && fresh(set n | n in l)
      invariant Values(l) == Parse(lines[..k])
      invariant last != null <==> Accepted(lines[..k]) != []
      invariant last != null ==> last.stop == Accepted(lines[..k])[|Accepted(lines[..k])| - 1].stop
    {
      var line := lines[k];
      AcceptNext(lines, k);
      if line.Malformed? {
        continue;
      }
      if last != null && line.start <= last.stop {
        continue;
      }
      if line.stop <= line.start {
        continue;
      }
      RecordsMore(Accepted(lines[..k]), line);
      var first;
      first, last, l := AppendLine(last, l, line);
      if records == null {
        records := first;
      }
    }
    assert lines[..|lines|] == lines;
  }

  /** The record a reset at `pts` stops at: the first one that has not ended before. */
  function StopsAt(rs: seq<Record>, pts: real): (k: nat)
    ensures k <= |rs|
    ensures forall i :: 0 <= i < k ==> rs[i].start <= pts && rs[i].stop < pts
    ensures k < |rs| ==> rs[k].start > pts || rs[k].stop >= pts
  {
    if rs == [] || rs[0].start > pts || rs[0].stop >= pts then 0 else 1 + StopsAt(rs[1..], pts)
  }

  /** Does a record cover `pts`? */
  predicate Inside(rs: seq<Record>, pts: real) {
    StopsAt(rs, pts) < |rs| && rs[StopsAt(rs, pts)].start <= pts
  }

  /** Where a reset stops, one more record brings the state to the one of the whole list. */
  lemma ResetThenAdvance(rs: seq<Record>, pts: real)
    requires Ordered(rs)
    ensures var k := StopsAt(rs, pts); Advance(rs, View(k, Parity(rs, k)), pts) == Reset(rs, pts)
  {
    hide MutedAt;
    MutedByPassed(rs, pts);
    var k, f := StopsAt(rs, pts), FirstAfter(rs, pts);
    FirstAfterIs(rs, pts, if Inside(rs, pts) then k + 1 else k);
  }

  lemma {:induction false} FirstAfterIs(rs: seq<Record>, pts: real, k: nat)
    requires k <= |rs| && (k < |rs| ==> rs[k].start > pts)
    requires forall i :: 0 <= i < k ==> rs[i].start <= pts
    ensures FirstAfter(rs, pts) == k
  {
    if k > 0 {
      FirstAfterIs(rs[1..], pts, k - 1);
    }
  }

  /** A jump the edit list asks for. */
  datatype Jump = Stay | SeekBy(seconds: real)

  /** What one call decides where the next record is the one at `at`. */
  function JumpAt(rs: seq<Record>, at: nat, pts: real): Jump {
    if at < |rs| && pts >= rs[at].start && rs[at].action == EDL_SKIP then SeekBy(rs[at].stop - pts) else Stay
  }

  lemma NodeAt(l: seq<Node>, i: nat)
    requires Chain(l) && i < |l|
    ensures Values(l)[i] == ValueOf(l[i]) && l[i].next == At(l, i + 1)
  {
    assert HookedAt(l, i);
  }

  lemma ParityStep(rs: seq<Record>, k: nat)
    requires k < |rs|
    ensures Parity(rs, k + 1) == (Parity(rs, k) != (rs[k].action == EDL_MUTE))
  {
  }

  lemma NoParity(rs: seq<Record>)
    ensures !Parity(rs, 0)
  {
  }

  class Player {
    var records: Node?
    var next: Node?
    var needsReset: bool
    var backward: bool
    var backwardDelay: real
    var edlMuted: bool
    var userMuted: bool
    var mixerMuted: bool
    ghost var list: seq<Node>
    ghost var at: nat

    constructor ()
      ensures Valid() && list == [] && !edlMuted && !mixerMuted && !userMuted && !needsReset
    {
      records, next, list, at := null, null, [], 0;
      needsReset, backward, backwardDelay := false, false, 2.0;
      edlMuted, userMuted, mixerMuted := false, false, false;
    }

    ghost predicate Valid()
      reads this, list
    {
      && Chain(list) && Ordered(Values(list))
      && records == At(list, 0)
      && at <= |list| && next == At(list, at)
    }

    ghost predicate MixerFollows()
      reads this
    {
      mixerMuted == (userMuted || edlMuted)
    }

    /** The next update jumps back before the record it is in. */
    ghost predicate JumpsBack(pts: real)
      requires Valid()
      reads this, list
    {
      list != [] && needsReset && backward && Inside(Values(list), pts)
    }

    /** Where the next update at `pts` leads, if it does not jump back. */
    ghost function Due(pts: real): View
      requires Valid()
      reads this, list
    {
      if needsReset then Reset(Values(list), pts) else Advance(Values(list), View(at, edlMuted), pts)
    }

    method LoadFile(lines: seq<Line>)
      requires Valid()
      modifies this
      ensures Valid() && Values(list) == Parse(lines) && at == 0
      ensures needsReset == (old(needsReset) || old(list) != [])
      ensures edlMuted == old(edlMuted) && mixerMuted == old(mixerMuted) && userMuted == old(userMuted)
      ensures backwardDelay == old(backwardDelay)
    {
      hide Chain, Values, Ordered, Records, Accepted;
      if records != null {
        needsReset := true;
      }
      records, list := ParseFile(lines);
      next, at := records, 0;
      ParseOrdered(lines);
    }

    /**
     * After a seek the next update is the one of a reset at whatever time the seek has led to: what
     * was passed and muted before does not matter. It jumps back only from inside a record and only
     * if the seek went back.
     */
    method Sought(amount: real)
      requires Valid()
      modifies this`needsReset, this`backward
      ensures Valid() && if list == [] then unchanged(this) else needsReset
      ensures list != [] ==> forall pts :: Due(pts) == Reset(Values(list), pts)
      ensures list != [] ==> forall pts :: JumpsBack(pts) <==> amount < 0.0 && Inside(Values(list), pts)
    {
      if records != null {
        needsReset := true;
        backward := amount < 0.0;
      }
    }

    method MuteMixer()
      modifies this`mixerMuted
      ensures mixerMuted == !old(mixerMuted)
    {
      mixerMuted := !mixerMuted;
    }

    /** Toggles the mute state for a mute record and goes on to the next one. */
    method PassRecord()
      requires Valid() && next != null
      modifies this`next, this`at, this`edlMuted
      ensures Valid() && at == old(at) + 1
      ensures edlMuted == (old(edlMuted) != (Values(list)[old(at)].action == EDL_MUTE))
    {
      hide Ordered, Chain, Values;
      NodeAt(list, at);
      if next.action == EDL_MUTE {
        edlMuted := !edlMuted;
      }
      next, at := next.next, at + 1;
    }

    /** The walk after a reset; true if it ends with a jump back before the record it stopped in. */
    method ResetWalk(pts: real) returns (jump: Jump)
      requires Valid()
      modifies this`needsReset, this`edlMuted, this`next, this`at, this`mixerMuted
      ensures Valid() && !needsReset
      ensures at == StopsAt(Values(list), pts) && edlMuted == Parity(Values(list), at)
      ensures jump == if backward && Inside(Values(list), pts)
        then SeekBy(-(pts - Values(list)[at].start + backwardDelay)) else Stay
      ensures jump == Stay ==> MixerFollows()
    {
      hide Ordered, Chain, Values, StopsAt, Parity;
      needsReset, edlMuted := false, false;
      var inside := Walk(pts);
      jump := Stay;
      if inside && backward {
        NodeAt(list, at);
        return SeekBy(-(pts - next.start + backwardDelay));
      }
      if (userMuted || edlMuted) != mixerMuted {
        MuteMixer();
      }
    }

    /** Its loop; true if it stops in a record. */
    method Walk(pts: real) returns (inside: bool)
      requires Valid() && !edlMuted
      modifies this`next, this`at, this`edlMuted
      ensures Valid() && at == StopsAt(Values(list), pts) && edlMuted == Parity(Values(list), at)
      ensures inside == Inside(Values(list), pts)
    {
      hide Ordered, Chain, Values, StopsAt, Parity;
      next, at := records, 0;
      ghost var rs := Values(list);
      NoParity(rs);
      inside := false;
      while next != null
        invariant Valid() && !inside && edlMuted == Parity(rs, at)
        invariant forall i :: 0 <= i < at ==> rs[i].start <= pts && rs[i].stop < pts
        decreases |list| - at
      {
        NodeAt(list, at);
        ParityStep(rs, at);
        if next.start > pts {
          break;
        }
        if next.stop >= pts {
          inside := true;
          break;
        }
        PassRecord();
      }
      StopsAtIs(rs, pts, at);
    }

    /** Follows the list to the picture's time; without a picture the list is dropped. */
    method Update(hasVideo: bool, pts: real) returns (jump: Jump)
      requires Valid()
      modifies this
      ensures Valid() && userMuted == old(userMuted) && backwardDelay == old(backwardDelay)
      ensures hasVideo ==> list == old(list)
      ensures !hasVideo ==> list == [] && edlMuted == old(edlMuted)
      ensures old(list) == [] || !hasVideo ==> jump == Stay && mixerMuted == old(mixerMuted)
      ensures old(list) == [] ==> unchanged(this)
      ensures hasVideo && list != [] ==> !needsReset
      ensures hasVideo && old(JumpsBack(pts)) ==>
        (at == StopsAt(Values(list), pts)
        && jump == SeekBy(-(pts - Values(list)[at].start + old(backwardDelay))))
      ensures hasVideo && list != [] && !old(JumpsBack(pts)) ==> View(at, edlMuted) == old(Due(pts))
      ensures hasVideo && list != [] && !old(JumpsBack(pts)) ==>
        (jump == JumpAt(Values(list), if old(needsReset) then StopsAt(Values(list), pts) else old(at), pts)
        && (old(needsReset || MixerFollows()) ==> MixerFollows()))
    {
      hide Ordered, StopsAt, Parity, Values, Chain, Reset;
      if records == null {
        return Stay;
      }
      if !hasVideo {
        records, next, list, at := null, null, [], 0;
        NothingOrdered();
        return Stay;
      }
      ghost var rs := Values(list);
      if needsReset {
        jump := ResetWalk(pts);
        if jump != Stay {
          return;
        }
        ResetThenAdvance(rs, pts);
      }
      jump := Execute(pts);
    }

    /** The command of the next record, once its time has come. */
    method Execute(pts: real) returns (jump: Jump)
      requires Valid()
      modifies this`next, this`at, this`edlMuted, this`mixerMuted
      ensures Valid() && jump == JumpAt(Values(list), old(at), pts)
      ensures View(at, edlMuted) == Advance(Values(list), View(old(at), old(edlMuted)), pts)
      ensures old(MixerFollows()) ==> MixerFollows()
    {
      hide Ordered, Chain, Values;
      jump := Stay;
      if next != null {
        NodeAt(list, at);
        if pts >= next.start {
          if next.action == EDL_SKIP {
            jump := SeekBy(next.stop - pts);
          } else if next.action == EDL_MUTE {
            edlMuted := !edlMuted;
            if (userMuted || edlMuted) != mixerMuted {
              MuteMixer();
            }
          }
          next, at := next.next, at + 1;
        }
      }
    }
  }

  /** No lines, no records. */
  lemma NoneAccepted(lines: seq<Line>)
    ensures Parse(lines) == [] <==> Accepted(lines) == []
  {
    AcceptedOrdered(lines);
    RecordsOrdered(Accepted(lines));
  }

  lemma NothingOrdered()
    ensures Chain([]) && Values([]) == [] && Ordered([])
  {
  }

  lemma {:induction false} StopsAtIs(rs: seq<Record>, pts: real, k: nat)
    requires k <= |rs| && (k < |rs| ==> rs[k].start > pts || rs[k].stop >= pts)
    requires forall i :: 0 <= i < k ==> rs[i].start <= pts && rs[i].stop < pts
    ensures StopsAt(rs, pts) == k
  {
    if k > 0 {
      StopsAtIs(rs[1..], pts, k - 1);
    }
  }
}
