/** Where edit decision lists lead playback, told from the lines of the file (edl.c, mplayer.c). */
module EditSkips {
  import opened EditList

  /** A line whose action is a skip when it is kept in 16 bits. */
  predicate IsSkip(l: Line) { l.Line? && ToShort(l.action) == EDL_SKIP }

  /** A time that the line cuts out. */
  predicate CutsOut(l: Line, pts: real) { IsSkip(l) && l.start <= pts < l.stop }

  /** The line covers the time, its stop included; a mute line covers its two ends only. */
  predicate Touches(l: Line, pts: real) {
    l.Line? && if l.action == EDL_MUTE then pts == l.start || pts == l.stop else l.start <= pts <= l.stop
  }

  /** Where the record begins that covers the time. */
  function Beginning(l: Line, pts: real): real
    requires l.Line?
  {
    if l.action == EDL_MUTE then pts else l.start
  }

  /** The record of an accepted line that covers `pts`. */
  lemma {:induction false} RecordOf(used: seq<Line>, i: nat, pts: real) returns (k: nat)
    requires OrderedLines(used) && i < |used| && Touches(used[i], pts)
    ensures k < |Records(used)|
    ensures var r, l := Records(used)[k], used[i];
      (r.start == Beginning(l, pts) && r.start <= pts <= r.stop
      && (l.action != EDL_MUTE ==> r.stop == l.stop && r.action == ToShort(l.action))
      && (l.action == EDL_MUTE ==> r.action == EDL_MUTE))
  {
    var n := |used| - 1;
    RecordsStep(used);
    var before := Records(used[..n]);
    hide Records, ToShort;
    if i < n {
      k := RecordOf(used[..n], i, pts);
    } else {
      k := |before| + if used[n].action == EDL_MUTE && pts != used[n].start then 1 else 0;
    }
  }

  /** The accepted line of a record that covers `pts`. */
  lemma {:induction false} LineOf(used: seq<Line>, k: nat, pts: real) returns (i: nat)
    requires OrderedLines(used) && k < |Records(used)|
    requires Records(used)[k].start <= pts <= Records(used)[k].stop
    ensures i < |used| && Touches(used[i], pts) && Records(used)[k].start == Beginning(used[i], pts)
    ensures Records(used)[k].action == EDL_SKIP ==> IsSkip(used[i]) && Records(used)[k].stop == used[i].stop
  {
    if used != [] {
      var n := |used| - 1;
      RecordsStep(used);
      var before := Records(used[..n]);
      hide Records, ToShort;
      if k < |before| {
        i := LineOf(used[..n], k, pts);
      } else {
        i := n;
      }
    }
  }

  /** The record that covers a time is the one that a reset stops at. */
  lemma StopsThere(rs: seq<Record>, k: nat, pts: real)
    requires Ordered(rs) && k < |rs| && rs[k].start <= pts <= rs[k].stop
    ensures StopsAt(rs, pts) == k && Inside(rs, pts)
  {
    assert forall i :: 0 <= i < k ==> rs[i].start <= rs[i].stop < pts;
  }

  /** What one update does at `pts` after a reset, when it does not go back. */
  function ResetJump(lines: seq<Line>, pts: real): Jump { JumpAt(Parse(lines), StopsAt(Parse(lines), pts), pts) }

  predicate SkipsAt(used: seq<Line>, i: nat, pts: real)
    requires i < |used|
  {
    IsSkip(used[i]) && Touches(used[i], pts)
  }

  /**
   * After a reset exactly the skip lines that cover the time are skipped, and to their ends; their ends
   * count as covered.
   */
  lemma SkipsExactly(lines: seq<Line>, pts: real)
    ensures var used := Accepted(lines);
      forall i :: 0 <= i < |used| && SkipsAt(used, i, pts) ==> ResetJump(lines, pts) == SeekBy(used[i].stop - pts)
    ensures var used := Accepted(lines);
      ResetJump(lines, pts).SeekBy? ==> exists i :: 0 <= i < |used| && SkipsAt(used, i, pts)
  {
    var used := Accepted(lines);
    hide Records, Accepted, ResetJump, IsSkip;
    forall i | 0 <= i < |used| && SkipsAt(used, i, pts) ensures ResetJump(lines, pts) == SeekBy(used[i].stop - pts) {
      SkipLineJumps(lines, i, pts);
    }
    if ResetJump(lines, pts).SeekBy? {
      var i := JumpSkipLine(lines, pts);
    }
  }

  lemma SkipLineJumps(lines: seq<Line>, i: nat, pts: real)
    requires i < |Accepted(lines)| && SkipsAt(Accepted(lines), i, pts)
    ensures ResetJump(lines, pts) == SeekBy(Accepted(lines)[i].stop - pts)
  {
    AcceptedOrdered(lines);
    RecordsOrdered(Accepted(lines));
    assert ToShort(EDL_MUTE) != EDL_SKIP;
    hide Records, Ordered, OrderedLines, StopsAt, Accepted, ToShort;
    var k := RecordOf(Accepted(lines), i, pts);
    StopsThere(Parse(lines), k, pts);
  }

  lemma JumpSkipLine(lines: seq<Line>, pts: real) returns (i: nat)
    requires ResetJump(lines, pts).SeekBy?
    ensures i < |Accepted(lines)| && SkipsAt(Accepted(lines), i, pts)
  {
    AcceptedOrdered(lines);
    StopsCovered(Parse(lines), pts);
    hide Records, OrderedLines, StopsAt, Accepted, ToShort;
    i := LineOf(Accepted(lines), StopsAt(Parse(lines), pts), pts);
  }

  lemma StopsCovered(rs: seq<Record>, pts: real)
    ensures var k := StopsAt(rs, pts); k < |rs| && rs[k].start <= pts ==> pts <= rs[k].stop
  {
  }

  /** A seek that lands on the very end of a skip line is asked for again. */
  lemma LandingRepeats(lines: seq<Line>, i: nat)
    requires i < |Accepted(lines)| && IsSkip(Accepted(lines)[i])
    ensures var stop := Accepted(lines)[i].stop;
      ResetJump(lines, stop) == SeekBy(0.0)
  {
    AcceptedOrdered(lines);
    assert SkipsAt(Accepted(lines), i, Accepted(lines)[i].stop);
    hide Accepted, ResetJump;
    SkipsExactly(lines, Accepted(lines)[i].stop);
  }

  /** Some used line covers the time. */
  predicate Covered(used: seq<Line>, pts: real) { exists i :: 0 <= i < |used| && Touches(used[i], pts) }

  /** A time is inside some record exactly when some line covers it. */
  lemma InsideExactly(lines: seq<Line>, pts: real)
    ensures Inside(Parse(lines), pts) <==> Covered(Accepted(lines), pts)
    ensures var used, rs := Accepted(lines), Parse(lines); var k := StopsAt(rs, pts);
      forall i :: 0 <= i < |used| && Touches(used[i], pts) ==> k < |rs| && rs[k].start == Beginning(used[i], pts)
  {
    var used, rs := Accepted(lines), Parse(lines);
    hide Records, StopsAt, Accepted, Inside;
    forall i | 0 <= i < |used| && Touches(used[i], pts)
      ensures Inside(rs, pts) && StopsAt(rs, pts) < |rs| && rs[StopsAt(rs, pts)].start == Beginning(used[i], pts)
    {
      LineInside(lines, i, pts);
    }
    if Inside(rs, pts) { InsideLine(lines, pts); }
  }

  lemma LineInside(lines: seq<Line>, i: nat, pts: real)
    requires i < |Accepted(lines)| && Touches(Accepted(lines)[i], pts)
    ensures var rs := Parse(lines); var k := StopsAt(rs, pts);
      (Inside(rs, pts) && k < |rs| && rs[k].start == Beginning(Accepted(lines)[i], pts))
  {
    AcceptedOrdered(lines);
    RecordsOrdered(Accepted(lines));
    hide Records, Ordered, OrderedLines, StopsAt, Accepted, Inside;
    var k := RecordOf(Accepted(lines), i, pts);
    StopsThere(Parse(lines), k, pts);
  }

  lemma InsideLine(lines: seq<Line>, pts: real)
    requires Inside(Parse(lines), pts)
    ensures Covered(Accepted(lines), pts)
  {
    var rs := Parse(lines);
    AcceptedOrdered(lines);
    StopsCovered(rs, pts);
    hide Records, Ordered, OrderedLines, StopsAt, Accepted, Touches;
    var i := LineOf(Accepted(lines), StopsAt(rs, pts), pts);
  }

  /** No lines, no records. */
  lemma NoneAccepted(lines: seq<Line>)
    ensures Parse(lines) == [] <==> Accepted(lines) == []
  {
    AcceptedOrdered(lines);
    RecordsOrdered(Accepted(lines));
  }

  /** The seek jumps back: it goes back to a time that a line covers. */
  predicate GoesBack(used: seq<Line>, amount: real, pts: real) {
    amount < 0.0 && Covered(used, pts)
  }

  /**
   * An edit list is loaded, a seek follows, and the next update skips to the end of the skip line it is in,
   * goes back to some time before the line it is in when the seek went back, and mutes exactly
   * inside the mute lines. A list without records changes nothing, not even a mute that is left from the
   * list before it.
   */
  method SeekInList(p: Player, lines: seq<Line>, amount: real, pts: real) returns (jump: Jump)
    requires p.Valid()
    modifies p
    ensures p.Valid() && Values(p.list) == Parse(lines)
    ensures var used := Accepted(lines);
      used == [] ==> p.edlMuted == old(p.edlMuted) && jump == Stay
    ensures var used := Accepted(lines);
      used != [] && !GoesBack(used, amount, pts) && HonestActions(used) ==>
        (p.edlMuted <==> InMuteLine(used, pts)) && p.MixerFollows()
    ensures var used := Accepted(lines);
      !GoesBack(used, amount, pts) ==>
        (jump.SeekBy? <==> exists i :: 0 <= i < |used| && SkipsAt(used, i, pts))
        && forall i :: 0 <= i < |used| && SkipsAt(used, i, pts) ==>
             jump.SeekBy? && pts + jump.seconds == used[i].stop
    ensures var used := Accepted(lines);
      GoesBack(used, amount, pts) ==>
        forall i :: 0 <= i < |used| && Touches(used[i], pts) ==>
          jump.SeekBy? && pts + jump.seconds == Beginning(used[i], pts) - old(p.backwardDelay)
  {
    hide Ordered, StopsAt, Values, Chain, InMuteLine, MutedAt, HonestActions, Records, Accepted, Inside, Touches,
      SkipsAt, JumpAt;
    NoneAccepted(lines);
    InsideExactly(lines, pts);
    SkipsExactly(lines, pts);
    MuteExactly(lines);
    p.LoadFile(lines);
    p.Sought(amount);
    jump := p.Update(true, pts);
  }

  // ---------------------------------------------------------------------------------
  // Runs in which every jump is carried out

  /** No two records begin within less than `step`. */
  predicate Apart(rs: seq<Record>, step: real) {
    forall k :: 0 < k < |rs| ==> rs[k].start - rs[k - 1].start >= step
  }

  /** A picture that is shown, and whether the list mutes it. */
  datatype Shown = Shown(time: real, muted: bool)

  /** The place in the list is behind all records that have begun by `last`, with their mute state. */
  predicate CaughtUp(rs: seq<Record>, v: View, last: real) {
    v.at == FirstAfter(rs, last) && v.muted == Parity(rs, v.at)
  }

  lemma ResetCatchesUp(rs: seq<Record>, pts: real)
    requires Ordered(rs)
    ensures CaughtUp(rs, Reset(rs, pts), pts)
  {
    MutedByPassed(rs, pts);
  }

  lemma {:induction false} FirstAfterUnique(rs: seq<Record>, pts: real, k: nat)
    requires k <= |rs| && Ordered(rs)
    requires k < |rs| ==> rs[k].start > pts
    requires k > 0 ==> rs[k - 1].start <= pts
    ensures FirstAfter(rs, pts) == k
  {
    var f := FirstAfter(rs, pts);
    assert forall i, j :: 0 <= i < j < |rs| ==> rs[i].start < rs[j].start;
  }

  /** At most one record begins in a short step, and it is passed. */
  lemma AdvanceCatchesUp(rs: seq<Record>, v: View, last: real, now: real, step: real)
    requires Ordered(rs) && CaughtUp(rs, v, last) && last <= now <= last + step && Apart(rs, step)
    ensures CaughtUp(rs, Advance(rs, v, now), now)
  {
    var w := Advance(rs, v, now);
    if v.at < |rs| && now >= rs[v.at].start {
      ParityStep(rs, v.at);
      assert v.at + 1 < |rs| ==> rs[v.at + 1].start - rs[v.at].start >= step;
    }
    hide FirstAfter, Parity;
    FirstAfterParts(rs, last);
    FirstAfterUnique(rs, now, w.at);
  }

  lemma FirstAfterParts(rs: seq<Record>, pts: real)
    ensures var k := FirstAfter(rs, pts);
      (k <= |rs| && (k < |rs| ==> rs[k].start > pts) && (k > 0 ==> rs[k - 1].start <= pts))
  {
  }

  /** No used line cuts the time out. */
  predicate Uncut(used: seq<Line>, pts: real) { forall i :: 0 <= i < |used| ==> !CutsOut(used[i], pts) }

  /** A short step into a skip line is answered with its jump. */
  lemma StepIntoCut(lines: seq<Line>, at: nat, last: real, now: real, step: real)
    requires at == FirstAfter(Parse(lines), last) && last <= now <= last + step && Apart(Parse(lines), step)
    requires Uncut(Accepted(lines), last) && !Uncut(Accepted(lines), now)
    ensures JumpAt(Parse(lines), at, now) != Stay
  {
    var used, rs := Accepted(lines), Parse(lines);
    AcceptedOrdered(lines);
    RecordsOrdered(used);
    hide Records, Accepted, OrderedLines;
    var i :| 0 <= i < |used| && CutsOut(used[i], now);
    assert !CutsOut(used[i], last);
    hide ToShort, Ordered, Apart, Uncut, FirstAfter;
    var k := RecordOf(used, i, now);
    StepToRecord(rs, at, k, last, now, step);
  }

  lemma StepToRecord(rs: seq<Record>, at: nat, k: nat, last: real, now: real, step: real)
    requires Ordered(rs) && Apart(rs, step) && at == FirstAfter(rs, last) && last <= now <= last + step
    requires k < |rs| && last < rs[k].start <= now
    ensures at == k
  {
    FirstAfterParts(rs, last);
    ApartAll(rs, step);
    hide FirstAfter, Apart;
  }

  lemma ApartAll(rs: seq<Record>, step: real)
    requires Ordered(rs) && Apart(rs, step)
    ensures forall i, j :: 0 <= i < j < |rs| ==> rs[j].start - rs[i].start >= step && rs[j].start > rs[i].start
  {
    assert forall i, j :: 0 <= i < j < |rs| ==> rs[i].start < rs[j].start;
    forall i, j | 0 <= i < j < |rs| ensures rs[j].start - rs[i].start >= step {
      assert rs[i + 1].start - rs[i].start >= step;
    }
  }

  lemma CutJumps(lines: seq<Line>, i: nat, pts: real)
    requires i < |Accepted(lines)| && CutsOut(Accepted(lines)[i], pts)
    ensures ResetJump(lines, pts).SeekBy?
  {
    assert SkipsAt(Accepted(lines), i, pts);
    hide ResetJump, Accepted;
    SkipLineJumps(lines, i, pts);
  }

  /** What a reset leaves alone is not cut out. */
  lemma StayUncut(lines: seq<Line>, pts: real)
    requires ResetJump(lines, pts) == Stay
    ensures Uncut(Accepted(lines), pts)
  {
    hide ResetJump, Accepted, CutsOut;
    var used := Accepted(lines);
    forall i | 0 <= i < |used| ensures !CutsOut(used[i], pts) {
      if CutsOut(used[i], pts) { CutJumps(lines, i, pts); }
    }
  }

  lemma MutedNow(lines: seq<Line>, v: View, pts: real)
    requires CaughtUp(Parse(lines), v, pts) && HonestActions(Accepted(lines))
    ensures v.muted <==> InMuteLine(Accepted(lines), pts)
  {
    hide Accepted, Records, Parity, FirstAfter, InMuteLine, HonestActions, MutedAt;
    ParseOrdered(lines);
    MutedByPassed(Parse(lines), pts);
    MuteExactly(lines);
  }

  predicate EndsAt(l: Line, pts: real, stop: real) { IsSkip(l) && l.start <= pts && l.stop == stop }

  /** A jump that leads from `pts` to the end of a skip line that has begun. */
  predicate LeadsToEnd(used: seq<Line>, pts: real, jump: Jump) {
    jump.SeekBy? && exists i :: 0 <= i < |used| && EndsAt(used[i], pts, pts + jump.seconds)
  }

  /** Wherever the list is followed, a jump leads to the end of a skip line, back if that has been left behind. */
  lemma JumpsLead(lines: seq<Line>, at: nat, pts: real)
    requires JumpAt(Parse(lines), at, pts) != Stay
    ensures LeadsToEnd(Accepted(lines), pts, JumpAt(Parse(lines), at, pts))
  {
    var used, rs := Accepted(lines), Parse(lines);
    AcceptedOrdered(lines);
    RecordsOrdered(used);
    hide Records, Accepted, OrderedLines, ToShort;
    assert rs[at].start <= rs[at].stop;
    var i := LineOf(used, at, rs[at].start);
  }

  /** One update of a run: after a reset, or a short step behind a picture that was shown. */
  method WatchOne(p: Player, t: real, ghost last: real, ghost step: real, ghost lines: seq<Line>) returns (jump: Jump)
    requires p.Valid() && Values(p.list) == Parse(lines) && p.list != []
    requires p.needsReset || (CaughtUp(Parse(lines), View(p.at, p.edlMuted), last) && last <= t <= last + step
      && Apart(Parse(lines), step) && Uncut(Accepted(lines), last))
    modifies p
    ensures p.Valid() && p.list == old(p.list) && Values(p.list) == Parse(lines) && !p.needsReset
    ensures jump == Stay ==> Uncut(Accepted(lines), t) && CaughtUp(Parse(lines), View(p.at, p.edlMuted), t)
    ensures jump != Stay && !old(p.JumpsBack(t)) ==> LeadsToEnd(Accepted(lines), t, jump)
  {
    hide LeadsToEnd, Ordered, StopsAt, Values, Chain, Records, Accepted, Inside, Uncut, JumpAt, CaughtUp, Apart, Reset,
      Advance, FirstAfter;
    ghost var rs := Parse(lines);
    ParseOrdered(lines);
    ResetCatchesUp(rs, t);
    if !p.needsReset {
      AdvanceCatchesUp(rs, View(p.at, p.edlMuted), last, t, step);
      CaughtUpAt(rs, View(p.at, p.edlMuted), last);
      if !Uncut(Accepted(lines), t) {
        StepIntoCut(lines, p.at, last, t, step);
      }
    }
    ghost var at := if p.needsReset then StopsAt(rs, t) else p.at;
    if JumpAt(rs, at, t) != Stay {
      JumpsLead(lines, at, t);
    } else if p.needsReset {
      StayUncut(lines, t);
    }
    jump := p.Update(true, t);
  }

  lemma CaughtUpAt(rs: seq<Record>, v: View, last: real)
    requires CaughtUp(rs, v, last)
    ensures v.at == FirstAfter(rs, last)
  {
  }

  /**
   * A list is followed from `from` on, after a seek. Each jump is carried out, as a seek that lands where
   * it asked for; otherwise playback goes on by steps in which no two records begin. No picture is
   * shown that a skip line cuts out, and the pictures shown are muted exactly in the mute lines.
   */
  method Watch(p: Player, from: real, steps: seq<real>, ghost lines: seq<Line>) returns (shown: seq<Shown>)
    requires p.Valid() && Values(p.list) == Parse(lines) && p.list != [] && p.needsReset
    requires forall i :: 0 <= i < |steps| ==> steps[i] >= 0.0 && Apart(Parse(lines), steps[i])
    modifies p
    ensures p.Valid() && Values(p.list) == Parse(lines)
    ensures forall i :: 0 <= i < |shown| ==> Uncut(Accepted(lines), shown[i].time)
    ensures HonestActions(Accepted(lines)) ==>
      forall i :: 0 <= i < |shown| ==> (shown[i].muted <==> InMuteLine(Accepted(lines), shown[i].time))
  {
    hide Values, Records, Accepted, Uncut, CaughtUp, Apart, HonestActions, InMuteLine, Player.Valid;
    shown := [];
    var t := from;
    ghost var last, step := t, 0.0;
    for i := 0 to |steps|
      invariant p.Valid() && Values(p.list) == Parse(lines) && p.list != []
      invariant p.needsReset || (CaughtUp(Parse(lines), View(p.at, p.edlMuted), last) && last <= t <= last + step
        && Apart(Parse(lines), step) && Uncut(Accepted(lines), last))
      invariant forall i :: 0 <= i < |shown| ==> Uncut(Accepted(lines), shown[i].time)
      invariant HonestActions(Accepted(lines)) ==>
        forall i :: 0 <= i < |shown| ==> (shown[i].muted <==> InMuteLine(Accepted(lines), shown[i].time))
    {
      var jump := WatchOne(p, t, last, step, lines);
      match jump {
        case SeekBy(seconds) =>
          p.Sought(seconds);
          t := t + seconds;
        case Stay =>
          if HonestActions(Accepted(lines)) { MutedNow(lines, View(p.at, p.edlMuted), t); }
          shown := shown + [Shown(t, p.edlMuted)];
          last, step := t, steps[i];
          t := t + steps[i];
      }
    }
  }

  /** All lines are used exactly when they are well-formed, of some length, and follow each other. */
  lemma {:induction false} AcceptsAll(lines: seq<Line>)
    ensures Accepted(lines) == lines <==> OrderedLines(lines)
    ensures |Accepted(lines)| <= |lines|
  {
    if lines != [] {
      var n := |lines| - 1;
      AcceptsAll(lines[..n]);
      if OrderedLines(lines) {
        assert n > 0 ==> lines[n - 1].stop < lines[n].start;
      }
      if Accepted(lines) == lines {
        AcceptedOrdered(lines);
      }
    }
  }

  /** Every record knows its own length. */
  lemma {:induction false} Lengths(used: seq<Line>)
    requires OrderedLines(used)
    ensures forall k :: 0 <= k < |Records(used)| ==>
      Records(used)[k].length == Records(used)[k].stop - Records(used)[k].start
  {
    if used != [] {
      Lengths(used[..|used| - 1]);
      RecordsStep(used);
      hide Records;
    }
  }
}
