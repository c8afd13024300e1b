/** Keeping the encoded frame rate: duplicating and dropping frames in the encoder's main loop (mencoder.c). */
module FrameRate {
  import opened Basics

  /** What one turn of the loop is fed with. */
  datatype Frame = Frame(
    time: real,             // how long the source says the frame lasts
    blitted: bool,          // whether the filters delivered a picture
    sync: Maybe<Clocks>,    // present when there is sound
    sourceFrameTime: real)  // the source's nominal frame time

  /** Presentation times of both streams in the source, and the times written so far. */
  datatype Clocks = Clocks(audioPts: real, videoPts: real, audioMuxed: real, videoMuxed: real)

  function Floor(x: real, period: real): int
    requires period > 0.0
  {
    (x / period).Floor
  }

  lemma FloorBound(x: real, period: real, n: int)
    requires period > 0.0
    ensures x >= n as real * period <==> Floor(x, period) >= n
  {
    if x >= n as real * period {
      QuotientAtLeast(x, period, n as real);
    } else if x / period >= n as real {
      ProductAtLeast(x, period, n as real);
    }
  }

  lemma QuotientAtLeast(x: real, period: real, y: real)
    requires period > 0.0 && x >= y * period
    ensures x / period >= y
  {
    assert (x / period) * period == x;
    if x / period < y {
      Smaller(x / period, y, period);
    }
  }

  lemma ProductAtLeast(x: real, period: real, y: real)
    requires period > 0.0 && x / period >= y
    ensures x >= y * period
  {
    assert (x / period) * period == x;
    if x / period > y {
      Smaller(y, x / period, period);
    }
  }

  lemma Smaller(a: real, b: real, period: real)
    requires a < b && period > 0.0
    ensures a * period < b * period
  {
    assert (b - a) * period > 0.0;
  }

  /** Frames to skip, or with a negative sign to repeat, for the timer's sake. */
  function TimerSkips(timer: real, period: real, limit: int): (k: int)
    requires period > 0.0
    ensures k <= 1
  {
    if timer >= period then if limit != 0 then 1 else 0
    else if timer <= -period then
      var n := Floor(-timer, period);
      -(if limit < 0 || n < limit then n else limit)
    else 0
  }

  /** Frames to skip or repeat for the sake of the presentation times, once the timer had its way. */
  function PtsSkips(pts: real, period: real, timerSkips: int): (m: int)
    requires period > 0.0
    ensures timerSkips <= 1 ==> timerSkips + m <= 1
  {
    if pts <= -period then
      var over := Floor(-pts, period) - 1;
      if timerSkips == 1 then -(if over > 1 then over else 1) else -over
    else if timerSkips < 0 && pts >= period then 1
    else if timerSkips == 0 && pts >= 2.0 * period then 1
    else 0
  }

  lemma Multiple(period: real, n: int)
    ensures (n + 1) as real * period == n as real * period + period
    ensures (n - 1) as real * period == n as real * period - period
  {
  }

  /** What becomes of a frame: skipped (1), kept (0) or repeated so many times (negative). */
  function Decision(timer: real, pts: real, period: real, limit: int): (s: int)
    requires period > 0.0
    ensures s <= 1
  {
    var k := TimerSkips(timer, period, limit);
    k + PtsSkips(pts, period, k)
  }

  /** The value `n` periods above `x`. */
  function Up(x: real, period: real, n: int): real { x + n as real * period }

  lemma UpOne(x: real, period: real, n: int)
    ensures Up(x, period, n + 1) == Up(x, period, n) + period
    ensures Up(x, period, n - 1) == Up(x, period, n) - period
    ensures Up(x, period, 0) == x
  {
    Multiple(period, n);
  }

  lemma BothDown(x: real, y: real, period: real, k: int, s: int)
    ensures Up(x, period, -k) + Up(y, period, k - s) == x + y - s as real * period
    ensures (1 - s) as real * period == period - s as real * period
  {
    assert (-k) as real + (k - s) as real == -(s as real);
    assert (-k) as real * period + (k - s) as real * period == ((-k) as real + (k - s) as real) * period;
  }

  /** When a value is still one, or two, periods below zero. */
  lemma UpBelow(x: real, period: real, n: int)
    requires period > 0.0
    ensures Up(x, period, n) <= -period <==> n + 1 <= Floor(-x, period)
    ensures Up(x, period, n) <= -2.0 * period <==> n + 2 <= Floor(-x, period)
  {
    FloorBound(-x, period, n + 1);
    FloorBound(-x, period, n + 2);
    Multiple(period, n);
    Multiple(period, n + 1);
  }

  lemma KeptPts(pts: real, period: real, k: int)
    requires period > 0.0
    ensures Up(pts, period, 0) == pts
    ensures -period < pts < period ==> PtsSkips(pts, period, k) == 0
  {
  }

  /** Without a limit both corrections are brought near zero from below, whatever they were. */
  lemma CorrectionsBounded(timer: real, pts: real, period: real, limit: int)
    requires period > 0.0 && limit < 0
    ensures var k := TimerSkips(timer, period, limit);
      (Up(timer, period, -k) > -period && Up(pts, period, -PtsSkips(pts, period, k)) > -2.0 * period)
  {
    hide Up, Floor;
    var k := TimerSkips(timer, period, limit);
    UpOne(timer, period, 0);
    UpOne(pts, period, 0);
    UpBelow(timer, period, -k);
    UpBelow(timer, period, 0);
    UpBelow(pts, period, -PtsSkips(pts, period, k));
    UpBelow(pts, period, 0);
  }

  /**
   * With a limit of zero the timer never skips or repeats a frame; the presentation times still do,
   * once they are off by two frames.
   */
  lemma ZeroLimit(timer: real, pts: real, period: real)
    requires period > 0.0
    ensures TimerSkips(timer, period, 0) == 0
    ensures PtsSkips(pts, period, 0) == 0 <==> -2.0 * period < pts < 2.0 * period
  {
    var t := Floor(-timer, period);
    FloorBound(-timer, period, 1);
    FloorBound(-pts, period, 2);
    FloorBound(-pts, period, 1);
  }

  function Clamp(x: real, max: real): real {
    if x < -max then -max else if x > max then max else x
  }

  /** One step of `total` towards `drift`: a tenth of the way, by no more than `max`. */
  function Toward(total: real, drift: real, max: real): real { total + Clamp(0.1 * (drift - total), max) }

  function TowardAll(total: real, drift: real, max: real, n: nat): real {
    if n == 0 then total else Toward(TowardAll(total, drift, max, n - 1), drift, max)
  }

  function Distance(a: real, b: real): real { if a < b then b - a else a - b }

  /** What is left of a distance after `n` steps of a tenth. */
  function Left(n: nat): real { if n == 0 then 1.0 else 0.9 * Left(n - 1) }

  /** A step never goes past the drift; far away it covers `max`, near by a tenth of the distance. */
  lemma TowardStep(total: real, drift: real, max: real)
    requires max >= 0.0
    ensures var next, d := Toward(total, drift, max), Distance(total, drift);
      (Distance(next, drift) == d - (if d > 10.0 * max then max else 0.1 * d)
      && (total <= drift ==> total <= next <= drift) && (total >= drift ==> total >= next >= drift))
  {
  }

  /**
   * Steps towards a steady drift approach it from one side. Within ten corrections the distance
   * shrinks by a tenth each time; further away it shrinks by the whole correction.
   */
  lemma {:induction false} DriftFollowed(total: real, drift: real, max: real, n: nat)
    requires max >= 0.0
    ensures var d, left := Distance(total, drift), Distance(TowardAll(total, drift, max, n), drift);
      ((d <= 10.0 * max ==> left == Left(n) * d)
      && (left > 10.0 * max ==> left == d - n as real * max)
      && left <= d)
    ensures total <= drift ==> total <= TowardAll(total, drift, max, n) <= drift
    ensures total >= drift ==> total >= TowardAll(total, drift, max, n) >= drift
  {
    hide Toward;
    if n > 0 {
      DriftFollowed(total, drift, max, n - 1);
      TowardStep(TowardAll(total, drift, max, n - 1), drift, max);
      LeftStep(n, Distance(total, drift), max);
    }
  }

  lemma LeftStep(n: nat, d: real, max: real)
    requires n > 0
    ensures Left(n) * d == 0.9 * (Left(n - 1) * d) && n as real * max == (n - 1) as real * max + max
  {
  }

  /** The encoder's accounts. */
  class Encoder {
    const period: real
    const skipLimit: int
    const encodes: bool          // false when frames are only copied
    const playbackSpeed: real
    const audioDelay: real
    const defaultMaxCorrection: real
    var timerCorr: real
    var ptsCorr: real
    var cTotal: real
    var maxCorrection: real
    var skipFlag: int
    var written: nat
    var duplicated: nat
    var skipped: nat
    var bad: nat
    var samples: nat
    ghost var inputTime: real
    ghost var lost: nat          // neither written nor skipped on purpose

    constructor (period: real, skipLimit: int, encodes: bool, playbackSpeed: real, audioDelay: real, defaultMax: real)
      requires period > 0.0 && playbackSpeed > 0.0
      ensures Valid() && inputTime == 0.0 && samples == 0 && ptsCorr == cTotal == timerCorr == 0.0
      ensures this.period == period && this.playbackSpeed == playbackSpeed && this.skipLimit == skipLimit
    {
      this.period, this.skipLimit, this.encodes := period, skipLimit, encodes;
      this.playbackSpeed, this.audioDelay, defaultMaxCorrection := playbackSpeed, audioDelay, defaultMax;
      timerCorr, ptsCorr, cTotal, maxCorrection, skipFlag := 0.0, 0.0, 0.0, 0.0, 0;
      written, duplicated, skipped, bad, samples, inputTime, lost := 0, 0, 0, 0, 0, 0.0, 0;
    }

    /** Conservation: the time written is the time read, but for what the corrections still hold. */
    ghost predicate Balanced(owed: int)
      reads this
    {
      written as real * period + owed as real * period == inputTime + timerCorr + ptsCorr - cTotal
    }

    ghost predicate Valid()
      reads this
    {
      && period > 0.0 && playbackSpeed > 0.0 && skipFlag == 0
      && Balanced(0)
      && written + skipped + lost == samples + duplicated
    }

    lemma BalancedIs()
      requires Balanced(0)
      ensures written as real * period == inputTime + timerCorr + ptsCorr - cTotal
    {
    }

    /** How many frames this one is to become; what is skipped or repeated leaves the corrections. */
    method CheckFrame()
      requires period > 0.0 && skipFlag == 0
      modifies this`timerCorr, this`ptsCorr, this`skipFlag
      ensures var k := TimerSkips(old(timerCorr), period, skipLimit);
        (timerCorr == Up(old(timerCorr), period, -k)
        && skipFlag == k + PtsSkips(old(ptsCorr), period, k)
        && ptsCorr == Up(old(ptsCorr), period, k - skipFlag))
      ensures skipFlag <= 1
      ensures skipLimit < 0 ==> timerCorr > -period
      ensures skipLimit != 0 && old(timerCorr) < 2.0 * period ==> timerCorr < period
      ensures ptsCorr > -2.0 * period
      ensures old(ptsCorr) < 3.0 * period && (skipLimit == 0 || old(timerCorr) < period) ==> ptsCorr < 2.0 * period
      ensures skipFlag == Decision(old(timerCorr), old(ptsCorr), period, skipLimit)
      ensures -period < old(ptsCorr) < period ==> ptsCorr == old(ptsCorr)
      ensures old(Balanced(1)) ==> Balanced(1 - skipFlag)
    {
      hide Up, Floor, TimerSkips, PtsSkips, Decision;
      Decide();
      BothDown(old(timerCorr), old(ptsCorr), period, old(TimerSkips(timerCorr, period, skipLimit)), skipFlag);
    }

    /** The two halves of it, without the account. */
    method Decide()
      requires period > 0.0 && skipFlag == 0
      modifies this`timerCorr, this`ptsCorr, this`skipFlag
      ensures var k := TimerSkips(old(timerCorr), period, skipLimit);
        (timerCorr == Up(old(timerCorr), period, -k)
        && skipFlag == k + PtsSkips(old(ptsCorr), period, k)
        && ptsCorr == Up(old(ptsCorr), period, k - skipFlag))
      ensures skipFlag <= 1
      ensures skipLimit < 0 ==> timerCorr > -period
      ensures skipLimit != 0 && old(timerCorr) < 2.0 * period ==> timerCorr < period
      ensures ptsCorr > -2.0 * period
      ensures old(ptsCorr) < 3.0 * period && (skipLimit == 0 || old(timerCorr) < period) ==> ptsCorr < 2.0 * period
      ensures skipFlag == Decision(old(timerCorr), old(ptsCorr), period, skipLimit)
      ensures -period < old(ptsCorr) < period ==> ptsCorr == old(ptsCorr)
    {
      hide Up, Floor, TimerSkips, PtsSkips;
      KeptPts(ptsCorr, period, TimerSkips(timerCorr, period, skipLimit));
      CheckTimer();
      CheckPts();
      if skipLimit < 0 {
        CorrectionsBounded(old(timerCorr), old(ptsCorr), period, skipLimit);
      }
    }

    method CheckTimer()
      requires period > 0.0 && skipFlag == 0
      modifies this`timerCorr, this`skipFlag
      ensures skipFlag == TimerSkips(old(timerCorr), period, skipLimit)
      ensures timerCorr == Up(old(timerCorr), period, -skipFlag)
      ensures skipLimit != 0 && old(timerCorr) < 2.0 * period ==> timerCorr < period
      ensures skipFlag > 0 <==> skipLimit != 0 && old(timerCorr) >= period
      ensures timerCorr <= -period ==> skipLimit >= 0 && -skipFlag == skipLimit
      ensures skipLimit >= 0 ==> -skipFlag <= skipLimit
    {
      hide Up, Floor;
      ghost var before := timerCorr;
      UpOne(before, period, 0);
      UpBelow(before, period, 0);
      if timerCorr >= period && (skipLimit < 0 || skipFlag < skipLimit) {
        timerCorr := timerCorr - period;
        skipFlag := skipFlag + 1;
      }
      ghost var n := Floor(-before, period);
      while timerCorr <= -period && (skipLimit < 0 || -skipFlag < skipLimit)
        invariant timerCorr == Up(before, period, -skipFlag)
        invariant before > -period ==> skipFlag == TimerSkips(before, period, skipLimit) && timerCorr > -period
        invariant before <= -period ==> -n <= skipFlag <= 0
        invariant skipLimit >= 0 ==> -skipFlag <= skipLimit
        invariant skipFlag > 0 <==> skipLimit != 0 && before >= period
        invariant skipLimit != 0 && before < 2.0 * period ==> timerCorr < period
        decreases n + skipFlag
      {
        UpOne(before, period, -skipFlag);
        UpBelow(before, period, -skipFlag);
        timerCorr := timerCorr + period;
        skipFlag := skipFlag - 1;
        UpBelow(before, period, -skipFlag);
      }
      UpBelow(before, period, -skipFlag);
    }

    method CheckPts()
      requires period > 0.0 && skipFlag <= 1
      modifies this`ptsCorr, this`skipFlag
      ensures skipFlag == old(skipFlag) + PtsSkips(old(ptsCorr), period, old(skipFlag))
      ensures ptsCorr == Up(old(ptsCorr), period, old(skipFlag) - skipFlag)
      ensures ptsCorr > -2.0 * period && (skipFlag > 0 ==> ptsCorr > -period)
      ensures old(skipFlag) <= 0 && old(ptsCorr) < 3.0 * period ==> ptsCorr < 2.0 * period
      ensures old(skipFlag) < 0 && old(ptsCorr) < 2.0 * period ==> ptsCorr < period
      ensures old(ptsCorr) >= 2.0 * period ==> skipFlag == old(skipFlag) + if old(skipFlag) > 0 then 0 else 1
    {
      hide Up, Floor;
      ghost var before, k := ptsCorr, skipFlag;
      ghost var n := Floor(-before, period);
      UpOne(before, period, 0);
      UpBelow(before, period, 0);
      while (ptsCorr <= -period && skipFlag > 0) || ptsCorr <= -2.0 * period
        invariant skipFlag <= k && ptsCorr == Up(before, period, k - skipFlag)
        invariant skipFlag < k ==> k - skipFlag <= n
        invariant skipFlag < (if k == 1 then 0 else k) ==> k - skipFlag <= n - 1
        invariant before < 2.0 * period ==> ptsCorr < 2.0 * period
        invariant before > -period ==> skipFlag == k && ptsCorr == before
        invariant before <= -period ==> ptsCorr < period
        decreases n - (k - skipFlag)
      {
        UpOne(before, period, k - skipFlag);
        UpBelow(before, period, k - skipFlag);
        ptsCorr := ptsCorr + period;
        skipFlag := skipFlag - 1;
      }
      UpOne(before, period, k - skipFlag);
      UpBelow(before, period, k - skipFlag);
      if (ptsCorr >= period && skipFlag < 0) || ptsCorr >= 2.0 * period {
        if skipFlag <= 0 {
          ptsCorr := ptsCorr - period;
          skipFlag := skipFlag + 1;
        }
      }
    }

    lemma Owing(owed: int)
      ensures (written + 1) as real * period + (owed - 1) as real * period
        == written as real * period + owed as real * period
    {
      Multiple(period, written);
      Multiple(period, owed);
    }

    /** One picture written, by the muxer or by the encoding filter. */
    method WriteFrame(ghost owed: int)
      requires Balanced(owed)
      modifies this`written
      ensures written == old(written) + 1 && Balanced(owed - 1)
    {
      Owing(owed);
      written := written + 1;
    }

    /** The picture itself: written unless it is to be skipped or never came. */
    method OutputFrame(blitted: bool)
      requires Balanced(1 - skipFlag) && skipFlag <= 1
      modifies this`written, this`timerCorr, this`bad, this`lost
      ensures Balanced(if skipFlag > 0 then 0 else -skipFlag)
      ensures written == old(written) + if skipFlag <= 0 && (blitted || !encodes) then 1 else 0
      ensures bad == old(bad) + if encodes && !blitted then 1 else 0
      ensures lost == old(lost) + if skipFlag <= 0 && encodes && !blitted then 1 else 0
      ensures timerCorr == old(timerCorr) - (lost - old(lost)) as real * period
      ensures timerCorr == if lost == old(lost) then old(timerCorr) else old(timerCorr) - period
    {
      if !encodes {
        if skipFlag <= 0 {
          WriteFrame(1 - skipFlag);
        }
      } else {
        if blitted && skipFlag <= 0 {
          WriteFrame(1 - skipFlag);
        }
        if !blitted {
          bad := bad + 1;
          if skipFlag <= 0 {
            Multiple(period, 1 - skipFlag);
            timerCorr := timerCorr - period;
            lost := lost + 1;
          }
        }
      }
    }

    /** Repeats the picture, or counts it as skipped. */
    method Settle()
      requires skipFlag <= 1 && Balanced(if skipFlag > 0 then 0 else -skipFlag)
      modifies this`skipFlag, this`duplicated, this`written, this`skipped
      ensures skipFlag == 0 && Balanced(0)
      ensures duplicated == old(duplicated) + if old(skipFlag) < 0 then -old(skipFlag) else 0
      ensures skipped == old(skipped) + if old(skipFlag) > 0 then 1 else 0
      ensures written - duplicated == old(written - duplicated)
    {
      if skipFlag < 0 {
        while skipFlag < 0
          invariant old(skipFlag) <= skipFlag <= 0 && Balanced(-skipFlag)
          invariant duplicated == old(duplicated) + skipFlag - old(skipFlag) && skipped == old(skipped)
          invariant written - duplicated == old(written - duplicated)
        {
          duplicated := duplicated + 1;
          WriteFrame(-skipFlag);
          skipFlag := skipFlag + 1;
        }
      } else if skipFlag > 0 {
        skipped := skipped + 1;
        skipFlag := skipFlag - 1;
      }
    }

    /** What the sound adds, when the corrections are `owed` in all: a tenth of the delay, within bounds. */
    function Correction(c: Clocks, owed: real, max: real): real
      requires playbackSpeed > 0.0
    {
      var delay := (c.audioPts - c.videoPts - audioDelay) / playbackSpeed - (c.audioMuxed - (c.videoMuxed - owed));
      Clamp(0.1 * delay, max)
    }

    /** How far the sound in the source is ahead of the picture, as seen when both are written. */
    ghost function Drift(c: Clocks): real
      requires playbackSpeed > 0.0
      reads this`inputTime
    {
      (c.audioPts - c.videoPts - audioDelay) / playbackSpeed - c.audioMuxed + inputTime
    }

    /** When the muxer's clock shows what was written, the correction moves the total towards the drift. */
    lemma CorrectionIsToward(c: Clocks, max: real)
      requires Valid() && c.videoMuxed == written as real * period
      ensures cTotal + Correction(c, timerCorr + ptsCorr, max) == Toward(cTotal, Drift(c), max)
    {
      BalancedIs();
    }

    function NextMax(sourceFrameTime: real): real {
      (if defaultMaxCorrection >= 0.0 then defaultMaxCorrection else sourceFrameTime * 0.10) * playbackSpeed
    }

    /** Lets the video follow the sound, by no more than the allowed correction. */
    method FollowSound(c: Clocks, sourceFrameTime: real)
      requires Valid()
      modifies this`cTotal, this`ptsCorr, this`maxCorrection
      ensures Valid() && maxCorrection == NextMax(sourceFrameTime)
      ensures defaultMaxCorrection >= 0.0 ==> maxCorrection == defaultMaxCorrection * playbackSpeed
      ensures defaultMaxCorrection < 0.0 ==> 10.0 * maxCorrection == sourceFrameTime * playbackSpeed
      ensures ptsCorr - old(ptsCorr) == cTotal - old(cTotal)
        == Correction(c, old(timerCorr + ptsCorr), old(maxCorrection))
      ensures c.videoMuxed == written as real * period ==>
        cTotal == Toward(old(cTotal), Drift(c), old(maxCorrection))
    {
      hide Toward, Drift;
      if c.videoMuxed == written as real * period {
        CorrectionIsToward(c, maxCorrection);
      }
      ghost var x' := Correction(c, timerCorr + ptsCorr, maxCorrection);
      var delay := c.audioPts - c.videoPts;
      delay := delay - audioDelay;
      delay := delay / playbackSpeed;
      delay := delay - (c.audioMuxed - (c.videoMuxed - (timerCorr + ptsCorr)));
      var x := delay * 0.1;
      if x < -maxCorrection {
        x := -maxCorrection;
      } else if x > maxCorrection {
        x := maxCorrection;
      }
      assert x == x';
      hide Correction, Clamp;
      maxCorrection := if defaultMaxCorrection >= 0.0 then defaultMaxCorrection * playbackSpeed
        else sourceFrameTime * 0.10 * playbackSpeed;
      cTotal := cTotal + x;
      ptsCorr := ptsCorr + x;
    }

    /** The timer moves by what the frame lasts more than a frame of the output. */
    method ReadFrame(time: real)
      requires period > 0.0 && playbackSpeed > 0.0 && Balanced(0)
      modifies this`timerCorr, this`inputTime
      ensures inputTime == old(inputTime) + time / playbackSpeed
      ensures timerCorr == old(timerCorr) - (time / playbackSpeed - period)
      ensures time >= 0.0 ==> timerCorr <= old(timerCorr) + period
      ensures Balanced(1)
    {
      if time >= 0.0 { QuotientAtLeast(time, playbackSpeed, 0.0); }
      timerCorr := timerCorr - (time / playbackSpeed - period);
      inputTime := inputTime + time / playbackSpeed;
    }

    /** A frame is read, and written as often as decided. */
    method PassFrame(f: Frame)
      requires Valid()
      modifies this`timerCorr, this`ptsCorr, this`skipFlag, this`written, this`duplicated, this`skipped, this`bad,
        this`samples, this`inputTime, this`lost
      ensures Valid() && samples == old(samples) + 1
      ensures inputTime == old(inputTime) + f.time / playbackSpeed
      ensures var s := Decision(old(timerCorr) - (f.time / playbackSpeed - period), old(ptsCorr), period, skipLimit);
        (skipped == old(skipped) + (if s > 0 then 1 else 0)
        && duplicated == old(duplicated) + (if s < 0 then -s else 0)
        && lost == old(lost) + (if s <= 0 && encodes && !f.blitted then 1 else 0))
      ensures bad == old(bad) + (if encodes && !f.blitted then 1 else 0)
      ensures timerCorr == Up(old(timerCorr) - (f.time / playbackSpeed - period), period,
        -TimerSkips(old(timerCorr) - (f.time / playbackSpeed - period), period, skipLimit))
        - (lost - old(lost)) as real * period
      ensures skipLimit < 0 ==> timerCorr > if encodes && !f.blitted then -2.0 * period else -period
      ensures f.time >= 0.0 && skipLimit != 0 && old(timerCorr) < period ==> timerCorr < period
      ensures ptsCorr > -2.0 * period
      ensures -period < old(ptsCorr) < period ==> ptsCorr == old(ptsCorr)
    {
      hide TimerSkips, PtsSkips, Up, Balanced, Decision;
      ReadFrame(f.time);
      CheckFrame();
      OutputFrame(f.blitted);
      samples := samples + 1;
      Settle();
    }

    /** One turn of the main loop. */
    method Turn(f: Frame)
      requires Valid()
      modifies this
      ensures Valid() && samples == old(samples) + 1
      ensures inputTime == old(inputTime) + f.time / playbackSpeed
      ensures var s := Decision(old(timerCorr) - (f.time / playbackSpeed - period), old(ptsCorr), period, skipLimit);
        (skipped == old(skipped) + (if s > 0 then 1 else 0)
        && duplicated == old(duplicated) + (if s < 0 then -s else 0)
        && lost == old(lost) + (if s <= 0 && encodes && !f.blitted then 1 else 0))
      ensures bad == old(bad) + (if encodes && !f.blitted then 1 else 0)
      ensures timerCorr == Up(old(timerCorr) - (f.time / playbackSpeed - period), period,
        -TimerSkips(old(timerCorr) - (f.time / playbackSpeed - period), period, skipLimit))
        - (lost - old(lost)) as real * period
      ensures var owed := timerCorr + ptsCorr - (cTotal - old(cTotal));
        (f.sync.Just? ==> cTotal - old(cTotal) == Correction(f.sync.value, owed, old(maxCorrection)))
      ensures f.sync.Just? && f.sync.value.videoMuxed == written as real * period ==>
        cTotal == Toward(old(cTotal), Drift(f.sync.value), old(maxCorrection))
      ensures maxCorrection == if f.sync.Just? then NextMax(f.sourceFrameTime) else old(maxCorrection)
      ensures skipLimit < 0 ==> timerCorr > if encodes && !f.blitted then -2.0 * period else -period
      ensures f.time >= 0.0 && skipLimit != 0 && old(timerCorr) < period ==> timerCorr < period
      ensures ptsCorr - (cTotal - old(cTotal)) > -2.0 * period
      ensures f.sync.Nothing? ==> cTotal == old(cTotal)
      ensures f.sync.Nothing? && -period < old(ptsCorr) < period ==> ptsCorr == old(ptsCorr)
    {
      hide TimerSkips, PtsSkips, Up, Valid, Balanced, Decision, Correction, NextMax, Drift, Toward;
      PassFrame(f);
      if f.sync.Just? {
        FollowSound(f.sync.value, f.sourceFrameTime);
      }
    }
  }

  function TotalTime(frames: seq<Frame>, speed: real): real
    requires speed > 0.0
  {
    if frames == [] then 0.0 else TotalTime(frames[..|frames| - 1], speed) + frames[|frames| - 1].time / speed
  }

  lemma TotalTimeNext(frames: seq<Frame>, i: nat, speed: real)
    requires i < |frames| && speed > 0.0
    ensures TotalTime(frames[..i + 1], speed) == TotalTime(frames[..i], speed) + frames[i].time / speed
  {
    assert frames[..i + 1][..i] == frames[..i];
  }

  predicate Forward(frames: seq<Frame>) { forall i :: 0 <= i < |frames| ==> frames[i].time >= 0.0 }

  predicate Silent(frames: seq<Frame>) { forall i :: 0 <= i < |frames| ==> frames[i].sync.Nothing? }

  /**
   * A whole run, from the first frame to the last. The time written is the time read but for the
   * corrections. Without a limit it never falls two frames behind them; unless the limit is 0 it is
   * never a frame ahead.
   */
  method Encode(e: Encoder, frames: seq<Frame>)
    requires e.Valid() && e.inputTime == 0.0 && e.samples == 0
    modifies e
    ensures e.Valid() && e.samples == |frames|
    ensures e.written as real * e.period == TotalTime(frames, e.playbackSpeed) + e.timerCorr + e.ptsCorr - e.cTotal
    ensures e.written + e.skipped + e.lost == |frames| + e.duplicated
    ensures e.skipLimit < 0 && frames != [] ==>
      e.written as real * e.period > TotalTime(frames, e.playbackSpeed) + e.ptsCorr - e.cTotal - 2.0 * e.period
    ensures e.skipLimit != 0 && Forward(frames) && old(e.timerCorr) < e.period ==>
      e.written as real * e.period < TotalTime(frames, e.playbackSpeed) + e.ptsCorr - e.cTotal + e.period
    ensures Silent(frames) && e.skipLimit < 0 && old(e.ptsCorr == e.cTotal == 0.0) && frames != [] ==>
      e.written as real * e.period > TotalTime(frames, e.playbackSpeed) - 2.0 * e.period
  {
    hide Decision, Encoder.Balanced, Encoder.Correction, Encoder.Drift, Toward;
    for i := 0 to |frames|
      invariant e.Valid() && e.samples == i
      invariant e.inputTime == TotalTime(frames[..i], e.playbackSpeed)
      invariant Silent(frames) && old(e.ptsCorr == e.cTotal == 0.0) ==> e.ptsCorr == e.cTotal == 0.0
      invariant e.skipLimit != 0 && Forward(frames) && old(e.timerCorr) < e.period ==> e.timerCorr < e.period
      invariant e.skipLimit < 0 && i > 0 ==> e.timerCorr > -2.0 * e.period
    {
      TotalTimeNext(frames, i, e.playbackSpeed);
      e.Turn(frames[i]);
    }
    assert frames[..|frames|] == frames;
    e.BalancedIs();
  }
}
