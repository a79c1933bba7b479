/**
 The epoch clock of x/ratelimit.  A clock starts at the first block at or after
 its start time; from then on it moves by at most one epoch per block, so after
 a stall it catches up block by block.
 */
module EpochClock {

  /** Times and durations are nanoseconds. */
  datatype EpochInfo = EpochInfo(
    identifier: string,
    startTime: int,
    duration: int,
    currentEpoch: int,
    currentEpochStartTime: int,
    epochCountingStarted: bool,
    currentEpochStartHeight: int)

  /** What one block does to one clock; `NotYet` ends the whole iteration. */
  datatype Tick = NotYet | Idle | Starts(next: EpochInfo) | Ends(next: EpochInfo)

  function TickAt(e: EpochInfo, now: int, height: int): Tick {
    if now < e.startTime then NotYet
    else if !e.epochCountingStarted then
      Starts(e.(currentEpochStartHeight := height,
                epochCountingStarted := true,
                currentEpoch := 1,
                currentEpochStartTime := e.startTime))
    else if now > e.currentEpochStartTime + e.duration then
      Ends(e.(currentEpochStartHeight := height,
              currentEpoch := e.currentEpoch + 1,
              currentEpochStartTime := e.currentEpochStartTime + e.duration))
    else Idle
  }

  function After(e: EpochInfo, now: int, height: int): EpochInfo {
    match TickAt(e, now, height)
    case NotYet => e
    case Idle => e
    case Starts(next) => next
    case Ends(next) => next
  }

  /** A block that starts an epoch stamps the clock with its height; any other leaves the
      clock as it was. */
  lemma TickStamps(e: EpochInfo, now: int, height: int)
    ensures var next := After(e, now, height);
            && next.identifier == e.identifier && next.startTime == e.startTime && next.duration == e.duration
            && (next.currentEpoch != e.currentEpoch || next.epochCountingStarted != e.epochCountingStarted ==>
                  next.currentEpochStartHeight == height)
            && (next.currentEpoch == e.currentEpoch && next.epochCountingStarted == e.epochCountingStarted ==>
                  next == e)
  {
  }

  /** EpochInfo.Validate: the duration may be anything but zero. */
  predicate ValidEpoch(e: EpochInfo) {
    e.identifier != "" && e.duration != 0 && e.currentEpoch >= 0 && e.currentEpochStartHeight >= 0
  }

  /** A started clock shows the number of whole durations since its start. */
  predicate OnSchedule(e: EpochInfo, now: int) {
    e.epochCountingStarted ==>
      && e.currentEpoch >= 1
      && e.currentEpochStartTime == e.startTime + (e.currentEpoch - 1) * e.duration
      && e.currentEpochStartTime <= now
  }

  /** Blocks keep a clock on its schedule and move it by at most one epoch. */
  lemma TickKeepsSchedule(e: EpochInfo, before: int, now: int, height: int)
    requires OnSchedule(e, before) && before <= now
    ensures var next := After(e, now, height);
            && OnSchedule(next, now)
            && next.startTime == e.startTime && next.duration == e.duration
            && (e.epochCountingStarted ==>
                  next.epochCountingStarted && e.currentEpoch <= next.currentEpoch <= e.currentEpoch + 1)
  {
    NextStart(e.currentEpoch, e.duration);
  }

  lemma NextStart(n: int, d: int)
    ensures (n + 1 - 1) * d == (n - 1) * d + d && (1 - 1) * d == 0
  {
  }

  /** Several blocks at one time, as when a stalled chain catches up. */
  function Stalled(e: EpochInfo, now: int, heights: seq<int>): EpochInfo
    decreases heights
  {
    if heights == [] then e
    else Stalled(After(e, now, heights[0]), now, heights[1..])
  }

  /** The epoch in which a time falls: intervals are open at the start and closed
      at the end, and the first one also takes its own start. */
  function EpochOf(e: EpochInfo, now: int): int
    requires e.duration > 0 && now >= e.startTime
  {
    var rounded := (now - e.startTime + e.duration - 1) / e.duration;
    if rounded < 1 then 1 else rounded
  }

  /** A clock has to move exactly while it shows an epoch before the right one. */
  lemma MovesIffBehind(e: EpochInfo, now: int)
    requires e.duration > 0 && now >= e.startTime
    requires e.epochCountingStarted && OnSchedule(e, now)
    ensures now > e.currentEpochStartTime + e.duration <==> e.currentEpoch < EpochOf(e, now)
  {
    var d, n, gap := e.duration, e.currentEpoch, now - e.startTime;
    var rounded := (gap + d - 1) / d;
    NextStart(n, d);
    assert d * rounded <= gap + d - 1 < d * rounded + d;
    if n < rounded {
      AtLeast(d, n + 1, rounded);
    } else {
      AtLeast(d, rounded, n);
    }
  }

  lemma AtLeast(d: int, x: int, y: int)
    requires d > 0 && x <= y
    ensures d * x <= d * y && d * (x + 1) == d * x + d
  {
  }

  /** A started clock moves one epoch per block until it shows the right one, and
      stays there. */
  lemma {:induction false} CatchUpFrom(e: EpochInfo, now: int, heights: seq<int>)
    requires e.duration > 0 && now >= e.startTime
    requires e.epochCountingStarted && OnSchedule(e, now)
    ensures Stalled(e, now, heights).currentEpoch
            == var target := EpochOf(e, now);
               if e.currentEpoch >= target then e.currentEpoch
               else if e.currentEpoch + |heights| <= target then e.currentEpoch + |heights|
               else target
    decreases heights
  {
    if heights != [] {
      var next := After(e, now, heights[0]);
      MovesIffBehind(e, now);
      TickKeepsSchedule(e, now, now, heights[0]);
      CatchUpFrom(next, now, heights[1..]);
    }
  }

  /** A fresh clock that meets a first block long after its start reaches the
      right epoch after exactly that many blocks. */
  lemma CatchUp(e: EpochInfo, now: int, heights: seq<int>)
    requires e.duration > 0 && now >= e.startTime && !e.epochCountingStarted
    requires heights != []
    ensures Stalled(e, now, heights).currentEpoch
            == if |heights| <= EpochOf(e, now) then |heights| else EpochOf(e, now)
  {
    var next := After(e, now, heights[0]);
    TickKeepsSchedule(e, now, now, heights[0]);
    CatchUpFrom(next, now, heights[1..]);
  }

  /** The example in the documentation of current_epoch_start_time is one block
      late: with an epoch (10, 15] and a stall from 14 to 30, the block at 30
      already starts (15, 20], and by 33 the clock has caught up. */
  lemma DocumentedExample(e: EpochInfo, h: int)
    requires e.startTime == 10 && e.duration == 5 && e.epochCountingStarted
    requires e.currentEpochStartTime == 10
    ensures var at30 := After(e, 30, h);
            var at31 := After(at30, 31, h);
            var at32 := After(at31, 32, h);
            var at33 := After(at32, 33, h);
            && at30.currentEpochStartTime == 15
            && at33.currentEpochStartTime == 30
            && TickAt(at33, 34, h) == Idle
            && After(at33, 36, h).currentEpochStartTime == 35
  {
  }
}
