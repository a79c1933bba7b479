/**
 The clocks of the rate limiter in whole blocks and whole runs.  A block visits the
 clocks in key order and stops at the first whose start time has not come, so a
 clock behind such a one stands still, however late it is.
 */
module ClockRuns {
  import opened Basics
  import opened EpochClock
  import opened FlowLedger
  import opened LedgerRuns
  import opened StoreKeys
  import KVStore

  type Clocks = map<string, EpochInfo>

  /** No clock at or before this one, in key order, starts later than now. */
  predicate Reached(clocks: Clocks, id: string, now: int) {
    forall k :: k in clocks && KVStore.LexLeq(k, id) ==> clocks[k].startTime <= now
  }

  predicate ReachedAmong(clocks: Clocks, keys: seq<string>, id: string, now: int)
    requires forall k :: k in keys ==> k in clocks
  {
    forall k :: k in keys && KVStore.LexLeq(k, id) ==> clocks[k].startTime <= now
  }

  // ------------------------------------------------------------------- one block

  /** What the iteration over these clocks does to each of them. */
  lemma {:induction false} EpochsMoveClock(s: Ledger, env: Env, now: int, height: int, ids: seq<string>, id: string)
    requires WellFormed(s) && KVStore.Ascending(ids) && forall k :: k in ids ==> k in s.epochs
    requires id in s.epochs
    ensures var t := RunEpochs(s, env, now, height, ids);
            && t.epochs.Keys == s.epochs.Keys
            && t.epochs[id] == if id in ids && ReachedAmong(s.epochs, ids, id, now)
                               then After(s.epochs[id], now, height) else s.epochs[id]
    decreases ids
  {
    if ids == [] {
      return;
    }
    var first, rest := ids[0], ids[1..];
    KVStore.FirstOfAscending(ids);
    assert first in ids;
    if !TickAt(s.epochs[first], now, height).NotYet? {
      var t := EpochStep(s, env, now, height, first);
      EpochsMoveClock(t, env, now, height, rest, id);
      AmongRest(s.epochs, t.epochs, ids, id, now);
    } else {
      NotAmong(s.epochs, ids, id, now);
    }
    hide KVStore.LexLeq, KVStore.Ascending, EpochStep, TickAt, WellFormed, ReachedAmong;
  }

  /** Past a first clock that has been reached, the rest decides. */
  lemma AmongRest(clocks: Clocks, after: Clocks, ids: seq<string>, id: string, now: int)
    requires KVStore.Ascending(ids) && ids != [] && (forall k :: k in ids ==> k in clocks)
    requires after.Keys == clocks.Keys && forall k :: k in clocks && k != ids[0] ==> after[k] == clocks[k]
    requires clocks[ids[0]].startTime <= now
    ensures id in ids[1..] ==>
              id != ids[0] && (ReachedAmong(clocks, ids, id, now) <==> ReachedAmong(after, ids[1..], id, now))
    ensures id == ids[0] ==> ReachedAmong(clocks, ids, id, now)
  {
    KVStore.FirstOfAscending(ids);
    hide KVStore.LexLeq;
  }

  lemma NotAmong(clocks: Clocks, ids: seq<string>, id: string, now: int)
    requires KVStore.Ascending(ids) && ids != [] && (forall k :: k in ids ==> k in clocks)
    requires clocks[ids[0]].startTime > now
    ensures id in ids ==> !ReachedAmong(clocks, ids, id, now)
  {
    KVStore.FirstOfAscending(ids);
    hide KVStore.LexLeq;
  }

  /** A block moves a clock by its own tick if it is reached, and not at all if it is
      not. */
  lemma BlockMovesClockIff(s: Ledger, env: Env, now: int, height: int, id: string)
    requires WellFormed(s) && id in s.epochs
    ensures var t := BeginBlocker(s, env, now, height);
            && t.epochs.Keys == s.epochs.Keys
            && t.epochs[id] == if Reached(s.epochs, id, now) then After(s.epochs[id], now, height) else s.epochs[id]
  {
    EpochsMoveClock(s, env, now, height, KVStore.SortedKeys(s.epochs.Keys), id);
    hide KVStore.LexLeq, WellFormed, RunEpochs;
  }

  /** A first clock, in key order, whose start time has not come keeps every clock where
      it is. */
  lemma FirstClockStopsAll(s: Ledger, env: Env, now: int, height: int, first: string)
    requires WellFormed(s) && KVStore.IsLeast(first, s.epochs.Keys) && s.epochs[first].startTime > now
    ensures BeginBlocker(s, env, now, height) == s
  {
    var ids := KVStore.SortedKeys(s.epochs.Keys);
    assert first in ids;
    var i :| 0 <= i < |ids| && ids[i] == first;
    assert ids[0] in ids;
    if i > 0 {
      KVStore.LexAntisymmetric(ids[0], first);
    }
    assert ids[0] == first;
  }

  /** A clock that starts now stands still behind one that starts later: a clock called
      `day` that starts at 1000 keeps the hour from ever starting before. */
  lemma ClockStandsStill(s: Ledger, env: Env, now: int, height: int, day: EpochInfo, hour: EpochInfo)
    requires WellFormed(s) && s.epochs == map["day" := day, "hour" := hour]
    requires day.startTime == 1000 && hour.startTime == 0 && !hour.epochCountingStarted && 20 <= now < 1000
    ensures TickAt(hour, now, height).Starts? && BeginBlocker(s, env, now, height) == s
  {
    assert "day"[0] < "hour"[0];
    assert KVStore.LexLeq("day", "hour");
    KVStore.LexTotal("day", "day");
    assert KVStore.IsLeast("day", s.epochs.Keys);
    FirstClockStopsAll(s, env, now, height, "day");
  }

  // -------------------------------------------------------------------- catching up

  /** Several blocks at one time, as when a stalled chain catches up. */
  function StalledBlocks(s: Ledger, env: Env, now: int, heights: seq<int>): (t: Ledger)
    requires WellFormed(s)
    ensures WellFormed(t)
    decreases heights
  {
    if heights == [] then s else StalledBlocks(BeginBlocker(s, env, now, heights[0]), env, now, heights[1..])
  }

  lemma StartTimesStay(e: EpochInfo, now: int, height: int)
    ensures After(e, now, height).startTime == e.startTime && After(e, now, height).duration == e.duration
  {
  }

  lemma BlockKeepsReached(s: Ledger, env: Env, now: int, height: int, id: string, later: int)
    requires WellFormed(s) && id in s.epochs
    ensures Reached(BeginBlocker(s, env, now, height).epochs, id, later) <==> Reached(s.epochs, id, later)
  {
    var t := BeginBlocker(s, env, now, height);
    forall k | k in s.epochs
      ensures k in t.epochs && t.epochs[k].startTime == s.epochs[k].startTime
    {
      BlockMovesClockIff(s, env, now, height, k);
      StartTimesStay(s.epochs[k], now, height);
    }
    BlockMovesClockIff(s, env, now, height, id);
    hide KVStore.LexLeq, BeginBlocker, WellFormed;
  }

  /** Stalled blocks move a clock as if it were alone, or not at all. */
  lemma {:induction false} StalledBlocksMoveClockIff(s: Ledger, env: Env, now: int, heights: seq<int>, id: string)
    requires WellFormed(s) && id in s.epochs
    ensures var t := StalledBlocks(s, env, now, heights);
            id in t.epochs
            && t.epochs[id] == if Reached(s.epochs, id, now) then Stalled(s.epochs[id], now, heights) else s.epochs[id]
    decreases heights
  {
    hide Reached, BeginBlocker, WellFormed, After;
    if heights != [] {
      BlockMovesClockIff(s, env, now, heights[0], id);
      BlockKeepsReached(s, env, now, heights[0], id, now);
      StalledBlocksMoveClockIff(BeginBlocker(s, env, now, heights[0]), env, now, heights[1..], id);
    }
  }

  /** A fresh clock that is due catches up in stalled blocks, one epoch a block until it
      shows the right one, if and only if no clock before it starts later. */
  lemma CatchesUpIff(s: Ledger, env: Env, now: int, heights: seq<int>, id: string)
    requires WellFormed(s) && id in s.epochs && heights != []
    requires var e := s.epochs[id]; e.duration > 0 && e.startTime <= now && !e.epochCountingStarted
    ensures var e, t := s.epochs[id], StalledBlocks(s, env, now, heights);
            && id in t.epochs
            && (Reached(s.epochs, id, now) <==>
                  && t.epochs[id].epochCountingStarted
                  && t.epochs[id].currentEpoch == if |heights| <= EpochOf(e, now) then |heights| else EpochOf(e, now))
            && (!Reached(s.epochs, id, now) <==> t.epochs[id] == e)
  {
    var e := s.epochs[id];
    hide *;
    StalledBlocksMoveClockIff(s, env, now, heights, id);
    FreshClockCatchesUp(e, now, heights);
  }

  /** A started clock that is behind gains one epoch a block until it shows the right
      one, if and only if no clock before it starts later. */
  lemma GainsEpochsIff(s: Ledger, env: Env, now: int, heights: seq<int>, id: string)
    requires WellFormed(s) && id in s.epochs && heights != []
    requires var e := s.epochs[id];
             && e.duration > 0 && e.startTime <= now && e.epochCountingStarted && OnSchedule(e, now)
             && e.currentEpoch < EpochOf(e, now)
    ensures var e, t := s.epochs[id], StalledBlocks(s, env, now, heights);
            && id in t.epochs
            && (Reached(s.epochs, id, now) <==>
                  t.epochs[id].currentEpoch
                  == if e.currentEpoch + |heights| <= EpochOf(e, now) then e.currentEpoch + |heights|
                     else EpochOf(e, now))
            && (!Reached(s.epochs, id, now) <==> t.epochs[id] == e)
  {
    var e := s.epochs[id];
    hide *;
    StalledBlocksMoveClockIff(s, env, now, heights, id);
    CatchUpFrom(e, now, heights);
  }

  lemma FreshClockCatchesUp(e: EpochInfo, now: int, heights: seq<int>)
    requires e.duration > 0 && e.startTime <= now && !e.epochCountingStarted && heights != []
    ensures var f := Stalled(e, now, heights);
            && f.epochCountingStarted
            && f.currentEpoch == if |heights| <= EpochOf(e, now) then |heights| else EpochOf(e, now)
  {
    CatchUp(e, now, heights);
    assert After(e, now, heights[0]).epochCountingStarted;
    assert Stalled(e, now, heights) == Stalled(After(e, now, heights[0]), now, heights[1..]);
    hide Stalled, EpochOf, After;
    StaysStarted(After(e, now, heights[0]), now, heights[1..]);
  }

  lemma {:induction false} StaysStarted(e: EpochInfo, now: int, heights: seq<int>)
    requires e.epochCountingStarted
    ensures Stalled(e, now, heights).epochCountingStarted
    decreases heights
  {
    if heights != [] {
      StaysStarted(After(e, now, heights[0]), now, heights[1..]);
    }
  }

  // ---------------------------------------------------------------------- whole runs

  /** Block times never go back. */
  predicate TimesRise(run: seq<Step>, before: int)
    decreases run
  {
    run != [] ==>
      match run[0].event
      case Block(now, _) => before <= now && TimesRise(run[1..], now)
      case _ => TimesRise(run[1..], before)
  }

  function LastTime(run: seq<Step>, before: int): int
    decreases run
  {
    if run == [] then before
    else
      match run[0].event
      case Block(now, _) => LastTime(run[1..], now)
      case _ => LastTime(run[1..], before)
  }

  function Blocks(run: seq<Step>): nat
    decreases run
  {
    if run == [] then 0 else (if run[0].event.Block? then 1 else 0) + Blocks(run[1..])
  }

  /** From one state to another a clock kept its settings and, once started, moved
      forward by at most some number of epochs. */
  predicate Moved(e: EpochInfo, f: EpochInfo, most: nat) {
    && f.startTime == e.startTime && f.duration == e.duration
    && (e.epochCountingStarted ==>
          f.epochCountingStarted && e.currentEpoch <= f.currentEpoch <= e.currentEpoch + most)
  }

  /** A step moves a clock by at most one epoch, and only a block moves it. */
  lemma StepMovesClock(w: World, step: Step, before: int, id: string)
    requires Inv(w) && Enabled(w, step.event) && id in w.ledger.epochs && OnSchedule(w.ledger.epochs[id], before)
    requires step.event.Block? ==> before <= step.event.now
    ensures var t := Apply(w, step).ledger;
            && id in t.epochs
            && OnSchedule(t.epochs[id], if step.event.Block? then step.event.now else before)
            && Moved(w.ledger.epochs[id], t.epochs[id], if step.event.Block? then 1 else 0)
  {
    hide *;
    ClocksAfter(w, step);
    SameClock(w.ledger.epochs[id]);
    if step.event.Block? {
      BlockKeepsTime(w.ledger, step.env, before, step.event.now, step.event.height, id);
    }
  }

  lemma SameClock(e: EpochInfo)
    ensures Moved(e, e, 0)
  {
  }

  /** Only a block moves clocks. */
  lemma ClocksAfter(w: World, step: Step)
    requires Inv(w) && Enabled(w, step.event)
    ensures WellFormed(w.ledger)
    ensures Apply(w, step).ledger.epochs
            == if step.event.Block? then BeginBlocker(w.ledger, step.env, step.event.now, step.event.height).epochs
               else w.ledger.epochs
  {
    hide *;
    InvIsWellFormed(w);
    if step.event.Block? {
      BlockIsApplied(w, step);
    } else {
      OnlyBlocksMoveClocks(w, step);
    }
  }

  lemma BlockIsApplied(w: World, step: Step)
    requires Inv(w) && step.event.Block?
    ensures WellFormed(w.ledger) && Enabled(w, step.event)
    ensures Apply(w, step).ledger == BeginBlocker(w.ledger, step.env, step.event.now, step.event.height)
  {
    hide BeginBlocker;
  }

  lemma InvIsWellFormed(w: World)
    requires Inv(w)
    ensures WellFormed(w.ledger)
  {
  }

  lemma BlockKeepsTime(s: Ledger, env: Env, before: int, now: int, height: int, id: string)
    requires WellFormed(s) && id in s.epochs && OnSchedule(s.epochs[id], before) && before <= now
    ensures var t := BeginBlocker(s, env, now, height);
            id in t.epochs && OnSchedule(t.epochs[id], now) && Moved(s.epochs[id], t.epochs[id], 1)
  {
    hide *;
    BlockMovesClockIff(s, env, now, height, id);
    ClockKeepsTime(s.epochs[id], before, now, height);
  }

  lemma ClockKeepsTime(e: EpochInfo, before: int, now: int, height: int)
    requires OnSchedule(e, before) && before <= now
    ensures OnSchedule(e, now) && Moved(e, e, 1)
    ensures OnSchedule(After(e, now, height), now) && Moved(e, After(e, now, height), 1)
  {
    TickKeepsSchedule(e, before, now, height);
    hide After;
  }

  lemma OnlyBlocksMoveClocks(w: World, step: Step)
    requires Inv(w) && Enabled(w, step.event) && !step.event.Block?
    ensures Apply(w, step).ledger.epochs == w.ledger.epochs
  {
    hide CheckExceedsQuota, AddFlow, ChannelValue, Target, WhitelistKey, IsWhitelisted, Sound, Tracked, PathOf;
  }

  /** In every run whose block times never go back, every clock stays on its schedule
      and moves by at most one epoch a block. */
  lemma {:induction false} ClocksKeepTime(w: World, run: seq<Step>, before: int, id: string)
    requires Inv(w) && Possible(w, run) && TimesRise(run, before)
    requires id in w.ledger.epochs && OnSchedule(w.ledger.epochs[id], before)
    ensures var t := Exec(w, run).ledger;
            && id in t.epochs && OnSchedule(t.epochs[id], LastTime(run, before))
            && Moved(w.ledger.epochs[id], t.epochs[id], Blocks(run))
    decreases run
  {
    if run == [] {
      return;
    }
    StepKeepsInv(w, run[0]);
    StepMovesClock(w, run[0], before, id);
    var v := Apply(w, run[0]);
    assert Exec(w, run) == Exec(v, run[1..]) && Possible(v, run[1..]);
    hide Inv, Possible, Exec, Apply, OnSchedule;
    ClocksKeepTime(v, run[1..], if run[0].event.Block? then run[0].event.now else before, id);
  }
}
