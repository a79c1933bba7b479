/**
 How much can leave through one rate limit over a whole run.  The end of an hour
 resets a limit once for every due limit whose name stands for its path then, and
 all that leaves through it, net of what comes in or is taken back, is bounded by
 the thresholds of the windows this opens.  As long as no other name stands for the
 path, it is one reset per whole window.
 */
module DrainBound {
  import opened Basics
  import opened ClockRuns
  import opened StoreKeys
  import opened EpochClock
  import opened FlowLedger
  import opened LedgerRuns
  import KVStore
  import LegacyDec

  // -------------------------------------------------- totals over the history

  /** Everything counted on a path over the whole history: sends, less what was
      taken back and what came in.  Resets do not erase it. */
  function Total(log: Log, p: Path): int {
    match log
    case Start => 0
    case Then(prev, CountedOut(q, _, a)) => Total(prev, p) + (if q == p then a else 0)
    case Then(prev, CountedIn(q, a)) => Total(prev, p) - (if q == p then a else 0)
    case Then(prev, Undone(q, _, a)) => Total(prev, p) - (if q == p then a else 0)
    case Then(prev, _) => Total(prev, p)
  }

  function Zeroings(log: Log, p: Path): int {
    match log
    case Start => 0
    case Then(prev, Zeroed(limit)) => Zeroings(prev, p) + (if limit.path == p then 1 else 0)
    case Then(prev, _) => Zeroings(prev, p)
  }

  /** The sending thresholds of all windows the history opened, added up. */
  function Caps(log: Log, p: Path): int {
    match log
    case Start => 0
    case Then(prev, Zeroed(limit)) => Caps(prev, p) + (if limit.path == p then Threshold(limit, SEND) else 0)
    case Then(prev, _) => Caps(prev, p)
  }

  /** How far the thresholds stay below a common bound, added up. */
  function Slack(log: Log, p: Path, high: int): int {
    match log
    case Start => 0
    case Then(prev, Zeroed(limit)) =>
      Slack(prev, p, high) + (if limit.path == p then high - Threshold(limit, SEND) else 0)
    case Then(prev, _) => Slack(prev, p, high)
  }

  lemma {:induction false} SlackIsDifference(log: Log, p: Path, high: int)
    ensures Slack(log, p, high) == Zeroings(log, p) * high - Caps(log, p)
  {
    if log.Then? {
      SlackIsDifference(log.prev, p, high);
      OneMore(Zeroings(log.prev, p), high);
    }
  }

  /** What has left so far beyond the current window's flow and the thresholds of
      the windows already closed; it never grows. */
  function Potential(s: Ledger, p: Path): int
    requires p in s.limits
  {
    Total(s.log, p) - Net(s.limits[p], SEND) + Threshold(s.limits[p], SEND) - Caps(s.log, p)
  }

  /** The number of whole windows of length h that lie before an epoch. */
  function Windows(epoch: int, h: int): int
    requires h > 0
  {
    (epoch - 1) / h
  }

  /** The whole windows of the limit that lie before the current epoch. */
  function WindowsBefore(s: Ledger, p: Path): int
    requires p in s.limits && s.limits[p].quota.durationHours > 0 && DAY_EPOCH in s.epochs
  {
    Windows(s.epochs[DAY_EPOCH].currentEpoch, s.limits[p].quota.durationHours)
  }

  predicate Running(s: Ledger, p: Path) {
    && p in s.limits && s.limits[p].flow.channelValue != 0 && s.limits[p].quota.durationHours > 0
    && DAY_EPOCH in s.epochs && s.epochs[DAY_EPOCH].epochCountingStarted
  }

  /** The limit's threshold if the whole supply were `supply`. */
  function ThresholdAt(limit: RateLimit, supply: int): int {
    Threshold(limit.(flow := limit.flow.(channelValue := supply)), SEND)
  }

  /** From s to t the limit of p kept its settings, its potential did not grow, and
      every window opened meanwhile had a threshold of at most `high`. */
  predicate Drains(s: Ledger, t: Ledger, p: Path, high: int) {
    && Running(s, p) && Running(t, p)
    && t.limits[p].quota == s.limits[p].quota
    && t.limits[p].minRateLimitAmount == s.limits[p].minRateLimitAmount
    && Potential(t, p) <= Potential(s, p)
    && Slack(t.log, p, high) >= Slack(s.log, p, high)
  }

  /** Resets happened exactly as often as windows ended. */
  predicate OnTime(s: Ledger, t: Ledger, p: Path)
    requires Running(s, p) && Running(t, p)
  {
    Zeroings(t.log, p) - Zeroings(s.log, p) == WindowsBefore(t, p) - WindowsBefore(s, p)
  }

  // ------------------------------------------------------------ one reset

  lemma ThresholdGrows(limit: RateLimit, value: int, supply: int)
    requires 0 <= value <= supply && limit.quota.maxPercentSend >= 0
    ensures ThresholdAt(limit, value) <= ThresholdAt(limit, supply)
  {
    var pct := limit.quota.maxPercentSend;
    assert value * pct <= supply * pct;
    LegacyDec.TruncQuoIsMonotone(value * pct, supply * pct, 100);
  }

  /** The token has supply, at most `supply` of it. */
  predicate Supplied(env: Env, p: Path, supply: int) { 0 < ChannelValue(env, p.denom) <= supply }

  lemma ResetDrains(s: Ledger, env: Env, q: Path, p: Path, supply: int)
    requires Sound(s) && Running(s, p) && (Target(env, q) == p ==> Supplied(env, p, supply))
    ensures var t := Committed(s, ResetRateLimit(s, env, q));
            && Drains(s, t, p, ThresholdAt(s.limits[p], supply))
            && t.epochs == s.epochs && t.limits.Keys == s.limits.Keys
            && Zeroings(t.log, p) == Zeroings(s.log, p) + (if Target(env, q) == p then 1 else 0)
  {
    var at := Target(env, q);
    if at in s.limits {
      PathsAreKeys(s, at);
      var limit := s.limits[at].(flow := Flow(0, 0, ChannelValue(env, at.denom)));
      if at == p {
        OwnWindowDrains(s, limit, supply);
      } else {
        OtherWindowDrains(s, limit, p, ThresholdAt(s.limits[p], supply));
      }
      ClearDrains(StartWindow(s, limit), q.channel, p, ThresholdAt(s.limits[p], supply));
      DrainsFurther(s, StartWindow(s, limit), ClearPending(StartWindow(s, limit), q.channel), p,
                    ThresholdAt(s.limits[p], supply));
    } else {
      SameHistoryDrains(s, s, p, ThresholdAt(s.limits[p], supply));
    }
    hide Drains, Sound, Threshold, ThresholdAt;
  }

  /** A new window of p itself: its old flow was within the old threshold. */
  lemma OwnWindowDrains(s: Ledger, limit: RateLimit, supply: int)
    requires Sound(s) && Running(s, limit.path)
    requires limit == s.limits[limit.path].(flow := limit.flow)
    requires limit.flow.inflow == limit.flow.outflow == 0 && 0 < limit.flow.channelValue <= supply
    ensures Drains(s, StartWindow(s, limit), limit.path, ThresholdAt(s.limits[limit.path], supply))
    ensures Zeroings(StartWindow(s, limit).log, limit.path) == Zeroings(s.log, limit.path) + 1
  {
    var p := limit.path;
    ThresholdGrows(s.limits[p], limit.flow.channelValue, supply);
    assert Threshold(limit, SEND) == ThresholdAt(s.limits[p], limit.flow.channelValue);
    assert Accounted(s.limits[p], s.log, p);
    hide Threshold;
  }

  lemma OtherWindowDrains(s: Ledger, limit: RateLimit, p: Path, high: int)
    requires Running(s, p) && limit.path != p
    ensures Drains(s, StartWindow(s, limit), p, high)
    ensures Zeroings(StartWindow(s, limit).log, p) == Zeroings(s.log, p)
  {
    hide Threshold;
  }

  lemma ClearDrains(s: Ledger, channel: string, p: Path, high: int)
    requires Running(s, p)
    ensures Drains(s, ClearPending(s, channel), p, high)
    ensures Zeroings(ClearPending(s, channel).log, p) == Zeroings(s.log, p)
  {
    hide Threshold;
  }

  // ------------------------------------------------------------ one hour's end

  /** How many entries of a list are due at this hour under a name that stands for the
      path: so often the end of the hour resets it. */
  function Hits(due: seq<RateLimit>, env: Env, hour: nat, p: Path): nat
    requires forall i :: 0 <= i < |due| ==> due[i].quota.durationHours > 0
  {
    if due == [] then 0
    else
      (if hour % due[0].quota.durationHours == 0 && Target(env, due[0].path) == p then 1 else 0)
      + Hits(due[1..], env, hour, p)
  }

  /** One entry of an epoch's end. */
  lemma ResetOneDrains(s: Ledger, env: Env, hour: nat, limit: RateLimit, p: Path, supply: int)
    requires Sound(s) && Running(s, p) && limit.quota.durationHours > 0
    requires hour % limit.quota.durationHours == 0 && Target(env, limit.path) == p ==> Supplied(env, p, supply)
    ensures var t := ResetOne(s, env, hour, limit);
            && Sound(t) && Drains(s, t, p, ThresholdAt(s.limits[p], supply))
            && t.epochs == s.epochs && t.limits.Keys == s.limits.Keys
            && Zeroings(t.log, p) == Zeroings(s.log, p)
               + (if hour % limit.quota.durationHours == 0 && Target(env, limit.path) == p then 1 else 0)
  {
    if hour % limit.quota.durationHours == 0 {
      ResetDrains(s, env, limit.path, p, supply);
      ResetKeepsSound(s, env, limit.path);
    } else {
      SameHistoryDrains(s, s, p, ThresholdAt(s.limits[p], supply));
    }
    hide Sound, Drains, ResetRateLimit, ThresholdAt;
  }

  lemma {:induction false} ResetDueDrains(s: Ledger, env: Env, hour: nat, due: seq<RateLimit>,
                                          p: Path, supply: int)
    requires Sound(s) && Running(s, p)
    requires forall i :: 0 <= i < |due| ==> due[i].quota.durationHours > 0
    requires Hits(due, env, hour, p) > 0 ==> Supplied(env, p, supply)
    ensures var t := ResetDue(s, env, hour, due);
            && Drains(s, t, p, ThresholdAt(s.limits[p], supply)) && t.limits.Keys == s.limits.Keys
            && Zeroings(t.log, p) == Zeroings(s.log, p) + Hits(due, env, hour, p)
    decreases due
  {
    if due == [] {
      return;
    }
    var t := ResetOne(s, env, hour, due[0]);
    ResetOneDrains(s, env, hour, due[0], p, supply);
    assert ResetDue(s, env, hour, due) == ResetDue(t, env, hour, due[1..]);
    SameThreshold(s, t, p, supply);
    hide ResetOne, Threshold, Sound, Potential, Slack, Total, Caps, Supplied;
    ResetDueDrains(t, env, hour, due[1..], p, supply);
    DrainsFurther(s, t, ResetDue(t, env, hour, due[1..]), p, ThresholdAt(s.limits[p], supply));
  }

  lemma SameThreshold(s: Ledger, t: Ledger, p: Path, supply: int)
    requires p in s.limits && p in t.limits && t.limits[p].quota == s.limits[p].quota
    requires t.limits[p].minRateLimitAmount == s.limits[p].minRateLimitAmount
    ensures ThresholdAt(t.limits[p], supply) == ThresholdAt(s.limits[p], supply)
  {
  }

  lemma DrainsFurther(s: Ledger, t: Ledger, u: Ledger, p: Path, high: int)
    requires Drains(s, t, p, high) && Drains(t, u, p, high)
    ensures Drains(s, u, p, high)
  {
    hide Potential, Slack;
  }

  /** How often the end of the current hour resets the path. */
  function HourHits(s: Ledger, env: Env, p: Path): nat
    requires WellFormed(s) && DAY_EPOCH in s.epochs
  {
    LimitsHaveDurations(s);
    Hits(AllRateLimits(s.limits), env, s.epochs[DAY_EPOCH].currentEpoch, p)
  }

  lemma HourEndDrains(s: Ledger, env: Env, p: Path, supply: int)
    requires Sound(s) && Running(s, p) && (HourHits(s, env, p) > 0 ==> Supplied(env, p, supply))
    ensures var t := AfterEpochEnd(s, env, s.epochs[DAY_EPOCH]);
            && Drains(s, t, p, ThresholdAt(s.limits[p], supply)) && t.limits.Keys == s.limits.Keys
            && Zeroings(t.log, p) == Zeroings(s.log, p) + HourHits(s, env, p)
  {
    var e := s.epochs[DAY_EPOCH];
    assert WellFormed(s) && e.identifier == DAY_EPOCH;
    LimitsHaveDurations(s);
    hide Threshold, Potential, Slack, Zeroings, Hits, Sound, Drains, Supplied, AllRateLimits;
    ResetDueDrains(s, env, e.currentEpoch, AllRateLimits(s.limits), p, supply);
  }

  /** The limits that are due at this hour under a name that stands for the path. */
  function DueNames(limits: map<Path, RateLimit>, env: Env, hour: nat, p: Path): set<Path>
    requires forall q :: q in limits ==> limits[q].quota.durationHours > 0
  {
    set q | q in limits && hour % limits[q].quota.durationHours == 0 && Target(env, q) == p
  }

  function NamesUnder(due: set<Path>, keys: seq<string>): set<Path> {
    set q | q in due && RateLimitKey(q) in keys
  }

  lemma NamesFromFirst(due: set<Path>, keys: seq<string>)
    requires keys != [] && keys[0] !in keys[1..] && (forall r :: r in due ==> CanonicalChannel(r.channel))
    requires RateLimitKey(ParseRateLimitKey(keys[0])) == keys[0]
    ensures var q, rest := ParseRateLimitKey(keys[0]), NamesUnder(due, keys[1..]);
            q !in rest && NamesUnder(due, keys) == if q in due then rest + {q} else rest
  {
    hide ParseRateLimitKey, RateLimitKey, CanonicalChannel;
    forall r | r in due
      ensures ParseRateLimitKey(RateLimitKey(r)) == r
    {
      RateLimitKeyReadsBack(r);
    }
    assert forall k :: k in keys <==> k == keys[0] || k in keys[1..];
  }

  lemma {:induction false} HitsUnder(limits: map<Path, RateLimit>, keys: seq<string>, env: Env, hour: nat, p: Path)
    requires OnChannels(limits)
    requires forall q :: q in limits ==> limits[q].path == q && limits[q].quota.durationHours > 0
    requires forall k :: k in keys ==> k in KeysOf(limits)
    requires forall i, j :: 0 <= i < j < |keys| ==> keys[i] != keys[j]
    ensures Hits(LimitsUnder(limits, keys), env, hour, p) == |NamesUnder(DueNames(limits, env, hour, p), keys)|
    decreases keys
  {
    hide OnChannels, RateLimitKey, ParseRateLimitKey, KeysOf, NamesUnder, DueNames, Target, LimitsUnder, Hits;
    var due := DueNames(limits, env, hour, p);
    if keys == [] {
      NothingUnder(limits, due, env, hour, p);
      return;
    }
    assert keys[0] in keys && keys[0] !in keys[1..];
    KeyOfLimit(limits, keys[0]);
    DueOnChannels(limits, env, hour, p);
    NamesFromFirst(due, keys);
    FirstHit(limits, keys, env, hour, p);
    HitsUnder(limits, keys[1..], env, hour, p);
  }

  lemma DueOnChannels(limits: map<Path, RateLimit>, env: Env, hour: nat, p: Path)
    requires OnChannels(limits) && forall q :: q in limits ==> limits[q].quota.durationHours > 0
    ensures forall q :: q in DueNames(limits, env, hour, p) ==> CanonicalChannel(q.channel)
  {
    hide CanonicalChannel, Target;
  }

  lemma NothingUnder(limits: map<Path, RateLimit>, due: set<Path>, env: Env, hour: nat, p: Path)
    requires OnChannels(limits)
    ensures NamesUnder(due, []) == {} && Hits(LimitsUnder(limits, []), env, hour, p) == 0
  {
    hide OnChannels;
  }

  lemma FirstHit(limits: map<Path, RateLimit>, keys: seq<string>, env: Env, hour: nat, p: Path)
    requires OnChannels(limits) && keys != [] && forall k :: k in keys ==> k in KeysOf(limits)
    requires forall q :: q in limits ==> limits[q].path == q && limits[q].quota.durationHours > 0
    ensures var q := ParseRateLimitKey(keys[0]);
            Hits(LimitsUnder(limits, keys), env, hour, p)
            == Hits(LimitsUnder(limits, keys[1..]), env, hour, p) + if q in DueNames(limits, env, hour, p) then 1 else 0
  {
    var all := LimitsUnder(limits, keys);
    assert all[1..] == LimitsUnder(limits, keys[1..]);
    hide OnChannels, RateLimitKey, ParseRateLimitKey, KeysOf, LimitsUnder, Target;
  }

  /** The end of an hour goes through each limit once: it resets the path as often as
      there are limits due under a name that stands for it. */
  lemma HitsAreDueNames(s: Ledger, env: Env, p: Path)
    requires WellFormed(s) && DAY_EPOCH in s.epochs
    ensures HourHits(s, env, p) == |DueNames(s.limits, env, s.epochs[DAY_EPOCH].currentEpoch, p)|
  {
    var due, keys := DueNames(s.limits, env, s.epochs[DAY_EPOCH].currentEpoch, p), KVStore.SortedKeys(KeysOf(s.limits));
    AllNamesUnder(s.limits, due);
    hide RateLimitKey, NamesUnder, Target, CanonicalChannel, KVStore.Ascending, KVStore.LexLeq;
    LimitsHaveDurations(s);
    HitsUnder(s.limits, keys, env, s.epochs[DAY_EPOCH].currentEpoch, p);
  }

  lemma AllNamesUnder(limits: map<Path, RateLimit>, due: set<Path>)
    requires due <= limits.Keys
    ensures NamesUnder(due, KVStore.SortedKeys(KeysOf(limits))) == due
  {
    hide RateLimitKey, KVStore.Ascending;
    forall q | q in due
      ensures RateLimitKey(q) in KeysOf(limits)
    {
    }
  }

  // ------------------------------------------------------- one reset per window

  /** No other limit's name stands for this path, nor this path's for another. */
  ghost predicate Separate(env: Env, s: Ledger, p: Path) {
    forall q :: q in s.limits ==> (Target(env, q) == p <==> q == p)
  }

  /** While the path goes by one name, the end of an hour resets it once if it ends a
      window, and not otherwise. */
  lemma SeparateHits(s: Ledger, env: Env, p: Path)
    requires WellFormed(s) && Running(s, p) && Separate(env, s, p)
    ensures HourHits(s, env, p)
            == if s.epochs[DAY_EPOCH].currentEpoch % s.limits[p].quota.durationHours == 0 then 1 else 0
  {
    HitsAreDueNames(s, env, p);
    var hour := s.epochs[DAY_EPOCH].currentEpoch;
    assert DueNames(s.limits, env, hour, p) == if hour % s.limits[p].quota.durationHours == 0 then {p} else {};
    hide HourHits, Target;
  }

  /** A window ends with an epoch exactly when its length divides the epoch. */
  lemma WindowEnds(e: int, h: int)
    requires e >= 1 && h > 0
    ensures Windows(e + 1, h) - Windows(e, h) == if e % h == 0 then 1 else 0
  {
    var q, r := e / h, e % h;
    assert e == h * q + r;
    if r == 0 {
      assert e - 1 == h * (q - 1) + (h - 1);
      Quotient(e - 1, h, q - 1, h - 1);
    } else {
      Quotient(e - 1, h, q, r - 1);
    }
  }

  lemma Quotient(x: int, h: int, q: int, r: int)
    requires h > 0 && x == h * q + r && 0 <= r < h
    ensures x / h == q
  {
    var d := x / h - q;
    assert h * d == r - x % h;
    if d >= 1 {
      LegacyDec.ProductStep(h, d, 0);
    } else if d <= -1 {
      LegacyDec.ProductStep(h, 0, d);
    }
  }

  // ------------------------------------------------------------------- blocks

  /** This block ends an hour. */
  predicate HourEnds(s: Ledger, now: int, height: int) {
    DAY_EPOCH in s.epochs && Reached(s.epochs, DAY_EPOCH, now) && TickAt(s.epochs[DAY_EPOCH], now, height).Ends?
  }

  predicate HourEndsAmong(s: Ledger, now: int, height: int, ids: seq<string>)
    requires forall id :: id in ids ==> id in s.epochs
  {
    && DAY_EPOCH in ids && ReachedAmong(s.epochs, ids, DAY_EPOCH, now)
    && TickAt(s.epochs[DAY_EPOCH], now, height).Ends?
  }

  /** A block, or a part of it, that ends an hour or does not: how far the path's history
      and the hour move. */
  predicate HourPasses(s: Ledger, t: Ledger, env: Env, p: Path, supply: int, ends: bool)
    requires WellFormed(s) && Running(s, p)
  {
    && Drains(s, t, p, ThresholdAt(s.limits[p], supply))
    && Zeroings(t.log, p) == Zeroings(s.log, p) + (if ends then HourHits(s, env, p) else 0)
    && t.epochs[DAY_EPOCH].currentEpoch == s.epochs[DAY_EPOCH].currentEpoch + (if ends then 1 else 0)
  }

  lemma HourStepPasses(s: Ledger, env: Env, now: int, height: int, p: Path, supply: int)
    requires Sound(s) && Running(s, p) && (HourHits(s, env, p) > 0 ==> Supplied(env, p, supply))
    requires TickAt(s.epochs[DAY_EPOCH], now, height).Ends?
    ensures HourPasses(s, EpochStep(s, env, now, height, DAY_EPOCH), env, p, supply, true)
  {
    SoundIsWellFormed(s);
    HourEndsAndTurns(s, env, now, height);
    HourEndDrains(s, env, p, supply);
    hide Threshold, ThresholdAt, AfterEpochEnd, EpochStep, Sound, WellFormed, TickAt, Drains, Zeroings, HourHits,
      Supplied, HourPasses, Target;
    HourTurns(s, AfterEpochEnd(s, env, s.epochs[DAY_EPOCH]), EpochStep(s, env, now, height, DAY_EPOCH), env, p, supply);
  }

  /** The resets of an hour's end and the next hour, taken together. */
  lemma HourTurns(s: Ledger, u: Ledger, t: Ledger, env: Env, p: Path, supply: int)
    requires WellFormed(s) && Running(s, p) && t == u.(epochs := t.epochs)
    requires Drains(s, u, p, ThresholdAt(s.limits[p], supply))
    requires Zeroings(u.log, p) == Zeroings(s.log, p) + HourHits(s, env, p)
    requires DAY_EPOCH in t.epochs && t.epochs[DAY_EPOCH].epochCountingStarted
    requires t.epochs[DAY_EPOCH].currentEpoch == s.epochs[DAY_EPOCH].currentEpoch + 1
    ensures HourPasses(s, t, env, p, supply, true)
  {
    hide Threshold, ThresholdAt, WellFormed, Potential, Slack, Zeroings, HourHits;
    var high := ThresholdAt(s.limits[p], supply);
    ClockDrains(u, t, p, high);
    DrainsFurther(s, u, t, p, high);
  }

  /** The hour's own tick: first the resets, then the next hour. */
  lemma HourEndsAndTurns(s: Ledger, env: Env, now: int, height: int)
    requires WellFormed(s) && DAY_EPOCH in s.epochs && TickAt(s.epochs[DAY_EPOCH], now, height).Ends?
    ensures var u, t := AfterEpochEnd(s, env, s.epochs[DAY_EPOCH]), EpochStep(s, env, now, height, DAY_EPOCH);
            && t == u.(epochs := t.epochs) && DAY_EPOCH in t.epochs
            && t.epochs[DAY_EPOCH].epochCountingStarted == s.epochs[DAY_EPOCH].epochCountingStarted
            && t.epochs[DAY_EPOCH].currentEpoch == s.epochs[DAY_EPOCH].currentEpoch + 1
  {
    hide AfterEpochEnd;
  }

  lemma QuietStepPasses(s: Ledger, env: Env, now: int, height: int, id: string, p: Path, supply: int)
    requires Sound(s) && Running(s, p) && id in s.epochs
    requires id != DAY_EPOCH || !TickAt(s.epochs[id], now, height).Ends?
    ensures var t := EpochStep(s, env, now, height, id);
            && HourPasses(s, t, env, p, supply, false) && t.limits == s.limits
            && (id != DAY_EPOCH ==> t.epochs[DAY_EPOCH] == s.epochs[DAY_EPOCH])
  {
    assert WellFormed(s);
    QuietStep(s, env, now, height, id);
    QuietHour(s, now, height, id);
    hide Threshold, EpochStep, Sound, Potential, Slack, Zeroings, HourHits, TickAt, After;
    var t, high := EpochStep(s, env, now, height, id), ThresholdAt(s.limits[p], supply);
    ClockDrains(s, t, p, high);
  }

  /** An hour that does not end keeps its number. */
  lemma QuietHour(s: Ledger, now: int, height: int, id: string)
    requires id in s.epochs && DAY_EPOCH in s.epochs && s.epochs[DAY_EPOCH].epochCountingStarted
    requires id != DAY_EPOCH || !TickAt(s.epochs[id], now, height).Ends?
    ensures var epochs := s.epochs[id := After(s.epochs[id], now, height)];
            && epochs[DAY_EPOCH].currentEpoch == s.epochs[DAY_EPOCH].currentEpoch
            && epochs[DAY_EPOCH].epochCountingStarted
  {
  }

  /** Any other tick only sets its clock. */
  lemma QuietStep(s: Ledger, env: Env, now: int, height: int, id: string)
    requires WellFormed(s) && id in s.epochs
    requires id != DAY_EPOCH || !TickAt(s.epochs[id], now, height).Ends?
    ensures var t := EpochStep(s, env, now, height, id);
            t == s.(epochs := t.epochs)
  {
  }

  /** Setting a clock does not touch limits or history. */
  lemma ClockDrains(s: Ledger, t: Ledger, p: Path, high: int)
    requires Running(s, p) && t == s.(epochs := t.epochs)
    requires DAY_EPOCH in t.epochs && t.epochs[DAY_EPOCH].epochCountingStarted
    ensures Drains(s, t, p, high) && Zeroings(t.log, p) == Zeroings(s.log, p)
  {
    hide Threshold;
  }

  lemma PassesFurther(s: Ledger, t: Ledger, u: Ledger, env: Env, p: Path, supply: int, a: bool, b: bool)
    requires WellFormed(s) && Running(s, p) && WellFormed(t) && Running(t, p) && !(a && b)
    requires HourPasses(s, t, env, p, supply, a) && HourPasses(t, u, env, p, supply, b)
    requires b ==> HourHits(t, env, p) == HourHits(s, env, p)
    ensures HourPasses(s, u, env, p, supply, a || b)
  {
    SameThreshold(s, t, p, supply);
    hide Threshold, ThresholdAt, Potential, Slack, HourHits, Zeroings, WellFormed;
    DrainsFurther(s, t, u, p, ThresholdAt(s.limits[p], supply));
  }

  /** Where the hour stands after the first of several clocks. */
  lemma AmongStep(s: Ledger, env: Env, now: int, height: int, ids: seq<string>)
    requires WellFormed(s) && KVStore.Ascending(ids) && ids != [] && (forall id :: id in ids ==> id in s.epochs)
    requires DAY_EPOCH in s.epochs && s.epochs[ids[0]].startTime <= now
    ensures ids[0] in s.epochs && forall id :: id in ids[1..] ==> id in EpochStep(s, env, now, height, ids[0]).epochs
    ensures var t := EpochStep(s, env, now, height, ids[0]);
            if ids[0] == DAY_EPOCH
            then !HourEndsAmong(t, now, height, ids[1..])
                 && (HourEndsAmong(s, now, height, ids) <==> TickAt(s.epochs[DAY_EPOCH], now, height).Ends?)
            else HourEndsAmong(t, now, height, ids[1..]) <==> HourEndsAmong(s, now, height, ids)
  {
    assert ids[0] in ids;
    var t := EpochStep(s, env, now, height, ids[0]);
    KVStore.FirstOfAscending(ids);
    AmongRest(s.epochs, t.epochs, ids, DAY_EPOCH, now);
    hide KVStore.Ascending, KVStore.LexLeq, EpochStep, ReachedAmong, WellFormed, After;
  }

  lemma SameHits(s: Ledger, t: Ledger, env: Env, p: Path)
    requires WellFormed(s) && WellFormed(t) && DAY_EPOCH in s.epochs && DAY_EPOCH in t.epochs
    requires t.limits == s.limits && t.epochs[DAY_EPOCH] == s.epochs[DAY_EPOCH]
    ensures HourHits(t, env, p) == HourHits(s, env, p)
  {
  }

  lemma SoundIsWellFormed(s: Ledger)
    requires Sound(s)
    ensures WellFormed(s)
  {
  }

  lemma {:induction false} RunEpochsPasses(s: Ledger, inflight: Packets, sent: set<PacketId>, env: Env,
                                           now: int, height: int, ids: seq<string>, p: Path, supply: int)
    requires Sound(s) && Tracked(s, inflight, sent) && Running(s, p)
    requires KVStore.Ascending(ids) && forall id :: id in ids ==> id in s.epochs
    requires HourEndsAmong(s, now, height, ids) && HourHits(s, env, p) > 0 ==> Supplied(env, p, supply)
    ensures HourPasses(s, RunEpochs(s, env, now, height, ids), env, p, supply, HourEndsAmong(s, now, height, ids))
    decreases ids
  {
    NothingPasses(s, env, p, supply);
    if ids == [] {
      return;
    }
    assert ids[0] in ids;
    if TickAt(s.epochs[ids[0]], now, height).NotYet? {
      NotAmong(s.epochs, ids, DAY_EPOCH, now);
      return;
    }
    SoundIsWellFormed(s);
    FirstPasses(s, env, now, height, ids, p, supply);
    EpochStepKeepsInv(s, inflight, sent, env, now, height, ids[0]);
    KVStore.FirstOfAscending(ids);
    hide KVStore.Ascending, KVStore.LexLeq, EpochStep, Sound, Tracked, HourHits, Supplied, HourEndsAmong, HourPasses,
      WellFormed, Running;
    var t, rest := EpochStep(s, env, now, height, ids[0]), ids[1..];
    RunEpochsPasses(t, inflight, sent, env, now, height, rest, p, supply);
    PassesFurther(s, t, RunEpochs(t, env, now, height, rest), env, p, supply,
                  ids[0] == DAY_EPOCH && HourEndsAmong(s, now, height, ids), HourEndsAmong(t, now, height, rest));
  }

  /** The first of several clocks, and what it leaves to the others. */
  lemma FirstPasses(s: Ledger, env: Env, now: int, height: int, ids: seq<string>, p: Path, supply: int)
    requires Sound(s) && WellFormed(s) && Running(s, p)
    requires KVStore.Ascending(ids) && ids != [] && (forall id :: id in ids ==> id in s.epochs)
    requires ids[0] in s.epochs && !TickAt(s.epochs[ids[0]], now, height).NotYet?
    requires HourEndsAmong(s, now, height, ids) && HourHits(s, env, p) > 0 ==> Supplied(env, p, supply)
    ensures var t := EpochStep(s, env, now, height, ids[0]);
            && WellFormed(t) && Running(t, p) && (forall id :: id in ids[1..] ==> id in t.epochs)
            && var first := ids[0] == DAY_EPOCH && HourEndsAmong(s, now, height, ids);
               var rest := HourEndsAmong(t, now, height, ids[1..]);
               && HourPasses(s, t, env, p, supply, first)
               && !(first && rest) && (HourEndsAmong(s, now, height, ids) <==> first || rest)
               && (rest ==> HourHits(t, env, p) == HourHits(s, env, p))
  {
    var t := EpochStep(s, env, now, height, ids[0]);
    AmongStep(s, env, now, height, ids);
    hide KVStore.Ascending, EpochStep, Sound, HourHits, Supplied, HourEndsAmong, Threshold, Potential, Slack, Zeroings;
    if ids[0] == DAY_EPOCH && TickAt(s.epochs[DAY_EPOCH], now, height).Ends? {
      HourStepPasses(s, env, now, height, p, supply);
    } else {
      QuietStepPasses(s, env, now, height, ids[0], p, supply);
      if ids[0] != DAY_EPOCH {
        SameHits(s, t, env, p);
      }
    }
  }

  lemma NothingPasses(s: Ledger, env: Env, p: Path, supply: int)
    requires WellFormed(s) && Running(s, p)
    ensures HourPasses(s, s, env, p, supply, false)
  {
    SameHistoryDrains(s, s, p, ThresholdAt(s.limits[p], supply));
    hide Threshold, ThresholdAt;
  }

  // -------------------------------------------------------------------- runs

  /** How often a block resets the path. */
  function BlockHits(s: Ledger, env: Env, now: int, height: int, p: Path): nat
    requires WellFormed(s)
  {
    if HourEnds(s, now, height) then HourHits(s, env, p) else 0
  }

  function StepHits(s: Ledger, step: Step, p: Path): nat
    requires WellFormed(s)
  {
    if step.event.Block? then BlockHits(s, step.env, step.event.now, step.event.height, p) else 0
  }

  /** A step that leaves the limit of p alone: no message updates, removes or resets it,
      and a block that resets it finds its token in supply. */
  ghost predicate Leaves(w: World, step: Step, p: Path, supply: int)
    requires WellFormed(w.ledger)
  {
    match step.event
    case Update(m) => Target(step.env, m.path) != p
    case Remove(path) => Target(step.env, path) != p
    case Reset(path) => Target(step.env, path) != p
    case Block(now, height) => BlockHits(w.ledger, step.env, now, height, p) > 0 ==> Supplied(step.env, p, supply)
    case _ => true
  }

  ghost predicate LeavesRun(w: World, run: seq<Step>, p: Path, supply: int)
    requires Inv(w) && Possible(w, run)
    decreases run
  {
    run != [] ==>
      && Leaves(w, run[0], p, supply)
      && (StepKeepsInv(w, run[0]); LeavesRun(Apply(w, run[0]), run[1..], p, supply))
  }

  /** What a step does to a path that it leaves alone. */
  predicate StepPasses(s: Ledger, t: Ledger, step: Step, p: Path, supply: int)
    requires WellFormed(s) && Running(s, p)
  {
    && Drains(s, t, p, ThresholdAt(s.limits[p], supply))
    && Zeroings(t.log, p) == Zeroings(s.log, p) + StepHits(s, step, p)
    && t.epochs[DAY_EPOCH].currentEpoch
       == s.epochs[DAY_EPOCH].currentEpoch
          + (if step.event.Block? && HourEnds(s, step.event.now, step.event.height) then 1 else 0)
  }

  lemma BlockPasses(w: World, step: Step, p: Path, supply: int)
    requires Inv(w) && Leaves(w, step, p, supply) && Running(w.ledger, p) && step.event.Block?
    ensures StepPasses(w.ledger, BeginBlocker(w.ledger, step.env, step.event.now, step.event.height), step, p, supply)
  {
    hide Inv, Sound, Tracked, WellFormed, BeginBlocker, StepPasses, Supplied, HourEnds;
    InvIsWellFormed(w);
    InvIsSound(w);
    SortedPasses(w.ledger, w.inflight, w.sent, step, p, supply);
  }

  lemma InvIsSound(w: World)
    requires Inv(w)
    ensures Sound(w.ledger) && Tracked(w.ledger, w.inflight, w.sent)
  {
  }

  lemma SortedPasses(s: Ledger, inflight: Packets, sent: set<PacketId>, step: Step, p: Path, supply: int)
    requires Sound(s) && Tracked(s, inflight, sent) && WellFormed(s) && Running(s, p) && step.event.Block?
    requires BlockHits(s, step.env, step.event.now, step.event.height, p) > 0 ==> Supplied(step.env, p, supply)
    ensures StepPasses(s, BeginBlocker(s, step.env, step.event.now, step.event.height), step, p, supply)
  {
    hide Sound, Tracked, WellFormed, HourHits, HourEnds, HourEndsAmong, HourPasses, StepPasses, RunEpochs, Supplied,
      Running, KVStore.Ascending;
    var ids, now, height := KVStore.SortedKeys(s.epochs.Keys), step.event.now, step.event.height;
    SortedHourEnds(s, now, height);
    RunEpochsPasses(s, inflight, sent, step.env, now, height, ids, p, supply);
    HourIsStep(s, RunEpochs(s, step.env, now, height, ids), step, p, supply);
  }

  lemma HourIsStep(s: Ledger, t: Ledger, step: Step, p: Path, supply: int)
    requires WellFormed(s) && Running(s, p) && step.event.Block?
    requires HourPasses(s, t, step.env, p, supply, HourEnds(s, step.event.now, step.event.height))
    ensures StepPasses(s, t, step, p, supply)
  {
    hide WellFormed, Drains, Zeroings, HourHits, HourEnds, ThresholdAt;
  }

  lemma SortedHourEnds(s: Ledger, now: int, height: int)
    ensures var ids := KVStore.SortedKeys(s.epochs.Keys);
            && KVStore.Ascending(ids) && (forall id :: id in ids <==> id in s.epochs)
            && (HourEndsAmong(s, now, height, ids) <==> HourEnds(s, now, height))
  {
    hide TickAt, KVStore.LexLeq;
  }

  lemma StepDrains(w: World, step: Step, p: Path, supply: int)
    requires Inv(w) && Enabled(w, step.event) && Leaves(w, step, p, supply) && Running(w.ledger, p)
    ensures StepPasses(w.ledger, Apply(w, step).ledger, step, p, supply)
  {
    hide Inv, Enabled, Leaves, Apply, StepPasses, Running, Drains, Zeroings, ThresholdAt;
    if step.event.Block? {
      BlockPasses(w, step, p, supply);
      BlockIsApplied(w, step);
    } else {
      OtherStepDrains(w, step, p, supply);
    }
  }

  lemma OtherStepDrains(w: World, step: Step, p: Path, supply: int)
    requires Inv(w) && Enabled(w, step.event) && Leaves(w, step, p, supply) && Running(w.ledger, p)
    requires !step.event.Block?
    ensures StepPasses(w.ledger, Apply(w, step).ledger, step, p, supply)
  {
    match step.event {
      case Add(_) => SettingStepDrains(w, step, p, supply);
      case Update(_) => SettingStepDrains(w, step, p, supply);
      case Remove(_) => RemovalStepDrains(w, step, p, supply);
      case Reset(_) => ResetStepDrains(w, step, p, supply);
      case Block(_, _) =>
      case _ => PacketStepDrains(w, step, p, supply);
    }
    hide Inv, Enabled, Leaves, Apply, Drains, Zeroings, ThresholdAt, HourHits, HourEnds;
  }

  lemma SettingStepDrains(w: World, step: Step, p: Path, supply: int)
    requires Inv(w) && Enabled(w, step.event) && Leaves(w, step, p, supply)
    requires Running(w.ledger, p)
    requires step.event.Add? || step.event.Update?
    ensures var t := Apply(w, step).ledger;
            && Drains(w.ledger, t, p, ThresholdAt(w.ledger.limits[p], supply))
            && Zeroings(t.log, p) == Zeroings(w.ledger.log, p) && t.epochs == w.ledger.epochs
  {
    var s, env, high := w.ledger, step.env, ThresholdAt(w.ledger.limits[p], supply);
    hide Threshold, Sound, Tracked, Potential, Slack, Zeroings, Windows;
    var m := step.event.msg;
    var limit := Fresh(env, Target(env, m.path), m.quota, m.minRateLimitAmount);
    if limit.path != p {
      OtherWindowDrains(s, limit, p, high);
    }
  }

  lemma RemovalStepDrains(w: World, step: Step, p: Path, supply: int)
    requires Inv(w) && Enabled(w, step.event) && Leaves(w, step, p, supply)
    requires Running(w.ledger, p) && step.event.Remove?
    ensures var t := Apply(w, step).ledger;
            && Drains(w.ledger, t, p, ThresholdAt(w.ledger.limits[p], supply))
            && Zeroings(t.log, p) == Zeroings(w.ledger.log, p) && t.epochs == w.ledger.epochs
  {
    var t := Apply(w, step).ledger;
    hide Threshold, Sound, Tracked, Potential, Slack, Windows;
    SameHistoryDrains(w.ledger, t, p, ThresholdAt(w.ledger.limits[p], supply));
  }

  lemma ResetStepDrains(w: World, step: Step, p: Path, supply: int)
    requires Inv(w) && Enabled(w, step.event) && Leaves(w, step, p, supply)
    requires Running(w.ledger, p) && step.event.Reset?
    ensures var t := Apply(w, step).ledger;
            && Drains(w.ledger, t, p, ThresholdAt(w.ledger.limits[p], supply))
            && Zeroings(t.log, p) == Zeroings(w.ledger.log, p) && t.epochs == w.ledger.epochs
  {
    var s, path, high := w.ledger, step.event.path, ThresholdAt(w.ledger.limits[p], supply);
    hide Threshold, Sound, Tracked, Potential, Slack, Zeroings, Windows;
    var at := Target(step.env, path);
    if at in s.limits {
      PathsAreKeys(s, at);
      var limit := s.limits[at].(flow := Flow(0, 0, ChannelValue(step.env, at.denom)));
      OtherWindowDrains(s, limit, p, high);
      ClearDrains(StartWindow(s, limit), path.channel, p, high);
      DrainsFurther(s, StartWindow(s, limit), ClearPending(StartWindow(s, limit), path.channel), p, high);
    } else {
      SameHistoryDrains(s, s, p, high);
    }
  }

  lemma PathsAreKeys(s: Ledger, p: Path)
    requires Sound(s) && p in s.limits
    ensures s.limits[p].path == p
  {
  }

  lemma SameHistoryDrains(s: Ledger, t: Ledger, p: Path, high: int)
    requires Running(s, p) && Running(t, p) && t.limits[p] == s.limits[p] && t.log == s.log
    ensures Drains(s, t, p, high)
  {
    hide Threshold;
  }

  lemma PacketStepDrains(w: World, step: Step, p: Path, supply: int)
    requires Inv(w) && Enabled(w, step.event)
    requires Running(w.ledger, p)
    requires !step.event.Add? && !step.event.Update? && !step.event.Remove? && !step.event.Reset?
             && !step.event.Block?
    ensures var t := Apply(w, step).ledger;
            && Drains(w.ledger, t, p, ThresholdAt(w.ledger.limits[p], supply))
            && Zeroings(t.log, p) == Zeroings(w.ledger.log, p) && t.epochs == w.ledger.epochs
  {
    var s := w.ledger;
    var high := ThresholdAt(s.limits[p], supply);
    hide Threshold, Sound, Tracked, Potential, Slack, Zeroings, Windows;
    match step.event {
      case Send(_, _) => CountedStepDrains(w, step, p, high);
      case Receive(_, _) => CountedStepDrains(w, step, p, high);
      case AckError(id) => UndoingDrains(s, w.inflight[id], id, p, high);
      case Timeout(id) => UndoingDrains(s, w.inflight[id], id, p, high);
      case AckResult(_) => SameHistoryDrains(s, Apply(w, step).ledger, p, high);
      case SetWhitelisted(_) => SameHistoryDrains(s, Apply(w, step).ledger, p, high);
      case UnsetWhitelisted(_) => SameHistoryDrains(s, Apply(w, step).ledger, p, high);
    }
  }

  lemma CountedStepDrains(w: World, step: Step, p: Path, high: int)
    requires Inv(w) && Enabled(w, step.event) && Running(w.ledger, p)
    requires step.event.Send? || step.event.Receive?
    ensures var t := Apply(w, step).ledger;
            && Drains(w.ledger, t, p, high)
            && Zeroings(t.log, p) == Zeroings(w.ledger.log, p) && t.epochs == w.ledger.epochs
  {
    var s := w.ledger;
    hide Threshold, Sound, Tracked, Total, Caps, Slack, Zeroings, Windows;
    match step.event {
      case Send(info, sequence) =>
        CountingDrains(s, SEND, info, PacketId(info.channel, sequence), p, high);
      case Receive(info, _) =>
        CountingDrains(s, RECV, info, PacketId("", 0), p, high);
    }
  }

  lemma CountingDrains(s: Ledger, dir: Direction, info: PacketInfo, id: PacketId, p: Path, high: int)
    requires Running(s, p)
    ensures var v := CheckRateLimitAndUpdateFlow(s, dir, info, id);
            v.Counted? ==> Drains(s, v.ledger, p, high) && Zeroings(v.ledger.log, p) == Zeroings(s.log, p)
  {
    var v := CheckRateLimitAndUpdateFlow(s, dir, info, id);
    if v.Counted? {
      ThresholdIgnoresFlow(s, v.ledger, p);
      hide Threshold;
    }
  }

  lemma UndoingDrains(s: Ledger, info: PacketInfo, id: PacketId, p: Path, high: int)
    requires Running(s, p)
    ensures Drains(s, UndoSendPacket(s, info, id), p, high)
    ensures Zeroings(UndoSendPacket(s, info, id).log, p) == Zeroings(s.log, p)
  {
    ThresholdIgnoresFlow(s, UndoSendPacket(s, info, id), p);
    hide Threshold;
  }

  lemma ThresholdIgnoresFlow(s: Ledger, t: Ledger, p: Path)
    ensures p in s.limits && p in t.limits && t.limits[p].quota == s.limits[p].quota
            && t.limits[p].minRateLimitAmount == s.limits[p].minRateLimitAmount
            && t.limits[p].flow.channelValue == s.limits[p].flow.channelValue
            ==> Threshold(t.limits[p], SEND) == Threshold(s.limits[p], SEND)
  {
  }

  /** How often a run resets the path, read off the clocks, the registrations and the
      limits at each of its blocks. */
  ghost function RunHits(w: World, run: seq<Step>, p: Path): nat
    requires Inv(w) && Possible(w, run)
    decreases run
  {
    if run == [] then 0
    else
      StepKeepsInv(w, run[0]);
      StepHits(w.ledger, run[0], p) + RunHits(Apply(w, run[0]), run[1..], p)
  }

  lemma {:induction false} RunDrains(w: World, run: seq<Step>, p: Path, supply: int)
    requires Inv(w) && Possible(w, run) && LeavesRun(w, run, p, supply) && Running(w.ledger, p)
    ensures var t := Exec(w, run).ledger;
            && Drains(w.ledger, t, p, ThresholdAt(w.ledger.limits[p], supply))
            && Zeroings(t.log, p) == Zeroings(w.ledger.log, p) + RunHits(w, run, p)
    decreases run
  {
    if run == [] {
      NothingPasses(w.ledger, Env(map[], map[]), p, supply);
      return;
    }
    var v := Apply(w, run[0]);
    StepKeepsInv(w, run[0]);
    StepDrains(w, run[0], p, supply);
    SameThreshold(w.ledger, v.ledger, p, supply);
    assert Exec(w, run) == Exec(v, run[1..]);
    assert Possible(v, run[1..]) && LeavesRun(v, run[1..], p, supply);
    hide Inv, Exec, Possible, LeavesRun, Apply, Threshold, Potential, Slack, StepHits, Zeroings;
    RunDrains(v, run[1..], p, supply);
    DrainsFurther(w.ledger, v.ledger, Exec(v, run[1..]).ledger, p, ThresholdAt(w.ledger.limits[p], supply));
  }

  /** The drain bound.  Over any run that leaves a limit alone, under whatever names it
      goes meanwhile, it is reset exactly as often as due limits stood for its path at
      an hour's end; and what leaves through it, net, together with what had already
      left in the first window, is at most the thresholds of the first window and of
      those that the resets opened. */
  lemma Drain(w: World, run: seq<Step>, p: Path, supply: int)
    requires Inv(w) && Possible(w, run) && LeavesRun(w, run, p, supply) && Running(w.ledger, p)
    ensures var s, t := w.ledger, Exec(w, run).ledger;
            && Running(t, p)
            && Zeroings(t.log, p) - Zeroings(s.log, p) == RunHits(w, run, p)
            && Total(t.log, p) - Total(s.log, p) + Net(s.limits[p], SEND)
               <= Threshold(s.limits[p], SEND) + (Caps(t.log, p) - Caps(s.log, p))
            && Caps(t.log, p) - Caps(s.log, p) <= RunHits(w, run, p) * ThresholdAt(s.limits[p], supply)
  {
    hide Threshold, ThresholdAt, Inv, Exec, Possible, LeavesRun, RunHits, Potential, Slack, Total, Caps, Zeroings;
    var s, t := w.ledger, Exec(w, run).ledger;
    RunDrains(w, run, p, supply);
    RunKeepsInv(w, run);
    WithinThreshold(Exec(w, run), p);
    DrainedBy(s, t, p, ThresholdAt(s.limits[p], supply));
  }

  lemma WithinThreshold(w: World, p: Path)
    requires Inv(w) && Running(w.ledger, p)
    ensures Net(w.ledger.limits[p], SEND) <= Threshold(w.ledger.limits[p], SEND)
  {
    hide Tracked, Threshold;
    assert Accounted(w.ledger.limits[p], w.ledger.log, p);
  }

  /** What the potential and the slack say about totals and thresholds. */
  lemma DrainedBy(s: Ledger, t: Ledger, p: Path, high: int)
    requires Drains(s, t, p, high) && Net(t.limits[p], SEND) <= Threshold(t.limits[p], SEND)
    ensures Total(t.log, p) - Total(s.log, p) + Net(s.limits[p], SEND)
            <= Threshold(s.limits[p], SEND) + (Caps(t.log, p) - Caps(s.log, p))
    ensures Caps(t.log, p) - Caps(s.log, p) <= (Zeroings(t.log, p) - Zeroings(s.log, p)) * high
  {
    hide Threshold, Net, Total, Caps, Zeroings, Slack;
    SlackIsDifference(s.log, p, high);
    SlackIsDifference(t.log, p, high);
    Difference(Zeroings(t.log, p), Zeroings(s.log, p), high);
  }

  lemma Difference(x: int, y: int, z: int)
    ensures (x - y) * z == x * z - y * z
  {
  }

  // ------------------------------------------------- resets and windows of a run

  /** A block that ends an hour resets the path once if that ends a window of its own,
      and not otherwise. */
  predicate Regular(s: Ledger, step: Step, p: Path)
    requires WellFormed(s) && Running(s, p)
  {
    step.event.Block? && HourEnds(s, step.event.now, step.event.height) ==>
      HourHits(s, step.env, p)
      == if s.epochs[DAY_EPOCH].currentEpoch % s.limits[p].quota.durationHours == 0 then 1 else 0
  }

  /** The other limits that are due at the end of the hour under a name that stands for
      the path. */
  function OtherNames(s: Ledger, env: Env, p: Path): set<Path>
    requires WellFormed(s) && DAY_EPOCH in s.epochs
  {
    DueNames(s.limits, env, s.epochs[DAY_EPOCH].currentEpoch, p) - {p}
  }

  /** Regular is an hour's end exactly when no other due limit stands for the path; or,
      if the path is itself remapped when its window ends, just one in its place. */
  lemma RegularIff(s: Ledger, step: Step, p: Path)
    requires WellFormed(s) && Running(s, p)
    requires step.event.Block? && HourEnds(s, step.event.now, step.event.height)
    ensures var ends := s.epochs[DAY_EPOCH].currentEpoch % s.limits[p].quota.durationHours == 0;
            Regular(s, step, p) <==>
            if ends && Target(step.env, p) != p then |OtherNames(s, step.env, p)| == 1
            else OtherNames(s, step.env, p) == {}
  {
    hide HourHits, HourEnds, Target, OnChannels, Potential, Slack, Threshold;
    HitsAreDueNames(s, step.env, p);
    Without(DueNames(s.limits, step.env, s.epochs[DAY_EPOCH].currentEpoch, p), p);
  }

  lemma Without(due: set<Path>, p: Path)
    ensures |due| == |due - {p}| + if p in due then 1 else 0
    ensures |due - {p}| == 0 <==> due - {p} == {}
  {
    assert due == if p in due then (due - {p}) + {p} else due - {p};
  }

  /** A step resets the path as often as it ends a window, if and only if it is regular. */
  lemma OnTimeIff(w: World, step: Step, p: Path, supply: int)
    requires Inv(w) && Enabled(w, step.event) && Leaves(w, step, p, supply) && Running(w.ledger, p)
    requires w.ledger.epochs[DAY_EPOCH].currentEpoch >= 1
    ensures var t := Apply(w, step).ledger;
            Running(t, p) && t.epochs[DAY_EPOCH].currentEpoch >= 1
            && (OnTime(w.ledger, t, p) <==> Regular(w.ledger, step, p))
  {
    hide Inv, WellFormed, Enabled, Apply, Leaves, OnTime, Regular, StepPasses;
    InvIsWellFormed(w);
    StepDrains(w, step, p, supply);
    OnTimeIfRegular(w.ledger, Apply(w, step).ledger, step, p, supply);
  }

  lemma OnTimeIfRegular(s: Ledger, t: Ledger, step: Step, p: Path, supply: int)
    requires WellFormed(s) && Running(s, p) && StepPasses(s, t, step, p, supply)
    requires s.epochs[DAY_EPOCH].currentEpoch >= 1
    ensures Running(t, p) && t.epochs[DAY_EPOCH].currentEpoch >= 1
    ensures OnTime(s, t, p) <==> Regular(s, step, p)
  {
    hide WellFormed, Zeroings, HourHits, HourEnds, Potential, Slack, Threshold, ThresholdAt, Windows;
    WindowEnds(s.epochs[DAY_EPOCH].currentEpoch, s.limits[p].quota.durationHours);
  }

  /** Every step of a run resets the path as often as it ends a window. */
  ghost predicate OnTimeThroughout(w: World, run: seq<Step>, p: Path)
    requires Inv(w) && Possible(w, run)
    decreases run
  {
    run != [] ==>
      (StepKeepsInv(w, run[0]);
       var v := Apply(w, run[0]);
       && Running(w.ledger, p) && Running(v.ledger, p) && OnTime(w.ledger, v.ledger, p)
       && OnTimeThroughout(v, run[1..], p))
  }

  ghost predicate RegularRun(w: World, run: seq<Step>, p: Path)
    requires Inv(w) && Possible(w, run)
    decreases run
  {
    run != [] ==>
      (StepKeepsInv(w, run[0]);
       && Running(w.ledger, p) && Regular(w.ledger, run[0], p) && RegularRun(Apply(w, run[0]), run[1..], p))
  }

  /** The first step of a run and the rest of it. */
  lemma FirstOfRun(w: World, run: seq<Step>, p: Path, supply: int)
    requires Inv(w) && Possible(w, run) && LeavesRun(w, run, p, supply) && run != []
    ensures WellFormed(w.ledger) && Enabled(w, run[0].event) && Leaves(w, run[0], p, supply)
    ensures var v := Apply(w, run[0]);
            && Inv(v) && Possible(v, run[1..]) && LeavesRun(v, run[1..], p, supply)
            && Exec(w, run) == Exec(v, run[1..])
            && (OnTimeThroughout(w, run, p) <==>
                  && Running(w.ledger, p) && Running(v.ledger, p) && OnTime(w.ledger, v.ledger, p)
                  && OnTimeThroughout(v, run[1..], p))
            && (RegularRun(w, run, p) <==>
                  Running(w.ledger, p) && Regular(w.ledger, run[0], p) && RegularRun(v, run[1..], p))
  {
    StepKeepsInv(w, run[0]);
    hide Inv, Enabled, Leaves, Apply, Running, OnTime, Regular;
  }

  /** A run resets the path at every moment exactly once per whole window that has
      passed, if and only if every hour's end in it is regular. */
  lemma {:induction false} DrainOnTimeIff(w: World, run: seq<Step>, p: Path, supply: int)
    requires Inv(w) && Possible(w, run) && LeavesRun(w, run, p, supply) && Running(w.ledger, p)
    requires w.ledger.epochs[DAY_EPOCH].currentEpoch >= 1
    ensures OnTimeThroughout(w, run, p) <==> RegularRun(w, run, p)
    decreases run
  {
    if run == [] {
      return;
    }
    FirstOfRun(w, run, p, supply);
    hide Inv, Enabled, Possible, Apply, Exec, Leaves, LeavesRun, Regular, RegularRun, OnTime, OnTimeThroughout;
    OnTimeIff(w, run[0], p, supply);
    DrainOnTimeIff(Apply(w, run[0]), run[1..], p, supply);
  }

  lemma {:induction false} OnTimeInAll(w: World, run: seq<Step>, p: Path, supply: int)
    requires Inv(w) && Possible(w, run) && LeavesRun(w, run, p, supply) && Running(w.ledger, p)
    requires w.ledger.epochs[DAY_EPOCH].currentEpoch >= 1 && RegularRun(w, run, p)
    ensures Running(Exec(w, run).ledger, p) && OnTime(w.ledger, Exec(w, run).ledger, p)
    decreases run
  {
    if run == [] {
      return;
    }
    FirstOfRun(w, run, p, supply);
    hide Inv, Enabled, Possible, Apply, Exec, Leaves, LeavesRun, Regular, RegularRun, StepPasses, OnTime, Running,
      Zeroings, Drains;
    var s, v, t := w.ledger, Apply(w, run[0]), Exec(w, run).ledger;
    OnTimeIff(w, run[0], p, supply);
    StepDrains(w, run[0], p, supply);
    OnTimeInAll(v, run[1..], p, supply);
    OnTimeTwice(s, v.ledger, t, run[0], p, supply);
  }

  /** And then it resets the path once per whole window in all. */
  lemma RegularRunIsOnTime(w: World, run: seq<Step>, p: Path, supply: int)
    requires Inv(w) && Possible(w, run) && LeavesRun(w, run, p, supply) && Running(w.ledger, p)
    requires w.ledger.epochs[DAY_EPOCH].currentEpoch >= 1 && RegularRun(w, run, p)
    ensures var s, t := w.ledger, Exec(w, run).ledger;
            var h := s.limits[p].quota.durationHours;
            && Running(t, p)
            && Zeroings(t.log, p) - Zeroings(s.log, p)
               == (t.epochs[DAY_EPOCH].currentEpoch - 1) / h - (s.epochs[DAY_EPOCH].currentEpoch - 1) / h
  {
    hide Inv, Possible, LeavesRun, RegularRun, Exec, Zeroings;
    RunDrains(w, run, p, supply);
    OnTimeInAll(w, run, p, supply);
  }

  lemma OnTimeTwice(s: Ledger, v: Ledger, t: Ledger, step: Step, p: Path, supply: int)
    requires WellFormed(s) && Running(s, p) && Running(v, p) && Running(t, p)
    requires StepPasses(s, v, step, p, supply) && OnTime(s, v, p) && OnTime(v, t, p)
    ensures OnTime(s, t, p)
  {
    hide Zeroings, Potential, Slack, Threshold, ThresholdAt, StepHits, HourEnds, Windows, WellFormed;
  }

  /** While a path goes by one name only, every hour's end is regular. */
  lemma SeparateIsRegular(s: Ledger, step: Step, p: Path)
    requires WellFormed(s) && Running(s, p) && Separate(step.env, s, p)
    ensures Regular(s, step, p)
  {
    SeparateHits(s, step.env, p);
    hide Separate, HourHits, HourEnds, WellFormed;
  }
}
