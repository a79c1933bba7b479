/**
 Outflow covers what may still be taken back.  As long as limits are only updated
 or removed when nothing of their path is pending, the outflow of a path is at
 least the sum of its pending amounts, and so never negative; an update or a
 removal at any other moment can drive it below zero.
 */
module PendingCover {
  import opened Basics
  import opened StoreKeys
  import opened EpochClock
  import opened FlowLedger
  import opened LedgerRuns
  import KVStore

  // ---------------------------------------------------------- sums over packets

  function Amounts(m: Packets): map<PacketId, int> {
    map id | id in m :: m[id].amount
  }

  // ---------------------------------------------------------------- the cover

  /** Packets of a path that are in flight and may still be taken back. */
  function PendingOf(s: Ledger, inflight: Packets, p: Path): (ids: set<PacketId>)
    ensures ids <= inflight.Keys
  {
    set id | id in s.pending && id in inflight && PathOf(inflight[id]) == p
  }

  /** Nothing is pending for a path without a limit, and a limit's outflow is at
      least what is pending for it. */
  ghost predicate Covers(s: Ledger, inflight: Packets, p: Path) {
    if p in s.limits then s.limits[p].flow.outflow >= Sum(PendingOf(s, inflight, p), Amounts(inflight))
    else PendingOf(s, inflight, p) == {}
  }

  predicate Positive(inflight: Packets) {
    forall id :: id in inflight ==> inflight[id].amount > 0 && inflight[id].channel == id.channel
  }

  lemma FewerPending(s: Ledger, t: Ledger, inflight: Packets, p: Path)
    requires Positive(inflight) && t.pending <= s.pending && Covers(s, inflight, p)
    requires p in s.limits <==> p in t.limits
    requires p in s.limits ==> t.limits[p].flow.outflow >= s.limits[p].flow.outflow
    ensures Covers(t, inflight, p)
  {
    SumOfSubset(PendingOf(t, inflight, p), PendingOf(s, inflight, p), Amounts(inflight));
  }

  lemma SendKeepsCover(s: Ledger, inflight: Packets, info: PacketInfo, id: PacketId, p: Path)
    requires Positive(inflight) && info.amount > 0 && id !in inflight && id !in s.pending
    requires Covers(s, inflight, p)
    ensures Covers(SendPacket(s, info, id), inflight[id := info], p)
  {
    var t, m := SendPacket(s, info, id), inflight[id := info];
    var was, now := PendingOf(s, inflight, p), PendingOf(t, m, p);
    SumAgrees(was, Amounts(inflight), Amounts(m));
    if id in now {
      assert now - {id} == was;
      SumSplit(now, Amounts(m), id);
    } else {
      assert now == was;
    }
  }

  lemma UndoKeepsCover(s: Ledger, inflight: Packets, id: PacketId, p: Path)
    requires Positive(inflight) && id in inflight && Covers(s, inflight, p)
    ensures Covers(UndoSendPacket(s, inflight[id], id), inflight - {id}, p)
  {
    var t, m := UndoSendPacket(s, inflight[id], id), inflight - {id};
    var was, now := PendingOf(s, inflight, p), PendingOf(t, m, p);
    assert now == was - {id};
    SumAgrees(now, Amounts(inflight), Amounts(m));
    SumOfSubset(now, was, Amounts(inflight));
    if id in was {
      SumSplit(was, Amounts(inflight), id);
    }
  }

  lemma SettleKeepsCover(s: Ledger, inflight: Packets, id: PacketId, p: Path)
    requires Positive(inflight) && id in inflight && Covers(s, inflight, p)
    ensures Covers(AcknowledgeSuccess(s, id), inflight - {id}, p)
  {
    var t, m := AcknowledgeSuccess(s, id), inflight - {id};
    var was, now := PendingOf(s, inflight, p), PendingOf(t, m, p);
    assert now == was - {id};
    SumAgrees(now, Amounts(inflight), Amounts(m));
    SumOfSubset(now, was, Amounts(inflight));
  }

  lemma ReceiveKeepsCover(s: Ledger, inflight: Packets, info: PacketInfo, p: Path)
    requires Positive(inflight) && Covers(s, inflight, p)
    ensures Covers(ReceivePacket(s, info), inflight, p)
  {
    FewerPending(s, ReceivePacket(s, info), inflight, p);
  }

  /** A reset zeroes the outflow of its path, but also settles all of its packets. */
  lemma ResetKeepsCover(s: Ledger, inflight: Packets, env: Env, path: Path, p: Path)
    requires WellFormed(s) && Positive(inflight) && Covers(s, inflight, p)
    ensures Covers(Committed(s, ResetRateLimit(s, env, path)), inflight, p)
  {
    var t := Committed(s, ResetRateLimit(s, env, path));
    if p == Target(env, path) && p in s.limits {
      assert PendingOf(t, inflight, p) == {};
    } else {
      FewerPending(s, t, inflight, p);
    }
  }

  lemma {:induction false} ResetDueKeepsCover(s: Ledger, inflight: Packets, env: Env, hour: nat,
                                              due: seq<RateLimit>, p: Path)
    requires forall i :: 0 <= i < |due| ==> due[i].quota.durationHours > 0
    requires WellFormed(s) && Positive(inflight) && Covers(s, inflight, p)
    ensures Covers(ResetDue(s, env, hour, due), inflight, p)
    decreases due
  {
    if due == [] {
      return;
    }
    var t := ResetOne(s, env, hour, due[0]);
    ResetKeepsCover(s, inflight, env, due[0].path, p);
    ResetDueKeepsCover(t, inflight, env, hour, due[1..], p);
  }

  lemma {:induction false} RunEpochsKeepsCover(s: Ledger, inflight: Packets, env: Env,
                                               now: int, height: int, ids: seq<string>, p: Path)
    requires WellFormed(s) && Positive(inflight) && Covers(s, inflight, p)
    requires forall id :: id in ids ==> id in s.epochs
    ensures Covers(RunEpochs(s, env, now, height, ids), inflight, p)
    decreases ids
  {
    if ids == [] {
      return;
    }
    hide WellFormed, Positive, Covers, EpochStep, TickAt;
    assert ids[0] in ids;
    EpochStepKeepsCover(s, inflight, env, now, height, ids[0], p);
    if !TickAt(s.epochs[ids[0]], now, height).NotYet? {
      RunEpochsKeepsCover(EpochStep(s, env, now, height, ids[0]), inflight, env, now, height, ids[1..], p);
    }
  }

  lemma EpochStepKeepsCover(s: Ledger, inflight: Packets, env: Env, now: int, height: int, id: string, p: Path)
    requires WellFormed(s) && Positive(inflight) && Covers(s, inflight, p) && id in s.epochs
    ensures Covers(EpochStep(s, env, now, height, id), inflight, p)
  {
    var e, t := s.epochs[id], EpochStep(s, env, now, height, id);
    if TickAt(e, now, height).Ends? && e.identifier == DAY_EPOCH {
      LimitsHaveDurations(s);
      ResetDueKeepsCover(s, inflight, env, e.currentEpoch, AllRateLimits(s.limits), p);
      FewerPending(AfterEpochEnd(s, env, e), t, inflight, p);
    } else {
      FewerPending(s, t, inflight, p);
    }
    hide Covers, Positive;
  }

  /** Starting a window in place of an old one keeps the cover exactly when nothing
      of the path is pending. */
  lemma StartWindowCoversIff(s: Ledger, inflight: Packets, limit: RateLimit)
    requires Positive(inflight) && limit.flow.outflow == 0
    ensures Covers(StartWindow(s, limit), inflight, limit.path) <==> PendingOf(s, inflight, limit.path) == {}
  {
    var ids := PendingOf(s, inflight, limit.path);
    assert PendingOf(StartWindow(s, limit), inflight, limit.path) == ids;
    SumOfSubset({}, ids, Amounts(inflight));
    assert ids == {} ==> Sum(ids, Amounts(inflight)) == 0;
  }

  /** Removing a limit keeps the cover exactly when nothing of the path is pending. */
  lemma RemoveCoversIff(s: Ledger, inflight: Packets, p: Path)
    requires p in s.limits
    ensures Covers(s.(limits := s.limits - {p}), inflight, p) <==> PendingOf(s, inflight, p) == {}
  {
    assert PendingOf(s.(limits := s.limits - {p}), inflight, p) == PendingOf(s, inflight, p);
  }

  /** Updates and removals only when nothing of their path is pending. */
  predicate Disciplined(w: World, step: Step) {
    match step.event
    case Update(m) => PendingOf(w.ledger, w.inflight, Target(step.env, m.path)) == {}
    case Remove(path) => PendingOf(w.ledger, w.inflight, Target(step.env, path)) == {}
    case _ => true
  }

  lemma StepKeepsCoverOf(w: World, step: Step, p: Path)
    requires Inv(w) && Enabled(w, step.event) && Disciplined(w, step)
    requires Covers(w.ledger, w.inflight, p)
    ensures Covers(Apply(w, step).ledger, Apply(w, step).inflight, p)
  {
    var s, m, env := w.ledger, w.inflight, step.env;
    match step.event {
      case Send(info, sequence) =>
        SendKeepsCover(s, m, info, PacketId(info.channel, sequence), p);
      case Receive(info, _) => ReceiveKeepsCover(s, m, info, p);
      case AckResult(id) => SettleKeepsCover(s, m, id, p);
      case AckError(id) => UndoKeepsCover(s, m, id, p);
      case Timeout(id) => UndoKeepsCover(s, m, id, p);
      case Block(now, height) =>
        RunEpochsKeepsCover(s, m, env, now, height, KVStore.SortedKeys(s.epochs.Keys), p);
      case Reset(path) => ResetKeepsCover(s, m, env, path, p);
      case _ => AdminKeepsCoverOf(w, step, p);
    }
  }

  lemma InvIsPositive(w: World)
    requires Inv(w)
    ensures WellFormed(w.ledger) && Positive(w.inflight)
  {
  }

  /** A new window, for a path of which nothing is pending. */
  lemma WindowKeepsCover(s: Ledger, inflight: Packets, limit: RateLimit, p: Path)
    requires Positive(inflight) && limit.flow.outflow == 0 && Covers(s, inflight, p)
    requires p == limit.path ==> PendingOf(s, inflight, p) == {}
    ensures Covers(StartWindow(s, limit), inflight, p)
  {
    if p == limit.path {
      StartWindowCoversIff(s, inflight, limit);
    } else {
      assert PendingOf(StartWindow(s, limit), inflight, p) == PendingOf(s, inflight, p);
    }
    hide Sum;
  }

  lemma RemovalKeepsCover(s: Ledger, inflight: Packets, q: Path, p: Path)
    requires Covers(s, inflight, p) && (p == q ==> PendingOf(s, inflight, p) == {})
    ensures Covers(s.(limits := s.limits - {q}), inflight, p)
  {
    assert PendingOf(s.(limits := s.limits - {q}), inflight, p) == PendingOf(s, inflight, p);
    hide Sum;
  }

  lemma AdminKeepsCoverOf(w: World, step: Step, p: Path)
    requires Inv(w) && Enabled(w, step.event) && Disciplined(w, step)
    requires step.event.Add? || step.event.Update? || step.event.Remove?
             || step.event.SetWhitelisted? || step.event.UnsetWhitelisted?
    requires Covers(w.ledger, w.inflight, p)
    ensures Covers(Apply(w, step).ledger, Apply(w, step).inflight, p)
  {
    InvIsPositive(w);
    var s, m, env := w.ledger, w.inflight, step.env;
    if step.event.Add? || step.event.Update? {
      var msg := step.event.msg;
      var limit := Fresh(env, Target(env, msg.path), msg.quota, msg.minRateLimitAmount);
      if limit.path != p || PendingOf(s, m, p) == {} {
        WindowKeepsCover(s, m, limit, p);
      }
    } else if step.event.Remove? && Target(env, step.event.path) in s.limits {
      RemovalKeepsCover(s, m, Target(env, step.event.path), p);
    } else {
      WhitelistIsNoCover(s, Apply(w, step).ledger, m, p);
    }
    hide Inv, Sum, Enabled, StartWindow;
  }

  lemma WhitelistIsNoCover(s: Ledger, t: Ledger, inflight: Packets, p: Path)
    requires Covers(s, inflight, p) && t.limits == s.limits && t.pending == s.pending
    ensures Covers(t, inflight, p)
  {
    assert PendingOf(t, inflight, p) == PendingOf(s, inflight, p);
  }

  ghost predicate DisciplinedRun(w: World, run: seq<Step>)
    requires Inv(w) && Possible(w, run)
    decreases run
  {
    run != [] ==>
      && Disciplined(w, run[0])
      && (StepKeepsInv(w, run[0]); DisciplinedRun(Apply(w, run[0]), run[1..]))
  }

  lemma {:induction false} RunKeepsCoverOf(w: World, run: seq<Step>, p: Path)
    requires Inv(w) && Possible(w, run) && DisciplinedRun(w, run)
    requires Covers(w.ledger, w.inflight, p)
    ensures Covers(Exec(w, run).ledger, Exec(w, run).inflight, p)
    decreases run
  {
    if run == [] {
      return;
    }
    StepKeepsInv(w, run[0]);
    StepKeepsCoverOf(w, run[0], p);
    RunKeepsCoverOf(Apply(w, run[0]), run[1..], p);
  }

  /** In every disciplined run from an empty ledger a limit's outflow is at least
      the sum of its pending amounts, and so at least zero. */
  lemma OutflowCoversPending(w: World, run: seq<Step>, p: Path)
    requires FromStart(w, run) && DisciplinedRun(w, run)
    requires p in Exec(w, run).ledger.limits
    ensures var v := Exec(w, run);
            v.ledger.limits[p].flow.outflow >= Sum(PendingOf(v.ledger, v.inflight, p), Amounts(v.inflight)) >= 0
  {
    assert PendingOf(w.ledger, w.inflight, p) == {};
    RunKeepsCoverOf(w, run, p);
    RunKeepsInv(w, run);
    var v := Exec(w, run);
    SumOfSubset({}, PendingOf(v.ledger, v.inflight, p), Amounts(v.inflight));
  }

  /** Without the discipline the outflow goes negative: update the limit of a
      pending packet, then let the packet time out. */
  lemma UpdateThenTimeout(w: World, update: Step, timeout: Step, id: PacketId)
    requires Inv(w) && id in w.ledger.pending && id in w.inflight
    requires update.event.Update? && Enabled(w, update.event)
    requires Target(update.env, update.event.msg.path) == PathOf(w.inflight[id])
    requires PathOf(w.inflight[id]) in w.ledger.limits
    requires timeout.event == Timeout(id)
    ensures var u := Apply(w, update);
            && WellFormed(u.ledger) && Enabled(u, timeout.event)
            && PathOf(w.inflight[id]) in Apply(u, timeout).ledger.limits
            && Apply(u, timeout).ledger.limits[PathOf(w.inflight[id])].flow.outflow == -w.inflight[id].amount
            && -w.inflight[id].amount < 0
  {
    StepKeepsInv(w, update);
  }
}
