/**
 What the packets and messages of the rate limiter do, said in the fields of a limit
 and of the other modules' records alone; and, over whole runs, where a limit's
 settings come from and what becomes of a packet that has been settled.
 */
module LedgerEffects {
  import opened Basics
  import opened StoreKeys
  import opened EpochClock
  import opened FlowLedger
  import opened LedgerRuns
  import opened ClockRuns
  import KVStore
  import LegacyDec

  // --------------------------------------------------------------- deciding packets

  /** An amount above both the minimum and a percentage of what is there. */
  predicate Above(amount: int, percent: int, value: int, least: int) {
    value != 0 && amount > least && amount > LegacyDec.TruncQuo(value * percent, 100)
  }

  /** A packet is passed over exactly if its path has no limit, or something other than
      two empty addresses is stored under its sender and receiver written together. */
  lemma IgnoredIff(s: Ledger, dir: Direction, info: PacketInfo, id: PacketId)
    ensures CheckRateLimitAndUpdateFlow(s, dir, info, id).Ignored? <==>
            || Path(info.denom, info.channel) !in s.limits
            || (info.sender + info.receiver in s.whitelist
                && s.whitelist[info.sender + info.receiver] != AddressPair("", ""))
  {
  }

  /** On a limited path, with nothing stored under its two addresses, a receipt is
      denied exactly if the net inflow with it is above the minimum and above the
      receiving percentage; otherwise it raises the inflow, and only that. */
  lemma ReceiptIsDeniedIff(s: Ledger, info: PacketInfo, id: PacketId)
    requires Path(info.denom, info.channel) in s.limits && info.sender + info.receiver !in s.whitelist
    ensures var p, v := Path(info.denom, info.channel), CheckRateLimitAndUpdateFlow(s, RECV, info, id);
            var was, flow := s.limits[p], s.limits[p].flow;
            && (v.Denied? <==> Above(flow.inflow - flow.outflow + info.amount, was.quota.maxPercentRecv,
                                     flow.channelValue, was.minRateLimitAmount))
            && (!v.Denied? ==>
                  && v.Counted? && v.ledger.limits.Keys == s.limits.Keys && v.ledger.pending == s.pending
                  && v.ledger.limits[p] == RateLimit(was.path, was.quota, flow.(inflow := flow.inflow + info.amount),
                                                     was.minRateLimitAmount)
                  && forall q :: q in s.limits && q != p ==> v.ledger.limits[q] == s.limits[q])
  {
  }

  /** A send likewise, by the net outflow and the sending percentage. */
  lemma SendIsDeniedIff(s: Ledger, info: PacketInfo, id: PacketId)
    requires Path(info.denom, info.channel) in s.limits && info.sender + info.receiver !in s.whitelist
    ensures var p, v := Path(info.denom, info.channel), CheckRateLimitAndUpdateFlow(s, SEND, info, id);
            var was, flow := s.limits[p], s.limits[p].flow;
            && (v.Denied? <==> Above(flow.outflow - flow.inflow + info.amount, was.quota.maxPercentSend,
                                     flow.channelValue, was.minRateLimitAmount))
            && (!v.Denied? ==>
                  && v.Counted? && v.ledger.limits.Keys == s.limits.Keys && v.ledger.pending == s.pending
                  && v.ledger.limits[p] == RateLimit(was.path, was.quota, flow.(outflow := flow.outflow + info.amount),
                                                     was.minRateLimitAmount)
                  && forall q :: q in s.limits && q != p ==> v.ledger.limits[q] == s.limits[q])
  {
  }

  /** The two percentages are not mixed up: with 10 per cent out and 50 in of a value of
      100, a receipt of 20 is counted and a send of 20 denied. */
  lemma PercentagesApart(s: Ledger, info: PacketInfo, id: PacketId)
    requires Path(info.denom, info.channel) in s.limits && info.sender + info.receiver !in s.whitelist
    requires s.limits[Path(info.denom, info.channel)].quota == Quota(10, 50, 24)
    requires s.limits[Path(info.denom, info.channel)].flow == Flow(0, 0, 100)
    requires s.limits[Path(info.denom, info.channel)].minRateLimitAmount == 1 && info.amount == 20
    ensures CheckRateLimitAndUpdateFlow(s, RECV, info, id).Counted?
    ensures CheckRateLimitAndUpdateFlow(s, SEND, info, id).Denied?
  {
    ReceiptIsDeniedIff(s, info, id);
    SendIsDeniedIff(s, info, id);
  }

  // ------------------------------------------------------------ setting limits up

  /** A limit at the start of a window, in its fields. */
  predicate Stands(limit: RateLimit, at: Path, m: LimitMsg, value: nat) {
    && limit.path == at && limit.minRateLimitAmount == m.minRateLimitAmount
    && limit.quota.maxPercentSend == m.quota.maxPercentSend
    && limit.quota.maxPercentRecv == m.quota.maxPercentRecv
    && limit.quota.durationHours == m.quota.durationHours
    && limit.flow.inflow == 0 && limit.flow.outflow == 0 && limit.flow.channelValue == value
  }

  /** A message's path, or, for a native name registered on its channel, its voucher's. */
  function Meant(env: Env, path: Path): Path {
    if path.denom in env.registered && env.registered[path.denom].channelID == path.channel
    then path.(denom := env.registered[path.denom].ibcDenom)
    else path
  }

  function SupplyOf(env: Env, denom: string): nat { if denom in env.supply then env.supply[denom] else 0 }

  predicate OthersStay(s: Ledger, t: Ledger, at: Path) {
    && t.limits.Keys == s.limits.Keys + {at}
    && (forall q :: q in s.limits && q != at ==> t.limits[q] == s.limits[q])
    && t.pending == s.pending && t.whitelist == s.whitelist && t.epochs == s.epochs
  }

  /** An addition is refused for want of supply or because the path has a limit, in this
      order; otherwise the message's own settings stand on the path that is meant. */
  lemma AddInstalls(s: Ledger, env: Env, m: LimitMsg)
    ensures var at, r := Meant(env, m.path), AddRateLimit(s, env, m);
            && (r == Err(ZeroChannelValue) <==> SupplyOf(env, at.denom) == 0)
            && (r == Err(AlreadyExists) <==> SupplyOf(env, at.denom) != 0 && at in s.limits)
            && (SupplyOf(env, at.denom) != 0 && at !in s.limits ==>
                  r.Ok? && OthersStay(s, r.ledger, at) && Stands(r.ledger.limits[at], at, m, SupplyOf(env, at.denom)))
  {
  }

  /** An update is refused exactly if the path has no limit; otherwise the message's own
      settings replace the old ones, and the supply is taken anew. */
  lemma UpdateInstalls(s: Ledger, env: Env, m: LimitMsg)
    ensures var at, r := Meant(env, m.path), UpdateRateLimit(s, env, m);
            && (r == Err(NotFound) <==> at !in s.limits)
            && (at in s.limits ==>
                  r.Ok? && OthersStay(s, r.ledger, at) && Stands(r.ledger.limits[at], at, m, SupplyOf(env, at.denom)))
  {
  }

  /** A removal takes the limit of the path that is meant, and nothing else. */
  lemma RemovalRemoves(s: Ledger, env: Env, path: Path)
    ensures var at, r := Meant(env, path), RemoveRateLimit(s, env, path);
            && (r == Err(NotFound) <==> at !in s.limits)
            && (at in s.limits ==> r.Ok? && r.ledger.limits == s.limits - {at} && r.ledger.pending == s.pending
                                   && r.ledger.whitelist == s.whitelist && r.ledger.epochs == s.epochs)
  {
  }

  /** A reset keeps the settings, empties the flow, takes the supply anew and forgets the
      pending packets of every channel that starts like the given one. */
  lemma ResetEmpties(s: Ledger, env: Env, path: Path)
    requires WellFormed(s)
    ensures var at, r := Meant(env, path), ResetRateLimit(s, env, path);
            && (r == Err(NotFound) <==> at !in s.limits)
            && (at in s.limits ==>
                  && r.Ok? && r.ledger.limits.Keys == s.limits.Keys
                  && r.ledger.limits[at] == s.limits[at].(flow := Flow(0, 0, SupplyOf(env, at.denom)))
                  && (forall q :: q in s.limits && q != at ==> r.ledger.limits[q] == s.limits[q])
                  && (forall id :: id in r.ledger.pending <==> id in s.pending && !(path.channel <= id.channel)))
  {
  }

  // --------------------------------------------------------- settings over whole runs

  datatype Settings = Settings(quota: Quota, minRateLimitAmount: int)

  /** What a step's message leaves in force on a path. */
  function AfterMessage(step: Step, p: Path, before: Option<Settings>): Option<Settings> {
    match step.event
    case Add(m) =>
      if Meant(step.env, m.path) == p && SupplyOf(step.env, p.denom) != 0 && before.None?
      then Some(Settings(m.quota, m.minRateLimitAmount)) else before
    case Update(m) =>
      if Meant(step.env, m.path) == p && before.Some? then Some(Settings(m.quota, m.minRateLimitAmount)) else before
    case Remove(path) => if Meant(step.env, path) == p then None else before
    case _ => before
  }

  /** What the messages of a run leave in force on a path, read off the messages alone. */
  function InForce(run: seq<Step>, p: Path, before: Option<Settings>): Option<Settings> {
    if run == [] then before else InForce(run[1..], p, AfterMessage(run[0], p, before))
  }

  predicate Has(s: Ledger, p: Path, settings: Option<Settings>) {
    match settings
    case None => p !in s.limits
    case Some(x) => p in s.limits && Settings(s.limits[p].quota, s.limits[p].minRateLimitAmount) == x
  }

  /** A path has a limit in both states or in neither, with the same settings. */
  predicate SameSettings(s: Ledger, t: Ledger, p: Path) {
    && (p in s.limits <==> p in t.limits)
    && (p in s.limits ==> t.limits[p].quota == s.limits[p].quota
                          && t.limits[p].minRateLimitAmount == s.limits[p].minRateLimitAmount)
  }

  lemma ResetKeepsSettings(s: Ledger, env: Env, path: Path, p: Path)
    requires WellFormed(s)
    ensures SameSettings(s, Committed(s, ResetRateLimit(s, env, path)), p)
  {
    hide OnChannels;
  }

  lemma {:induction false} ResetDueKeepsSettings(s: Ledger, env: Env, hour: nat, due: seq<RateLimit>, p: Path)
    requires WellFormed(s) && forall i :: 0 <= i < |due| ==> due[i].quota.durationHours > 0
    ensures SameSettings(s, ResetDue(s, env, hour, due), p)
    decreases due
  {
    hide WellFormed, ResetRateLimit;
    if due != [] {
      ResetKeepsSettings(s, env, due[0].path, p);
      ResetDueKeepsSettings(ResetOne(s, env, hour, due[0]), env, hour, due[1..], p);
    }
  }

  lemma HourEndKeepsSettings(s: Ledger, env: Env, e: EpochInfo, p: Path)
    requires WellFormed(s) && e.currentEpoch >= 0
    ensures SameSettings(s, AfterEpochEnd(s, env, e), p)
  {
    LimitsHaveDurations(s);
    hide WellFormed, AllRateLimits, ResetDue;
    if e.identifier == DAY_EPOCH {
      ResetDueKeepsSettings(s, env, e.currentEpoch, AllRateLimits(s.limits), p);
    }
  }

  lemma EpochStepKeepsSettings(s: Ledger, env: Env, now: int, height: int, id: string, p: Path)
    requires WellFormed(s) && id in s.epochs
    ensures SameSettings(s, EpochStep(s, env, now, height, id), p)
  {
    hide OnChannels, AfterEpochEnd, TickAt;
    HourEndKeepsSettings(s, env, s.epochs[id], p);
  }

  lemma {:induction false} EpochsKeepSettings(s: Ledger, env: Env, now: int, height: int, ids: seq<string>, p: Path)
    requires WellFormed(s) && forall id :: id in ids ==> id in s.epochs
    ensures SameSettings(s, RunEpochs(s, env, now, height, ids), p)
    decreases ids
  {
    if ids != [] {
      assert ids[0] in ids;
      EpochStepKeepsSettings(s, env, now, height, ids[0], p);
      hide WellFormed, EpochStep;
      var t := EpochStep(s, env, now, height, ids[0]);
      EpochsKeepSettings(t, env, now, height, ids[1..], p);
    }
  }

  /** A block changes no limit's settings, and neither does a packet. */
  lemma BlockKeepsSettings(s: Ledger, env: Env, now: int, height: int, p: Path)
    requires WellFormed(s)
    ensures SameSettings(s, BeginBlocker(s, env, now, height), p)
  {
    EpochsKeepSettings(s, env, now, height, KVStore.SortedKeys(s.epochs.Keys), p);
  }

  lemma PacketKeepsSettings(w: World, step: Step, p: Path)
    requires Inv(w) && Enabled(w, step.event)
    requires !step.event.Block? && !step.event.Add? && !step.event.Update? && !step.event.Remove?
    ensures SameSettings(w.ledger, Apply(w, step).ledger, p)
  {
    InvIsWellFormed(w);
    hide Sound, Tracked, WellFormed, CheckRateLimitAndUpdateFlow, UndoSendPacket, ResetRateLimit, SameSettings;
    match step.event {
      case Send(info, sequence) =>
        CountingKeepsSettings(w.ledger, SEND, info, PacketId(info.channel, sequence), p);
        SamePath(w.ledger, Apply(w, step).ledger, p);
      case Receive(info, _) => CountingKeepsSettings(w.ledger, RECV, info, PacketId("", 0), p);
      case AckError(id) => UndoKeepsSettings(w.ledger, w.inflight[id], id, p);
      case Timeout(id) => UndoKeepsSettings(w.ledger, w.inflight[id], id, p);
      case Reset(path) => ResetKeepsSettings(w.ledger, step.env, path, p);
      case _ =>
    }
    SamePath(w.ledger, w.ledger, p);
    SamePath(w.ledger, Apply(w, step).ledger, p);
  }

  lemma SamePath(s: Ledger, t: Ledger, p: Path)
    ensures t.limits == s.limits ==> SameSettings(s, t, p)
  {
  }

  lemma CountingKeepsSettings(s: Ledger, dir: Direction, info: PacketInfo, id: PacketId, p: Path)
    ensures var v := CheckRateLimitAndUpdateFlow(s, dir, info, id);
            v.Counted? ==> SameSettings(s, v.ledger, p) && forall pending: set<PacketId> ::
              SameSettings(s, v.ledger.(pending := pending), p)
  {
    hide CheckExceedsQuota, IsWhitelisted;
  }

  lemma UndoKeepsSettings(s: Ledger, info: PacketInfo, id: PacketId, p: Path)
    ensures SameSettings(s, UndoSendPacket(s, info, id), p)
  {
  }

  lemma MessageInstalls(w: World, step: Step, p: Path, before: Option<Settings>)
    requires WellFormed(w.ledger) && Enabled(w, step.event) && Has(w.ledger, p, before)
    requires step.event.Add? || step.event.Update? || step.event.Remove?
    ensures Has(Apply(w, step).ledger, p, AfterMessage(step, p, before))
  {
    hide WellFormed, AddRateLimit, UpdateRateLimit, RemoveRateLimit, SupplyOf, Meant, ValidMsg;
    match step.event {
      case Add(m) => AddInstalls(w.ledger, step.env, m);
      case Update(m) => UpdateInstalls(w.ledger, step.env, m);
      case Remove(path) => RemovalRemoves(w.ledger, step.env, path);
    }
  }

  lemma StepInstalls(w: World, step: Step, p: Path, before: Option<Settings>)
    requires Inv(w) && Enabled(w, step.event) && Has(w.ledger, p, before)
    ensures Has(Apply(w, step).ledger, p, AfterMessage(step, p, before))
  {
    InvIsWellFormed(w);
    if step.event.Add? || step.event.Update? || step.event.Remove? {
      MessageInstalls(w, step, p, before);
    } else if step.event.Block? {
      BlockIsApplied(w, step);
      BlockKeepsSettings(w.ledger, step.env, step.event.now, step.event.height, p);
    } else {
      PacketKeepsSettings(w, step, p);
    }
    hide Inv, WellFormed, Apply, Enabled, BeginBlocker, Meant, SupplyOf;
  }

  lemma {:induction false} RunInstalls(w: World, run: seq<Step>, p: Path, before: Option<Settings>)
    requires Inv(w) && Possible(w, run) && Has(w.ledger, p, before)
    ensures Has(Exec(w, run).ledger, p, InForce(run, p, before))
    decreases run
  {
    hide Inv, Has, Apply, AfterMessage, WellFormed, Enabled;
    InvIsWellFormed(w);
    if run != [] {
      StepKeepsInv(w, run[0]);
      StepInstalls(w, run[0], p, before);
      RunInstalls(Apply(w, run[0]), run[1..], p, AfterMessage(run[0], p, before));
    }
  }

  /** In every run from an empty ledger the limits that stand, and their settings, are
      exactly what the messages of the run left in force. */
  lemma SettingsAreInForce(w: World, run: seq<Step>, p: Path)
    requires FromStart(w, run)
    ensures Has(Exec(w, run).ledger, p, InForce(run, p, None))
  {
    RunInstalls(w, run, p, None);
  }

  // ------------------------------------------------------------- settled packets

  /** A packet that has been sent and is not pending is never pending again. */
  lemma {:induction false} NeverPendingAgain(w: World, run: seq<Step>, id: PacketId)
    requires Inv(w) && Possible(w, run) && id in w.sent && id !in w.ledger.pending
    ensures id !in Exec(w, run).ledger.pending && id in Exec(w, run).sent
    decreases run
  {
    hide Inv, Apply, WellFormed, Enabled;
    InvIsWellFormed(w);
    if run != [] {
      StepKeepsInv(w, run[0]);
      NotPendingAfter(w, run[0], id);
      NeverPendingAgain(Apply(w, run[0]), run[1..], id);
    }
  }

  lemma NotPendingAfter(w: World, step: Step, id: PacketId)
    requires Inv(w) && Enabled(w, step.event) && id in w.sent && id !in w.ledger.pending
    ensures id !in Apply(w, step).ledger.pending && id in Apply(w, step).sent
  {
    InvIsWellFormed(w);
    hide Inv, WellFormed, CheckExceedsQuota, IsWhitelisted, Target, ChannelValue, BeginBlocker, ValidMsg, PathOf;
    if step.event.Block? {
      BlockIsApplied(w, step);
      BlockLeavesPending(w.ledger, step.env, step.event.now, step.event.height);
    }
  }

  lemma {:induction false} ResetDueLeavesPending(s: Ledger, env: Env, hour: nat, due: seq<RateLimit>)
    requires forall i :: 0 <= i < |due| ==> due[i].quota.durationHours > 0
    ensures ResetDue(s, env, hour, due).pending <= s.pending
    decreases due
  {
    if due != [] {
      ResetDueLeavesPending(ResetOne(s, env, hour, due[0]), env, hour, due[1..]);
    }
  }

  lemma EpochStepLeavesPending(s: Ledger, env: Env, now: int, height: int, id: string)
    requires WellFormed(s) && id in s.epochs
    ensures EpochStep(s, env, now, height, id).pending <= s.pending
  {
    LimitsHaveDurations(s);
    hide OnChannels, AllRateLimits, ResetDue, TickAt;
    ResetDueLeavesPending(s, env, s.epochs[id].currentEpoch, AllRateLimits(s.limits));
  }

  lemma {:induction false} EpochsLeavePending(s: Ledger, env: Env, now: int, height: int, ids: seq<string>)
    requires WellFormed(s) && forall id :: id in ids ==> id in s.epochs
    ensures RunEpochs(s, env, now, height, ids).pending <= s.pending
    decreases ids
  {
    if ids != [] {
      assert ids[0] in ids;
      EpochStepLeavesPending(s, env, now, height, ids[0]);
      hide WellFormed, EpochStep;
      EpochsLeavePending(EpochStep(s, env, now, height, ids[0]), env, now, height, ids[1..]);
    }
  }

  /** A block only ever takes pending marks away. */
  lemma BlockLeavesPending(s: Ledger, env: Env, now: int, height: int)
    requires WellFormed(s)
    ensures BeginBlocker(s, env, now, height).pending <= s.pending
  {
    EpochsLeavePending(s, env, now, height, KVStore.SortedKeys(s.epochs.Keys));
  }

  /** A packet whose success has been acknowledged is pending in no later state; the
      acknowledgement touches no other packet's mark and no limit. */
  lemma AcknowledgedIsSettled(w: World, env: Env, id: PacketId, run: seq<Step>)
    requires Inv(w) && Possible(w, [Step(env, AckResult(id))] + run)
    ensures id !in Exec(w, [Step(env, AckResult(id))] + run).ledger.pending
    ensures WellFormed(w.ledger) && Enabled(w, AckResult(id))
    ensures var t := Apply(w, Step(env, AckResult(id))).ledger;
            t.limits == w.ledger.limits && forall j :: j != id ==> (j in t.pending <==> j in w.ledger.pending)
  {
    var step := Step(env, AckResult(id));
    assert ([step] + run)[0] == step && ([step] + run)[1..] == run;
    InvIsWellFormed(w);
    StepKeepsInv(w, step);
    assert Exec(w, [step] + run) == Exec(Apply(w, step), run);
    NeverPendingAgain(Apply(w, step), run, id);
  }
}
