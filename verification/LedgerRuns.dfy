/**
 Whole runs of the rate-limit ledger.  A world is the ledger together with what
 IBC core keeps for it: which packets have been sent, and which of them are still
 in flight with what content.  Sequence numbers are used once, an acknowledgement
 or a timeout arrives at most once and for a packet in flight, amounts are
 positive, and a step that fails leaves no trace.
 */
module LedgerRuns {
  import opened StoreKeys
  import opened EpochClock
  import opened FlowLedger
  import KVStore
  import LegacyDec

  type Packets = map<PacketId, PacketInfo>

  datatype World = World(ledger: Ledger, inflight: Packets, sent: set<PacketId>)

  datatype Event =
    | Send(info: PacketInfo, sequence: nat)
    | Receive(info: PacketInfo, accepted: bool)
    | AckResult(id: PacketId)
    | AckError(id: PacketId)
    | Timeout(id: PacketId)
    | Add(msg: LimitMsg)
    | Update(msg: LimitMsg)
    | Remove(path: Path)
    | Reset(path: Path)
    | Block(now: int, height: int)
    | SetWhitelisted(pair: AddressPair)
    | UnsetWhitelisted(pair: AddressPair)

  /** An event, with what the other modules hold at that moment. */
  datatype Step = Step(env: Env, event: Event)

  /** MsgAddRateLimit.ValidateBasic, on an IBC channel. */
  predicate ValidMsg(m: LimitMsg) {
    && CanonicalChannel(m.path.channel)
    && 0 <= m.quota.maxPercentSend <= 100 && 0 <= m.quota.maxPercentRecv <= 100
    && (m.quota.maxPercentSend != 0 || m.quota.maxPercentRecv != 0)
    && m.minRateLimitAmount > 0 && m.quota.durationHours != 0
  }

  predicate Enabled(w: World, e: Event) {
    match e
    case Send(info, sequence) =>
      var id := PacketId(info.channel, sequence);
      info.amount > 0 && CanonicalPacket(id) && id !in w.sent
    case Receive(info, _) => info.amount > 0 && CanonicalChannel(info.channel)
    case AckResult(id) => id in w.inflight
    case AckError(id) => id in w.inflight
    case Timeout(id) => id in w.inflight
    case Add(m) => ValidMsg(m)
    case Update(m) => ValidMsg(m)
    case Remove(path) => CanonicalChannel(path.channel)
    case Reset(path) => CanonicalChannel(path.channel)
    case Block(_, _) => true
    case SetWhitelisted(_) => true
    case UnsetWhitelisted(_) => true
  }

  /** What a step does to the ledger. */
  function ApplyLedger(w: World, step: Step): Ledger
    requires WellFormed(w.ledger) && Enabled(w, step.event)
  {
    var s, env := w.ledger, step.env;
    match step.event
    case Send(info, sequence) => SendPacket(s, info, PacketId(info.channel, sequence))
    case Receive(info, accepted) => if accepted then ReceivePacket(s, info) else s
    case AckResult(id) => AcknowledgeSuccess(s, id)
    case AckError(id) => UndoSendPacket(s, w.inflight[id], id)
    case Timeout(id) => UndoSendPacket(s, w.inflight[id], id)
    case Add(m) => Committed(s, AddRateLimit(s, env, m))
    case Update(m) => Committed(s, UpdateRateLimit(s, env, m))
    case Remove(path) => Committed(s, RemoveRateLimit(s, env, path))
    case Reset(path) => Committed(s, ResetRateLimit(s, env, path))
    case Block(now, height) => BeginBlocker(s, env, now, height)
    case SetWhitelisted(p) => s.(whitelist := s.whitelist[WhitelistKey(p.sender, p.receiver) := p])
    case UnsetWhitelisted(p) => s.(whitelist := s.whitelist - {WhitelistKey(p.sender, p.receiver)})
  }

  predicate DeniedSend(w: World, e: Event) {
    e.Send? && CheckRateLimitAndUpdateFlow(w.ledger, SEND, e.info, PacketId(e.info.channel, e.sequence)).Denied?
  }

  function Apply(w: World, step: Step): World
    requires WellFormed(w.ledger) && Enabled(w, step.event)
  {
    var e := step.event;
    if DeniedSend(w, e) then w
    else
      var next := ApplyLedger(w, step);
      match e
      case Send(info, sequence) =>
        var id := PacketId(info.channel, sequence);
        World(next, w.inflight[id := info], w.sent + {id})
      case AckResult(id) => w.(ledger := next, inflight := w.inflight - {id})
      case AckError(id) => w.(ledger := next, inflight := w.inflight - {id})
      case Timeout(id) => w.(ledger := next, inflight := w.inflight - {id})
      case _ => w.(ledger := next)
  }

  // ------------------------------------------------------- reading the history

  /** Amounts counted out since the path's last zeroing, minus those undone. */
  function OutSince(log: Log, p: Path): int {
    match log
    case Start => 0
    case Then(prev, CountedOut(q, _, a)) => OutSince(prev, p) + (if q == p then a else 0)
    case Then(prev, Undone(q, _, a)) => OutSince(prev, p) - (if q == p then a else 0)
    case Then(prev, Zeroed(limit)) => if limit.path == p then 0 else OutSince(prev, p)
    case Then(prev, _) => OutSince(prev, p)
  }

  function InSince(log: Log, p: Path): int {
    match log
    case Start => 0
    case Then(prev, CountedIn(q, a)) => InSince(prev, p) + (if q == p then a else 0)
    case Then(prev, Zeroed(limit)) => if limit.path == p then 0 else InSince(prev, p)
    case Then(prev, _) => InSince(prev, p)
  }

  /** Amounts taken back since the path's last zeroing. */
  function UndoneSince(log: Log, p: Path): int {
    match log
    case Start => 0
    case Then(prev, Undone(q, _, a)) => UndoneSince(prev, p) + (if q == p then a else 0)
    case Then(prev, Zeroed(limit)) => if limit.path == p then 0 else UndoneSince(prev, p)
    case Then(prev, _) => UndoneSince(prev, p)
  }

  /** Every send ever counted. */
  function CountedIds(log: Log): set<PacketId> {
    match log
    case Start => {}
    case Then(prev, CountedOut(_, id, _)) => CountedIds(prev) + {id}
    case Then(prev, _) => CountedIds(prev)
  }

  /** How often a packet has been taken back. */
  function TimesUndone(log: Log, id: PacketId): nat {
    match log
    case Start => 0
    case Then(prev, Undone(_, j, _)) => TimesUndone(prev, id) + (if j == id then 1 else 0)
    case Then(prev, _) => TimesUndone(prev, id)
  }

  /** After this entry a packet can no longer be taken back. */
  predicate Settles(e: Entry, id: PacketId) {
    match e
    case Undone(_, j, _) => j == id
    case Cleared(channel) => channel <= id.channel
    case _ => false
  }

  /** The packet has been counted on this path with this amount, and since then
      neither taken back nor cleared by a reset. */
  predicate Live(log: Log, id: PacketId, p: Path, amount: int) {
    match log
    case Start => false
    case Then(prev, e) =>
      e == CountedOut(p, id, amount) || (!Settles(e, id) && Live(prev, id, p, amount))
  }

  /** Every send is counted at most once, and everything ever taken back was live
      then, on the same path and with the same amount. */
  predicate Honest(log: Log) {
    match log
    case Start => true
    case Then(prev, e) =>
      && Honest(prev)
      && (match e
          case CountedOut(_, id, _) => id !in CountedIds(prev)
          case Undone(p, id, a) => a > 0 && Live(prev, id, p, a)
          case _ => true)
  }

  // ------------------------------------------------------------------ invariants

  /** What a limit set by message looks like. */
  predicate Configured(limit: RateLimit) {
    && 0 <= limit.quota.maxPercentSend <= 100 && 0 <= limit.quota.maxPercentRecv <= 100
    && limit.minRateLimitAmount > 0 && limit.flow.channelValue >= 0
  }

  /** The flow caps: the receiving side may exceed its share only by what failed
      sends have given back in this window. */
  predicate WithinCaps(limit: RateLimit, undone: int) {
    && undone >= 0
    && (limit.flow.channelValue != 0 ==>
          && Net(limit, SEND) <= Threshold(limit, SEND)
          && Net(limit, RECV) <= Threshold(limit, RECV) + undone)
  }

  /** One path's limit agrees with the history and keeps within its caps. */
  predicate Accounted(limit: RateLimit, log: Log, p: Path) {
    && Configured(limit)
    && limit.flow.outflow == OutSince(log, p)
    && limit.flow.inflow == InSince(log, p)
    && WithinCaps(limit, UndoneSince(log, p))
  }

  ghost predicate Sound(s: Ledger) {
    && WellFormed(s)
    && (forall p :: p in s.limits ==> Accounted(s.limits[p], s.log, p))
  }

  /** The pending set, the packets in flight and the history agree. */
  ghost predicate Tracked(s: Ledger, inflight: Packets, sent: set<PacketId>) {
    && Honest(s.log)
    && CountedIds(s.log) <= sent && inflight.Keys <= sent
    && (forall id :: id in s.pending ==> id in sent && CanonicalPacket(id))
    && (forall id :: id in inflight ==>
          inflight[id].amount > 0 && inflight[id].channel == id.channel)
    && (forall id :: id in inflight ==>
          (id in s.pending <==> Live(s.log, id, PathOf(inflight[id]), inflight[id].amount)))
  }

  ghost predicate Inv(w: World) {
    Sound(w.ledger) && Tracked(w.ledger, w.inflight, w.sent)
  }

  // ------------------------------------------------- each operation keeps Sound

  lemma CheckKeepsSound(s: Ledger, dir: Direction, info: PacketInfo, id: PacketId)
    requires Sound(s) && info.amount > 0
    requires CheckRateLimitAndUpdateFlow(s, dir, info, id).Counted?
    ensures Sound(CheckRateLimitAndUpdateFlow(s, dir, info, id).ledger)
  {
    CountingAccounts(s, dir, info, id);
    var p, t := PathOf(info), CheckRateLimitAndUpdateFlow(s, dir, info, id).ledger;
    forall q | q in s.limits && q != p
      ensures Accounted(t.limits[q], t.log, q)
    {
      assert Accounted(s.limits[q], s.log, q);
    }
    hide CheckExceedsQuota, Threshold, Configured, WithinCaps;
  }

  lemma CountingAccounts(s: Ledger, dir: Direction, info: PacketInfo, id: PacketId)
    requires info.amount > 0 && PathOf(info) in s.limits && Accounted(s.limits[PathOf(info)], s.log, PathOf(info))
    requires CheckRateLimitAndUpdateFlow(s, dir, info, id).Counted?
    ensures var p, t := PathOf(info), CheckRateLimitAndUpdateFlow(s, dir, info, id).ledger;
            p in t.limits && Accounted(t.limits[p], t.log, p)
  {
  }

  lemma UndoKeepsSound(s: Ledger, info: PacketInfo, id: PacketId)
    requires Sound(s) && info.amount > 0
    ensures Sound(UndoSendPacket(s, info, id))
  {
  }

  lemma StartWindowKeepsSound(s: Ledger, limit: RateLimit)
    requires Sound(s) && Configured(limit) && limit.quota.durationHours > 0
    requires CanonicalChannel(limit.path.channel) && limit.flow.inflow == limit.flow.outflow == 0
    ensures Sound(StartWindow(s, limit))
  {
  }

  lemma ResetKeepsSound(s: Ledger, env: Env, path: Path)
    requires Sound(s)
    ensures Sound(Committed(s, ResetRateLimit(s, env, path)))
  {
    var p := Target(env, path);
    if p in s.limits {
      StartWindowKeepsSound(s, s.limits[p].(flow := Flow(0, 0, ChannelValue(env, p.denom))));
    }
  }

  // ----------------------------------------------- each operation keeps Tracked

  lemma {:induction false} LiveMeansCounted(log: Log, id: PacketId, p: Path, amount: int)
    requires Live(log, id, p, amount)
    ensures id in CountedIds(log)
  {
    if log.entry != CountedOut(p, id, amount) {
      LiveMeansCounted(log.prev, id, p, amount);
    }
  }

  lemma SendKeepsTracked(s: Ledger, inflight: Packets, sent: set<PacketId>, info: PacketInfo, id: PacketId)
    requires Tracked(s, inflight, sent) && id !in sent
    requires info.amount > 0 && info.channel == id.channel && CanonicalPacket(id)
    ensures Tracked(SendPacket(s, info, id), inflight[id := info], sent + {id})
  {
    if Live(s.log, id, PathOf(info), info.amount) {
      LiveMeansCounted(s.log, id, PathOf(info), info.amount);
    }
  }

  lemma ReceiveKeepsTracked(s: Ledger, inflight: Packets, sent: set<PacketId>, info: PacketInfo)
    requires Tracked(s, inflight, sent)
    ensures Tracked(ReceivePacket(s, info), inflight, sent)
  {
  }

  lemma UndoKeepsTracked(s: Ledger, inflight: Packets, sent: set<PacketId>, id: PacketId)
    requires Tracked(s, inflight, sent) && id in inflight
    ensures Tracked(UndoSendPacket(s, inflight[id], id), inflight - {id}, sent)
  {
  }

  lemma StartWindowKeepsTracked(s: Ledger, inflight: Packets, sent: set<PacketId>, limit: RateLimit)
    requires Tracked(s, inflight, sent)
    ensures Tracked(StartWindow(s, limit), inflight, sent)
  {
  }

  lemma ClearKeepsTracked(s: Ledger, inflight: Packets, sent: set<PacketId>, channel: string)
    requires Tracked(s, inflight, sent)
    ensures Tracked(ClearPending(s, channel), inflight, sent)
  {
  }

  lemma ResetKeepsTracked(s: Ledger, inflight: Packets, sent: set<PacketId>, env: Env, path: Path)
    requires Tracked(s, inflight, sent)
    ensures Tracked(Committed(s, ResetRateLimit(s, env, path)), inflight, sent)
  {
    var p := Target(env, path);
    if p in s.limits {
      var limit := s.limits[p].(flow := Flow(0, 0, ChannelValue(env, p.denom)));
      StartWindowKeepsTracked(s, inflight, sent, limit);
      ClearKeepsTracked(StartWindow(s, limit), inflight, sent, path.channel);
    }
  }

  // -------------------------------------------------------------------- blocks

  lemma {:induction false} ResetDueKeepsInv(s: Ledger, inflight: Packets, sent: set<PacketId>,
                                            env: Env, hour: nat, due: seq<RateLimit>)
    requires forall i :: 0 <= i < |due| ==> due[i].quota.durationHours > 0
    requires Sound(s) && Tracked(s, inflight, sent)
    ensures Sound(ResetDue(s, env, hour, due)) && Tracked(ResetDue(s, env, hour, due), inflight, sent)
    decreases due
  {
    if due == [] {
      return;
    }
    var t := ResetOne(s, env, hour, due[0]);
    assert ResetDue(s, env, hour, due) == ResetDue(t, env, hour, due[1..]);
    ResetKeepsSound(s, env, due[0].path);
    ResetKeepsTracked(s, inflight, sent, env, due[0].path);
    ResetDueKeepsInv(t, inflight, sent, env, hour, due[1..]);
  }

  lemma EpochsDoNotMatter(s: Ledger, inflight: Packets, sent: set<PacketId>, epochs: map<string, EpochInfo>)
    requires Sound(s) && Tracked(s, inflight, sent) && WellFormed(s.(epochs := epochs))
    ensures Sound(s.(epochs := epochs)) && Tracked(s.(epochs := epochs), inflight, sent)
  {
  }

  lemma EpochStepKeepsInv(s: Ledger, inflight: Packets, sent: set<PacketId>,
                          env: Env, now: int, height: int, id: string)
    requires Sound(s) && Tracked(s, inflight, sent) && id in s.epochs
    ensures Sound(EpochStep(s, env, now, height, id)) && Tracked(EpochStep(s, env, now, height, id), inflight, sent)
  {
    var e, t := s.epochs[id], EpochStep(s, env, now, height, id);
    if TickAt(e, now, height).Ends? && e.identifier == DAY_EPOCH {
      LimitsHaveDurations(s);
      ResetDueKeepsInv(s, inflight, sent, env, e.currentEpoch, AllRateLimits(s.limits));
      EpochsDoNotMatter(AfterEpochEnd(s, env, e), inflight, sent, t.epochs);
    } else {
      EpochsDoNotMatter(s, inflight, sent, t.epochs);
    }
  }

  lemma {:induction false} RunEpochsKeepsInv(s: Ledger, inflight: Packets, sent: set<PacketId>,
                                             env: Env, now: int, height: int, ids: seq<string>)
    requires Sound(s) && Tracked(s, inflight, sent) && forall id :: id in ids ==> id in s.epochs
    ensures Sound(RunEpochs(s, env, now, height, ids)) && Tracked(RunEpochs(s, env, now, height, ids), inflight, sent)
    decreases ids
  {
    if ids == [] {
      return;
    }
    assert ids[0] in ids;
    if !TickAt(s.epochs[ids[0]], now, height).NotYet? {
      EpochStepKeepsInv(s, inflight, sent, env, now, height, ids[0]);
      RunEpochsKeepsInv(EpochStep(s, env, now, height, ids[0]), inflight, sent, env, now, height, ids[1..]);
    }
  }

  // ---------------------------------------------------------------- whole runs

  lemma AdminKeepsInv(w: World, step: Step)
    requires Inv(w) && Enabled(w, step.event)
    requires step.event.Add? || step.event.Update? || step.event.Remove? || step.event.Reset?
    ensures Inv(Apply(w, step))
  {
    var s, env := w.ledger, step.env;
    match step.event {
      case Add(m) =>
        var limit := Fresh(env, Target(env, m.path), m.quota, m.minRateLimitAmount);
        StartWindowKeepsSound(s, limit);
        StartWindowKeepsTracked(s, w.inflight, w.sent, limit);
      case Update(m) =>
        var limit := Fresh(env, Target(env, m.path), m.quota, m.minRateLimitAmount);
        StartWindowKeepsSound(s, limit);
        StartWindowKeepsTracked(s, w.inflight, w.sent, limit);
      case Remove(path) =>
      case Reset(path) =>
        ResetKeepsSound(s, env, path);
        ResetKeepsTracked(s, w.inflight, w.sent, env, path);
    }
  }

  lemma PacketStepKeepsInv(w: World, step: Step)
    requires Inv(w) && Enabled(w, step.event)
    requires step.event.Send? || step.event.Receive? || step.event.AckError? || step.event.Timeout?
    ensures Inv(Apply(w, step))
  {
    var s := w.ledger;
    match step.event {
      case Send(info, sequence) =>
        var id := PacketId(info.channel, sequence);
        SendKeepsTracked(s, w.inflight, w.sent, info, id);
        if CheckRateLimitAndUpdateFlow(s, SEND, info, id).Counted? {
          CheckKeepsSound(s, SEND, info, id);
        }
      case Receive(info, _) =>
        ReceiveKeepsTracked(s, w.inflight, w.sent, info);
        if CheckRateLimitAndUpdateFlow(s, RECV, info, PacketId("", 0)).Counted? {
          CheckKeepsSound(s, RECV, info, PacketId("", 0));
        }
      case AckError(id) =>
        UndoKeepsSound(s, w.inflight[id], id);
        UndoKeepsTracked(s, w.inflight, w.sent, id);
      case Timeout(id) =>
        UndoKeepsSound(s, w.inflight[id], id);
        UndoKeepsTracked(s, w.inflight, w.sent, id);
    }
  }

  /** Every step of every kind keeps the invariant. */
  lemma StepKeepsInv(w: World, step: Step)
    requires Inv(w) && Enabled(w, step.event)
    ensures Inv(Apply(w, step))
  {
    match step.event {
      case AckResult(_) =>
      case SetWhitelisted(_) =>
      case UnsetWhitelisted(_) =>
      case Block(now, height) =>
        RunEpochsKeepsInv(w.ledger, w.inflight, w.sent, step.env, now, height,
                          KVStore.SortedKeys(w.ledger.epochs.Keys));
      case Add(_) => AdminKeepsInv(w, step);
      case Update(_) => AdminKeepsInv(w, step);
      case Remove(_) => AdminKeepsInv(w, step);
      case Reset(_) => AdminKeepsInv(w, step);
      case _ => PacketStepKeepsInv(w, step);
    }
  }

  /** A run is possible when each of its steps is enabled where it happens. */
  ghost predicate Possible(w: World, run: seq<Step>)
    requires Inv(w)
    decreases run
  {
    run != [] ==>
      && Enabled(w, run[0].event)
      && (StepKeepsInv(w, run[0]); Possible(Apply(w, run[0]), run[1..]))
  }

  ghost function Exec(w: World, run: seq<Step>): World
    requires Inv(w) && Possible(w, run)
    decreases run
  {
    if run == [] then w
    else
      StepKeepsInv(w, run[0]);
      Exec(Apply(w, run[0]), run[1..])
  }

  ghost predicate Initial(w: World) {
    && WellFormed(w.ledger)
    && w.ledger.limits == map[] && w.ledger.pending == {} && w.ledger.log == Start
    && w.inflight == map[] && w.sent == {}
  }

  lemma InitialIsInv(w: World)
    requires Initial(w)
    ensures Inv(w)
  {
  }

  /** A possible run from an empty ledger. */
  ghost predicate FromStart(w: World, run: seq<Step>)
    ensures FromStart(w, run) ==> Inv(w) && Possible(w, run)
  {
    Initial(w) && (InitialIsInv(w); Possible(w, run))
  }

  lemma {:induction false} RunKeepsInv(w: World, run: seq<Step>)
    requires Inv(w) && Possible(w, run)
    ensures Inv(Exec(w, run))
    decreases run
  {
    if run != [] {
      StepKeepsInv(w, run[0]);
      RunKeepsInv(Apply(w, run[0]), run[1..]);
    }
  }

  // --------------------------------------------------------- the exact ledger

  lemma {:induction false} UndoneMeansSettled(log: Log, id: PacketId)
    requires Honest(log) && TimesUndone(log, id) >= 1
    ensures id in CountedIds(log) && TimesUndone(log, id) == 1
    ensures forall p, amount :: !Live(log, id, p, amount)
  {
    var e := log.entry;
    if e.Undone? && e.id == id {
      LiveMeansCounted(log.prev, id, e.path, e.amount);
      if TimesUndone(log.prev, id) >= 1 {
        UndoneMeansSettled(log.prev, id);
      }
    } else {
      UndoneMeansSettled(log.prev, id);
    }
  }

  /** In every run from an empty ledger: each limit's flow is exactly what the
      history counted since its last zeroing, less what it took back since; and no
      send is counted twice or taken back twice, or taken back after a reset that
      cleared it, or with another path or amount than it was counted with. */
  lemma ExactLedger(w: World, run: seq<Step>, id: PacketId)
    requires FromStart(w, run)
    ensures var s := Exec(w, run).ledger;
            && (forall p :: p in s.limits ==>
                  && s.limits[p].flow.outflow == OutSince(s.log, p)
                  && s.limits[p].flow.inflow == InSince(s.log, p))
            && Honest(s.log) && TimesUndone(s.log, id) <= 1
  {
    RunKeepsInv(w, run);
    var s := Exec(w, run).ledger;
    if TimesUndone(s.log, id) >= 1 {
      UndoneMeansSettled(s.log, id);
    }
  }

  /** In every reachable state the flow caps hold for each limit on a token with
      supply; the receiving side's excess is what was taken back in its window. */
  lemma FlowCaps(w: World, run: seq<Step>, p: Path)
    requires FromStart(w, run)
    requires p in Exec(w, run).ledger.limits
    ensures var s := Exec(w, run).ledger;
            var limit := s.limits[p];
            limit.flow.channelValue != 0 ==>
              && limit.flow.outflow - limit.flow.inflow <= Threshold(limit, SEND)
              && limit.flow.inflow - limit.flow.outflow <= Threshold(limit, RECV) + UndoneSince(s.log, p)
              && (limit.flow.outflow - limit.flow.inflow > limit.minRateLimitAmount ==>
                    limit.flow.outflow - limit.flow.inflow
                    <= LegacyDec.TruncQuo(limit.flow.channelValue * limit.quota.maxPercentSend, 100))
              && (limit.flow.inflow - limit.flow.outflow > limit.minRateLimitAmount + UndoneSince(s.log, p) ==>
                    limit.flow.inflow - limit.flow.outflow - UndoneSince(s.log, p)
                    <= LegacyDec.TruncQuo(limit.flow.channelValue * limit.quota.maxPercentRecv, 100))
  {
    RunKeepsInv(w, run);
  }

  /** In every run a failed send is taken back if and only if there is a limit on its
      path and it has been counted there and not been settled since; otherwise its
      failure leaves the ledger as it is. */
  lemma FailedSendIsTakenBackIff(w: World, run: seq<Step>, id: PacketId)
    requires FromStart(w, run) && id in Exec(w, run).inflight
    ensures var v := Exec(w, run);
            var info := v.inflight[id];
            var t := UndoSendPacket(v.ledger, info, id);
            && (PathOf(info) in v.ledger.limits && Live(v.ledger.log, id, PathOf(info), info.amount) <==>
                t.log == Then(v.ledger.log, Undone(PathOf(info), id, info.amount)))
            && (t.log == v.ledger.log <==> t == v.ledger)
  {
    RunKeepsInv(w, run);
    var v := Exec(w, run);
    var info := v.inflight[id];
    LogGrows(v.ledger.log, Undone(PathOf(info), id, info.amount));
  }

  lemma {:induction false} LogGrows(log: Log, e: Entry)
    ensures Then(log, e) != log
  {
    if log.Then? {
      LogGrows(log.prev, log.entry);
    }
  }

  /** A reset of one denomination strands the failed sends of all others on its
      channel: none of them is taken back any more. */
  lemma ResetStrandsChannel(w: World, run: seq<Step>, env: Env, path: Path, id: PacketId)
    requires FromStart(w, run) && CanonicalChannel(path.channel)
    requires id in Exec(w, run).inflight && path.channel <= id.channel
    requires ResetRateLimit(Exec(w, run).ledger, env, path).Ok?
    ensures var t := ResetRateLimit(Exec(w, run).ledger, env, path).ledger;
            UndoSendPacket(t, Exec(w, run).inflight[id], id) == t
  {
  }
}
