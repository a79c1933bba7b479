/**
 The rate-limit ledger: for every path a quota, the flow counted in the current
 window, and which sent packets may still be taken back.  The functions say what
 each keeper operation does to the ledger; every one of them also records what it
 did in a history, so that statements about whole runs can be read off it.
 */
module FlowLedger {
  import opened StoreKeys
  import opened EpochClock
  import opened TokenInfo
  import KVStore
  import LegacyDec

  datatype Direction = SEND | RECV

  datatype Quota = Quota(maxPercentSend: int, maxPercentRecv: int, durationHours: nat)
  datatype Flow = Flow(inflow: int, outflow: int, channelValue: int)
  datatype RateLimit = RateLimit(path: Path, quota: Quota, flow: Flow, minRateLimitAmount: int)

  datatype AddressPair = AddressPair(sender: string, receiver: string)

  /** What ParsePacketInfo extracts from a packet. */
  datatype PacketInfo =
    PacketInfo(channel: string, denom: string, amount: int, sender: string, receiver: string)

  /** The content of MsgAddRateLimit and MsgUpdateRateLimit. */
  datatype LimitMsg = LimitMsg(path: Path, quota: Quota, minRateLimitAmount: int)

  /** What an operation reads from other modules. */
  datatype Env = Env(registered: map<string, TokenInfo>, supply: map<string, nat>)

  /** One recorded effect; `Zeroed` carries the limit as it starts a new window. */
  datatype Entry =
    | CountedOut(path: Path, id: PacketId, amount: int)
    | CountedIn(path: Path, amount: int)
    | Undone(path: Path, id: PacketId, amount: int)
    | Zeroed(limit: RateLimit)
    | Cleared(channel: string)

  datatype Log = Start | Then(prev: Log, entry: Entry)

  datatype Ledger = Ledger(
    limits: map<Path, RateLimit>,
    pending: set<PacketId>,
    whitelist: map<string, AddressPair>,
    epochs: map<string, EpochInfo>,
    log: Log)

  // --------------------------------------------------------------------- quotas

  function Percent(quota: Quota, dir: Direction): int {
    if dir == RECV then quota.maxPercentRecv else quota.maxPercentSend
  }

  function Threshold(limit: RateLimit, dir: Direction): int {
    var share := LegacyDec.TruncQuo(limit.flow.channelValue * Percent(limit.quota, dir), 100);
    if limit.minRateLimitAmount > share then limit.minRateLimitAmount else share
  }

  /** A path without channel value is not limited. */
  predicate CheckExceedsQuota(limit: RateLimit, dir: Direction, amount: int) {
    limit.flow.channelValue != 0 && amount > Threshold(limit, dir)
  }

  function AddFlow(limit: RateLimit, dir: Direction, amount: int): RateLimit {
    var flow := limit.flow;
    limit.(flow := match dir
                   case SEND => flow.(outflow := flow.outflow + amount)
                   case RECV => flow.(inflow := flow.inflow + amount))
  }

  /** Outflow minus inflow, or the reverse. */
  function Net(limit: RateLimit, dir: Direction): int {
    match dir
    case SEND => limit.flow.outflow - limit.flow.inflow
    case RECV => limit.flow.inflow - limit.flow.outflow
  }

  predicate OnChannels(limits: map<Path, RateLimit>) {
    forall p :: p in limits ==> CanonicalChannel(p.channel)
  }

  /** Limits on IBC channels, filed under their own path, with a window length. */
  predicate WellFormed(s: Ledger) {
    && OnChannels(s.limits)
    && (forall p :: p in s.limits ==> s.limits[p].path == p && s.limits[p].quota.durationHours > 0)
    && (forall k :: k in s.epochs ==> s.epochs[k].identifier == k && s.epochs[k].currentEpoch >= 0)
  }

  // ------------------------------------------------------- counting and undoing

  datatype Verdict = Ignored | Denied | Counted(ledger: Ledger)

  function PathOf(info: PacketInfo): Path { Path(info.denom, info.channel) }

  /** Whitelist entries are found under the two addresses written together. */
  function WhitelistKey(sender: string, receiver: string): string { sender + receiver }

  /** The key has no separator either: two pairs share one exactly when part of an
      address has moved from the one side to the other. */
  lemma WhitelistKeysCollideIff(a: AddressPair, b: AddressPair)
    requires |a.sender| <= |b.sender|
    ensures WhitelistKey(a.sender, a.receiver) == WhitelistKey(b.sender, b.receiver) <==>
            a.sender <= b.sender && a.receiver == b.sender[|a.sender|..] + b.receiver
  {
    var n, m := |a.sender|, |b.sender|;
    var x, y := WhitelistKey(a.sender, a.receiver), WhitelistKey(b.sender, b.receiver);
    assert x[..n] == a.sender && x[n..] == a.receiver;
    assert y[..n] == b.sender[..n] && y[n..] == b.sender[n..] + b.receiver;
    if a.sender <= b.sender && a.receiver == b.sender[n..] + b.receiver {
      assert x == x[..n] + x[n..] && y == y[..n] + y[n..];
    }
  }

  /** Senders of one length, such as all accounts of one chain, keep pairs apart. */
  lemma WhitelistKeyIsInjective(a: AddressPair, b: AddressPair)
    requires |a.sender| == |b.sender|
    ensures WhitelistKey(a.sender, a.receiver) == WhitelistKey(b.sender, b.receiver) <==> a == b
  {
    WhitelistKeysCollideIff(a, b);
  }

  /** A pair that shares its key with a whitelisted one is exempt as well. */
  lemma WhitelistCollision(s: Ledger)
    requires WhitelistKey("pica1a", "osmo1b") in s.whitelist
    requires s.whitelist[WhitelistKey("pica1a", "osmo1b")] == AddressPair("pica1a", "osmo1b")
    ensures IsWhitelisted(s, "pica1a", "osmo1b") && IsWhitelisted(s, "pica1", "aosmo1b")
  {
    WhitelistKeysCollideIff(AddressPair("pica1", "aosmo1b"), AddressPair("pica1a", "osmo1b"));
    assert "pica1a" == "pica1" + "a" && "aosmo1b" == "a" + "osmo1b";
  }

  /** The store finds an entry only if its encoding is not empty. */
  predicate IsWhitelisted(s: Ledger, sender: string, receiver: string) {
    var key := WhitelistKey(sender, receiver);
    key in s.whitelist && s.whitelist[key] != AddressPair("", "")
  }

  /** `id` only matters to the history of a sent packet. */
  function CheckRateLimitAndUpdateFlow(s: Ledger, dir: Direction, info: PacketInfo, id: PacketId): Verdict {
    var p := PathOf(info);
    if p !in s.limits then Ignored
    else if IsWhitelisted(s, info.sender, info.receiver) then Ignored
    else
      var limit := s.limits[p];
      if CheckExceedsQuota(limit, dir, Net(limit, dir) + info.amount) then Denied
      else
        var entry := if dir == SEND then CountedOut(p, id, info.amount) else CountedIn(p, info.amount);
        Counted(s.(limits := s.limits[p := AddFlow(limit, dir, info.amount)], log := Then(s.log, entry)))
  }

  /** A denied send fails its transaction. */
  function SendPacket(s: Ledger, info: PacketInfo, id: PacketId): Ledger {
    match CheckRateLimitAndUpdateFlow(s, SEND, info, id)
    case Counted(t) => t.(pending := t.pending + {id})
    case _ => s
  }

  function ReceivePacket(s: Ledger, info: PacketInfo): Ledger {
    match CheckRateLimitAndUpdateFlow(s, RECV, info, PacketId("", 0))
    case Counted(t) => t
    case _ => s
  }

  /** Only a packet that is still pending is taken back; without a limit on its
      path even its pending mark stays. */
  function UndoSendPacket(s: Ledger, info: PacketInfo, id: PacketId): Ledger {
    var p := PathOf(info);
    if p !in s.limits || id !in s.pending then s
    else
      var limit := s.limits[p];
      s.(limits := s.limits[p := AddFlow(limit, SEND, -info.amount)],
         pending := s.pending - {id},
         log := Then(s.log, Undone(p, id, info.amount)))
  }

  function AcknowledgeSuccess(s: Ledger, id: PacketId): Ledger {
    s.(pending := s.pending - {id})
  }

  // ------------------------------------------------------------- administration

  datatype AdminError = ZeroChannelValue | AlreadyExists | NotFound
  datatype AdminResult = Ok(ledger: Ledger) | Err(error: AdminError)

  /** A native denomination registered on the channel stands for its voucher. */
  function Target(env: Env, p: Path): Path {
    if p.denom in env.registered && env.registered[p.denom].channelID == p.channel
    then Path(env.registered[p.denom].ibcDenom, p.channel)
    else p
  }

  function ChannelValue(env: Env, denom: string): nat {
    if denom in env.supply then env.supply[denom] else 0
  }

  /** A limit at the start of a window. */
  function Fresh(env: Env, p: Path, quota: Quota, minAmount: int): RateLimit {
    RateLimit(p, quota, Flow(0, 0, ChannelValue(env, p.denom)), minAmount)
  }

  function StartWindow(s: Ledger, limit: RateLimit): Ledger {
    s.(limits := s.limits[limit.path := limit], log := Then(s.log, Zeroed(limit)))
  }

  function AddRateLimit(s: Ledger, env: Env, m: LimitMsg): AdminResult {
    var p := Target(env, m.path);
    if ChannelValue(env, p.denom) == 0 then Err(ZeroChannelValue)
    else if p in s.limits then Err(AlreadyExists)
    else Ok(StartWindow(s, Fresh(env, p, m.quota, m.minRateLimitAmount)))
  }

  function UpdateRateLimit(s: Ledger, env: Env, m: LimitMsg): AdminResult {
    var p := Target(env, m.path);
    if p !in s.limits then Err(NotFound)
    else Ok(StartWindow(s, Fresh(env, p, m.quota, m.minRateLimitAmount)))
  }

  function RemoveRateLimit(s: Ledger, env: Env, path: Path): AdminResult {
    var p := Target(env, path);
    if p !in s.limits then Err(NotFound) else Ok(s.(limits := s.limits - {p}))
  }

  /** Every pending packet whose channel starts with this identifier goes. */
  function ClearPending(s: Ledger, channel: string): Ledger {
    s.(pending := (set id | id in s.pending && !(channel <= id.channel)),
       log := Then(s.log, Cleared(channel)))
  }

  function ResetRateLimit(s: Ledger, env: Env, path: Path): AdminResult {
    var p := Target(env, path);
    if p !in s.limits then Err(NotFound)
    else
      var limit := s.limits[p];
      Ok(ClearPending(StartWindow(s, limit.(flow := Flow(0, 0, ChannelValue(env, p.denom)))), path.channel))
  }

  // --------------------------------------------------------------------- epochs

  const DAY_EPOCH: string := "hour"

  function KeysOf(limits: map<Path, RateLimit>): set<string> {
    set p | p in limits :: RateLimitKey(p)
  }

  lemma KeyOfLimit(limits: map<Path, RateLimit>, key: string)
    requires OnChannels(limits) && key in KeysOf(limits)
    ensures ParseRateLimitKey(key) in limits && RateLimitKey(ParseRateLimitKey(key)) == key
  {
    var p :| p in limits && RateLimitKey(p) == key;
    RateLimitKeyReadsBack(p);
  }

  function LimitsUnder(limits: map<Path, RateLimit>, keys: seq<string>): (all: seq<RateLimit>)
    requires OnChannels(limits) && forall k :: k in keys ==> k in KeysOf(limits)
    ensures |all| == |keys|
    ensures forall i :: 0 <= i < |keys| ==>
              ParseRateLimitKey(keys[i]) in limits && all[i] == limits[ParseRateLimitKey(keys[i])]
  {
    if keys == [] then []
    else
      assert keys[0] in keys;
      KeyOfLimit(limits, keys[0]);
      [limits[ParseRateLimitKey(keys[0])]] + LimitsUnder(limits, keys[1..])
  }

  /** All limits, in the order of their store keys. */
  function AllRateLimits(limits: map<Path, RateLimit>): seq<RateLimit>
    requires OnChannels(limits)
  {
    LimitsUnder(limits, KVStore.SortedKeys(KeysOf(limits)))
  }

  /** A failed call leaves no trace. */
  function Committed(s: Ledger, r: AdminResult): Ledger {
    match r
    case Ok(t) => t
    case Err(_) => s
  }

  /** Resets a limit whose window ends with this hour; a limit whose native name has
      been remapped meanwhile may not be found. */
  function ResetOne(s: Ledger, env: Env, hour: nat, limit: RateLimit): (t: Ledger)
    requires limit.quota.durationHours > 0
    ensures WellFormed(s) ==> WellFormed(t)
    ensures t.epochs == s.epochs && t.whitelist == s.whitelist
  {
    if hour % limit.quota.durationHours != 0 then s
    else Committed(s, ResetRateLimit(s, env, limit.path))
  }

  function ResetDue(s: Ledger, env: Env, hour: nat, due: seq<RateLimit>): (t: Ledger)
    requires forall i :: 0 <= i < |due| ==> due[i].quota.durationHours > 0
    ensures WellFormed(s) ==> WellFormed(t)
    ensures t.epochs == s.epochs && t.whitelist == s.whitelist
    decreases due
  {
    if due == [] then s else ResetDue(ResetOne(s, env, hour, due[0]), env, hour, due[1..])
  }

  function AfterEpochEnd(s: Ledger, env: Env, e: EpochInfo): (t: Ledger)
    requires WellFormed(s) && e.currentEpoch >= 0
    ensures WellFormed(t) && t.epochs == s.epochs && t.whitelist == s.whitelist
  {
    if e.identifier == DAY_EPOCH then
      LimitsHaveDurations(s);
      ResetDue(s, env, e.currentEpoch, AllRateLimits(s.limits))
    else s
  }

  lemma LimitsHaveDurations(s: Ledger)
    requires WellFormed(s)
    ensures var all := AllRateLimits(s.limits);
            forall i :: 0 <= i < |all| ==>
              && all[i].path in s.limits && all[i] == s.limits[all[i].path]
              && all[i].quota.durationHours > 0
  {
  }

  /** One clock in one block; a clock that ends an epoch first resets limits. */
  function EpochStep(s: Ledger, env: Env, now: int, height: int, id: string): (t: Ledger)
    requires WellFormed(s) && id in s.epochs
    ensures WellFormed(t) && t.epochs == s.epochs[id := After(s.epochs[id], now, height)]
    ensures t.whitelist == s.whitelist
  {
    var e := s.epochs[id];
    match TickAt(e, now, height)
    case NotYet => s
    case Idle => s
    case Starts(next) => s.(epochs := s.epochs[id := next])
    case Ends(next) => AfterEpochEnd(s, env, e).(epochs := s.epochs[id := next])
  }

  /** The clocks in turn, up to the first whose start time has not come. */
  function RunEpochs(s: Ledger, env: Env, now: int, height: int, ids: seq<string>): (t: Ledger)
    requires WellFormed(s) && forall id :: id in ids ==> id in s.epochs
    ensures WellFormed(t) && t.whitelist == s.whitelist
    decreases ids
  {
    if ids == [] then s
    else
      assert ids[0] in ids;
      if TickAt(s.epochs[ids[0]], now, height).NotYet? then s
      else RunEpochs(EpochStep(s, env, now, height, ids[0]), env, now, height, ids[1..])
  }

  function BeginBlocker(s: Ledger, env: Env, now: int, height: int): (t: Ledger)
    requires WellFormed(s)
    ensures WellFormed(t) && t.whitelist == s.whitelist
  {
    RunEpochs(s, env, now, height, KVStore.SortedKeys(s.epochs.Keys))
  }
}
