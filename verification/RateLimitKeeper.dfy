/**
 The keeper of x/ratelimit, working on its byte store.  `ledger` is the abstract
 state; every method says which ledger function it performs, and `Valid` says how
 the raw keys hold the ledger.
 */
module RateLimitKeeper {
  import opened Basics
  import opened StoreKeys
  import opened EpochClock
  import opened TokenInfo
  import opened FlowLedger
  import opened RateLimitGenesis
  import opened Text
  import opened ByteStore
  import KVStore
  import LegacyDec

  /** The parts of an acknowledgement the keeper looks at. */
  datatype Acknowledgement = Result(bytes: string) | Error

  /** How an administrative call ends: the new ledger, or an error and no change. */
  predicate Concludes(before: Ledger, r: AdminResult, after: Ledger, err: Option<AdminError>) {
    match r
    case Ok(t) => err.None? && after == t
    case Err(e) => err == Some(e) && after == before
  }

  /** Above both the percentage and the minimum; a path without value never is. */
  predicate Exceeds(quota: Quota, dir: Direction, amount: int, totalValue: int, minAmount: int) {
    var percent := match dir case RECV => quota.maxPercentRecv case SEND => quota.maxPercentSend;
    totalValue != 0 && amount > minAmount && amount > LegacyDec.TruncQuo(totalValue * percent, 100)
  }

  /** The flow of a limit that has been read from the store. */
  class FlowRecord {
    var inflow: int
    var outflow: int
    var channelValue: int

    function Value(): Flow
      reads this
    {
      Flow(inflow, outflow, channelValue)
    }

    constructor (flow: Flow)
      ensures Value() == flow
    {
      inflow, outflow, channelValue := flow.inflow, flow.outflow, flow.channelValue;
    }

    static method CheckExceedsQuota(quota: Quota, dir: Direction, amount: int, totalValue: int, minAmount: int)
      returns (exceeds: bool)
      ensures exceeds == Exceeds(quota, dir, amount, totalValue, minAmount)
    {
      if totalValue == 0 {
        return false;
      }
      var threshold;
      if dir == RECV {
        threshold := LegacyDec.TruncQuo(totalValue * quota.maxPercentRecv, 100);
      } else {
        threshold := LegacyDec.TruncQuo(totalValue * quota.maxPercentSend, 100);
      }
      if minAmount > threshold {
        threshold := minAmount;
      }
      return amount > threshold;
    }

    method AddInflow(amount: int, quota: Quota, minAmount: int) returns (exceeded: bool)
      modifies this
      ensures exceeded == Exceeds(quota, RECV, old(inflow - outflow) + amount, channelValue, minAmount)
      ensures Value() == if exceeded then old(Value()) else old(Value()).(inflow := old(inflow) + amount)
    {
      var netInflow := inflow - outflow + amount;
      exceeded := CheckExceedsQuota(quota, RECV, netInflow, channelValue, minAmount);
      if !exceeded {
        inflow := inflow + amount;
      }
    }

    method AddOutflow(amount: int, quota: Quota, minAmount: int) returns (exceeded: bool)
      modifies this
      ensures exceeded == Exceeds(quota, SEND, old(outflow - inflow) + amount, channelValue, minAmount)
      ensures Value() == if exceeded then old(Value()) else old(Value()).(outflow := old(outflow) + amount)
    {
      var netOutflow := outflow - inflow + amount;
      exceeded := CheckExceedsQuota(quota, SEND, netOutflow, channelValue, minAmount);
      if !exceeded {
        outflow := outflow + amount;
      }
    }
  }

  method UpdateFlow(rateLimit: RateLimit, dir: Direction, amount: int) returns (updated: RateLimit, exceeded: bool)
    ensures exceeded == FlowLedger.CheckExceedsQuota(rateLimit, dir, Net(rateLimit, dir) + amount)
    ensures updated == if exceeded then rateLimit else AddFlow(rateLimit, dir, amount)
  {
    var flow := new FlowRecord(rateLimit.flow);
    match dir {
      case SEND => exceeded := flow.AddOutflow(amount, rateLimit.quota, rateLimit.minRateLimitAmount);
      case RECV => exceeded := flow.AddInflow(amount, rateLimit.quota, rateLimit.minRateLimitAmount);
    }
    updated := rateLimit.(flow := flow.Value());
  }

  class Keeper {
    var limitStore: map<string, RateLimit>
    var pendingStore: set<string>
    var whitelistStore: map<string, AddressPair>
    var epochStore: map<string, EpochInfo>

    ghost var ledger: Ledger

    ghost predicate Valid()
      reads this
    {
      && WellFormed(ledger) && OnPackets(ledger.pending) && WhitelistFiled(ledger.whitelist)
      && HoldsLimits(limitStore, ledger.limits)
      && pendingStore == PendingKeysOf(ledger.pending)
      && whitelistStore == ledger.whitelist
      && epochStore == ledger.epochs
    }

    constructor ()
      ensures Valid() && ledger == Ledger(map[], {}, map[], map[], Start)
      ensures limitStore == map[] && pendingStore == {} && whitelistStore == map[] && epochStore == map[]
    {
      limitStore, pendingStore, whitelistStore, epochStore := map[], {}, map[], map[];
      ledger := Ledger(map[], {}, map[], map[], Start);
    }

    // ------------------------------------------------------------ rate limits

    method GetRateLimit(path: Path) returns (rateLimit: Option<RateLimit>)
      requires Valid() && CanonicalChannel(path.channel)
      ensures rateLimit == if path in ledger.limits then Some(ledger.limits[path]) else None
    {
      var key := RateLimitKey(path);
      StoreLookup(limitStore, ledger, path);
      if key !in limitStore {
        return None;
      }
      return Some(limitStore[key]);
    }

    method SetRateLimit(rateLimit: RateLimit)
      requires Valid() && CanonicalChannel(rateLimit.path.channel) && rateLimit.quota.durationHours > 0
      modifies `limitStore, `ledger
      ensures Valid()
      ensures ledger == old(ledger).(limits := old(ledger).limits[rateLimit.path := rateLimit])
    {
      hide WellFormed, OnPackets, HoldsLimits, PendingKeysOf, RateLimitKey, CanonicalChannel;
      StoreWrite(limitStore, ledger, rateLimit);
      limitStore := limitStore[RateLimitKey(rateLimit.path) := rateLimit];
      ledger := ledger.(limits := ledger.limits[rateLimit.path := rateLimit]);
    }

    method DeleteRateLimit(path: Path)
      requires Valid() && CanonicalChannel(path.channel)
      modifies `limitStore, `ledger
      ensures Valid()
      ensures ledger == old(ledger).(limits := old(ledger).limits - {path})
    {
      hide WellFormed, OnPackets, HoldsLimits, PendingKeysOf, RateLimitKey, CanonicalChannel;
      StoreDelete(limitStore, ledger, path);
      limitStore := limitStore - {RateLimitKey(path)};
      ledger := ledger.(limits := ledger.limits - {path});
    }

    method GetAllRateLimits() returns (all: seq<RateLimit>)
      requires Valid()
      ensures all == AllRateLimits(ledger.limits)
    {
      hide WellFormed, OnPackets, HoldsLimits, PendingKeysOf, KVStore.SortedKeys;
      var keys := KVStore.SortedKeys(limitStore.Keys);
      all := [];
      for i := 0 to |keys|
        invariant |all| == i && forall j :: 0 <= j < i ==> all[j] == limitStore[keys[j]]
      {
        assert keys[i] in limitStore;
        all := all + [limitStore[keys[i]]];
      }
      StoreReading(limitStore, ledger, keys, all);
      OrderOfKeys(limitStore, ledger);
    }

    // -------------------------------------------------------- pending packets

    method SetPendingSendPacket(id: PacketId)
      requires Valid() && CanonicalPacket(id)
      modifies `pendingStore, `ledger
      ensures Valid() && ledger == old(ledger).(pending := old(ledger).pending + {id})
    {
      PendingWrite(ledger.pending, id);
      pendingStore := pendingStore + {PendingKey(id)};
      ledger := ledger.(pending := ledger.pending + {id});
    }

    method RemovePendingSendPacket(id: PacketId)
      requires Valid() && CanonicalPacket(id)
      modifies `pendingStore, `ledger
      ensures Valid() && ledger == AcknowledgeSuccess(old(ledger), id)
    {
      PendingDelete(ledger.pending, id);
      pendingStore := pendingStore - {PendingKey(id)};
      ledger := ledger.(pending := ledger.pending - {id});
    }

    method CheckPacketSentDuringCurrentQuota(id: PacketId) returns (found: bool)
      requires Valid() && CanonicalPacket(id)
      ensures found <==> id in ledger.pending
    {
      PendingLookup(ledger.pending, id);
      found := PendingKey(id) in pendingStore;
    }

    method GetAllPendingSendPackets() returns (packets: seq<string>)
      requires Valid()
      ensures packets == LabelsUnder(PendingOrder(ledger.pending))
    {
      hide WellFormed, HoldsLimits, PendingKeysOf, OnPackets, KVStore.SortedKeys, LabelsUnder, Decimal;
      var keys := KVStore.SortedKeys(pendingStore);
      assert keys == PendingOrder(ledger.pending);
      packets := [];
      assert keys[0..] == keys;
      for i := 0 to |keys|
        invariant packets + LabelsUnder(keys[i..]) == LabelsUnder(keys)
      {
        NextLabel(keys, i);
        var channel := TrimNuls(keys[i][..CHANNEL_LENGTH]);
        var sequence := FromBigEndian(keys[i][CHANNEL_LENGTH..]);
        packets := packets + [channel + "/" + Decimal(sequence)];
      }
      NoLabels(keys[|keys|..]);
    }

    method RemoveAllChannelPendingSendPackets(channel: string)
      requires Valid() && CanonicalChannel(channel)
      modifies `pendingStore, `ledger
      ensures Valid() && ledger == ClearPending(old(ledger), channel)
    {
      hide WellFormed, OnPackets, HoldsLimits, PendingKeysOf, KVStore.SortedKeys, WithPrefix;
      PendingScan(ledger.pending, channel);
      var keys := KVStore.SortedKeys(WithPrefix(pendingStore, channel));
      for i := 0 to |keys|
        invariant ledger == old(ledger)
        invariant pendingStore == old(pendingStore) - (set k | k in keys[..i])
      {
        assert keys[..i + 1] == keys[..i] + [keys[i]];
        pendingStore := pendingStore - {keys[i]};
      }
      assert keys[..|keys|] == keys;
      assert (set k | k in keys) == WithPrefix(old(pendingStore), channel);
      ledger := ClearPending(ledger, channel);
      ClearedIsWellFormed(old(ledger), channel);
    }

    // -------------------------------------------------------------- whitelist

    method SetWhitelistedAddressPair(pair: AddressPair)
      requires Valid()
      modifies `whitelistStore, `ledger
      ensures Valid()
      ensures ledger
              == old(ledger).(whitelist := old(ledger).whitelist[WhitelistKey(pair.sender, pair.receiver) := pair])
    {
      whitelistStore := whitelistStore[WhitelistKey(pair.sender, pair.receiver) := pair];
      ledger := ledger.(whitelist := whitelistStore);
    }

    method RemoveWhitelistedAddressPair(sender: string, receiver: string)
      requires Valid()
      modifies `whitelistStore, `ledger
      ensures Valid() && ledger == old(ledger).(whitelist := old(ledger).whitelist - {WhitelistKey(sender, receiver)})
    {
      whitelistStore := whitelistStore - {WhitelistKey(sender, receiver)};
      ledger := ledger.(whitelist := whitelistStore);
    }

    method IsAddressPairWhitelisted(sender: string, receiver: string) returns (found: bool)
      requires Valid()
      ensures found == IsWhitelisted(ledger, sender, receiver)
    {
      var key := WhitelistKey(sender, receiver);
      found := key in whitelistStore && whitelistStore[key] != AddressPair("", "");
    }

    method GetAllWhitelistedAddressPairs() returns (all: seq<AddressPair>)
      requires Valid()
      ensures all == PairsUnder(ledger.whitelist, KVStore.SortedKeys(ledger.whitelist.Keys))
    {
      hide WellFormed, HoldsLimits, PendingKeysOf, OnPackets, KVStore.SortedKeys, PairsUnder;
      var keys := KVStore.SortedKeys(whitelistStore.Keys);
      all := [];
      assert keys[0..] == keys;
      for i := 0 to |keys|
        invariant all + PairsUnder(whitelistStore, keys[i..]) == PairsUnder(whitelistStore, keys)
      {
        NextPair(whitelistStore, keys, i);
        all := all + [whitelistStore[keys[i]]];
      }
      NoPairs(whitelistStore, keys[|keys|..]);
    }

    // ----------------------------------------------------------- packet steps

    method CheckRateLimitAndUpdateFlow(dir: Direction, info: PacketInfo, ghost id: PacketId)
      returns (updatedFlow: bool, denied: bool)
      requires Valid() && CanonicalChannel(info.channel)
      modifies `limitStore, `ledger
      ensures Valid()
      ensures match FlowLedger.CheckRateLimitAndUpdateFlow(old(ledger), dir, info, id)
              case Ignored => !updatedFlow && !denied && ledger == old(ledger)
              case Denied => !updatedFlow && denied && ledger == old(ledger)
              case Counted(t) => updatedFlow && !denied && ledger == t
    {
      hide OnPackets, HoldsLimits, PendingKeysOf, RateLimitKey, FlowLedger.CheckExceedsQuota, AddFlow;
      updatedFlow, denied := false, false;
      var found := GetRateLimit(PathOf(info));
      if found.None? {
        return;
      }
      var whitelisted := IsAddressPairWhitelisted(info.sender, info.receiver);
      if whitelisted {
        return;
      }
      var rateLimit;
      rateLimit, denied := UpdateFlow(found.value, dir, info.amount);
      if denied {
        return;
      }
      FlowKeepsLimit(found.value, dir, info.amount);
      SetRateLimit(rateLimit);
      updatedFlow := true;
      ledger := ledger.(log := Then(ledger.log, if dir == SEND then CountedOut(PathOf(info), id, info.amount)
                                                else CountedIn(PathOf(info), info.amount)));
    }

    /** A denial makes the caller's transaction fail. */
    method SendRateLimitedPacket(info: PacketInfo, sequence: nat) returns (denied: bool)
      requires Valid() && CanonicalPacket(PacketId(info.channel, sequence))
      modifies `limitStore, `pendingStore, `ledger
      ensures Valid()
      ensures var id := PacketId(info.channel, sequence);
              && denied == FlowLedger.CheckRateLimitAndUpdateFlow(old(ledger), SEND, info, id).Denied?
              && ledger == FlowLedger.SendPacket(old(ledger), info, id)
    {
      hide WellFormed, OnPackets, HoldsLimits, PendingKeysOf, FlowLedger.CheckRateLimitAndUpdateFlow;
      var updatedFlow;
      updatedFlow, denied := CheckRateLimitAndUpdateFlow(SEND, info, PacketId(info.channel, sequence));
      if updatedFlow {
        SetPendingSendPacket(PacketId(info.channel, sequence));
      }
    }

    method ReceiveRateLimitedPacket(info: PacketInfo) returns (denied: bool)
      requires Valid() && CanonicalChannel(info.channel)
      modifies `limitStore, `ledger
      ensures Valid()
      ensures denied == FlowLedger.CheckRateLimitAndUpdateFlow(old(ledger), RECV, info, PacketId("", 0)).Denied?
      ensures ledger == ReceivePacket(old(ledger), info)
    {
      hide WellFormed, OnPackets, HoldsLimits, PendingKeysOf, FlowLedger.CheckRateLimitAndUpdateFlow;
      var updatedFlow;
      updatedFlow, denied := CheckRateLimitAndUpdateFlow(RECV, info, PacketId("", 0));
    }

    method UndoSendPacket(info: PacketInfo, sequence: nat)
      requires Valid() && CanonicalPacket(PacketId(info.channel, sequence))
      modifies `limitStore, `pendingStore, `ledger
      ensures Valid()
      ensures ledger == FlowLedger.UndoSendPacket(old(ledger), info, PacketId(info.channel, sequence))
    {
      hide OnPackets, HoldsLimits, PendingKeysOf, RateLimitKey;
      var id := PacketId(info.channel, sequence);
      var found := GetRateLimit(PathOf(info));
      if found.None? {
        return;
      }
      var current := CheckPacketSentDuringCurrentQuota(id);
      if current {
        var rateLimit := found.value;
        var flow := rateLimit.flow;
        SetRateLimit(rateLimit.(flow := flow.(outflow := flow.outflow - info.amount)));
        RemovePendingSendPacket(id);
        ledger := ledger.(log := Then(ledger.log, Undone(PathOf(info), id, info.amount)));
      }
    }

    /** An empty result is refused; an error takes the send back. */
    method AcknowledgeRateLimitedPacket(info: PacketInfo, sequence: nat, ack: Acknowledgement) returns (ok: bool)
      requires Valid() && CanonicalPacket(PacketId(info.channel, sequence))
      modifies `limitStore, `pendingStore, `ledger
      ensures Valid() && ok == (ack != Result(""))
      ensures var id := PacketId(info.channel, sequence);
              ledger == if !ok then old(ledger)
                        else if ack.Result? then AcknowledgeSuccess(old(ledger), id)
                        else FlowLedger.UndoSendPacket(old(ledger), info, id)
    {
      hide WellFormed, OnPackets, HoldsLimits, PendingKeysOf, FlowLedger.UndoSendPacket;
      match ack {
        case Result(bytes) =>
          if bytes == [] {
            return false;
          }
          RemovePendingSendPacket(PacketId(info.channel, sequence));
        case Error =>
          UndoSendPacket(info, sequence);
      }
      ok := true;
    }

    method TimeoutRateLimitedPacket(info: PacketInfo, sequence: nat)
      requires Valid() && CanonicalPacket(PacketId(info.channel, sequence))
      modifies `limitStore, `pendingStore, `ledger
      ensures Valid()
      ensures ledger == FlowLedger.UndoSendPacket(old(ledger), info, PacketId(info.channel, sequence))
    {
      UndoSendPacket(info, sequence);
    }

    // --------------------------------------------------------- administration

    method AddRateLimit(env: Env, m: LimitMsg) returns (err: Option<AdminError>)
      requires Valid() && CanonicalChannel(m.path.channel) && m.quota.durationHours > 0
      modifies `limitStore, `ledger
      ensures Valid() && Concludes(old(ledger), FlowLedger.AddRateLimit(old(ledger), env, m), ledger, err)
    {
      hide WellFormed, OnPackets, HoldsLimits, PendingKeysOf, RateLimitKey, CanonicalChannel;
      var denom := m.path.denom;
      if denom in env.registered {
        var tokenInfo := env.registered[denom];
        if m.path.channel == tokenInfo.channelID {
          denom := tokenInfo.ibcDenom;
        }
      }
      var channelValue := ChannelValue(env, denom);
      if channelValue == 0 {
        return Some(ZeroChannelValue);
      }
      var path := Path(denom, m.path.channel);
      var found := GetRateLimit(path);
      if found.Some? {
        return Some(AlreadyExists);
      }
      var limit := RateLimit(path, m.quota, Flow(0, 0, channelValue), m.minRateLimitAmount);
      SetRateLimit(limit);
      ledger := ledger.(log := Then(ledger.log, Zeroed(limit)));
      LogDoesNotMatter(old(ledger).(limits := ledger.limits), ledger.log);
      return None;
    }

    method UpdateRateLimit(env: Env, m: LimitMsg) returns (err: Option<AdminError>)
      requires Valid() && CanonicalChannel(m.path.channel) && m.quota.durationHours > 0
      modifies `limitStore, `ledger
      ensures Valid() && Concludes(old(ledger), FlowLedger.UpdateRateLimit(old(ledger), env, m), ledger, err)
    {
      hide WellFormed, OnPackets, HoldsLimits, PendingKeysOf, RateLimitKey, CanonicalChannel;
      var denom := m.path.denom;
      if denom in env.registered {
        var tokenInfo := env.registered[denom];
        if m.path.channel == tokenInfo.channelID {
          denom := tokenInfo.ibcDenom;
        }
      }
      var path := Path(denom, m.path.channel);
      var found := GetRateLimit(path);
      if found.None? {
        return Some(NotFound);
      }
      var limit := RateLimit(path, m.quota, Flow(0, 0, ChannelValue(env, denom)), m.minRateLimitAmount);
      SetRateLimit(limit);
      ledger := ledger.(log := Then(ledger.log, Zeroed(limit)));
      LogDoesNotMatter(old(ledger).(limits := ledger.limits), ledger.log);
      return None;
    }

    method RemoveRateLimit(env: Env, p: Path) returns (err: Option<AdminError>)
      requires Valid() && CanonicalChannel(p.channel)
      modifies `limitStore, `ledger
      ensures Valid() && Concludes(old(ledger), FlowLedger.RemoveRateLimit(old(ledger), env, p), ledger, err)
    {
      hide WellFormed, OnPackets, HoldsLimits, PendingKeysOf, RateLimitKey, CanonicalChannel;
      var denom := p.denom;
      if denom in env.registered {
        var tokenInfo := env.registered[denom];
        if p.channel == tokenInfo.channelID {
          denom := tokenInfo.ibcDenom;
        }
      }
      var path := Path(denom, p.channel);
      var found := GetRateLimit(path);
      if found.None? {
        return Some(NotFound);
      }
      DeleteRateLimit(path);
      return None;
    }

    method ResetRateLimit(env: Env, p: Path) returns (err: Option<AdminError>)
      requires Valid() && CanonicalChannel(p.channel)
      modifies `limitStore, `pendingStore, `ledger
      ensures Valid() && Concludes(old(ledger), FlowLedger.ResetRateLimit(old(ledger), env, p), ledger, err)
    {
      hide OnPackets, HoldsLimits, PendingKeysOf, RateLimitKey, CanonicalChannel;
      var denom := p.denom;
      if denom in env.registered {
        var tokenInfo := env.registered[denom];
        if p.channel == tokenInfo.channelID {
          denom := tokenInfo.ibcDenom;
        }
      }
      var found := GetRateLimit(Path(denom, p.channel));
      if found.None? {
        return Some(NotFound);
      }
      var rateLimit := found.value.(flow := Flow(0, 0, ChannelValue(env, denom)));
      SetRateLimit(rateLimit);
      ledger := ledger.(log := Then(ledger.log, Zeroed(rateLimit)));
      RemoveAllChannelPendingSendPackets(p.channel);
      return None;
    }

    // ----------------------------------------------------------------- epochs

    method AfterEpochEnd(env: Env, epochInfo: EpochInfo)
      requires Valid() && epochInfo.currentEpoch >= 0
      modifies `limitStore, `pendingStore, `ledger
      ensures Valid() && ledger == FlowLedger.AfterEpochEnd(old(ledger), env, epochInfo)
    {
      hide WellFormed, OnPackets, HoldsLimits, PendingKeysOf, WhitelistFiled, CanonicalChannel, ResetDue, ResetOne,
        FlowLedger.ResetRateLimit, AllRateLimits;
      if epochInfo.identifier != DAY_EPOCH {
        return;
      }
      var hour := epochInfo.currentEpoch;
      var all := GetAllRateLimits();
      LimitsHaveDurations(ledger);
      LimitsAreOnChannels(ledger);
      assert all[0..] == all;
      for i := 0 to |all|
        invariant Valid()
        invariant ResetDue(ledger, env, hour, all[i..]) == ResetDue(old(ledger), env, hour, all)
      {
        NextDue(ledger, env, hour, all, i);
        ghost var before := ledger;
        if hour % all[i].quota.durationHours == 0 {
          var err := ResetRateLimit(env, all[i].path);
        }
        ResetOneIs(before, env, hour, all[i]);
      }
      NothingDue(ledger, env, hour, all[|all|..]);
    }

    /** What the iteration does with one clock, given as it was stored; true stops it. */
    method VisitEpoch(env: Env, now: int, height: int, stored: EpochInfo) returns (stop: bool)
      requires Valid() && stored.identifier in ledger.epochs && stored == ledger.epochs[stored.identifier]
      modifies this
      ensures Valid() && stop == TickAt(stored, now, height).NotYet?
      ensures ledger == EpochStep(old(ledger), env, now, height, stored.identifier)
    {
      hide OnPackets, HoldsLimits, PendingKeysOf, WhitelistFiled, OnChannels, FlowLedger.AfterEpochEnd;
      if now < stored.startTime {
        return true;
      }
      var epochInfo := stored;
      var shouldInitialEpochStart := !epochInfo.epochCountingStarted;
      var epochEndTime := epochInfo.currentEpochStartTime + epochInfo.duration;
      var shouldEpochStart := now > epochEndTime || shouldInitialEpochStart;
      if !shouldEpochStart {
        return false;
      }
      epochInfo := epochInfo.(currentEpochStartHeight := height);
      if shouldInitialEpochStart {
        epochInfo := epochInfo.(epochCountingStarted := true, currentEpoch := 1);
        epochInfo := epochInfo.(currentEpochStartTime := epochInfo.startTime);
      } else {
        AfterEpochEnd(env, epochInfo);
        SameEnd(old(ledger), env, stored, epochInfo);
        epochInfo := epochInfo.(currentEpoch := epochInfo.currentEpoch + 1);
        epochInfo := epochInfo.(currentEpochStartTime := epochInfo.currentEpochStartTime + epochInfo.duration);
      }
      epochStore := epochStore[epochInfo.identifier := epochInfo];
      ledger := ledger.(epochs := epochStore);
      return false;
    }

    method BeginBlocker(env: Env, now: int, height: int)
      requires Valid()
      modifies this
      ensures Valid() && ledger == FlowLedger.BeginBlocker(old(ledger), env, now, height)
    {
      hide OnPackets, HoldsLimits, PendingKeysOf, WhitelistFiled, OnChannels, RunEpochs, EpochStep,
        KVStore.SortedKeys, TickAt;
      var ids := KVStore.SortedKeys(epochStore.Keys);
      var i, stop := 0, false;
      assert ids[0..] == ids;
      while i < |ids| && !stop
        invariant 0 <= i <= |ids| && Valid() && epochStore.Keys == old(epochStore.Keys)
        invariant if stop then ledger == FlowLedger.BeginBlocker(old(ledger), env, now, height)
                  else RunEpochs(ledger, env, now, height, ids[i..])
                       == FlowLedger.BeginBlocker(old(ledger), env, now, height)
      {
        assert ids[i] in epochStore;
        NextEpoch(ledger, env, now, height, ids, i);
        stop := VisitEpoch(env, now, height, epochStore[ids[i]]);
        i := i + 1;
      }
      NoMoreEpochs(ledger, env, now, height, ids[i..]);
    }

    method AddEpochInfo(epoch: EpochInfo, now: int, height: int) returns (ok: bool)
      modifies `epochStore, `ledger
      ensures match AddEpoch(old(epochStore), epoch, now, height)
              case None => !ok && epochStore == old(epochStore)
              case Some(epochs) => ok && epochStore == epochs
      ensures ledger == old(ledger).(epochs := if ok then epochStore else old(ledger).epochs)
      ensures old(Valid()) ==> Valid()
    {
      hide OnPackets, HoldsLimits, PendingKeysOf, WhitelistFiled, OnChannels;
      if !ValidEpoch(epoch) {
        return false;
      }
      if epoch.identifier in epochStore {
        return false;
      }
      var info := epoch;
      if info.startTime == ZERO_TIME {
        info := info.(startTime := now);
      }
      info := info.(currentEpochStartHeight := height);
      epochStore := epochStore[info.identifier := info];
      ledger := ledger.(epochs := epochStore);
      return true;
    }

    // ---------------------------------------------------------------- genesis

    method StoreRateLimits(all: seq<RateLimit>)
      modifies `limitStore
      ensures limitStore == StoreLimits(old(limitStore), all)
    {
      assert all[0..] == all;
      for i := 0 to |all|
        invariant StoreLimits(limitStore, all[i..]) == StoreLimits(old(limitStore), all)
      {
        limitStore := limitStore[RateLimitKey(all[i].path) := all[i]];
        assert all[i..][1..] == all[i + 1..];
      }
    }

    method StoreWhitelist(all: seq<AddressPair>)
      modifies `whitelistStore
      ensures whitelistStore == PutPairs(old(whitelistStore), all)
    {
      assert all[0..] == all;
      for i := 0 to |all|
        invariant PutPairs(whitelistStore, all[i..]) == PutPairs(old(whitelistStore), all)
      {
        whitelistStore := whitelistStore[WhitelistKey(all[i].sender, all[i].receiver) := all[i]];
        assert all[i..][1..] == all[i + 1..];
      }
    }

    /** A label that is not `{channel}/{sequence}` makes the import panic. */
    method StorePendingPackets(labels: seq<string>) returns (panics: bool)
      modifies `pendingStore
      ensures panics == StorePending(old(pendingStore), labels).None?
      ensures !panics ==> pendingStore == StorePending(old(pendingStore), labels).value
    {
      hide Split, ParseUint, PendingKey;
      assert labels[0..] == labels;
      for i := 0 to |labels|
        invariant StorePending(pendingStore, labels[i..]) == StorePending(old(pendingStore), labels)
      {
        assert labels[i..][1..] == labels[i + 1..];
        var splits := Split(labels[i]);
        if |splits| != 2 {
          return true;
        }
        var sequence := ParseUint(splits[1]);
        if sequence.None? {
          return true;
        }
        pendingStore := pendingStore + {PendingKey(PacketId(splits[0], sequence.value))};
      }
      return false;
    }

    method AddEpochInfos(all: seq<EpochInfo>, now: int, height: int) returns (panics: bool)
      modifies `epochStore, `ledger
      ensures panics == PutEpochs(old(epochStore), all, now, height).None?
      ensures !panics ==> epochStore == PutEpochs(old(epochStore), all, now, height).value
    {
      hide Valid, AddEpoch;
      assert all[0..] == all;
      for i := 0 to |all|
        invariant PutEpochs(epochStore, all[i..], now, height) == PutEpochs(old(epochStore), all, now, height)
      {
        assert all[i..][1..] == all[i + 1..];
        var ok := AddEpochInfo(all[i], now, height);
        if !ok {
          return true;
        }
      }
      return false;
    }

    /** Any genesis into empty stores: what the stores hold afterwards, and, for limits
        and packets on IBC channels, that they hold the imported ledger. */
    method InitGenesis(g: Genesis, now: int, height: int) returns (panics: bool)
      requires limitStore == map[] && pendingStore == {} && whitelistStore == map[] && epochStore == map[]
      modifies this
      ensures panics == ImportStores(g, now, height).None?
      ensures !panics ==>
                Stores(limitStore, pendingStore, whitelistStore, epochStore) == ImportStores(g, now, height).value
      ensures panics == Import(g, now, height).None?
      ensures !panics && OnIBCChannels(g) ==> Valid() && ledger == Import(g, now, height).value
    {
      hide WellFormed, OnPackets, HoldsLimits, PendingKeysOf, WhitelistFiled, OnIBCChannels, StoreLimits, PutPairs,
        StorePending, PutEpochs, Import;
      ImportHolds(g, now, height);
      StoreRateLimits(g.rateLimits);
      StoreWhitelist(g.whitelist);
      panics := StorePendingPackets(g.pending);
      if panics {
        return;
      }
      panics := AddEpochInfos(g.epochs, now, height);
      if !panics {
        ledger := Import(g, now, height).value;
      }
    }

    method ExportGenesis() returns (g: Genesis)
      requires Valid()
      ensures g == Export(ledger)
    {
      hide OnPackets, HoldsLimits, PendingKeysOf, WhitelistFiled, AllRateLimits, PairsUnder, LabelsUnder, PendingOrder,
        KVStore.SortedKeys;
      var limits := GetAllRateLimits();
      var whitelist := GetAllWhitelistedAddressPairs();
      var pending := GetAllPendingSendPackets();
      g := Genesis(limits, whitelist, pending, [DEFAULT_EPOCH]);
    }
  }

  /** An export imported into an empty store never panics and fills the stores with
      the same bytes again, except for the clocks, which start afresh. */
  method Reimport(k: Keeper, now: int, height: int) returns (copy: Keeper)
    requires k.Valid()
    ensures fresh(copy) && copy.Valid()
    ensures copy.limitStore == k.limitStore
    ensures copy.pendingStore == k.pendingStore
    ensures copy.whitelistStore == k.whitelistStore
    ensures copy.epochStore
            == map[DAY_EPOCH := DEFAULT_EPOCH.(startTime := now, currentEpochStartHeight := height)]
  {
    hide OnPackets, HoldsLimits, PendingKeysOf, WhitelistFiled, Import, Export, OnIBCChannels;
    var g := k.ExportGenesis();
    copy := new Keeper();
    ExportIsOnIBCChannels(k.ledger);
    GenesisRoundTrip(k.ledger, now, height);
    var panics := copy.InitGenesis(g, now, height);
    StoreIsDetermined(copy.limitStore, k.limitStore, k.ledger.limits);
  }
}
