/**
 How the byte store of x/ratelimit holds a ledger: what a lookup, a write, a
 deletion or a scan over raw keys means for the map of limits and for the set of
 pending packets.
 */
module ByteStore {
  import opened Basics
  import opened StoreKeys
  import opened EpochClock
  import opened FlowLedger
  import opened RateLimitGenesis
  import opened Text
  import KVStore

  /** The store maps exactly the keys of the limits to the limits. */
  predicate HoldsLimits(store: map<string, RateLimit>, limits: map<Path, RateLimit>) {
    && store.Keys == KeysOf(limits)
    && forall p :: p in limits ==> RateLimitKey(p) in store && store[RateLimitKey(p)] == limits[p]
  }

  lemma LimitLookup(store: map<string, RateLimit>, limits: map<Path, RateLimit>, p: Path)
    requires HoldsLimits(store, limits) && OnChannels(limits) && CanonicalChannel(p.channel)
    ensures RateLimitKey(p) in store <==> p in limits
    ensures p in limits ==> store[RateLimitKey(p)] == limits[p]
  {
    if RateLimitKey(p) in store {
      KeyOfLimit(limits, RateLimitKey(p));
      RateLimitKeyReadsBack(p);
    }
  }

  lemma LimitWrite(store: map<string, RateLimit>, limits: map<Path, RateLimit>, p: Path, limit: RateLimit)
    requires HoldsLimits(store, limits) && OnChannels(limits) && CanonicalChannel(p.channel)
    ensures HoldsLimits(store[RateLimitKey(p) := limit], limits[p := limit])
  {
    var after, store' := limits[p := limit], store[RateLimitKey(p) := limit];
    forall q | q in after
      ensures RateLimitKey(q) in store' && store'[RateLimitKey(q)] == after[q]
    {
      RateLimitKeyIsInjective(p, q);
    }
    forall k | k in KeysOf(limits)
      ensures k in KeysOf(after)
    {
      KeyOfLimit(limits, k);
    }
    assert RateLimitKey(p) in KeysOf(after);
    assert store'.Keys == KeysOf(after);
  }

  lemma LimitDelete(store: map<string, RateLimit>, limits: map<Path, RateLimit>, p: Path)
    requires HoldsLimits(store, limits) && OnChannels(limits) && CanonicalChannel(p.channel)
    ensures HoldsLimits(store - {RateLimitKey(p)}, limits - {p})
  {
    var after, store' := limits - {p}, store - {RateLimitKey(p)};
    forall q | q in after
      ensures RateLimitKey(q) in store' && store'[RateLimitKey(q)] == after[q]
    {
      RateLimitKeyIsInjective(p, q);
    }
    forall k | k in store'
      ensures k in KeysOf(after)
    {
      KeyOfLimit(limits, k);
    }
    assert store'.Keys == KeysOf(after);
  }

  lemma PendingLookup(pending: set<PacketId>, id: PacketId)
    requires OnPackets(pending) && CanonicalPacket(id)
    ensures PendingKey(id) in PendingKeysOf(pending) <==> id in pending
  {
    if PendingKey(id) in PendingKeysOf(pending) {
      var other :| other in pending && PendingKey(other) == PendingKey(id);
      PendingKeyIsInjective(other, id);
    }
  }

  lemma PendingWrite(pending: set<PacketId>, id: PacketId)
    requires OnPackets(pending) && CanonicalPacket(id)
    ensures PendingKeysOf(pending) + {PendingKey(id)} == PendingKeysOf(pending + {id})
  {
  }

  lemma PendingDelete(pending: set<PacketId>, id: PacketId)
    requires OnPackets(pending) && CanonicalPacket(id)
    ensures PendingKeysOf(pending) - {PendingKey(id)} == PendingKeysOf(pending - {id})
  {
    forall other | other in pending
      ensures PendingKey(other) == PendingKey(id) <==> other == id
    {
      PendingKeyIsInjective(other, id);
    }
  }

  function WithPrefix(keys: set<string>, prefix: string): set<string> {
    set k | k in keys && prefix <= k
  }

  /** Deleting every key under a channel's unpadded identifier leaves exactly the
      packets whose channel does not start with it. */
  lemma PendingScan(pending: set<PacketId>, channel: string)
    requires OnPackets(pending) && CanonicalChannel(channel)
    ensures var rest := set id | id in pending && !(channel <= id.channel);
            PendingKeysOf(pending) - WithPrefix(PendingKeysOf(pending), channel) == PendingKeysOf(rest)
  {
    forall id | id in pending
      ensures channel <= PendingKey(id) <==> channel <= id.channel
    {
      PendingScanMeets(channel, id);
    }
  }

  // ------------------------------------------- the same facts for a whole ledger

  lemma StoreLookup(store: map<string, RateLimit>, s: Ledger, p: Path)
    requires HoldsLimits(store, s.limits) && WellFormed(s) && CanonicalChannel(p.channel)
    ensures RateLimitKey(p) in store <==> p in s.limits
    ensures p in s.limits ==> store[RateLimitKey(p)] == s.limits[p]
  {
    LimitLookup(store, s.limits, p);
  }

  lemma StoreWrite(store: map<string, RateLimit>, s: Ledger, limit: RateLimit)
    requires HoldsLimits(store, s.limits) && WellFormed(s)
    requires CanonicalChannel(limit.path.channel) && limit.quota.durationHours > 0
    ensures HoldsLimits(store[RateLimitKey(limit.path) := limit], s.limits[limit.path := limit])
    ensures WellFormed(s.(limits := s.limits[limit.path := limit]))
  {
    LimitWrite(store, s.limits, limit.path, limit);
  }

  lemma StoreDelete(store: map<string, RateLimit>, s: Ledger, p: Path)
    requires HoldsLimits(store, s.limits) && WellFormed(s) && CanonicalChannel(p.channel)
    ensures HoldsLimits(store - {RateLimitKey(p)}, s.limits - {p})
    ensures WellFormed(s.(limits := s.limits - {p}))
  {
    LimitDelete(store, s.limits, p);
  }

  /** Reading the values of all keys in order gives all limits. */
  lemma StoreReading(store: map<string, RateLimit>, s: Ledger, keys: seq<string>, all: seq<RateLimit>)
    requires HoldsLimits(store, s.limits) && WellFormed(s)
    requires forall k :: k in keys ==> k in store
    requires |all| == |keys| && forall j :: 0 <= j < |keys| ==> all[j] == store[keys[j]]
    ensures all == LimitsUnder(s.limits, keys)
  {
    forall j | 0 <= j < |keys|
      ensures all[j] == LimitsUnder(s.limits, keys)[j]
    {
      KeyOfLimit(s.limits, keys[j]);
    }
  }

  lemma OrderOfKeys(store: map<string, RateLimit>, s: Ledger)
    requires HoldsLimits(store, s.limits) && WellFormed(s)
    ensures KVStore.SortedKeys(store.Keys) == KVStore.SortedKeys(KeysOf(s.limits))
  {
  }

  lemma ClearedIsWellFormed(s: Ledger, channel: string)
    requires WellFormed(s) && OnPackets(s.pending)
    ensures WellFormed(ClearPending(s, channel)) && OnPackets(ClearPending(s, channel).pending)
  {
  }

  lemma NextLabel(keys: seq<string>, i: nat)
    requires i < |keys| && forall k :: k in keys ==> |k| >= CHANNEL_LENGTH
    ensures var key := keys[i];
            && key in keys
            && LabelsUnder(keys[i..])
               == [TrimNuls(key[..CHANNEL_LENGTH]) + "/" + Decimal(FromBigEndian(key[CHANNEL_LENGTH..]))]
                  + LabelsUnder(keys[i + 1..])
  {
    assert keys[i..][1..] == keys[i + 1..];
  }

  lemma NoLabels(keys: seq<string>)
    requires keys == []
    ensures LabelsUnder(keys) == []
  {
  }

  lemma NextPair(whitelist: map<string, AddressPair>, keys: seq<string>, i: nat)
    requires i < |keys| && forall k :: k in keys ==> k in whitelist
    ensures PairsUnder(whitelist, keys[i..]) == [whitelist[keys[i]]] + PairsUnder(whitelist, keys[i + 1..])
  {
    assert keys[i..][1..] == keys[i + 1..];
  }

  lemma NoPairs(whitelist: map<string, AddressPair>, keys: seq<string>)
    requires keys == []
    ensures PairsUnder(whitelist, keys) == []
  {
  }

  lemma FlowKeepsLimit(limit: RateLimit, dir: Direction, amount: int)
    ensures AddFlow(limit, dir, amount).path == limit.path && AddFlow(limit, dir, amount).quota == limit.quota
  {
  }

  lemma LogDoesNotMatter(s: Ledger, log: Log)
    requires WellFormed(s)
    ensures WellFormed(s.(log := log))
  {
  }

  // ------------------------------------------------------------------- the loops

  lemma LimitsAreOnChannels(s: Ledger)
    requires WellFormed(s)
    ensures forall limit :: limit in AllRateLimits(s.limits) ==> CanonicalChannel(limit.path.channel)
  {
    LimitsHaveDurations(s);
  }

  lemma NextDue(s: Ledger, env: Env, hour: nat, all: seq<RateLimit>, i: nat)
    requires forall j :: 0 <= j < |all| ==> all[j].quota.durationHours > 0
    requires i < |all|
    ensures ResetDue(s, env, hour, all[i..]) == ResetDue(ResetOne(s, env, hour, all[i]), env, hour, all[i + 1..])
  {
    assert all[i..][1..] == all[i + 1..];
  }

  lemma ResetOneIs(s: Ledger, env: Env, hour: nat, limit: RateLimit)
    requires limit.quota.durationHours > 0
    ensures ResetOne(s, env, hour, limit)
            == if hour % limit.quota.durationHours != 0 then s else Committed(s, ResetRateLimit(s, env, limit.path))
  {
  }

  lemma NothingDue(s: Ledger, env: Env, hour: nat, due: seq<RateLimit>)
    requires due == []
    ensures ResetDue(s, env, hour, due) == s
  {
  }

  /** The start height of an epoch plays no part at its end. */
  lemma SameEnd(s: Ledger, env: Env, e: EpochInfo, f: EpochInfo)
    requires WellFormed(s) && e.currentEpoch >= 0
    requires e.identifier == f.identifier && e.currentEpoch == f.currentEpoch
    ensures AfterEpochEnd(s, env, e) == AfterEpochEnd(s, env, f)
  {
  }

  lemma NextEpoch(s: Ledger, env: Env, now: int, height: int, ids: seq<string>, i: nat)
    requires WellFormed(s) && i < |ids| && forall id :: id in ids ==> id in s.epochs
    ensures ids[i] in s.epochs && s.epochs[ids[i]].identifier == ids[i]
    ensures RunEpochs(s, env, now, height, ids[i..])
            == var t := EpochStep(s, env, now, height, ids[i]);
               if TickAt(s.epochs[ids[i]], now, height).NotYet? then t
               else RunEpochs(t, env, now, height, ids[i + 1..])
  {
    assert ids[i..][1..] == ids[i + 1..];
  }

  lemma NoMoreEpochs(s: Ledger, env: Env, now: int, height: int, ids: seq<string>)
    requires WellFormed(s) && forall id :: id in ids ==> id in s.epochs
    ensures ids == [] ==> RunEpochs(s, env, now, height, ids) == s
  {
  }

  lemma StoreIsDetermined(a: map<string, RateLimit>, b: map<string, RateLimit>, limits: map<Path, RateLimit>)
    requires OnChannels(limits) && HoldsLimits(a, limits) && HoldsLimits(b, limits)
    ensures a == b
  {
    forall k | k in a
      ensures k in b && a[k] == b[k]
    {
      KeyOfLimit(limits, k);
    }
  }

  // -------------------------------------------------------------------- imports

  function StoreLimits(store: map<string, RateLimit>, all: seq<RateLimit>): map<string, RateLimit>
    decreases all
  {
    if all == [] then store else StoreLimits(store[RateLimitKey(all[0].path) := all[0]], all[1..])
  }

  /** Nothing when a label is not of the form `{channel}/{sequence}`. */
  function StorePending(store: set<string>, labels: seq<string>): Option<set<string>>
    decreases labels
  {
    if labels == [] then Some(store)
    else
      match ParseLabel(labels[0])
      case None => None
      case Some(id) => StorePending(store + {PendingKey(id)}, labels[1..])
  }

  /** Limits on IBC channels, stored in turn, are what the imported ledger holds. */
  lemma {:induction false} StoredLimitsHold(store: map<string, RateLimit>, limits: map<Path, RateLimit>,
                                            all: seq<RateLimit>)
    requires HoldsLimits(store, limits) && OnChannels(limits)
    requires forall i :: 0 <= i < |all| ==> CanonicalChannel(all[i].path.channel)
    ensures HoldsLimits(StoreLimits(store, all), PutLimits(limits, all))
    decreases all
  {
    if all != [] {
      LimitWrite(store, limits, all[0].path, all[0]);
      hide HoldsLimits, CanonicalChannel;
      StoredLimitsHold(store[RateLimitKey(all[0].path) := all[0]], limits[all[0].path := all[0]], all[1..]);
    }
  }

  /** An import panics over its labels whatever is stored already, and otherwise stores
      the keys of the packets it names. */
  lemma {:induction false} StoredPendingHolds(pending: set<PacketId>, labels: seq<string>)
    ensures StorePending(PendingKeysOf(pending), labels)
            == match PutPending(pending, labels)
               case None => None
               case Some(all) => Some(PendingKeysOf(all))
    decreases labels
  {
    if labels != [] && ParseLabel(labels[0]).Some? {
      var id := ParseLabel(labels[0]).value;
      assert PendingKeysOf(pending) + {PendingKey(id)} == PendingKeysOf(pending + {id});
      hide ParseLabel, PendingKeysOf, PendingKey;
      StoredPendingHolds(pending + {id}, labels[1..]);
    }
  }

  lemma {:induction false} PutPendingOnPackets(pending: set<PacketId>, labels: seq<string>)
    requires OnPackets(pending) && PutPending(pending, labels).Some?
    requires forall i :: 0 <= i < |labels| ==>
               ParseLabel(labels[i]).Some? ==> CanonicalPacket(ParseLabel(labels[i]).value)
    ensures OnPackets(PutPending(pending, labels).value)
    decreases labels
  {
    hide ParseLabel, CanonicalPacket;
    if labels != [] {
      PutPendingOnPackets(pending + {ParseLabel(labels[0]).value}, labels[1..]);
    }
  }

  lemma {:induction false} PutPairsFiled(m: map<string, AddressPair>, all: seq<AddressPair>)
    requires WhitelistFiled(m)
    ensures WhitelistFiled(PutPairs(m, all))
    decreases all
  {
    if all != [] {
      PutPairsFiled(m[WhitelistKey(all[0].sender, all[0].receiver) := all[0]], all[1..]);
    }
  }

  predicate LimitsFiled(limits: map<Path, RateLimit>) {
    OnChannels(limits) && forall p :: p in limits ==> limits[p].path == p && limits[p].quota.durationHours > 0
  }

  lemma {:induction false} PutLimitsFiled(m: map<Path, RateLimit>, all: seq<RateLimit>)
    requires LimitsFiled(m)
    requires forall i :: 0 <= i < |all| ==> CanonicalChannel(all[i].path.channel) && all[i].quota.durationHours > 0
    ensures LimitsFiled(PutLimits(m, all))
    decreases all
  {
    if all != [] {
      assert LimitsFiled(m[all[0].path := all[0]]);
      hide LimitsFiled, CanonicalChannel;
      PutLimitsFiled(m[all[0].path := all[0]], all[1..]);
    }
  }

  predicate EpochsFiled(epochs: map<string, EpochInfo>) {
    forall k :: k in epochs ==> epochs[k].identifier == k && epochs[k].currentEpoch >= 0
  }

  lemma {:induction false} PutEpochsFiled(epochs: map<string, EpochInfo>, all: seq<EpochInfo>, now: int, height: int)
    requires EpochsFiled(epochs) && PutEpochs(epochs, all, now, height).Some?
    ensures EpochsFiled(PutEpochs(epochs, all, now, height).value)
    decreases all
  {
    if all != [] {
      var next := AddEpoch(epochs, all[0], now, height).value;
      assert EpochsFiled(next);
      hide EpochsFiled, AddEpoch;
      PutEpochsFiled(next, all[1..], now, height);
    }
  }

  /** The stores after importing anything into an empty store, unless the import
      panics. */
  datatype Stores = Stores(
    limits: map<string, RateLimit>,
    pending: set<string>,
    whitelist: map<string, AddressPair>,
    epochs: map<string, EpochInfo>)

  function ImportStores(g: Genesis, now: int, height: int): Option<Stores> {
    match StorePending({}, g.pending)
    case None => None
    case Some(pending) =>
      match PutEpochs(map[], g.epochs, now, height)
      case None => None
      case Some(epochs) =>
        Some(Stores(StoreLimits(map[], g.rateLimits), pending, PutPairs(map[], g.whitelist), epochs))
  }

  /** A ledger and the stores that hold it. */
  predicate Holds(stores: Stores, s: Ledger) {
    && WellFormed(s) && OnPackets(s.pending) && WhitelistFiled(s.whitelist)
    && HoldsLimits(stores.limits, s.limits) && stores.pending == PendingKeysOf(s.pending)
    && stores.whitelist == s.whitelist && stores.epochs == s.epochs
  }

  /** The stores panic exactly when the ledger does, and on IBC channels hold it. */
  lemma ImportHolds(g: Genesis, now: int, height: int)
    ensures ImportStores(g, now, height).None? <==> Import(g, now, height).None?
    ensures OnIBCChannels(g) && Import(g, now, height).Some? ==>
              Holds(ImportStores(g, now, height).value, Import(g, now, height).value)
  {
    assert PendingKeysOf({}) == {};
    StoredPendingHolds({}, g.pending);
    if OnIBCChannels(g) && Import(g, now, height).Some? {
      EmptyHolds();
      StoredLimitsHold(map[], map[], g.rateLimits);
      PutLimitsFiled(map[], g.rateLimits);
      PutPendingOnPackets({}, g.pending);
      PutPairsFiled(map[], g.whitelist);
      PutEpochsFiled(map[], g.epochs, now, height);
    }
    hide PutLimits, PutPairs, PutPending, PutEpochs, StoreLimits, StorePending, HoldsLimits, PendingKeysOf, ParseLabel,
      CanonicalChannel, CanonicalPacket, WhitelistFiled, OnPackets;
  }

  lemma EmptyHolds()
    ensures HoldsLimits(map[], map[]) && OnChannels(map[]) && LimitsFiled(map[]) && OnPackets({})
    ensures WhitelistFiled(map[]) && EpochsFiled(map[])
  {
  }
}
