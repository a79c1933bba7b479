/**
 Export and import of the rate-limit state.  Pending packets travel as text,
 `{channel}/{sequence}`, printed from their store keys and parsed again; the
 clocks do not travel at all.
 */
module RateLimitGenesis {
  import opened Basics
  import opened StoreKeys
  import opened EpochClock
  import opened FlowLedger
  import opened Text
  import KVStore

  // ------------------------------------------------------------- packet labels

  function Label(id: PacketId): string {
    id.channel + "/" + Decimal(id.sequence)
  }

  function ParseLabel(s: string): Option<PacketId> {
    var splits := Split(s);
    if |splits| != 2 then None
    else
      match ParseUint(splits[1])
      case None => None
      case Some(n) => Some(PacketId(splits[0], n))
  }

  lemma ChannelsHaveNoSlash(c: string)
    requires CanonicalChannel(c)
    ensures '/' !in c
  {
    forall i | 0 <= i < |c|
      ensures c[i] != '/'
    {
      if i < |CHANNEL_PREFIX| {
        assert c[i] == c[..|CHANNEL_PREFIX|][i];
      } else {
        assert c[i] == c[|CHANNEL_PREFIX|..][i - |CHANNEL_PREFIX|];
      }
    }
  }

  lemma DigitsHaveNoSlash(s: string)
    requires AllDigits(s)
    ensures Split(s) == [s]
  {
    SplitPlain(s);
  }

  /** Every packet's label is parsed back into the packet, for all 64-bit
      sequence numbers. */
  lemma LabelReadsBack(id: PacketId)
    requires CanonicalPacket(id)
    ensures ParseLabel(Label(id)) == Some(id)
  {
    ChannelsHaveNoSlash(id.channel);
    DecimalReadsBack(id.sequence);
    SplitAtSlash(id.channel, Decimal(id.sequence));
    SplitPlain(id.channel);
    DigitsHaveNoSlash(Decimal(id.sequence));
  }

  /** The channel comes first, and the number in decimal. */
  lemma LabelExample()
    ensures Label(PacketId("channel-0", 12)) == "channel-0/12"
  {
    assert Decimal(12) == Decimal(1) + [Digit(2)] == "12";
    assert "channel-0" + "/" + "12" == "channel-0/12";
  }

  // --------------------------------------------------------- export and import

  datatype Genesis = Genesis(
    rateLimits: seq<RateLimit>,
    whitelist: seq<AddressPair>,
    pending: seq<string>,
    epochs: seq<EpochInfo>)

  const ZERO_TIME: int := 0
  const DAY: int := 24 * 3600 * 1_000_000_000

  const DEFAULT_EPOCH := EpochInfo(DAY_EPOCH, ZERO_TIME, DAY, 0, ZERO_TIME, false, 0)

  predicate OnPackets(pending: set<PacketId>) {
    forall id :: id in pending ==> CanonicalPacket(id)
  }

  function PendingKeysOf(pending: set<PacketId>): set<string> {
    set id | id in pending :: PendingKey(id)
  }

  /** The keys of the pending packets as an iterator visits them. */
  function PendingOrder(pending: set<PacketId>): (keys: seq<string>)
    requires OnPackets(pending)
    ensures forall k :: k in keys <==> k in PendingKeysOf(pending)
    ensures forall k :: k in keys ==> |k| >= CHANNEL_LENGTH
  {
    KVStore.SortedKeys(PendingKeysOf(pending))
  }

  /** The labels of the packets under the given keys. */
  function LabelsUnder(keys: seq<string>): seq<string>
    requires forall k :: k in keys ==> |k| >= CHANNEL_LENGTH
  {
    if keys == [] then []
    else
      assert keys[0] in keys;
      [Label(ParsePendingKey(keys[0]))] + LabelsUnder(keys[1..])
  }

  function PairsUnder(whitelist: map<string, AddressPair>, keys: seq<string>): seq<AddressPair>
    requires forall k :: k in keys ==> k in whitelist
  {
    if keys == [] then []
    else
      assert keys[0] in keys;
      [whitelist[keys[0]]] + PairsUnder(whitelist, keys[1..])
  }

  function Export(s: Ledger): Genesis
    requires WellFormed(s) && OnPackets(s.pending)
  {
    Genesis(
      AllRateLimits(s.limits),
      PairsUnder(s.whitelist, KVStore.SortedKeys(s.whitelist.Keys)),
      LabelsUnder(PendingOrder(s.pending)),
      [DEFAULT_EPOCH])
  }

  function PutLimits(m: map<Path, RateLimit>, all: seq<RateLimit>): map<Path, RateLimit>
    decreases all
  {
    if all == [] then m else PutLimits(m[all[0].path := all[0]], all[1..])
  }

  function PutPairs(m: map<string, AddressPair>, all: seq<AddressPair>): map<string, AddressPair>
    decreases all
  {
    if all == [] then m
    else PutPairs(m[WhitelistKey(all[0].sender, all[0].receiver) := all[0]], all[1..])
  }

  /** Nothing when a label is not of the form `{channel}/{sequence}`: the import
      panics. */
  function PutPending(pending: set<PacketId>, labels: seq<string>): Option<set<PacketId>>
    decreases labels
  {
    if labels == [] then Some(pending)
    else
      match ParseLabel(labels[0])
      case None => None
      case Some(id) => PutPending(pending + {id}, labels[1..])
  }

  /** AddEpochInfo: an invalid or repeated clock is refused; a clock without a
      start time starts now. */
  function AddEpoch(epochs: map<string, EpochInfo>, e: EpochInfo, now: int, height: int)
    : Option<map<string, EpochInfo>>
  {
    if !ValidEpoch(e) || e.identifier in epochs then None
    else
      var start := if e.startTime == ZERO_TIME then now else e.startTime;
      Some(epochs[e.identifier := e.(startTime := start, currentEpochStartHeight := height)])
  }

  function PutEpochs(epochs: map<string, EpochInfo>, all: seq<EpochInfo>, now: int, height: int)
    : Option<map<string, EpochInfo>>
    decreases all
  {
    if all == [] then Some(epochs)
    else
      match AddEpoch(epochs, all[0], now, height)
      case None => None
      case Some(next) => PutEpochs(next, all[1..], now, height)
  }

  /** The state after importing into an empty store, unless the import panics. */
  function Import(g: Genesis, now: int, height: int): Option<Ledger> {
    match PutPending({}, g.pending)
    case None => None
    case Some(pending) =>
      match PutEpochs(map[], g.epochs, now, height)
      case None => None
      case Some(epochs) =>
        Some(Ledger(PutLimits(map[], g.rateLimits), pending, PutPairs(map[], g.whitelist), epochs, Start))
  }

  // ---------------------------------------------------------------- round trip

  lemma {:induction false} LimitsReturn(m: map<Path, RateLimit>, limits: map<Path, RateLimit>, keys: seq<string>)
    requires OnChannels(limits) && forall k :: k in keys ==> k in KeysOf(limits)
    requires forall p :: p in limits ==> limits[p].path == p
    requires forall p :: p in m ==> p in limits && m[p] == limits[p]
    ensures var r := PutLimits(m, LimitsUnder(limits, keys));
            && (forall p :: p in r ==> p in limits && r[p] == limits[p])
            && m.Keys <= r.Keys
            && (forall k :: k in keys ==> ParseRateLimitKey(k) in r)
    decreases keys
  {
    hide KeysOf, ParseRateLimitKey;
    if keys != [] {
      assert keys[0] in keys;
      KeyOfLimit(limits, keys[0]);
      var p := ParseRateLimitKey(keys[0]);
      LimitsReturn(m[p := limits[p]], limits, keys[1..]);
      assert keys == [keys[0]] + keys[1..];
    }
  }

  lemma LimitsAreFiled(s: Ledger)
    requires WellFormed(s)
    ensures OnChannels(s.limits) && forall p :: p in s.limits ==> s.limits[p].path == p
  {
  }

  lemma LimitIsListed(limits: map<Path, RateLimit>, p: Path)
    requires OnChannels(limits) && p in limits
    ensures RateLimitKey(p) in KVStore.SortedKeys(KeysOf(limits)) && ParseRateLimitKey(RateLimitKey(p)) == p
  {
    assert RateLimitKey(p) in KeysOf(limits);
    RateLimitKeyReadsBack(p);
  }

  lemma AllLimitsReturn(limits: map<Path, RateLimit>)
    requires OnChannels(limits) && forall p :: p in limits ==> limits[p].path == p
    ensures PutLimits(map[], LimitsUnder(limits, KVStore.SortedKeys(KeysOf(limits)))) == limits
  {
    hide *;
    var keys := KVStore.SortedKeys(KeysOf(limits));
    LimitsReturn(map[], limits, keys);
    var r := PutLimits(map[], LimitsUnder(limits, keys));
    forall p | p in limits
      ensures p in r && r[p] == limits[p]
    {
      LimitIsListed(limits, p);
    }
    assert r == limits;
  }

  /** Whitelist entries are filed under their own addresses. */
  predicate WhitelistFiled(w: map<string, AddressPair>) {
    forall k :: k in w ==> WhitelistKey(w[k].sender, w[k].receiver) == k
  }

  lemma {:induction false} PairsReturn(m: map<string, AddressPair>, w: map<string, AddressPair>, keys: seq<string>)
    requires WhitelistFiled(w) && forall k :: k in keys ==> k in w
    requires forall k :: k in m ==> k in w && m[k] == w[k]
    ensures var r := PutPairs(m, PairsUnder(w, keys));
            && (forall k :: k in r ==> k in w && r[k] == w[k])
            && m.Keys <= r.Keys && (forall k :: k in keys ==> k in r)
    decreases keys
  {
    if keys != [] {
      assert keys[0] in keys;
      PairsReturn(m[keys[0] := w[keys[0]]], w, keys[1..]);
      assert keys == [keys[0]] + keys[1..];
    }
  }

  lemma KeyOfPacket(pending: set<PacketId>, key: string)
    requires OnPackets(pending) && key in PendingKeysOf(pending)
    ensures |key| >= CHANNEL_LENGTH && ParsePendingKey(key) in pending
    ensures ParseLabel(Label(ParsePendingKey(key))) == Some(ParsePendingKey(key))
  {
    var id :| id in pending && PendingKey(id) == key;
    PendingKeyReadsBack(id);
    LabelReadsBack(id);
  }

  lemma PendingIsListed(pending: set<PacketId>, id: PacketId)
    requires OnPackets(pending) && id in pending
    ensures PendingKey(id) in PendingOrder(pending) && ParsePendingKey(PendingKey(id)) == id
  {
    PendingKeyReadsBack(id);
  }

  lemma {:induction false} PendingReturns(m: set<PacketId>, pending: set<PacketId>, keys: seq<string>)
    requires OnPackets(pending) && forall k :: k in keys ==> k in PendingKeysOf(pending)
    requires m <= pending
    ensures forall k :: k in keys ==> |k| >= CHANNEL_LENGTH
    ensures var r := PutPending(m, LabelsUnder(keys));
            && r.Some? && m <= r.value <= pending
            && (forall k :: k in keys ==> ParsePendingKey(k) in r.value)
    decreases keys
  {
    hide PendingKeysOf, OnPackets, ParsePendingKey, ParseLabel, Label;
    if keys != [] {
      assert keys[0] in keys;
      KeyOfPacket(pending, keys[0]);
      PendingReturns(m + {ParsePendingKey(keys[0])}, pending, keys[1..]);
      assert keys == [keys[0]] + keys[1..];
    }
  }

  lemma AllPairsReturn(w: map<string, AddressPair>)
    requires WhitelistFiled(w)
    ensures PutPairs(map[], PairsUnder(w, KVStore.SortedKeys(w.Keys))) == w
  {
    hide *;
    var keys := KVStore.SortedKeys(w.Keys);
    PairsReturn(map[], w, keys);
    var r := PutPairs(map[], PairsUnder(w, keys));
    forall k | k in w
      ensures k in r && r[k] == w[k]
    {
      assert k in keys;
    }
    assert r == w;
  }

  lemma AllPendingReturn(pending: set<PacketId>)
    requires OnPackets(pending)
    ensures PutPending({}, LabelsUnder(PendingOrder(pending))) == Some(pending)
  {
    hide *;
    var keys := PendingOrder(pending);
    PendingReturns({}, pending, keys);
    var r := PutPending({}, LabelsUnder(keys)).value;
    forall id | id in pending
      ensures id in r
    {
      PendingIsListed(pending, id);
    }
    assert r == pending;
  }

  lemma EpochsReturn(now: int, height: int)
    ensures PutEpochs(map[], [DEFAULT_EPOCH], now, height)
            == Some(map[DAY_EPOCH := DEFAULT_EPOCH.(startTime := now, currentEpochStartHeight := height)])
  {
    assert [DEFAULT_EPOCH][1..] == [];
    assert AddEpoch(map[], DEFAULT_EPOCH, now, height).value[DAY_EPOCH] ==
           DEFAULT_EPOCH.(startTime := now, currentEpochStartHeight := height);
  }

  /** Importing an export into an empty store never panics and gives back the rate
      limits, the whitelist and the pending set; the clocks start afresh, with one called
      `hour` whose epochs last a day. */
  lemma GenesisRoundTrip(s: Ledger, now: int, height: int)
    requires WellFormed(s) && OnPackets(s.pending) && WhitelistFiled(s.whitelist)
    ensures Import(Export(s), now, height)
            == Some(Ledger(s.limits, s.pending, s.whitelist,
                           map["hour" := EpochInfo("hour", now, 86_400_000_000_000, 0, 0, false, height)], Start))
  {
    hide WellFormed, OnPackets, OnChannels, WhitelistFiled, KeysOf, LimitsUnder, PairsUnder, LabelsUnder, PendingOrder,
      PutLimits, PutPairs, PutPending, PutEpochs;
    LimitsAreFiled(s);
    AllLimitsReturn(s.limits);
    AllPairsReturn(s.whitelist);
    AllPendingReturn(s.pending);
    EpochsReturn(now, height);
  }

  // ------------------------------------------------------- when an import panics

  lemma {:induction false} PendingImportedIff(pending: set<PacketId>, labels: seq<string>)
    ensures PutPending(pending, labels).Some? <==> forall l :: l in labels ==> ParseLabel(l).Some?
    ensures PutPending(pending, labels).Some? ==>
              forall id :: id in PutPending(pending, labels).value <==>
                           id in pending || exists l :: l in labels && ParseLabel(l) == Some(id)
    decreases labels
  {
    hide ParseLabel;
    if labels != [] {
      assert labels == [labels[0]] + labels[1..];
      if ParseLabel(labels[0]).Some? {
        PendingImportedIff(pending + {ParseLabel(labels[0]).value}, labels[1..]);
      }
    }
  }

  /** Of several limits on one path an import keeps the last. */
  lemma {:induction false} LastLimitStays(m: map<Path, RateLimit>, all: seq<RateLimit>)
    ensures var t := PutLimits(m, all);
            && (forall p :: p in t <==> p in m || exists i :: 0 <= i < |all| && all[i].path == p)
            && (forall i :: 0 <= i < |all| && (forall j :: i < j < |all| ==> all[j].path != all[i].path) ==>
                  t[all[i].path] == all[i])
            && (forall p :: p in m && (forall i :: 0 <= i < |all| ==> all[i].path != p) ==> t[p] == m[p])
    decreases all
  {
    if all != [] {
      LastLimitStays(m[all[0].path := all[0]], all[1..]);
      assert all == [all[0]] + all[1..];
      if forall j :: 0 < j < |all| ==> all[j].path != all[0].path {
        assert forall i :: 0 <= i < |all[1..]| ==> all[1..][i].path != all[0].path;
      }
      assert forall i :: 0 < i < |all| ==> all[i] == all[1..][i - 1];
    }
  }

  /** What a clock of an import looks like in the store. */
  function Stored(e: EpochInfo, now: int, height: int): EpochInfo {
    e.(startTime := if e.startTime == ZERO_TIME then now else e.startTime, currentEpochStartHeight := height)
  }

  predicate Usable(e: EpochInfo) {
    e.identifier != "" && e.duration != 0 && e.currentEpoch >= 0 && e.currentEpochStartHeight >= 0
  }

  predicate NamedOnce(epochs: map<string, EpochInfo>, all: seq<EpochInfo>) {
    && (forall i :: 0 <= i < |all| ==> all[i].identifier !in epochs)
    && (forall i, j :: 0 <= i < j < |all| ==> all[i].identifier != all[j].identifier)
  }

  lemma {:induction false} ClocksImportedIff(epochs: map<string, EpochInfo>, all: seq<EpochInfo>, now: int, height: int)
    ensures PutEpochs(epochs, all, now, height).Some?
            <==> NamedOnce(epochs, all) && forall i :: 0 <= i < |all| ==> Usable(all[i])
    ensures PutEpochs(epochs, all, now, height).Some? ==>
              var t := PutEpochs(epochs, all, now, height).value;
              && (forall k :: k in epochs ==> k in t && t[k] == epochs[k])
              && (forall i :: 0 <= i < |all| ==>
                    all[i].identifier in t && t[all[i].identifier] == Stored(all[i], now, height))
              && (forall k :: k in t && k !in epochs ==> exists i :: 0 <= i < |all| && all[i].identifier == k)
    decreases all
  {
    if all != [] {
      FirstClock(epochs, all, now, height);
      if AddEpoch(epochs, all[0], now, height).Some? {
        var next := AddEpoch(epochs, all[0], now, height).value;
        ClocksImportedIff(next, all[1..], now, height);
        NamedRest(epochs, next, all);
      }
    }
    hide AddEpoch, Stored, Usable;
  }

  lemma FirstClock(epochs: map<string, EpochInfo>, all: seq<EpochInfo>, now: int, height: int)
    requires all != []
    ensures AddEpoch(epochs, all[0], now, height).Some? <==> Usable(all[0]) && all[0].identifier !in epochs
    ensures AddEpoch(epochs, all[0], now, height).Some? ==>
              AddEpoch(epochs, all[0], now, height).value == epochs[all[0].identifier := Stored(all[0], now, height)]
  {
  }

  lemma NamedRest(epochs: map<string, EpochInfo>, next: map<string, EpochInfo>, all: seq<EpochInfo>)
    requires all != [] && all[0].identifier !in epochs && next.Keys == epochs.Keys + {all[0].identifier}
    ensures NamedOnce(epochs, all) <==> NamedOnce(next, all[1..])
  {
    if NamedOnce(next, all[1..]) {
      forall i, j | 0 <= i < j < |all|
        ensures all[i].identifier != all[j].identifier
      {
        assert all[j] == all[1..][j - 1];
        if i > 0 {
          assert all[i] == all[1..][i - 1];
        }
      }
    }
  }

  /** An import panics exactly if a pending label is not a channel and a 64-bit number, or
      a clock has no name, no duration or negative counters, or shares its name. */
  lemma ImportPanicsIff(g: Genesis, now: int, height: int)
    ensures Import(g, now, height).None? <==>
            || (exists l :: l in g.pending && ParseLabel(l).None?)
            || (exists i :: 0 <= i < |g.epochs| && !Usable(g.epochs[i]))
            || (exists i, j :: 0 <= i < j < |g.epochs| && g.epochs[i].identifier == g.epochs[j].identifier)
    ensures Import(g, now, height).Some? ==>
              var s := Import(g, now, height).value;
              && (forall id :: id in s.pending <==> exists l :: l in g.pending && ParseLabel(l) == Some(id))
              && (forall i :: 0 <= i < |g.epochs| ==>
                    && g.epochs[i].identifier in s.epochs
                    && s.epochs[g.epochs[i].identifier] == Stored(g.epochs[i], now, height))
  {
    PendingImportedIff({}, g.pending);
    ClocksImportedIff(map[], g.epochs, now, height);
    hide ParseLabel, Usable, PutLimits, PutPairs, Stored;
  }

  // ------------------------------------------------- what an import relies on

  /** Limits with windows and pending packets, all on IBC channels. */
  predicate OnIBCChannels(g: Genesis) {
    && (forall i :: 0 <= i < |g.rateLimits| ==>
          CanonicalChannel(g.rateLimits[i].path.channel) && g.rateLimits[i].quota.durationHours > 0)
    && (forall i :: 0 <= i < |g.pending| ==>
          ParseLabel(g.pending[i]).Some? ==> CanonicalPacket(ParseLabel(g.pending[i]).value))
  }

  lemma {:induction false} LabelsAreCanonical(pending: set<PacketId>, keys: seq<string>)
    requires OnPackets(pending) && forall k :: k in keys ==> k in PendingKeysOf(pending)
    ensures forall k :: k in keys ==> |k| >= CHANNEL_LENGTH
    ensures forall l :: l in LabelsUnder(keys) ==> ParseLabel(l).Some? && CanonicalPacket(ParseLabel(l).value)
    decreases keys
  {
    hide PendingKeysOf, ParsePendingKey, ParseLabel, Label, CanonicalPacket;
    if keys != [] {
      assert keys[0] in keys;
      KeyOfPacket(pending, keys[0]);
      LabelsAreCanonical(pending, keys[1..]);
      assert keys == [keys[0]] + keys[1..];
    }
  }

  lemma ExportIsOnIBCChannels(s: Ledger)
    requires WellFormed(s) && OnPackets(s.pending)
    ensures OnIBCChannels(Export(s))
  {
    LabelsAreCanonical(s.pending, PendingOrder(s.pending));
    LimitsHaveDurations(s);
    hide LabelsUnder, PendingOrder, AllRateLimits, ParseLabel, CanonicalPacket, CanonicalChannel;
  }
}
