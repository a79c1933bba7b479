/**
 The token registry of x/transfermiddleware.  A record joins a native denomination,
 an IBC denomination, a channel and an asset; it is found through three indexes.
 A removal is scheduled, and carried out by a block after its time.
 */
module Registry {
  import opened TokenInfo
  import KVStore

  /** Records by native denomination, and scheduled removal times. */
  datatype State = State(records: map<string, TokenInfo>, removeList: map<string, int>)

  type Records = map<string, TokenInfo>

  predicate Filed(records: Records) {
    forall n :: n in records ==> records[n].nativeDenom == n
  }

  /** No two records share an asset or an IBC denomination. */
  predicate Unique(records: Records) {
    && Filed(records)
    && (forall m, n :: m in records && n in records && records[m].assetId == records[n].assetId ==> m == n)
    && (forall m, n :: m in records && n in records && records[m].ibcDenom == records[n].ibcDenom ==> m == n)
  }

  predicate AssetTaken(records: Records, asset: string) {
    exists n :: n in records && records[n].assetId == asset
  }

  predicate IbcTaken(records: Records, ibc: string) {
    exists n :: n in records && records[n].ibcDenom == ibc
  }

  // ------------------------------------------------------------------ operations

  datatype AddError = DuplicateAssetID | DuplicateIBCDenom | DuplicateNativeDenom
  datatype AddResult = Added(records: Records) | Refused(error: AddError)

  function Add(records: Records, info: TokenInfo): AddResult {
    if AssetTaken(records, info.assetId) then Refused(DuplicateAssetID)
    else if IbcTaken(records, info.ibcDenom) then Refused(DuplicateIBCDenom)
    else if info.nativeDenom in records then Refused(DuplicateNativeDenom)
    else Added(records[info.nativeDenom := info])
  }

  /** A token is registered, under its native name and as it is, exactly if its asset, its
      IBC denomination and its native denomination are all new; otherwise the first that
      is not is named. */
  lemma AddIff(records: Records, info: TokenInfo)
    ensures var asset := exists n :: n in records && records[n].assetId == info.assetId;
            var ibc := exists n :: n in records && records[n].ibcDenom == info.ibcDenom;
            && (Add(records, info).Added? <==> !asset && !ibc && info.nativeDenom !in records)
            && (Add(records, info).Added? ==>
                  var t := Add(records, info).records;
                  && t.Keys == records.Keys + {info.nativeDenom} && t[info.nativeDenom] == info
                  && forall n :: n in records ==> t[n] == records[n])
            && (Add(records, info) == Refused(DuplicateAssetID) <==> asset)
            && (Add(records, info) == Refused(DuplicateIBCDenom) <==> !asset && ibc)
  {
  }

  /** Only a registered token can be scheduled; a new time replaces the old one. */
  function Schedule(s: State, native: string, removeTime: int): State {
    if native in s.records then s.(removeList := s.removeList[native := removeTime]) else s
  }

  predicate Due(s: State, now: int, native: string) {
    native in s.removeList && now > s.removeList[native]
  }

  /** The removal loop over these keys; an entry that is due but not registered
      ends it, and no entry is ever taken off the list. */
  function Sweep(s: State, now: int, keys: seq<string>): (t: State)
    ensures t.removeList == s.removeList
    decreases keys
  {
    if keys == [] then s
    else if !Due(s, now, keys[0]) then Sweep(s, now, keys[1..])
    else if keys[0] !in s.records then s
    else Sweep(s.(records := s.records - {keys[0]}), now, keys[1..])
  }

  function BeginBlocker(s: State, now: int): State {
    Sweep(s, now, KVStore.SortedKeys(s.removeList.Keys))
  }

  // ------------------------------------------------------- the effect of a block

  /** Nothing due stands in the way of this key: whatever is due up to it, itself
      included, is registered. */
  predicate Clear(s: State, now: int, native: string) {
    forall m :: m in s.removeList && KVStore.LexLeq(m, native) && now > s.removeList[m] ==> m in s.records
  }

  predicate ClearAmong(s: State, now: int, keys: seq<string>, native: string) {
    forall m :: m in keys && KVStore.LexLeq(m, native) && Due(s, now, m) ==> m in s.records
  }

  lemma {:induction false} SweepRemoves(s: State, now: int, keys: seq<string>, native: string)
    requires KVStore.Ascending(keys)
    ensures native in Sweep(s, now, keys).records <==>
            native in s.records && !(native in keys && Due(s, now, native) && ClearAmong(s, now, keys, native))
    ensures native in Sweep(s, now, keys).records ==> Sweep(s, now, keys).records[native] == s.records[native]
    decreases keys
  {
    if keys == [] {
      return;
    }
    KVStore.FirstOfAscending(keys);
    hide KVStore.LexLeq, KVStore.Ascending;
    var first, rest := keys[0], keys[1..];
    if !Due(s, now, first) {
      SweepRemoves(s, now, rest, native);
    } else if first in s.records {
      SweepRemoves(s.(records := s.records - {first}), now, rest, native);
    }
  }

  /** One block unregisters exactly the due tokens that come, in key order, before
      the first due entry without a token; it changes nothing else. */
  lemma BlockRemovesIff(s: State, now: int, native: string)
    ensures var t := BeginBlocker(s, now);
            && t.removeList == s.removeList
            && (native in t.records <==> native in s.records && !(Due(s, now, native) && Clear(s, now, native)))
            && (native in t.records ==> t.records[native] == s.records[native])
  {
    SweepRemoves(s, now, KVStore.SortedKeys(s.removeList.Keys), native);
    hide KVStore.LexLeq, Sweep, KVStore.SortedKeys;
  }

  // ------------------------------------------------------------------------ runs

  datatype Event =
    | Register(info: TokenInfo)
    | ScheduleRemoval(native: string, now: int, duration: int)
    | Block(now: int)

  function Apply(s: State, e: Event): State {
    match e
    case Register(info) =>
      (match Add(s.records, info)
       case Added(records) => s.(records := records)
       case Refused(_) => s)
    case ScheduleRemoval(native, now, duration) => Schedule(s, native, now + duration)
    case Block(now) => BeginBlocker(s, now)
  }

  function Run(s: State, run: seq<Event>): State
    decreases run
  {
    if run == [] then s else Run(Apply(s, run[0]), run[1..])
  }

  /** The last time to which each token's removal was put, read off the run. */
  function LatestSchedule(s: State, run: seq<Event>, scheduled: map<string, int>): map<string, int>
    decreases run
  {
    if run == [] then scheduled
    else
      var e := run[0];
      LatestSchedule(Apply(s, e), run[1..],
                     if e.ScheduleRemoval? && e.native in s.records
                     then scheduled[e.native := e.now + e.duration] else scheduled)
  }

  lemma {:induction false} ListIsLatestSchedule(s: State, run: seq<Event>)
    ensures Run(s, run).removeList == LatestSchedule(s, run, s.removeList)
    decreases run
  {
    if run != [] {
      ListIsLatestSchedule(Apply(s, run[0]), run[1..]);
    }
  }

  /** No token is removed at or before the time its removal was last put to, and
      none whose removal was never scheduled: for every run and every next step. */
  lemma NeverTooEarly(s: State, run: seq<Event>, e: Event, native: string)
    requires s.removeList == map[]
    requires native in Run(s, run).records && native !in Apply(Run(s, run), e).records
    ensures e.Block? && native in LatestSchedule(s, run, map[])
            && e.now > LatestSchedule(s, run, map[])[native]
  {
    ListIsLatestSchedule(s, run);
    var t := Run(s, run);
    match e {
      case Block(now) => BlockRemovesIff(t, now, native);
      case Register(_) =>
      case ScheduleRemoval(_, _, _) =>
    }
  }

  lemma FewerAreUnique(records: Records, fewer: Records)
    requires Unique(records) && forall n :: n in fewer ==> n in records && fewer[n] == records[n]
    ensures Unique(fewer)
  {
  }

  /** Assets and IBC denominations stay unique in every run. */
  lemma {:induction false} RunKeepsUnique(s: State, run: seq<Event>)
    requires Unique(s.records)
    ensures Unique(Run(s, run).records)
    decreases run
  {
    if run != [] {
      ApplyKeepsUnique(s, run[0]);
      RunKeepsUnique(Apply(s, run[0]), run[1..]);
    }
    hide Unique, Apply;
  }

  lemma ApplyKeepsUnique(s: State, e: Event)
    requires Unique(s.records)
    ensures Unique(Apply(s, e).records)
  {
    if e.Block? {
      forall native: string | native in BeginBlocker(s, e.now).records
        ensures native in s.records && BeginBlocker(s, e.now).records[native] == s.records[native]
      {
        BlockRemovesIff(s, e.now, native);
      }
      FewerAreUnique(s.records, Apply(s, e).records);
    } else if e.Register? {
      AddKeepsUnique(s.records, e.info);
    }
    hide BeginBlocker, Unique, Add;
  }

  lemma AddKeepsUnique(records: Records, info: TokenInfo)
    requires Unique(records)
    ensures Add(records, info).Added? ==> Unique(Add(records, info).records)
  {
  }

  /** Events of a time in which this entry is overdue and its token stays away. */
  predicate Jams(run: seq<Event>, native: string, due: int) {
    forall i :: 0 <= i < |run| ==>
      match run[i]
      case Register(info) => info.nativeDenom != native
      case Block(now) => now > due
      case ScheduleRemoval(_, _, _) => true
  }

  /** An overdue entry without a token keeps every later token from being removed,
      in every run, until its own token is registered again. */
  lemma {:induction false} OverdueEntryJams(s: State, run: seq<Event>, native: string, later: string)
    requires native in s.removeList && native !in s.records && Jams(run, native, s.removeList[native])
    requires KVStore.LexLeq(native, later) && later in s.records
    ensures later in Run(s, run).records && native !in Run(s, run).records
    decreases run
  {
    if run != [] {
      var e := run[0];
      var t := Apply(s, e);
      if e.Block? {
        BlockRemovesIff(s, e.now, later);
        BlockRemovesIff(s, e.now, native);
      }
      assert native in t.removeList && native !in t.records && later in t.records
             && t.removeList[native] == s.removeList[native];
      hide KVStore.LexLeq, Apply;
      OverdueEntryJams(t, run[1..], native, later);
    }
  }

  /** A removal jams the list behind it: once a block has removed a token, later
      blocks remove no token after it until it is registered again. */
  lemma RemovalJams(s: State, now: int, run: seq<Event>, native: string, later: string)
    requires native in s.records && native !in BeginBlocker(s, now).records
    requires forall i :: 0 <= i < |run| ==>
               && (run[i].Register? ==> run[i].info.nativeDenom != native)
               && (run[i].Block? ==> run[i].now >= now)
    requires KVStore.LexLeq(native, later) && later in BeginBlocker(s, now).records
    ensures later in Run(BeginBlocker(s, now), run).records
  {
    BlockRemovesIff(s, now, native);
    assert Due(s, now, native);
    hide BeginBlocker, Run, Clear, KVStore.LexLeq;
    OverdueEntryJams(BeginBlocker(s, now), run, native, later);
  }

  /** A token that comes back is removed again by the next block, if nothing overdue
      before it is missing: its old entry still stands. */
  lemma ComesBackToGoAgain(s: State, info: TokenInfo, now: int)
    requires Add(s.records, info).Added? && Due(s, now, info.nativeDenom)
    ensures var t := Apply(s, Register(info));
            info.nativeDenom !in BeginBlocker(t, now).records <==> Clear(t, now, info.nativeDenom)
  {
    BlockRemovesIff(Apply(s, Register(info)), now, info.nativeDenom);
  }
}
