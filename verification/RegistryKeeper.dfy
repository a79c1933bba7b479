/**
 The keeper side of the token registry: three indexes and the remove list, each a
 map under its own key prefix.  `state` is the one set of records they all hold.
 */
module RegistryKeeper {
  import opened Basics
  import opened TokenInfo
  import opened Registry
  import opened Text
  import KVStore

  predicate HoldsAssets(byAsset: map<string, TokenInfo>, records: Records) {
    && (forall n :: n in records ==> records[n].assetId in byAsset && byAsset[records[n].assetId] == records[n])
    && (forall a :: a in byAsset ==>
          && byAsset[a].assetId == a && byAsset[a].nativeDenom in records
          && records[byAsset[a].nativeDenom] == byAsset[a])
  }

  predicate HoldsIbc(ibcToNative: map<string, string>, records: Records) {
    && (forall n :: n in records ==> records[n].ibcDenom in ibcToNative && ibcToNative[records[n].ibcDenom] == n)
    && (forall i :: i in ibcToNative ==> ibcToNative[i] in records && records[ibcToNative[i]].ibcDenom == i)
  }

  /** What the indexes can hold is a set of records without duplicates. */
  lemma IndexesMeanUnique(byAsset: map<string, TokenInfo>, ibcToNative: map<string, string>, records: Records)
    requires Filed(records) && HoldsAssets(byAsset, records) && HoldsIbc(ibcToNative, records)
    ensures Unique(records)
    ensures forall a :: a in byAsset <==> AssetTaken(records, a)
    ensures forall i :: i in ibcToNative <==> IbcTaken(records, i)
  {
  }

  /** The records determine the indexes. */
  lemma IndexesAreDetermined(byAsset: map<string, TokenInfo>, ibcToNative: map<string, string>,
                             byAsset': map<string, TokenInfo>, ibcToNative': map<string, string>, records: Records)
    requires HoldsAssets(byAsset, records) && HoldsAssets(byAsset', records)
    requires HoldsIbc(ibcToNative, records) && HoldsIbc(ibcToNative', records)
    ensures byAsset == byAsset' && ibcToNative == ibcToNative'
  {
    forall a | a in byAsset
      ensures a in byAsset' && byAsset'[a] == byAsset[a]
    {
      assert records[byAsset[a].nativeDenom].assetId == a;
    }
    forall a | a in byAsset'
      ensures a in byAsset
    {
      assert records[byAsset'[a].nativeDenom].assetId == a;
    }
    forall i | i in ibcToNative
      ensures i in ibcToNative' && ibcToNative'[i] == ibcToNative[i]
    {
      assert records[ibcToNative[i]].ibcDenom == i;
    }
    forall i | i in ibcToNative'
      ensures i in ibcToNative
    {
      assert records[ibcToNative'[i]].ibcDenom == i;
    }
  }

  lemma RecordWritten(byAsset: map<string, TokenInfo>, ibcToNative: map<string, string>, records: Records,
                      info: TokenInfo)
    requires Filed(records) && HoldsAssets(byAsset, records) && HoldsIbc(ibcToNative, records)
    requires info.assetId !in byAsset && info.ibcDenom !in ibcToNative && info.nativeDenom !in records
    ensures Filed(records[info.nativeDenom := info])
    ensures HoldsAssets(byAsset[info.assetId := info], records[info.nativeDenom := info])
    ensures HoldsIbc(ibcToNative[info.ibcDenom := info.nativeDenom], records[info.nativeDenom := info])
  {
  }

  lemma RecordDeleted(byAsset: map<string, TokenInfo>, ibcToNative: map<string, string>, records: Records, n: string)
    requires Filed(records) && HoldsAssets(byAsset, records) && HoldsIbc(ibcToNative, records) && n in records
    ensures Filed(records - {n})
    ensures HoldsAssets(byAsset - {records[n].assetId}, records - {n})
    ensures HoldsIbc(ibcToNative - {records[n].ibcDenom}, records - {n})
  {
  }

  // -------------------------------------------------------------------- genesis

  function InfosUnder(byAsset: map<string, TokenInfo>, assets: seq<string>): (infos: seq<TokenInfo>)
    requires forall a :: a in assets ==> a in byAsset
    ensures |infos| == |assets| && forall i :: 0 <= i < |assets| ==> infos[i] == byAsset[assets[i]]
  {
    if assets == [] then []
    else
      assert assets[0] in assets;
      [byAsset[assets[0]]] + InfosUnder(byAsset, assets[1..])
  }

  function AddAll(records: Records, infos: seq<TokenInfo>): AddResult
    decreases infos
  {
    if infos == [] then Added(records)
    else
      match Add(records, infos[0])
      case Refused(e) => Refused(e)
      case Added(more) => AddAll(more, infos[1..])
  }

  /** Records that agree with some others, and whose assets are among the given. */
  predicate Part(some: Records, all: Records, assets: seq<string>) {
    && (forall n :: n in some ==> n in all && some[n] == all[n])
    && (forall n :: n in all ==> n in some || all[n].assetId in assets)
    && (forall n :: n in some ==> some[n].assetId !in assets)
  }

  lemma PartIsAll(some: Records, all: Records)
    requires Part(some, all, [])
    ensures some == all
  {
  }

  /** A record whose asset is still to come meets no duplicate. */
  lemma PartAccepts(some: Records, all: Records, assets: seq<string>, n: string)
    requires Unique(all) && Part(some, all, assets) && n in all && all[n].assetId in assets
    ensures Add(some, all[n]) == Added(some[n := all[n]])
  {
    assert n !in some;
  }

  lemma PartGrows(some: Records, all: Records, byAsset: map<string, TokenInfo>, assets: seq<string>)
    requires Unique(all) && HoldsAssets(byAsset, all)
    requires assets != [] && Distinct(assets) && forall a :: a in assets ==> a in byAsset
    requires Part(some, all, assets)
    ensures var info := byAsset[assets[0]];
            && Add(some, info) == Added(some[info.nativeDenom := info])
            && Part(some[info.nativeDenom := info], all, assets[1..])
            && Distinct(assets[1..]) && forall a :: a in assets[1..] ==> a in byAsset
  {
    DistinctTail(assets);
    var info := byAsset[assets[0]];
    assert all[info.nativeDenom] == info && info.assetId == assets[0];
    assert forall n :: n in all && all[n].assetId == assets[0] ==> n == info.nativeDenom;
    PartAccepts(some, all, assets, info.nativeDenom);
    hide Add, Distinct, Unique, HoldsAssets;
  }

  lemma {:induction false} AddingBack(some: Records, all: Records, byAsset: map<string, TokenInfo>, assets: seq<string>)
    requires HoldsAssets(byAsset, all) && Unique(all)
    requires forall a :: a in assets ==> a in byAsset
    requires Distinct(assets)
    requires Part(some, all, assets)
    ensures AddAll(some, InfosUnder(byAsset, assets)) == Added(all)
    decreases assets
  {
    hide Part, Unique, HoldsAssets, Add, Filed, Distinct;
    if assets == [] {
      PartIsAll(some, all);
    } else {
      PartGrows(some, all, byAsset, assets);
      var info := byAsset[assets[0]];
      assert InfosUnder(byAsset, assets)[1..] == InfosUnder(byAsset, assets[1..]);
      AddingBack(some[info.nativeDenom := info], all, byAsset, assets[1..]);
    }
  }

  class Keeper {
    var byNative: map<string, TokenInfo>
    var byAsset: map<string, TokenInfo>
    var ibcToNative: map<string, string>
    var removeList: map<string, int>

    ghost var state: State

    ghost predicate Valid()
      reads this
    {
      && Filed(state.records)
      && byNative == state.records
      && HoldsAssets(byAsset, state.records)
      && HoldsIbc(ibcToNative, state.records)
      && removeList == state.removeList
    }

    constructor ()
      ensures Valid() && state == State(map[], map[])
    {
      byNative, byAsset, ibcToNative, removeList := map[], map[], map[], map[];
      state := State(map[], map[]);
    }

    method GetParachainIBCTokenInfoByNativeDenom(native: string) returns (info: TokenInfo)
      requires Valid()
      ensures info == if native in state.records then state.records[native] else TokenInfo("", "", "", "")
    {
      info := if native in byNative then byNative[native] else TokenInfo("", "", "", "");
    }

    /** The record with this asset, or an empty one. */
    method GetParachainIBCTokenInfoByAssetID(asset: string) returns (info: TokenInfo)
      requires Valid()
      ensures AssetTaken(state.records, asset) ==>
                info.assetId == asset && info.nativeDenom in state.records && state.records[info.nativeDenom] == info
      ensures !AssetTaken(state.records, asset) ==> info == TokenInfo("", "", "", "")
    {
      IndexesMeanUnique(byAsset, ibcToNative, state.records);
      info := if asset in byAsset then byAsset[asset] else TokenInfo("", "", "", "");
    }

    method GetNativeDenomByIBCDenomSecondaryIndex(ibc: string) returns (native: string)
      requires Valid()
      ensures IbcTaken(state.records, ibc) ==>
                native in state.records && state.records[native].ibcDenom == ibc
      ensures !IbcTaken(state.records, ibc) ==> native == ""
    {
      IndexesMeanUnique(byAsset, ibcToNative, state.records);
      native := if ibc in ibcToNative then ibcToNative[ibc] else "";
    }

    method AddParachainIBCInfo(info: TokenInfo) returns (error: Option<AddError>)
      requires Valid()
      modifies this
      ensures Valid()
      ensures match Add(old(state).records, info)
              case Added(records) => error == None && state == old(state).(records := records)
              case Refused(e) => error == Some(e) && state == old(state)
    {
      hide HoldsAssets, HoldsIbc, Filed;
      IndexesMeanUnique(byAsset, ibcToNative, state.records);
      if info.assetId in byAsset {
        return Some(DuplicateAssetID);
      }
      if info.ibcDenom in ibcToNative {
        return Some(DuplicateIBCDenom);
      }
      if info.nativeDenom in byNative {
        return Some(DuplicateNativeDenom);
      }
      RecordWritten(byAsset, ibcToNative, state.records, info);
      byNative := byNative[info.nativeDenom := info];
      byAsset := byAsset[info.assetId := info];
      ibcToNative := ibcToNative[info.ibcDenom := info.nativeDenom];
      state := state.(records := byNative);
      return None;
    }

    method AddParachainIBCInfoToRemoveList(native: string, now: int, duration: int) returns (ok: bool)
      requires Valid()
      modifies this
      ensures Valid() && ok == (native in old(state).records)
      ensures state == Schedule(old(state), native, now + duration)
    {
      if native !in byNative {
        return false;
      }
      removeList := removeList[native := now + duration];
      state := state.(removeList := removeList);
      return true;
    }

    method RemoveParachainIBCInfo(native: string) returns (ok: bool)
      requires Valid()
      modifies this
      ensures Valid() && ok == (native in old(state).records)
      ensures state == old(state).(records := old(state).records - {native})
    {
      hide HoldsAssets, HoldsIbc, Filed;
      if native !in byNative {
        assert state.records - {native} == state.records;
        return false;
      }
      var tokenInfo := byNative[native];
      RecordDeleted(byAsset, ibcToNative, state.records, native);
      byNative := byNative - {native};
      byAsset := byAsset - {tokenInfo.assetId};
      ibcToNative := ibcToNative - {tokenInfo.ibcDenom};
      state := state.(records := byNative);
      return true;
    }

    /** The loop over the remove list, in key order. */
    method BeginBlocker(now: int)
      requires Valid()
      modifies this
      ensures Valid() && state == Registry.BeginBlocker(old(state), now)
    {
      hide HoldsAssets, HoldsIbc, Filed, KVStore.SortedKeys;
      var keys := KVStore.SortedKeys(removeList.Keys);
      var i, stop := 0, false;
      assert keys[0..] == keys;
      while i < |keys| && !stop
        invariant 0 <= i <= |keys| && Valid() && state.removeList == old(state).removeList
        invariant if stop then state == Sweep(old(state), now, keys)
                  else Sweep(state, now, keys[i..]) == Sweep(old(state), now, keys)
      {
        var key := keys[i];
        assert key in keys;
        assert keys[i..][1..] == keys[i + 1..];
        if now > removeList[key] {
          var removed := RemoveParachainIBCInfo(key);
          if !removed {
            stop := true;
          }
        }
        i := i + 1;
      }
    }

    method ExportGenesis() returns (infos: seq<TokenInfo>)
      requires Valid()
      ensures infos == InfosUnder(byAsset, KVStore.SortedKeys(byAsset.Keys))
    {
      hide KVStore.SortedKeys, HoldsAssets, HoldsIbc, Filed, KVStore.LexLeq;
      var assets := KVStore.SortedKeys(byAsset.Keys);
      infos := [];
      for i := 0 to |assets|
        invariant |infos| == i && forall j :: 0 <= j < i ==> infos[j] == byAsset[assets[j]]
      {
        assert assets[i] in assets;
        infos := infos + [byAsset[assets[i]]];
      }
      assert infos == InfosUnder(byAsset, assets);
    }

    /** A duplicate makes the import panic. */
    method InitGenesis(infos: seq<TokenInfo>) returns (panics: bool)
      requires Valid()
      modifies this
      ensures Valid() && panics == AddAll(old(state).records, infos).Refused?
      ensures !panics ==> state == old(state).(records := AddAll(old(state).records, infos).records)
    {
      hide HoldsAssets, HoldsIbc, Filed, Add;
      assert infos[0..] == infos;
      for i := 0 to |infos|
        invariant Valid() && state == old(state).(records := state.records)
        invariant AddAll(state.records, infos[i..]) == AddAll(old(state).records, infos)
      {
        assert infos[i..][1..] == infos[i + 1..];
        var error := AddParachainIBCInfo(infos[i]);
        if error.Some? {
          return true;
        }
      }
      return false;
    }
  }

  /** An export imported into an empty store never meets a duplicate and rebuilds all
      three indexes exactly; the remove list is lost. */
  method Reimport(k: Keeper) returns (copy: Keeper)
    requires k.Valid()
    ensures fresh(copy) && copy.Valid()
    ensures copy.byNative == k.byNative && copy.byAsset == k.byAsset && copy.ibcToNative == k.ibcToNative
    ensures copy.removeList == map[]
  {
    var infos := k.ExportGenesis();
    copy := new Keeper();
    ExportReturns(k.byAsset, k.ibcToNative, k.state.records);
    var panics := copy.InitGenesis(infos);
    hide Filed, HoldsAssets, HoldsIbc, InfosUnder, AddAll, KVStore.SortedKeys;
    IndexesAreDetermined(copy.byAsset, copy.ibcToNative, k.byAsset, k.ibcToNative, k.state.records);
  }

  lemma NothingYet(byAsset: map<string, TokenInfo>, records: Records)
    requires HoldsAssets(byAsset, records)
    ensures Part(map[], records, KVStore.SortedKeys(byAsset.Keys))
  {
    hide KVStore.SortedKeys;
  }

  lemma ExportReturns(byAsset: map<string, TokenInfo>, ibcToNative: map<string, string>, records: Records)
    requires Filed(records) && HoldsAssets(byAsset, records) && HoldsIbc(ibcToNative, records)
    ensures AddAll(map[], InfosUnder(byAsset, KVStore.SortedKeys(byAsset.Keys))) == Added(records)
  {
    IndexesMeanUnique(byAsset, ibcToNative, records);
    var assets := KVStore.SortedKeys(byAsset.Keys);
    NothingYet(byAsset, records);
    hide Filed, HoldsAssets, HoldsIbc, Unique, Part, InfosUnder, AddAll, KVStore.SortedKeys, AssetTaken, IbcTaken;
    AddingBack(map[], records, byAsset, assets);
  }
}
