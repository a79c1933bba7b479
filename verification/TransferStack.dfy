/**
 The transfer application and x/transfermiddleware around it, as they run: single
 bank calls in order, early returns, and a send that calls the application again.
 Every method is held against the combined effect given in `Transfers`.
 */
module TransferStack {
  import opened Basics
  import opened Coins
  import opened Denoms
  import opened Registry
  import opened Text
  import opened TokenInfo
  import opened Transfers
  import RegistryKeeper

  const MIDDLEWARE: string := "transmiddleware"

  class Stack {
    var bank: Bank
    var traces: map<string, string>

    /** What has been handed to the rate limiter and the channel behind it. */
    var outbox: seq<Packet>

    const registry: RegistryKeeper.Keeper
    const hash: string -> string

    ghost function State(): Chain
      reads this, registry
    {
      Chain(bank, traces, registry.state.records)
    }

    ghost predicate Valid()
      reads this, registry
    {
      registry.Valid() && Sound(State(), hash)
    }

    constructor (bank: Bank, traces: map<string, string>, registry: RegistryKeeper.Keeper, hash: string -> string)
      requires registry.Valid() && Sound(Chain(bank, traces, registry.state.records), hash)
      ensures Valid() && State() == Chain(bank, traces, registry.state.records) && outbox == []
      ensures this.registry == registry && this.hash == hash
    {
      this.bank, this.traces, this.registry, this.hash := bank, traces, registry, hash;
      outbox := [];
    }

    // ------------------------------------------------------------- bank keeper

    method SendCoins(from: Account, to: Account, denom: string, amount: nat) returns (ok: bool)
      modifies `bank
      ensures ok == CanPay(old(bank), from, denom, amount)
      ensures bank == if ok then Coins.Send(old(bank), from, to, denom, amount) else old(bank)
    {
      ok := CanPay(bank, from, denom, amount);
      if ok {
        bank := Coins.Send(bank, from, to, denom, amount);
      }
    }

    method MintCoins(to: Account, denom: string, amount: nat)
      modifies `bank
      ensures bank == Mint(old(bank), to, denom, amount)
    {
      bank := Mint(bank, to, denom, amount);
    }

    method BurnCoins(from: Account, denom: string, amount: nat) returns (ok: bool)
      modifies `bank
      ensures ok == CanPay(old(bank), from, denom, amount)
      ensures bank == if ok then Burn(old(bank), from, denom, amount) else old(bank)
    {
      ok := CanPay(bank, from, denom, amount);
      if ok {
        bank := Burn(bank, from, denom, amount);
      }
    }

    // ----------------------------------------------------------------- sending

    /** The transfer application's Transfer.  `depth` bounds the recursion through
        the middleware: a name that is not overridden needs none. */
    method Transfer(m: Msg, accepted: bool, ghost depth: nat) returns (ok: bool)
      requires Valid() && ValidChannel(m.channel)
      requires depth >= 1 || !OverridesDenom(State(), m)
      modifies `bank, `outbox
      ensures Valid()
      ensures var sent := Transfers.Transfer(old(State()), m);
              && ok == (sent.Some? && accepted)
              && (ok ==> State() == sent.value.chain && outbox == old(outbox) + [sent.value.packet])
      decreases depth, 2
    {
      hide Paired, TracesSound, Injective, ValidChannel, RegistryKeeper.Keeper.Valid, Mint, CanPay, Prefix;
      ghost var before := State();
      var path := m.denom;
      if LooksHashed(m.denom) {
        if m.denom !in traces {
          return false;
        }
        path := traces[m.denom];
      }
      OverridesAreEscrowed(before, m, path, hash);
      if !(Prefix(Here(m.channel)) <= path) {
        ok := SendCoins(m.sender, Escrow(m.channel), m.denom, m.amount);
        if !ok {
          return;
        }
        SentAndBurned(before.bank, m.sender, Escrow(m.channel), m.denom, m.amount);
      } else {
        ok := SendCoins(m.sender, Module(PORT), m.denom, m.amount);
        if !ok {
          return;
        }
        SentAndBurned(before.bank, m.sender, Module(PORT), m.denom, m.amount);
        ok := BurnCoins(Module(PORT), m.denom, m.amount);
      }
      hide Burn, Coins.Send;
      ok := SendPacket(PacketFor(m, path), accepted, depth);
    }

    /** The middleware's SendPacket: the packet as it is, or the packet of the voucher
        that the name stands for; never more than one. */
    method SendPacket(p: Packet, accepted: bool, ghost depth: nat) returns (ok: bool)
      requires Valid() && ValidChannel(p.channel)
      requires depth >= 1 || !Overridden(State().records, p.denom, p.channel)
      modifies `bank, `outbox
      ensures Valid()
      ensures !Overridden(old(State()).records, p.denom, p.channel) ==>
                && ok == accepted && State() == old(State())
                && (ok ==> outbox == old(outbox) + [p])
      ensures Overridden(old(State()).records, p.denom, p.channel) ==>
                && ok == (Released(old(State()), p).Some? && accepted)
                && (ok ==> State() == Released(old(State()), p).value.chain
                           && outbox == old(outbox) + [Released(old(State()), p).value.packet])
      decreases depth, 1
    {
      hide Paired, TracesSound, Injective, ValidChannel, RegistryKeeper.Keeper.Valid, Burn, Coins.Send,
        CanPay, Released;
      var info := registry.GetParachainIBCTokenInfoByNativeDenom(p.denom);
      ChannelIsNamed(p.channel);
      RecordsAreFiled(State(), p.denom, hash);
      if info.channelID != p.channel || info.nativeDenom != p.denom {
        if accepted {
          outbox := outbox + [p];
        }
        return accepted;
      }
      ok := HandleOverrideSendPacketTransferLogic(p, info, accepted, depth);
    }

    method HandleOverrideSendPacketTransferLogic(p: Packet, info: TokenInfo, accepted: bool, ghost depth: nat)
      returns (ok: bool)
      requires Valid() && ValidChannel(p.channel) && depth >= 1
      requires Overridden(State().records, p.denom, p.channel) && info == State().records[p.denom]
      modifies `bank, `outbox
      ensures Valid()
      ensures ok == (Released(old(State()), p).Some? && accepted)
      ensures ok ==> State() == Released(old(State()), p).value.chain
                     && outbox == old(outbox) + [Released(old(State()), p).value.packet]
      decreases depth, 0
    {
      hide Paired, TracesSound, Injective, ValidChannel, RegistryKeeper.Keeper.Valid, Burn, Coins.Send, CanPay,
        FullDenomPath, Overridden, Transfers.Transfer, OverridesDenom;
      ghost var before := State();
      var escrow := Escrow(p.channel);
      ok := SendCoins(escrow, Module(PORT), p.denom, p.amount);
      if !ok {
        return;
      }
      SentAndBurned(before.bank, escrow, Module(PORT), p.denom, p.amount);
      ok := BurnCoins(Module(PORT), p.denom, p.amount);
      ghost var burned := bank;
      ok := SendCoins(escrow, p.sender, info.ibcDenom, p.amount);
      if !ok {
        return;
      }
      SentAndBurned(burned, escrow, p.sender, info.ibcDenom, p.amount);
      var m := Msg(p.sender, p.receiver, info.ibcDenom, p.amount, p.channel, p.memo);
      NestedTransfer(before, State(), p, m, hash);
      ok := Transfer(m, accepted, depth - 1);
    }

    /** MsgTransfer as delivered: the recursion is at most two transfers deep, at most
        one packet goes out, and a failure leaves no trace. */
    method DeliverTransfer(m: Msg, accepted: bool) returns (ok: bool)
      requires Valid() && ValidChannel(m.channel)
      modifies `bank, `outbox
      ensures Valid()
      ensures var sent := Transfers.Transfer(old(State()), m);
              && ok == (sent.Some? && accepted)
              && State() == (if ok then sent.value.chain else old(State()))
              && outbox == (if ok then old(outbox) + [sent.value.packet] else old(outbox))
    {
      hide Sound, ValidChannel, RegistryKeeper.Keeper.Valid, Transfers.Transfer;
      var savedBank, savedOutbox := bank, outbox;
      ok := Transfer(m, accepted, 1);
      if !ok {
        bank, outbox := savedBank, savedOutbox;
      }
    }

    // --------------------------------------------------------------- receiving

    /** The transfer application's OnRecvPacket. */
    method AppOnRecvPacket(p: Incoming) returns (ok: bool)
      requires Valid() && ValidChannel(p.channel)
      modifies `bank, `traces
      ensures Valid() && ok == Arrived(old(State()), p, hash).Some?
      ensures ok ==> State() == Arrived(old(State()), p, hash).value
      ensures !ok ==> State() == old(State())
    {
      hide Paired, ValidChannel, RegistryKeeper.Keeper.Valid, Coins.Send, CanPay, Mint, Prefix, IBCDenom,
        ParseDenomTrace, FullPath, TracesSound, Injective;
      if Prefix(p.source) <= p.denom {
        ok := SendCoins(Escrow(p.channel), p.receiver, Unescrowed(p, hash), p.amount);
        return;
      }
      var voucher := Voucher(p, hash);
      TraceIsFiled(State(), p, hash);
      if voucher !in traces {
        traces := traces[voucher := FullPath(VoucherTrace(p))];
      }
      MintedAndSent(bank, Module(PORT), p.receiver, voucher, p.amount);
      MintCoins(Module(PORT), voucher, p.amount);
      ok := SendCoins(Module(PORT), p.receiver, voucher, p.amount);
    }

    /** The keeper's OnRecvPacket, after the application has succeeded. */
    method KeeperOnRecvPacket(p: Incoming) returns (ok: bool)
      requires Valid() && ValidChannel(p.channel)
      modifies `bank, `traces
      ensures Valid()
      ensures Prefix(p.source) <= p.denom ==> ok && bank == old(bank) && traces == old(traces)
      ensures !(Prefix(p.source) <= p.denom) ==>
                && traces == old(traces)[Voucher(p, hash) := FullPath(VoucherTrace(p))]
                && match LockedNative(old(State()).records, p, hash)
                case None => ok && bank == old(bank)
                case Some(native) =>
                  && ok == CanPay(old(bank), p.receiver, Voucher(p, hash), p.amount)
                  && (ok ==> bank == LockedInstead(old(bank), p.receiver, p.channel, Voucher(p, hash), native,
                                                   p.amount))
    {
      hide Paired, TracesSound, Injective, ValidChannel, RegistryKeeper.Keeper.Valid, Coins.Send, CanPay, Mint, Prefix,
        IBCDenom, ParseDenomTrace, FullPath, LockedNative;
      if Prefix(p.source) <= p.denom {
        return true;
      }
      var denomTrace := VoucherTrace(p);
      var voucherDenom := IBCDenom(denomTrace, hash);
      TraceIsFiled(State(), p, hash);
      if voucherDenom !in traces {
        traces := traces[voucherDenom := FullPath(denomTrace)];
      }
      var paraTokenInfo := registry.GetParachainIBCTokenInfoByAssetID(p.denom);
      var native := registry.GetNativeDenomByIBCDenomSecondaryIndex(voucherDenom);
      LocksIff(State(), p, paraTokenInfo, native, hash);
      if native != paraTokenInfo.nativeDenom {
        return true;
      }
      if p.channel == paraTokenInfo.channelID {
        var escrow := Escrow(p.channel);
        ok := SendCoins(p.receiver, escrow, voucherDenom, p.amount);
        if !ok {
          return;
        }
        MintedAndSent(bank, Module(MIDDLEWARE), p.receiver, native, p.amount);
        MintCoins(Module(MIDDLEWARE), native, p.amount);
        ok := SendCoins(Module(MIDDLEWARE), p.receiver, native, p.amount);
      }
      ok := true;
    }

    /** The middleware's OnRecvPacket: first the application, then the keeper; core
        IBC keeps nothing of a receipt that is answered with an error. */
    method OnRecvPacket(p: Incoming) returns (ack: bool)
      requires Valid() && ValidChannel(p.channel)
      modifies `bank, `traces
      ensures Valid() && ack == Receive(old(State()), p, hash).Some?
      ensures State() == if ack then Receive(old(State()), p, hash).value else old(State())
    {
      hide Paired, TracesSound, Injective, ValidChannel, RegistryKeeper.Keeper.Valid, Coins.Send, CanPay, Mint, Prefix,
        IBCDenom, ParseDenomTrace, FullPath, LockedNative, LockedInstead;
      ack := AppOnRecvPacket(p);
      if ack {
        ReceiveAgain(old(State()), State(), p, hash);
        ack := KeeperOnRecvPacket(p);
      }
    }

    // --------------------------------------------------------------- refunding

    /** The transfer application's refund. */
    method AppRefund(p: Packet) returns (ok: bool)
      requires Valid()
      modifies `bank
      ensures Valid()
      ensures var d := IBCDenom(ParseDenomTrace(p.denom), hash);
              if Prefix(Here(p.channel)) <= p.denom then ok && bank == Mint(old(bank), p.sender, d, p.amount)
              else && ok == CanPay(old(bank), Escrow(p.channel), d, p.amount)
                   && bank == if ok then Coins.Send(old(bank), Escrow(p.channel), p.sender, d, p.amount) else old(bank)
    {
      hide Paired, TracesSound, Injective, RegistryKeeper.Keeper.Valid, Coins.Send, CanPay, Mint, Prefix,
        IBCDenom, ParseDenomTrace;
      var d := IBCDenom(ParseDenomTrace(p.denom), hash);
      if !(Prefix(Here(p.channel)) <= p.denom) {
        ok := SendCoins(Escrow(p.channel), p.sender, d, p.amount);
      } else {
        MintedAndSent(bank, Module(PORT), p.sender, d, p.amount);
        MintCoins(Module(PORT), d, p.amount);
        ok := SendCoins(Module(PORT), p.sender, d, p.amount);
      }
    }

    /** The keeper's refundToken, after the application's. */
    method RefundToken(p: Packet) returns (ok: bool)
      requires Valid() && ValidChannel(p.channel)
      modifies `bank
      ensures Valid()
      ensures var d := IBCDenom(ParseDenomTrace(p.denom), hash);
              if !(Prefix(Here(p.channel)) <= p.denom) then ok && bank == old(bank)
              else
                match NativeAgain(old(State()).records, p, hash)
                case None => ok && bank == old(bank)
                case Some(native) =>
                  && ok == CanPay(old(bank), p.sender, d, p.amount)
                  && (ok ==> bank == LockedInstead(old(bank), p.sender, p.channel, d, native, p.amount))
    {
      hide Paired, TracesSound, Injective, ValidChannel, RegistryKeeper.Keeper.Valid, Coins.Send, CanPay, Mint, Prefix,
        IBCDenom, ParseDenomTrace, NativeAgain;
      var token := IBCDenom(ParseDenomTrace(p.denom), hash);
      if !(Prefix(Here(p.channel)) <= p.denom) {
        return true;
      }
      var nativeDenom := registry.GetNativeDenomByIBCDenomSecondaryIndex(token);
      var paraTokenInfo := registry.GetParachainIBCTokenInfoByNativeDenom(nativeDenom);
      LocksAgainIff(State(), p, token, nativeDenom, paraTokenInfo, hash);
      if paraTokenInfo == TokenInfo("", "", "", "") {
        return true;
      }
      if p.channel == paraTokenInfo.channelID {
        ok := SendCoins(p.sender, Escrow(p.channel), token, p.amount);
        if !ok {
          return;
        }
        MintedAndSent(bank, Module(MIDDLEWARE), p.sender, nativeDenom, p.amount);
        MintCoins(Module(MIDDLEWARE), nativeDenom, p.amount);
        ok := SendCoins(Module(MIDDLEWARE), p.sender, nativeDenom, p.amount);
      }
      ok := true;
    }

    /** OnTimeoutPacket; if it fails the relayer's transaction leaves no trace. */
    method OnTimeoutPacket(p: Packet) returns (ok: bool)
      requires Valid() && ValidChannel(p.channel)
      modifies `bank
      ensures Valid() && ok == Refund(old(State()), p, hash).Some?
      ensures State() == if ok then Refund(old(State()), p, hash).value else old(State())
    {
      hide Paired, TracesSound, Injective, ValidChannel, RegistryKeeper.Keeper.Valid, Coins.Send, CanPay, Mint, Prefix,
        IBCDenom, ParseDenomTrace, NativeAgain, LockedInstead;
      ok := AppRefund(p);
      if ok {
        RefundAgain(old(State()), p, hash);
        ok := RefundToken(p);
      }
    }

    method OnAcknowledgementPacket(p: Packet, isError: bool) returns (ok: bool)
      requires Valid() && ValidChannel(p.channel)
      modifies `bank
      ensures Valid() && ok == (isError ==> Refund(old(State()), p, hash).Some?)
      ensures State() == if isError && ok then Refund(old(State()), p, hash).value else old(State())
    {
      hide Sound, ValidChannel, RegistryKeeper.Keeper.Valid, Refund;
      ok := true;
      if isError {
        ok := OnTimeoutPacket(p);
      }
    }
  }

  ghost predicate OverridesDenom(c: Chain, m: Msg) {
    FullDenomPath(c, m.denom).Some? && Overridden(c.records, FullDenomPath(c, m.denom).value, m.channel)
  }

  /** The override's part of a send, once the native token is in escrow. */
  function Released(c: Chain, p: Packet): Option<Sent>
    requires Overridden(c.records, p.denom, p.channel)
  {
    var ibc, escrow := c.records[p.denom].ibcDenom, Escrow(p.channel);
    if !CanPay(c.bank, escrow, p.denom, p.amount) then None
    else
      var burned := Burn(c.bank, escrow, p.denom, p.amount);
      if ibc !in c.traces || !CanPay(burned, escrow, ibc, p.amount) then None
      else Some(Sent(c.(bank := Burn(burned, escrow, ibc, p.amount)), p.(denom := c.traces[ibc])))
  }

  lemma ChannelIsNamed(channel: string)
    requires ValidChannel(channel)
    ensures channel != ""
  {
  }

  lemma RecordsAreFiled(c: Chain, native: string, hash: string -> string)
    requires Sound(c, hash)
    ensures native in c.records ==> c.records[native].nativeDenom == native
  {
  }

  /** An overridden name is its own path, and is escrowed before it is burned. */
  lemma OverridesAreEscrowed(c: Chain, m: Msg, path: string, hash: string -> string)
    requires Sound(c, hash) && ValidChannel(m.channel)
    requires FullDenomPath(c, m.denom) == Some(path)
    ensures Overridden(c.records, path, m.channel) ==> path == m.denom && !(Prefix(Here(m.channel)) <= path)
  {
    if Prefix(Here(m.channel)) <= path {
      PrefixedHasPath(path, m.channel);
    }
  }

  /** The nested transfer of the released voucher is not overridden again, and burns
      what was released. */
  lemma NestedTransfer(before: Chain, c: Chain, p: Packet, m: Msg, hash: string -> string)
    requires Sound(before, hash) && ValidChannel(p.channel) && Overridden(before.records, p.denom, p.channel)
    requires c == before.(bank := c.bank)
    requires m == Msg(p.sender, p.receiver, before.records[p.denom].ibcDenom, p.amount, p.channel, p.memo)
    requires CanPay(c.bank, p.sender, m.denom, m.amount)
    ensures !OverridesDenom(c, m)
    ensures Transfers.Transfer(c, m)
            == if m.denom !in c.traces then None
               else Some(Sent(c.(bank := Burn(c.bank, m.sender, m.denom, m.amount)), p.(denom := c.traces[m.denom])))
  {
    RegisteredVoucherIsHashed(before.records, p.denom, hash);
    if m.denom in c.traces {
      PathOfRegistered(before, p.denom, hash);
      PrefixedHasPath(c.traces[m.denom], p.channel);
    }
  }

  /** Why registered names are asked to be plain: a name that is the path of its own
      voucher is overridden again by the nested transfer, and so on. */
  lemma NameOfOwnPathIsOverriddenAgain(c: Chain, path: string, ibc: string, channel: string, m: Msg)
    requires c.records == map[path := TokenInfo(ibc, channel, path, "1")]
    requires LooksHashed(ibc) && !LooksHashed(path) && ibc in c.traces && c.traces[ibc] == path
    requires m.channel == channel && (m.denom == path || m.denom == ibc)
    ensures OverridesDenom(c, m)
    ensures OverridesDenom(c, m.(denom := c.records[path].ibcDenom))
  {
  }

  // ------------------------------------------------------ receiving and refunding

  /** The state after the transfer application alone. */
  function Arrived(c: Chain, p: Incoming, hash: string -> string): Option<Chain> {
    if Prefix(p.source) <= p.denom then
      var d := Unescrowed(p, hash);
      if CanPay(c.bank, Escrow(p.channel), d, p.amount)
      then Some(c.(bank := Coins.Send(c.bank, Escrow(p.channel), p.receiver, d, p.amount)))
      else None
    else
      var v := Voucher(p, hash);
      Some(c.(bank := Mint(c.bank, p.receiver, v, p.amount), traces := c.traces[v := FullPath(VoucherTrace(p))]))
  }

  /** An owner's voucher goes into escrow, and the native token takes its place. */
  function LockedInstead(b: Bank, owner: Account, channel: string, voucher: string, native: string, x: nat): Bank {
    if CanPay(b, owner, voucher, x)
    then Mint(Coins.Send(b, owner, Escrow(channel), voucher, x), owner, native, x)
    else b
  }

  /** A trace that is already stored is the one that would be stored now; and storing
      it keeps the store sound. */
  lemma TraceIsFiled(c: Chain, p: Incoming, hash: string -> string)
    requires Sound(c, hash) && ValidChannel(p.channel)
    ensures var v := Voucher(p, hash);
            && (v in c.traces ==> c.traces[v := FullPath(VoucherTrace(p))] == c.traces)
            && TracesSound(c.traces[v := FullPath(VoucherTrace(p))], hash)
  {
    VoucherIsHashed(p, hash);
    var v, path := Voucher(p, hash), FullPath(VoucherTrace(p));
    if v in c.traces {
      assert hash(path) == ("ibc/" + hash(path))[4..];
      assert hash(c.traces[v]) == ("ibc/" + hash(c.traces[v]))[4..];
      assert c.traces[v] == path;
    }
    hide ValidChannel, Paired, ParseDenomTrace, FullPath, IBCDenom;
  }

  /** The two lookups agree, on a registered name and its channel, exactly when the
      arriving voucher is to be locked. */
  lemma LocksIff(c: Chain, p: Incoming, info: TokenInfo, native: string, hash: string -> string)
    requires Sound(c, hash) && ValidChannel(p.channel)
    requires AssetTaken(c.records, p.denom) ==>
               info.assetId == p.denom && info.nativeDenom in c.records && c.records[info.nativeDenom] == info
    requires !AssetTaken(c.records, p.denom) ==> info == TokenInfo("", "", "", "")
    requires IbcTaken(c.records, Voucher(p, hash)) ==>
               native in c.records && c.records[native].ibcDenom == Voucher(p, hash)
    requires !IbcTaken(c.records, Voucher(p, hash)) ==> native == ""
    ensures LockedNative(c.records, p, hash)
            == if native == info.nativeDenom && p.channel == info.channelID then Some(native) else None
  {
    ChannelIsNamed(p.channel);
    NamesAreUnique(c, hash);
    hide Sound, ValidChannel, ParseDenomTrace, Voucher;
    var locks := LockedNative(c.records, p, hash);
    if locks.Some? {
      assert AssetTaken(c.records, p.denom) && IbcTaken(c.records, Voucher(p, hash));
    }
    if native == info.nativeDenom && p.channel == info.channelID {
      assert LocksFor(c.records, native, p, hash);
    }
  }

  lemma NamesAreUnique(c: Chain, hash: string -> string)
    requires Sound(c, hash)
    ensures Unique(c.records) && "" !in c.records
  {
  }

  lemma LocksAgainIff(c: Chain, p: Packet, token: string, native: string, info: TokenInfo, hash: string -> string)
    requires Sound(c, hash) && ValidChannel(p.channel) && token == IBCDenom(ParseDenomTrace(p.denom), hash)
    requires IbcTaken(c.records, token) ==> native in c.records && c.records[native].ibcDenom == token
    requires !IbcTaken(c.records, token) ==> native == ""
    requires info == if native in c.records then c.records[native] else TokenInfo("", "", "", "")
    ensures NativeAgain(c.records, p, hash) == if p.channel == info.channelID then Some(native) else None
    ensures info == TokenInfo("", "", "", "") ==> p.channel != info.channelID
  {
    ChannelIsNamed(p.channel);
    NamesAreUnique(c, hash);
    hide Sound, ValidChannel, ParseDenomTrace, IBCDenom;
    var locks := NativeAgain(c.records, p, hash);
    if locks.Some? {
      assert IbcTaken(c.records, token);
    }
    if p.channel == info.channelID {
      assert LocksAgain(c.records, native, p, hash);
    }
  }

  /** The keeper's part on top of the application's is the whole receipt. */
  lemma ReceiveAgain(c: Chain, d: Chain, p: Incoming, hash: string -> string)
    requires Arrived(c, p, hash) == Some(d)
    ensures Receive(c, p, hash).Some?
    ensures !(Prefix(p.source) <= p.denom) ==>
              && d.traces == d.traces[Voucher(p, hash) := FullPath(VoucherTrace(p))]
              && CanPay(d.bank, p.receiver, Voucher(p, hash), p.amount)
              && Receive(c, p, hash)
                 == match LockedNative(d.records, p, hash)
                    case None => Some(d)
                    case Some(native) =>
                      Some(d.(bank := LockedInstead(d.bank, p.receiver, p.channel, Voucher(p, hash), native, p.amount)))
    ensures Prefix(p.source) <= p.denom ==> Receive(c, p, hash) == Some(d)
  {
    MintedAndSent(c.bank, p.receiver, Escrow(p.channel), Voucher(p, hash), p.amount);
    hide Mint, Coins.Send, CanPay, LockedNative, Voucher, FullPath, VoucherTrace, Prefix;
  }

  lemma RefundAgain(c: Chain, p: Packet, hash: string -> string)
    ensures var d := IBCDenom(ParseDenomTrace(p.denom), hash);
            var b := Mint(c.bank, p.sender, d, p.amount);
            Prefix(Here(p.channel)) <= p.denom ==>
              && CanPay(b, p.sender, d, p.amount)
              && Refund(c, p, hash)
                 == match NativeAgain(c.records, p, hash)
                    case None => Some(c.(bank := b))
                    case Some(native) =>
                      Some(c.(bank := LockedInstead(b, p.sender, p.channel, d, native, p.amount)))
  {
    MintedAndSent(c.bank, p.sender, Escrow(p.channel), IBCDenom(ParseDenomTrace(p.denom), hash), p.amount);
    hide Mint, Coins.Send, CanPay, NativeAgain, IBCDenom, ParseDenomTrace, Prefix;
  }
}
