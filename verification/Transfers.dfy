/**
 What a transfer, a receipt and a refund do to this chain once the transfer
 application and x/transfermiddleware are both done: in terms of what is minted,
 burned and moved, not of the single bank calls.
 */
module Transfers {
  import opened Basics
  import opened Coins
  import opened Denoms
  import opened Registry
  import opened Text
  import opened TokenInfo

  const PORT: string := "transfer"

  function Here(channel: string): End { End(PORT, channel) }

  /** `traces` maps a voucher's denomination to its full path. */
  datatype Chain = Chain(bank: Bank, traces: map<string, string>, records: Records)

  /** MsgTransfer. */
  datatype Msg = Msg(sender: Account, receiver: string, denom: string, amount: nat, channel: string, memo: string)

  /** A packet sent from here; `denom` is the full path. */
  datatype Packet =
    Packet(channel: string, denom: string, amount: nat, sender: Account, receiver: string, memo: string)

  /** A packet arriving through this channel from `source`. */
  datatype Incoming = Incoming(source: End, channel: string, denom: string, amount: nat, receiver: Account)

  // ----------------------------------------------------------------- assumptions

  predicate ValidChannel(channel: string) { ValidEnd(Here(channel)) }

  /** A base name, and not one that could be a voucher's. */
  predicate Plain(d: string) { d != "" && !LooksHashed(d) && ParseDenomTrace(d).path == "" }

  /** The full path of a voucher that came through this channel. */
  predicate CameThrough(raw: string, channel: string) {
    Prefix(Here(channel)) <= raw && Settled(raw) && ParseDenomTrace(raw).base != ""
  }

  ghost predicate VoucherOf(ibc: string, channel: string, hash: string -> string) {
    exists raw :: CameThrough(raw, channel) && ibc == "ibc/" + hash(raw)
  }

  /** Every registered pair joins a native name with a voucher of its channel. */
  ghost predicate Paired(records: Records, hash: string -> string) {
    && Unique(records)
    && forall n :: n in records ==>
         Plain(n) && ValidChannel(records[n].channelID)
         && VoucherOf(records[n].ibcDenom, records[n].channelID, hash)
  }

  /** Every stored trace is filed under its own hash. */
  ghost predicate TracesSound(traces: map<string, string>, hash: string -> string) {
    forall d :: d in traces ==>
      d == "ibc/" + hash(traces[d]) && ParseDenomTrace(traces[d]).path != ""
  }

  ghost predicate Sound(c: Chain, hash: string -> string) {
    Injective(hash) && Paired(c.records, hash) && TracesSound(c.traces, hash)
  }

  // --------------------------------------------------------------------- sending

  /** DenomPathFromHash for vouchers. */
  function FullDenomPath(c: Chain, denom: string): Option<string> {
    if !LooksHashed(denom) then Some(denom)
    else if denom in c.traces then Some(c.traces[denom])
    else None
  }

  /** A registered native name, leaving through the channel of its voucher. */
  predicate Overridden(records: Records, path: string, channel: string) {
    path in records && records[path].channelID == channel
  }

  datatype Sent = Sent(chain: Chain, packet: Packet)

  function PacketFor(m: Msg, path: string): Packet {
    Packet(m.channel, path, m.amount, m.sender, m.receiver, m.memo)
  }

  /** A registered native name is burned, and its voucher, burned out of escrow,
      leaves in its place; a voucher that returns is burned; anything else is
      escrowed. */
  function Transfer(c: Chain, m: Msg): Option<Sent> {
    match FullDenomPath(c, m.denom)
    case None => None
    case Some(path) =>
      if !CanPay(c.bank, m.sender, m.denom, m.amount) then None
      else if Overridden(c.records, path, m.channel) then
        var ibc, escrow := c.records[path].ibcDenom, Escrow(m.channel);
        var burned := Burn(c.bank, m.sender, m.denom, m.amount);
        if ibc !in c.traces || !CanPay(burned, escrow, ibc, m.amount) then None
        else Some(Sent(c.(bank := Burn(burned, escrow, ibc, m.amount)), PacketFor(m, c.traces[ibc])))
      else
        var bank := if Prefix(Here(m.channel)) <= path then Burn(c.bank, m.sender, m.denom, m.amount)
                    else Coins.Send(c.bank, m.sender, Escrow(m.channel), m.denom, m.amount);
        Some(Sent(c.(bank := bank), PacketFor(m, path)))
  }

  // ------------------------------------------------------------------- receiving

  /** What the escrow gives back for a token that returns. */
  function Unescrowed(p: Incoming, hash: string -> string): string
    requires Prefix(p.source) <= p.denom
  {
    IBCDenom(ParseDenomTrace(p.denom[|Prefix(p.source)|..]), hash)
  }

  function VoucherTrace(p: Incoming): DenomTrace { ParseDenomTrace(Prefix(Here(p.channel)) + p.denom) }

  /** The voucher that is minted for a token from elsewhere. */
  function Voucher(p: Incoming, hash: string -> string): string { IBCDenom(VoucherTrace(p), hash) }

  predicate LocksFor(records: Records, native: string, p: Incoming, hash: string -> string) {
    native in records && records[native] == TokenInfo(Voucher(p, hash), p.channel, native, p.denom)
  }

  /** The native token to which the arriving voucher is to be locked, if any. */
  ghost function LockedNative(records: Records, p: Incoming, hash: string -> string): (r: Option<string>)
    ensures r.Some? ==> LocksFor(records, r.value, p, hash)
    ensures r.None? ==> forall n :: !LocksFor(records, n, p, hash)
  {
    if n :| LocksFor(records, n, p, hash) then Some(n) else None
  }

  /** A returning token leaves escrow.  Otherwise a voucher comes into being: in
      escrow, with the native token minted to the receiver, if it is registered for
      this channel under this asset; with the receiver itself if not. */
  ghost function Receive(c: Chain, p: Incoming, hash: string -> string): Option<Chain> {
    if Prefix(p.source) <= p.denom then
      var d := Unescrowed(p, hash);
      if CanPay(c.bank, Escrow(p.channel), d, p.amount)
      then Some(c.(bank := Coins.Send(c.bank, Escrow(p.channel), p.receiver, d, p.amount)))
      else None
    else
      var v := Voucher(p, hash);
      var known := c.(traces := c.traces[v := FullPath(VoucherTrace(p))]);
      match LockedNative(c.records, p, hash)
      case Some(native) =>
        Some(known.(bank := Mint(Mint(c.bank, Escrow(p.channel), v, p.amount), p.receiver, native, p.amount)))
      case None => Some(known.(bank := Mint(c.bank, p.receiver, v, p.amount)))
  }

  // ------------------------------------------------------------------- refunding

  predicate LocksAgain(records: Records, native: string, p: Packet, hash: string -> string) {
    && native in records && records[native].channelID == p.channel
    && records[native].ibcDenom == IBCDenom(ParseDenomTrace(p.denom), hash)
  }

  ghost function NativeAgain(records: Records, p: Packet, hash: string -> string): (r: Option<string>)
    ensures r.Some? ==> LocksAgain(records, r.value, p, hash)
    ensures r.None? ==> forall n :: !LocksAgain(records, n, p, hash)
  {
    if n :| LocksAgain(records, n, p, hash) then Some(n) else None
  }

  /** After an error or a timeout: what was escrowed leaves escrow; what was burned
      is minted again, as a native token and its escrowed voucher if the voucher is
      registered for this channel by then. */
  ghost function Refund(c: Chain, p: Packet, hash: string -> string): Option<Chain> {
    var d := IBCDenom(ParseDenomTrace(p.denom), hash);
    if !(Prefix(Here(p.channel)) <= p.denom) then
      if CanPay(c.bank, Escrow(p.channel), d, p.amount)
      then Some(c.(bank := Coins.Send(c.bank, Escrow(p.channel), p.sender, d, p.amount)))
      else None
    else
      match NativeAgain(c.records, p, hash)
      case Some(native) =>
        Some(c.(bank := Mint(Mint(c.bank, Escrow(p.channel), d, p.amount), p.sender, native, p.amount)))
      case None => Some(c.(bank := Mint(c.bank, p.sender, d, p.amount)))
  }

  // ------------------------------------------------------------------ small facts

  /** A voucher's path is the only one with its hash. */
  lemma PathOfVoucher(x: string, raw: string, channel: string, hash: string -> string)
    requires Injective(hash) && CameThrough(raw, channel)
    requires ParseDenomTrace(x).path != "" && IBCDenom(ParseDenomTrace(x), hash) == "ibc/" + hash(raw)
    ensures x == raw
  {
    var t := ParseDenomTrace(x);
    assert hash(FullPath(t)) == ("ibc/" + hash(FullPath(t)))[4..];
    assert hash(raw) == ("ibc/" + hash(raw))[4..];
    assert FullPath(t) == raw;
    WrittenOut(x);
    TraceIsStable(x);
    if x != raw {
      assert raw == x + "/";
      EndsInSlash(x);
      assert false;
    }
  }

  lemma EndsInSlash(x: string)
    requires |Split(x)| > 2 && OnlyPairs(x)
    ensures ParseDenomTrace(x).base == ""
  {
    var parts := Split(x);
    assert parts[2 * Hops(parts)..] == [];
  }

  /** What carries this channel's prefix has a path, and is no plain name. */
  lemma PrefixedHasPath(x: string, channel: string)
    requires ValidChannel(channel) && Prefix(Here(channel)) <= x
    ensures ParseDenomTrace(x).path != "" && !Plain(x)
  {
    var n := |Prefix(Here(channel))|;
    PrefixSplits(Here(channel), x[n..]);
    assert Prefix(Here(channel)) + x[n..] == x;
  }

  /** A minted voucher is never a plain name. */
  lemma VoucherIsHashed(p: Incoming, hash: string -> string)
    requires ValidChannel(p.channel)
    ensures LooksHashed(Voucher(p, hash)) && !Plain(Voucher(p, hash))
    ensures Voucher(p, hash) == "ibc/" + hash(FullPath(VoucherTrace(p)))
    ensures ParseDenomTrace(FullPath(VoucherTrace(p))).path != ""
  {
    PrefixSplits(Here(p.channel), p.denom);
    TraceIsStable(Prefix(Here(p.channel)) + p.denom);
  }

  lemma RegisteredVoucherIsHashed(records: Records, native: string, hash: string -> string)
    requires Paired(records, hash) && native in records
    ensures LooksHashed(records[native].ibcDenom)
  {
  }

  /** The path under which a registered voucher leaves. */
  lemma PathOfRegistered(c: Chain, native: string, hash: string -> string)
    requires Sound(c, hash) && native in c.records && c.records[native].ibcDenom in c.traces
    ensures CameThrough(c.traces[c.records[native].ibcDenom], c.records[native].channelID)
  {
    var ibc, channel := c.records[native].ibcDenom, c.records[native].channelID;
    var raw :| CameThrough(raw, channel) && ibc == "ibc/" + hash(raw);
    var path := c.traces[ibc];
    assert hash(path) == ("ibc/" + hash(path))[4..];
    assert hash(raw) == ("ibc/" + hash(raw))[4..];
  }
}
