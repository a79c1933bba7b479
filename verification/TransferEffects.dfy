/**
 What a transfer, a receipt and a refund do to every balance and every supply, said
 in balances and supplies alone; and that a token which left into escrow comes out of
 it again as the same token.
 */
module TransferEffects {
  import opened Basics
  import opened Coins
  import opened Denoms
  import Registry
  import Text
  import opened TokenInfo
  import opened TransferRuns
  import opened Transfers

  /** One change of a balance, and of the supply with it if `coined`. */
  datatype Entry = Entry(account: Account, denom: string, amount: int, coined: bool)

  function OnBalance(e: Entry, a: Account, d: string): int { if e.account == a && e.denom == d then e.amount else 0 }

  function OnSupply(e: Entry, d: string): int { if e.coined && e.denom == d then e.amount else 0 }

  /** Every balance and supply of `c` is that of `b` with the two entries booked. */
  ghost predicate Booked(b: Bank, c: Bank, x: Entry, y: Entry) {
    && (forall a: Account, d: string :: Balance(c, a, d) == Balance(b, a, d) + OnBalance(x, a, d) + OnBalance(y, a, d))
    && (forall d: string :: Supply(c, d) == Supply(b, d) + OnSupply(x, d) + OnSupply(y, d))
  }

  const NOTHING := Entry(Module(""), "", 0, false)

  // ------------------------------------------------------------- single bank steps

  lemma SendBooks(b: Bank, from: Account, to: Account, d: string, x: nat)
    requires CanPay(b, from, d, x)
    ensures Booked(b, Coins.Send(b, from, to, d, x), Entry(from, d, -(x as int), false), Entry(to, d, x, false))
  {
  }

  lemma MintBooks(b: Bank, a: Account, d: string, x: nat)
    ensures Booked(b, Mint(b, a, d, x), Entry(a, d, x, true), NOTHING)
  {
  }

  lemma BurnBooks(b: Bank, a: Account, d: string, x: nat)
    requires CanPay(b, a, d, x) && Supply(b, d) >= x
    ensures Booked(b, Burn(b, a, d, x), Entry(a, d, -(x as int), true), NOTHING)
  {
  }

  lemma BookedBoth(b: Bank, c: Bank, e: Bank, x: Entry, y: Entry)
    requires Booked(b, c, x, NOTHING) && Booked(c, e, y, NOTHING)
    ensures Booked(b, e, x, y)
  {
    hide Balance, Supply;
  }

  // --------------------------------------------------------------------- receiving

  /** A returning token leaves the channel's escrow for the receiver, under the
      denomination the rate limiter counts it under, exactly if the escrow holds it. */
  lemma ReturningReceipt(c: Chain, p: Incoming, hash: string -> string)
    requires Prefix(p.source) <= p.denom
    ensures var d, r := RecvDenom(p.source, Here(p.channel), p.denom, hash), Receive(c, p, hash);
            && (r.Some? <==> Balance(c.bank, Escrow(p.channel), d) >= p.amount)
            && (r.Some? ==>
                  && r.value.traces == c.traces && r.value.records == c.records
                  && Booked(c.bank, r.value.bank, Entry(Escrow(p.channel), d, -(p.amount as int), false),
                            Entry(p.receiver, d, p.amount, false)))
  {
    PathlessIsBase(p.denom[|Prefix(p.source)|..]);
    var d := RecvDenom(p.source, Here(p.channel), p.denom, hash);
    assert d == Unescrowed(p, hash);
    hide ParseDenomTrace, IBCDenom, RecvDenom, Unescrowed, Coins.Send, Prefix;
    if Balance(c.bank, Escrow(p.channel), d) >= p.amount {
      SendBooks(c.bank, Escrow(p.channel), p.receiver, d, p.amount);
    }
  }

  /** What becomes known of a voucher when its token is received. */
  ghost predicate Learned(c: Chain, t: Chain, p: Incoming, v: string) {
    t.records == c.records && t.traces == c.traces[v := Arrival(p.source, Here(p.channel), p.denom)]
  }

  /** A token from elsewhere is always received: as a voucher minted to the receiver, if
      no record pairs the voucher on this channel with a name for this asset. */
  lemma UnpairedReceipt(c: Chain, p: Incoming, hash: string -> string)
    requires !(Prefix(p.source) <= p.denom)
    requires var v := RecvDenom(p.source, Here(p.channel), p.denom, hash);
             forall n :: n in c.records ==> c.records[n] != TokenInfo(v, p.channel, n, p.denom)
    ensures var v, r := RecvDenom(p.source, Here(p.channel), p.denom, hash), Receive(c, p, hash);
            && r.Some? && Learned(c, r.value, p, v)
            && Booked(c.bank, r.value.bank, Entry(p.receiver, v, p.amount, true), NOTHING)
  {
    var v := RecvDenom(p.source, Here(p.channel), p.denom, hash);
    assert v == Voucher(p, hash);
    hide ParseDenomTrace, IBCDenom, RecvDenom, Voucher, Mint, Prefix;
    MintBooks(c.bank, p.receiver, v, p.amount);
  }

  /** And as native tokens minted to the receiver, with the voucher minted into escrow,
      if one does. */
  lemma PairedReceipt(c: Chain, p: Incoming, n: string, hash: string -> string)
    requires !(Prefix(p.source) <= p.denom) && Registry.Unique(c.records) && n in c.records
    requires c.records[n] == TokenInfo(RecvDenom(p.source, Here(p.channel), p.denom, hash), p.channel, n, p.denom)
    ensures var v, r := RecvDenom(p.source, Here(p.channel), p.denom, hash), Receive(c, p, hash);
            && r.Some? && Learned(c, r.value, p, v)
            && Booked(c.bank, r.value.bank, Entry(Escrow(p.channel), v, p.amount, true),
                      Entry(p.receiver, n, p.amount, true))
  {
    var v := RecvDenom(p.source, Here(p.channel), p.denom, hash);
    assert v == Voucher(p, hash);
    hide ParseDenomTrace, IBCDenom, RecvDenom, Voucher, Mint, Prefix, Booked;
    assert LocksFor(c.records, n, p, hash);
    var locked := Mint(c.bank, Escrow(p.channel), v, p.amount);
    MintBooks(c.bank, Escrow(p.channel), v, p.amount);
    MintBooks(locked, p.receiver, n, p.amount);
    BookedBoth(c.bank, locked, Mint(locked, p.receiver, n, p.amount), Entry(Escrow(p.channel), v, p.amount, true),
               Entry(p.receiver, n, p.amount, true));
  }

  // ----------------------------------------------------------------------- sending

  /** The full path of a denomination: its own name, or the stored one of a voucher. */
  predicate HasPath(c: Chain, denom: string, path: string) {
    if "ibc/" <= denom then denom in c.traces && path == c.traces[denom] else path == denom
  }

  predicate SameRecords(c: Chain, t: Chain) { t.traces == c.traces && t.records == c.records }

  /** A registered name, on the channel of its voucher: the sender's tokens and as many
      vouchers in escrow are destroyed, and the voucher's path goes out. */
  lemma OverriddenSend(c: Chain, m: Msg, path: string)
    requires Conserved(c.bank) && HasPath(c, m.denom, path)
    requires path in c.records && c.records[path].channelID == m.channel && c.records[path].ibcDenom != m.denom
    ensures var ibc, r := c.records[path].ibcDenom, Transfer(c, m);
            && (r.Some? <==> && ibc in c.traces && Balance(c.bank, m.sender, m.denom) >= m.amount
                             && Balance(c.bank, Escrow(m.channel), ibc) >= m.amount)
            && (r.Some? ==>
                  && SameRecords(c, r.value.chain)
                  && Booked(c.bank, r.value.chain.bank, Entry(m.sender, m.denom, -(m.amount as int), true),
                            Entry(Escrow(m.channel), ibc, -(m.amount as int), true))
                  && r.value.packet == Packet(m.channel, c.traces[ibc], m.amount, m.sender, m.receiver, m.memo))
  {
    hide Conserved, Booked, Burn, Prefix, Coins.Send;
    var ibc, x := c.records[path].ibcDenom, m.amount;
    if CanPay(c.bank, m.sender, m.denom, x) {
      BalanceWithinSupply(c.bank, m.sender, m.denom);
      BurnBooks(c.bank, m.sender, m.denom, x);
      BurnConserves(c.bank, m.sender, m.denom, x);
      var burned := Burn(c.bank, m.sender, m.denom, x);
      BookedAt(c.bank, burned, Entry(m.sender, m.denom, -(x as int), true), NOTHING, Escrow(m.channel), ibc);
      if CanPay(burned, Escrow(m.channel), ibc, x) {
        BalanceWithinSupply(burned, Escrow(m.channel), ibc);
        BurnBooks(burned, Escrow(m.channel), ibc, x);
        BookedBoth(c.bank, burned, Burn(burned, Escrow(m.channel), ibc, x), Entry(m.sender, m.denom, -(x as int), true),
                   Entry(Escrow(m.channel), ibc, -(x as int), true));
      }
    }
  }

  lemma BookedAt(b: Bank, c: Bank, x: Entry, y: Entry, a: Account, d: string)
    requires Booked(b, c, x, y)
    ensures Balance(c, a, d) == Balance(b, a, d) + OnBalance(x, a, d) + OnBalance(y, a, d)
  {
  }

  /** A voucher that goes home through its own channel is destroyed; anything else goes
      into the channel's escrow; the packet names the token by its full path. */
  lemma PlainSend(c: Chain, m: Msg, path: string)
    requires Conserved(c.bank) && HasPath(c, m.denom, path)
    requires !(path in c.records && c.records[path].channelID == m.channel)
    ensures var r := Transfer(c, m);
            && (r.Some? <==> Balance(c.bank, m.sender, m.denom) >= m.amount)
            && (r.Some? ==>
                  && SameRecords(c, r.value.chain)
                  && r.value.packet == Packet(m.channel, path, m.amount, m.sender, m.receiver, m.memo)
                  && if "transfer/" + m.channel + "/" <= path
                     then Booked(c.bank, r.value.chain.bank, Entry(m.sender, m.denom, -(m.amount as int), true),
                                 NOTHING)
                     else Booked(c.bank, r.value.chain.bank, Entry(m.sender, m.denom, -(m.amount as int), false),
                                 Entry(Escrow(m.channel), m.denom, m.amount, false)))
  {
    hide Conserved, Booked, Burn, Coins.Send;
    if CanPay(c.bank, m.sender, m.denom, m.amount) {
      BalanceWithinSupply(c.bank, m.sender, m.denom);
      BurnBooks(c.bank, m.sender, m.denom, m.amount);
      SendBooks(c.bank, m.sender, Escrow(m.channel), m.denom, m.amount);
    }
  }

  // --------------------------------------------------------------------- refunding

  /** The denomination counted for a packet is the one the bank knows. */
  lemma BankDenom(raw: string, hash: string -> string)
    ensures SendDenom(raw, hash) == IBCDenom(ParseDenomTrace(raw), hash)
  {
    PathlessIsBase(raw);
    hide ParseDenomTrace;
  }

  lemma OnlyLock(records: Registry.Records, n: string, p: Packet, hash: string -> string)
    requires Registry.Unique(records) && n in records && records[n].channelID == p.channel
    requires records[n].ibcDenom == IBCDenom(ParseDenomTrace(p.denom), hash)
    ensures NativeAgain(records, p, hash) == Some(n)
  {
    hide ParseDenomTrace, IBCDenom;
    assert LocksAgain(records, n, p, hash);
  }

  /** A packet whose tokens were escrowed is refunded out of escrow, if it holds them. */
  lemma EscrowRefund(c: Chain, p: Packet, hash: string -> string)
    requires !("transfer/" + p.channel + "/" <= p.denom)
    ensures var d, r := SendDenom(p.denom, hash), Refund(c, p, hash);
            && (r.Some? <==> Balance(c.bank, Escrow(p.channel), d) >= p.amount)
            && (r.Some? ==>
                  && SameRecords(c, r.value)
                  && Booked(c.bank, r.value.bank, Entry(Escrow(p.channel), d, -(p.amount as int), false),
                            Entry(p.sender, d, p.amount, false)))
  {
    hide ParseDenomTrace, IBCDenom, SendDenom, Coins.Send, Booked;
    var d := SendDenom(p.denom, hash);
    BankDenom(p.denom, hash);
    if Balance(c.bank, Escrow(p.channel), d) >= p.amount {
      SendBooks(c.bank, Escrow(p.channel), p.sender, d, p.amount);
    }
  }

  /** One whose vouchers were destroyed gets vouchers minted, if no record pairs them on
      the channel. */
  lemma UnpairedRefund(c: Chain, p: Packet, hash: string -> string)
    requires "transfer/" + p.channel + "/" <= p.denom
    requires forall n :: n in c.records ==>
               !(c.records[n].channelID == p.channel && c.records[n].ibcDenom == SendDenom(p.denom, hash))
    ensures var d, r := SendDenom(p.denom, hash), Refund(c, p, hash);
            && r.Some? && SameRecords(c, r.value)
            && Booked(c.bank, r.value.bank, Entry(p.sender, d, p.amount, true), NOTHING)
  {
    hide ParseDenomTrace, IBCDenom, SendDenom, Mint, Booked;
    var d := SendDenom(p.denom, hash);
    BankDenom(p.denom, hash);
    MintBooks(c.bank, p.sender, d, p.amount);
  }

  /** And native tokens, with the vouchers back in escrow, if one does. */
  lemma PairedRefund(c: Chain, p: Packet, n: string, hash: string -> string)
    requires "transfer/" + p.channel + "/" <= p.denom && Registry.Unique(c.records) && n in c.records
    requires c.records[n].channelID == p.channel && c.records[n].ibcDenom == SendDenom(p.denom, hash)
    ensures var d, r := SendDenom(p.denom, hash), Refund(c, p, hash);
            && r.Some? && SameRecords(c, r.value)
            && Booked(c.bank, r.value.bank, Entry(Escrow(p.channel), d, p.amount, true),
                      Entry(p.sender, n, p.amount, true))
  {
    hide ParseDenomTrace, IBCDenom, SendDenom, Mint, Booked;
    var d := SendDenom(p.denom, hash);
    BankDenom(p.denom, hash);
    OnlyLock(c.records, n, p, hash);
    assert Prefix(Here(p.channel)) <= p.denom;
    hide Prefix, LocksAgain;
    var locked := Mint(c.bank, Escrow(p.channel), d, p.amount);
    MintBooks(c.bank, Escrow(p.channel), d, p.amount);
    MintBooks(locked, p.sender, n, p.amount);
    BookedBoth(c.bank, locked, Mint(locked, p.sender, n, p.amount), Entry(Escrow(p.channel), d, p.amount, true),
               Entry(p.sender, n, p.amount, true));
  }

  // ------------------------------------------------------------------ out and back

  /** The packet that brings back what a packet took out, from the other end. */
  function Returning(sent: Packet, there: End, receiver: Account): Incoming {
    Incoming(there, sent.channel, Arrival(Here(sent.channel), there, sent.denom), sent.amount, receiver)
  }

  /** A voucher's stored path gives back its denomination. */
  lemma SendDenomOf(c: Chain, denom: string, path: string, hash: string -> string)
    requires Sound(c, hash) && HasPath(c, denom, path) && ("ibc/" <= denom ==> Settled(path))
    ensures "ibc/" <= denom ==> ParseDenomTrace(path).path != "" && SendDenom(path, hash) == denom
    ensures !("ibc/" <= denom) ==> (SendDenom(path, hash) == denom <==> ParseDenomTrace(denom).path == "")
  {
    hide Paired, ParseDenomTrace;
  }

  /** A bank denomination that is nothing but two pairs or more comes back as a voucher. */
  lemma PairsReturnHashed(raw: string, channel: string, there: End, hash: string -> string)
    requires ValidEnd(there) && OnlyPairs(raw) && !Settled(raw) && !("transfer/" + channel + "/" <= raw)
    ensures "ibc/" <= RecvDenom(there, Here(channel), Arrival(Here(channel), there, raw), hash)
  {
    PairsWithSlash(raw);
    BackWithSlash(raw, channel, there);
    hide ParseDenomTrace, OnlyPairs, Prefix, Arrival, Settled, ValidEnd;
    var back := Arrival(Here(channel), there, raw);
    assert back[|Prefix(there)|..] == raw + "/";
  }

  lemma PairsWithSlash(raw: string)
    requires OnlyPairs(raw) && !Settled(raw)
    ensures ParseDenomTrace(raw + "/").path != ""
  {
    WrittenOut(raw);
    TraceIsStable(raw);
    TraceIff(raw);
    hide ParseDenomTrace;
  }

  lemma BackWithSlash(raw: string, channel: string, there: End)
    requires ValidEnd(there) && OnlyPairs(raw) && !("transfer/" + channel + "/" <= raw)
    ensures Arrival(Here(channel), there, raw) == Prefix(there) + (raw + "/")
  {
    hide ParseDenomTrace, OnlyPairs, FullPath, ValidEnd;
    PrefixSplits(there, raw);
    WrittenOut(Prefix(there) + raw);
    assert (Prefix(there) + raw) + "/" == Prefix(there) + (raw + "/");
  }

  /** The name under which an escrowed token comes back is its own, unless it is just a
      port and a channel, or a bank denomination that reads like a path. */
  lemma ReturnsUnderItsNameIff(c: Chain, denom: string, path: string, channel: string, there: End,
                               hash: string -> string)
    requires Sound(c, hash) && HexHash(hash) && HasPath(c, denom, path) && ("ibc/" <= denom ==> Settled(path))
    requires ValidChannel(channel) && ValidEnd(there) && !("transfer/" + channel + "/" <= path)
    ensures RecvDenom(there, Here(channel), Arrival(Here(channel), there, path), hash) == denom
            <==> !OnlyPairs(path) && ("ibc/" <= denom || ParseDenomTrace(denom).path == "")
  {
    hide Sound, RecvDenom, SendDenom, Arrival, ParseDenomTrace, OnlyPairs, Settled, HexHash, ValidEnd;
    FewParts(path);
    SendDenomOf(c, denom, path, hash);
    if Settled(path) {
      SentThenReturnedIff(Here(channel), there, path, hash);
    } else {
      PairsReturnHashed(path, channel, there, hash);
    }
  }

  lemma FewParts(raw: string)
    ensures !OnlyPairs(raw) ==> Settled(raw)
    ensures !Settled(raw) ==> OnlyPairs(raw)
    ensures OnlyPairs(raw) && Settled(raw) ==> ParseDenomTrace(raw).path == ""
  {
    WrittenOut(raw);
  }

  /** A token that goes into escrow and is brought back through the same channel under its
      own name is always paid: all in all, its amount has moved from the sender to the
      receiver, in the denomination in which it was sent. */
  lemma OutAndBack(c: Chain, m: Msg, path: string, there: End, receiver: Account, hash: string -> string)
    requires Sound(c, hash) && HexHash(hash) && Conserved(c.bank)
    requires HasPath(c, m.denom, path) && ("ibc/" <= m.denom ==> Settled(path))
    requires ValidChannel(m.channel) && ValidEnd(there) && !("transfer/" + m.channel + "/" <= path)
    requires !(path in c.records && c.records[path].channelID == m.channel)
    requires !OnlyPairs(path) && ("ibc/" <= m.denom || ParseDenomTrace(m.denom).path == "")
    requires Balance(c.bank, m.sender, m.denom) >= m.amount
    ensures Transfer(c, m).Some?
    ensures var sent := Transfer(c, m).value;
            var back := Receive(sent.chain, Returning(sent.packet, there, receiver), hash);
            && back.Some? && SameRecords(c, back.value)
            && Booked(c.bank, back.value.bank, Entry(m.sender, m.denom, -(m.amount as int), false),
                      Entry(receiver, m.denom, m.amount, false))
  {
    hide Sound, HexHash, Conserved, Transfer, Receive, RecvDenom, Arrival, OnlyPairs, ParseDenomTrace, Settled, Booked,
      ValidChannel, ValidEnd, Prefix;
    PlainSend(c, m, path);
    ReturnsUnderItsNameIff(c, m.denom, path, m.channel, there, hash);
    ArrivesPrefixed(m.channel, there, path);
    var sent := Transfer(c, m).value;
    var p := Returning(sent.packet, there, receiver);
    BookedAt(c.bank, sent.chain.bank, Entry(m.sender, m.denom, -(m.amount as int), false),
             Entry(Escrow(m.channel), m.denom, m.amount, false), Escrow(m.channel), m.denom);
    ReturningReceipt(sent.chain, p, hash);
    ThereAndBack(c.bank, sent.chain.bank, Receive(sent.chain, p, hash).value.bank, m.sender, Escrow(m.channel),
                 receiver, m.denom, m.amount);
  }

  lemma ArrivesPrefixed(channel: string, there: End, raw: string)
    requires ValidEnd(there) && !("transfer/" + channel + "/" <= raw)
    ensures Prefix(there) <= Arrival(Here(channel), there, raw)
  {
    WrittenOut(Prefix(there) + raw);
    hide ParseDenomTrace, FullPath, OnlyPairs, ValidEnd;
  }

  lemma ThereAndBack(b: Bank, c: Bank, e: Bank, from: Account, over: Account, to: Account, d: string, x: nat)
    requires Booked(b, c, Entry(from, d, -(x as int), false), Entry(over, d, x, false))
    requires Booked(c, e, Entry(over, d, -(x as int), false), Entry(to, d, x, false))
    ensures Booked(b, e, Entry(from, d, -(x as int), false), Entry(to, d, x, false))
  {
    hide Balance, Supply;
  }
}
