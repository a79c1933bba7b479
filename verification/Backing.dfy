/**
 The native token is backed by escrowed vouchers: over whole runs, whatever moves,
 the supply of the native token and the vouchers in its channel's escrow change
 together, but for vouchers that somebody pays into the escrow or claims from it.
 */
module Backing {
  import opened Basics
  import opened Coins
  import opened Denoms
  import Registry
  import opened TransferRuns
  import opened Transfers

  /** The pair may be registered or not, but neither half with another partner. */
  predicate Kept(records: Registry.Records, pair: Pair) {
    forall n :: n in records && (n == pair.native || records[n].ibcDenom == pair.ibc) ==>
      n == pair.native && records[n].ibcDenom == pair.ibc && records[n].channelID == pair.channel
  }

  /** What the supply of the native token exceeds the escrowed vouchers by. */
  function Gap(c: Chain, pair: Pair): int {
    Supply(c.bank, pair.native) - Balance(c.bank, Escrow(pair.channel), pair.ibc)
  }

  ghost predicate Ready(c: Chain, pair: Pair, hash: string -> string) {
    && Sound(c, hash) && Proper(pair, hash) && Kept(c.records, pair) && Conserved(c.bank)
  }

  // --------------------------------------------------- the effect of each movement

  predicate IsEscrowed(a: Account, d: string, pair: Pair) { a == Escrow(pair.channel) && d == pair.ibc }

  lemma MintChanges(c: Chain, a: Account, d: string, x: nat, pair: Pair, hash: string -> string)
    requires Ready(c, pair, hash)
    ensures var t := c.(bank := Mint(c.bank, a, d, x));
            && Ready(t, pair, hash)
            && Gap(t, pair) == Gap(c, pair) + (if d == pair.native then x else 0)
                               - (if IsEscrowed(a, d, pair) then x else 0)
  {
    MintConserves(c.bank, a, d, x);
    HalvesDiffer(pair, hash);
    hide Sound, Proper, Kept, Conserved;
  }

  lemma BurnChanges(c: Chain, a: Account, d: string, x: nat, pair: Pair, hash: string -> string)
    requires Ready(c, pair, hash) && CanPay(c.bank, a, d, x)
    ensures var t := c.(bank := Burn(c.bank, a, d, x));
            && Ready(t, pair, hash)
            && Gap(t, pair) == Gap(c, pair) - (if d == pair.native then x else 0)
                               + (if IsEscrowed(a, d, pair) then x else 0)
  {
    BurnConserves(c.bank, a, d, x);
    HalvesDiffer(pair, hash);
    hide Sound, Proper, Kept, Conserved;
  }

  lemma SendChanges(c: Chain, from: Account, to: Account, d: string, x: nat, pair: Pair, hash: string -> string)
    requires Ready(c, pair, hash) && CanPay(c.bank, from, d, x)
    ensures var t := c.(bank := Coins.Send(c.bank, from, to, d, x));
            && Ready(t, pair, hash)
            && Gap(t, pair) == Gap(c, pair) + (if IsEscrowed(from, d, pair) then x else 0)
                               - (if IsEscrowed(to, d, pair) then x else 0)
  {
    SendConserves(c.bank, from, to, d, x);
    hide Sound, Proper, Kept, Conserved;
  }

  // ------------------------------------------------------------- one step's effect

  /** A registered name leaving through its channel is this pair's or shares nothing
      with it. */
  lemma OverrideIsOurs(c: Chain, path: string, channel: string, pair: Pair, hash: string -> string)
    requires Ready(c, pair, hash) && Overridden(c.records, path, channel)
    ensures path == pair.native || c.records[path].ibcDenom == pair.ibc ==>
              path == pair.native && c.records[path].ibcDenom == pair.ibc && channel == pair.channel
    ensures path != pair.ibc && c.records[path].ibcDenom != pair.native
  {
    HalvesDiffer(pair, hash);
    RegisteredVoucherIsHashed(c.records, path, hash);
    hide VoucherOf, ParseDenomTrace, Conserved;
  }

  lemma OverrideKeeps(c: Chain, m: Msg, ibc: string, pair: Pair, hash: string -> string)
    requires Ready(c, pair, hash) && m.denom in c.records && !m.sender.Escrow?
    requires c.records[m.denom].ibcDenom == ibc && c.records[m.denom].channelID == m.channel
    requires CanPay(c.bank, m.sender, m.denom, m.amount)
    requires CanPay(Burn(c.bank, m.sender, m.denom, m.amount), Escrow(m.channel), ibc, m.amount)
    ensures var t := c.(bank := Burn(Burn(c.bank, m.sender, m.denom, m.amount), Escrow(m.channel), ibc, m.amount));
            Ready(t, pair, hash) && Gap(t, pair) == Gap(c, pair)
  {
    OverrideIsOurs(c, m.denom, m.channel, pair, hash);
    hide Ready, Gap, Burn, CanPay;
    BurnChanges(c, m.sender, m.denom, m.amount, pair, hash);
    BurnChanges(c.(bank := Burn(c.bank, m.sender, m.denom, m.amount)), Escrow(m.channel), ibc, m.amount, pair, hash);
  }

  lemma PlainSendKeeps(c: Chain, m: Msg, path: string, pair: Pair, hash: string -> string)
    requires Ready(c, pair, hash) && ValidChannel(m.channel) && !m.sender.Escrow?
    requires FullDenomPath(c, m.denom) == Some(path) && CanPay(c.bank, m.sender, m.denom, m.amount)
    ensures var bank := if Prefix(Here(m.channel)) <= path then Burn(c.bank, m.sender, m.denom, m.amount)
                        else Coins.Send(c.bank, m.sender, Escrow(m.channel), m.denom, m.amount);
            Ready(c.(bank := bank), pair, hash) && Gap(c.(bank := bank), pair) == Gap(c, pair)
  {
    HalvesDiffer(pair, hash);
    if Prefix(Here(m.channel)) <= path {
      PrefixedHasPath(path, m.channel);
      NotNative(c, m, pair, hash);
    } else if m.denom == pair.ibc {
      VoucherGoesHome(c, pair, m.channel, hash);
    }
    hide Ready, Gap, Burn, Coins.Send, CanPay, Prefix, ValidChannel, Plain, LooksHashed;
    BurnChanges(c, m.sender, m.denom, m.amount, pair, hash);
    SendChanges(c, m.sender, Escrow(m.channel), m.denom, m.amount, pair, hash);
  }

  lemma TransferKeeps(c: Chain, m: Msg, pair: Pair, hash: string -> string)
    requires Ready(c, pair, hash) && ValidChannel(m.channel) && !m.sender.Escrow?
    requires Transfer(c, m).Some?
    ensures Ready(Transfer(c, m).value.chain, pair, hash)
    ensures Gap(Transfer(c, m).value.chain, pair) == Gap(c, pair)
  {
    var path := FullDenomPath(c, m.denom).value;
    if Overridden(c.records, path, m.channel) {
      OverriddenIsItself(c, m, hash);
      OverrideKeeps(c, m, c.records[path].ibcDenom, pair, hash);
    }
    PlainSendKeeps(c, m, path, pair, hash);
    hide Ready, Gap, Burn, Coins.Send, CanPay, Prefix, ValidChannel, Plain;
  }

  lemma OverriddenIsItself(c: Chain, m: Msg, hash: string -> string)
    requires Sound(c, hash) && FullDenomPath(c, m.denom).Some?
    requires Overridden(c.records, FullDenomPath(c, m.denom).value, m.channel)
    ensures FullDenomPath(c, m.denom).value == m.denom
  {
  }

  lemma NotNative(c: Chain, m: Msg, pair: Pair, hash: string -> string)
    requires Proper(pair, hash) && FullDenomPath(c, m.denom).Some?
    requires !Plain(FullDenomPath(c, m.denom).value)
    ensures m.denom != pair.native
  {
  }

  /** A token that comes back through the pair's channel as if the voucher had once
      been escrowed for it there, which no transfer does. */
  predicate DrawsOnEscrow(p: Incoming, pair: Pair, hash: string -> string) {
    p.channel == pair.channel && Prefix(p.source) <= p.denom && Unescrowed(p, hash) == pair.ibc
  }

  /** A receipt that names the pair's escrow account as its receiver, and brings it
      vouchers without minting native tokens for them. */
  ghost predicate PaysEscrow(c: Chain, p: Incoming, pair: Pair, hash: string -> string) {
    && p.receiver == Escrow(pair.channel)
    && if Prefix(p.source) <= p.denom then Unescrowed(p, hash) == pair.ibc
       else Voucher(p, hash) == pair.ibc && LockedNative(c.records, p, hash).None?
  }

  /** What a receipt does to the gap, whoever receives: it grows by what is drawn out
      of the pair's escrow and shrinks by what is paid into it. */
  lemma ReceiveChanges(c: Chain, p: Incoming, pair: Pair, hash: string -> string)
    requires Ready(c, pair, hash) && ValidChannel(p.channel) && Receive(c, p, hash).Some?
    ensures Ready(Receive(c, p, hash).value, pair, hash)
    ensures Gap(Receive(c, p, hash).value, pair)
            == Gap(c, pair) + (if DrawsOnEscrow(p, pair, hash) then p.amount else 0)
                            - (if PaysEscrow(c, p, pair, hash) then p.amount else 0)
  {
    if Prefix(p.source) <= p.denom {
      SendChanges(c, Escrow(p.channel), p.receiver, Unescrowed(p, hash), p.amount, pair, hash);
    } else {
      ForeignReceiptChanges(c, p, pair, hash);
    }
    hide Ready, Gap, Mint, Coins.Send, CanPay, Prefix, ValidChannel, LockedNative, Voucher,
      FullPath, VoucherTrace, Unescrowed;
  }

  lemma ForeignReceiptChanges(c: Chain, p: Incoming, pair: Pair, hash: string -> string)
    requires Ready(c, pair, hash) && ValidChannel(p.channel) && !(Prefix(p.source) <= p.denom)
    ensures Receive(c, p, hash).Some? && Ready(Receive(c, p, hash).value, pair, hash)
    ensures Gap(Receive(c, p, hash).value, pair)
            == Gap(c, pair) - (if PaysEscrow(c, p, pair, hash) then p.amount else 0)
  {
    var v := Voucher(p, hash);
    TraceKeepsReady(c, p, pair, hash);
    var known := c.(traces := c.traces[v := FullPath(VoucherTrace(p))]);
    match LockedNative(c.records, p, hash) {
      case None =>
        MintChanges(known, p.receiver, v, p.amount, pair, hash);
      case Some(native) =>
        OverrideIsOurs(c, native, p.channel, pair, hash);
        MintChanges(known, Escrow(p.channel), v, p.amount, pair, hash);
        MintChanges(known.(bank := Mint(known.bank, Escrow(p.channel), v, p.amount)),
                    p.receiver, native, p.amount, pair, hash);
    }
    hide Ready, Gap, Mint, Coins.Send, CanPay, Prefix, ValidChannel, LockedNative, Voucher,
      FullPath, VoucherTrace, Unescrowed;
  }

  lemma TraceKeepsReady(c: Chain, p: Incoming, pair: Pair, hash: string -> string)
    requires Ready(c, pair, hash) && ValidChannel(p.channel)
    ensures var t := c.(traces := c.traces[Voucher(p, hash) := FullPath(VoucherTrace(p))]);
            Ready(t, pair, hash) && Gap(t, pair) == Gap(c, pair) && Voucher(p, hash) != pair.native
  {
    VoucherIsHashed(p, hash);
    hide ValidChannel, Paired, Kept, Conserved, ParseDenomTrace, FullPath, IBCDenom;
  }

  /** What is known of a packet sent from here. */
  predicate Posted(p: Packet) {
    && ValidChannel(p.channel) && !p.sender.Escrow?
    && (ParseDenomTrace(p.denom).path == "" ==> !LooksHashed(p.denom))
  }

  lemma TransferPosts(c: Chain, m: Msg, hash: string -> string)
    requires Sound(c, hash) && ValidChannel(m.channel) && !m.sender.Escrow? && Transfer(c, m).Some?
    ensures Posted(Transfer(c, m).value.packet)
  {
  }

  /** What leaves escrow on a refund is not the pair's voucher in its own channel. */
  lemma RefundOfVoucher(p: Packet, pair: Pair, hash: string -> string)
    requires Injective(hash) && Proper(pair, hash) && Posted(p) && !(Prefix(Here(p.channel)) <= p.denom)
    ensures IBCDenom(ParseDenomTrace(p.denom), hash) == pair.ibc ==> p.channel != pair.channel
  {
    PathlessIsBase(p.denom);
    if IBCDenom(ParseDenomTrace(p.denom), hash) == pair.ibc && ParseDenomTrace(p.denom).path != "" {
      PacketOfVoucher(p.denom, pair, hash);
    }
  }

  lemma RefundIsVoucher(p: Packet, pair: Pair, hash: string -> string)
    requires Proper(pair, hash) && ValidChannel(p.channel) && Prefix(Here(p.channel)) <= p.denom
    ensures IBCDenom(ParseDenomTrace(p.denom), hash) != pair.native
  {
    PrefixedHasPath(p.denom, p.channel);
  }

  lemma RefundKeeps(c: Chain, p: Packet, pair: Pair, hash: string -> string)
    requires Ready(c, pair, hash) && Posted(p)
    requires Refund(c, p, hash).Some?
    ensures Ready(Refund(c, p, hash).value, pair, hash)
    ensures Gap(Refund(c, p, hash).value, pair) == Gap(c, pair)
  {
    var d := IBCDenom(ParseDenomTrace(p.denom), hash);
    if !(Prefix(Here(p.channel)) <= p.denom) {
      RefundOfVoucher(p, pair, hash);
      SendChanges(c, Escrow(p.channel), p.sender, d, p.amount, pair, hash);
    } else {
      RefundIsVoucher(p, pair, hash);
      MintChanges(c, p.sender, d, p.amount, pair, hash);
      MintChanges(c, Escrow(p.channel), d, p.amount, pair, hash);
      var locked := NativeAgain(c.records, p, hash);
      if locked.Some? {
        OverrideIsOurs(c, locked.value, p.channel, pair, hash);
        MintChanges(c.(bank := Mint(c.bank, Escrow(p.channel), d, p.amount)), p.sender, locked.value, p.amount,
                    pair, hash);
      }
    }
    hide Ready, Gap, Mint, Coins.Send, CanPay, Prefix, ValidChannel, NativeAgain, IBCDenom, ParseDenomTrace, Posted;
  }

  // ------------------------------------------------------------------ whole runs

  /** Any registration may come and go, but the pair is not joined to others; escrow
      accounts, which nobody has a key to, do not send. */
  ghost predicate Allowed(e: Event, pair: Pair, hash: string -> string) {
    && Proceeds(e, hash)
    && match e
       case Transfers(m, _) => !m.sender.Escrow?
       case Registers(records) => Kept(records, pair)
       case Pays(from, _, _, _) => !from.Escrow?
       case _ => true
  }

  /** What an event takes out of the pair's escrow without burning native tokens. */
  ghost function Drawn(w: World, e: Event, pair: Pair, hash: string -> string): nat {
    if e.Arrives? && Receive(w.chain, e.p, hash).Some? && DrawsOnEscrow(e.p, pair, hash) then e.p.amount else 0
  }

  /** What an event puts into the pair's escrow without minting native tokens. */
  ghost function PaidIn(w: World, e: Event, pair: Pair, hash: string -> string): nat {
    match e
    case Arrives(p) =>
      if Receive(w.chain, p, hash).Some? && PaysEscrow(w.chain, p, pair, hash) then p.amount else 0
    case Pays(from, to, denom, amount) =>
      if CanPay(w.chain.bank, from, denom, amount) && IsEscrowed(to, denom, pair) then amount else 0
    case _ => 0
  }

  ghost function AllDrawn(w: World, run: seq<Event>, pair: Pair, hash: string -> string): nat
    decreases run
  {
    if run == [] then 0
    else Drawn(w, run[0], pair, hash) + AllDrawn(Apply(w, run[0], hash), run[1..], pair, hash)
  }

  ghost function AllPaidIn(w: World, run: seq<Event>, pair: Pair, hash: string -> string): nat
    decreases run
  {
    if run == [] then 0
    else PaidIn(w, run[0], pair, hash) + AllPaidIn(Apply(w, run[0], hash), run[1..], pair, hash)
  }

  ghost predicate Inv(w: World, pair: Pair, hash: string -> string) {
    Ready(w.chain, pair, hash) && forall i :: i in w.inflight ==> Posted(w.inflight[i])
  }

  lemma StepKeeps(w: World, e: Event, pair: Pair, hash: string -> string)
    requires Inv(w, pair, hash) && Allowed(e, pair, hash)
    ensures Inv(Apply(w, e, hash), pair, hash)
    ensures Gap(Apply(w, e, hash).chain, pair)
            == Gap(w.chain, pair) + Drawn(w, e, pair, hash) - PaidIn(w, e, pair, hash)
  {
    hide Ready, Gap, Posted, Transfer, Receive, Refund, DrawsOnEscrow, PaysEscrow, IsEscrowed, CanPay, Coins.Send,
      ValidChannel;
    match e {
      case Transfers(_, _) => PacketStepKeeps(w, e, pair, hash);
      case Arrives(_) => PacketStepKeeps(w, e, pair, hash);
      case Fails(_) => PacketStepKeeps(w, e, pair, hash);
      case Succeeds(_) =>
      case Registers(records) =>
        RegisteringKeeps(w.chain, records, pair, hash);
      case Pays(from, to, denom, amount) =>
        if CanPay(w.chain.bank, from, denom, amount) {
          SendChanges(w.chain, from, to, denom, amount, pair, hash);
          NotEscrowed(from, denom, pair);
        }
    }
  }

  lemma PacketStepKeeps(w: World, e: Event, pair: Pair, hash: string -> string)
    requires Inv(w, pair, hash) && Allowed(e, pair, hash)
    requires e.Transfers? || e.Arrives? || e.Fails?
    ensures Inv(Apply(w, e, hash), pair, hash)
    ensures Gap(Apply(w, e, hash).chain, pair)
            == Gap(w.chain, pair) + Drawn(w, e, pair, hash) - PaidIn(w, e, pair, hash)
  {
    ReadyIsSound(w.chain, pair, hash);
    hide Ready, Gap, Posted, Transfer, Receive, Refund, DrawsOnEscrow, PaysEscrow, ValidChannel;
    match e {
      case Transfers(m, accepted) =>
        if Transfer(w.chain, m).Some? {
          TransferKeeps(w.chain, m, pair, hash);
          TransferPosts(w.chain, m, hash);
        }
      case Arrives(p) =>
        if Receive(w.chain, p, hash).Some? {
          ReceiveChanges(w.chain, p, pair, hash);
        }
      case Fails(i) =>
        if i in w.inflight && Refund(w.chain, w.inflight[i], hash).Some? {
          RefundKeeps(w.chain, w.inflight[i], pair, hash);
        }
    }
  }

  lemma NotEscrowed(a: Account, d: string, pair: Pair)
    requires !a.Escrow?
    ensures !IsEscrowed(a, d, pair)
  {
  }

  lemma ReadyIsSound(c: Chain, pair: Pair, hash: string -> string)
    requires Ready(c, pair, hash)
    ensures Sound(c, hash)
  {
  }

  lemma RegisteringKeeps(c: Chain, records: Registry.Records, pair: Pair, hash: string -> string)
    requires Ready(c, pair, hash) && Paired(records, hash) && Kept(records, pair)
    ensures Ready(c.(records := records), pair, hash) && Gap(c.(records := records), pair) == Gap(c, pair)
  {
  }

  /** Backing is conserved: over any run, of any length and with any tokens, what the
      native supply exceeds the escrowed vouchers by changes by exactly what was
      drawn out of the escrow less what was paid into it. */
  lemma {:induction false} BackingIsConserved(w: World, run: seq<Event>, pair: Pair, hash: string -> string)
    requires Inv(w, pair, hash) && forall e :: e in run ==> Allowed(e, pair, hash)
    ensures Inv(Exec(w, run, hash), pair, hash)
    ensures Gap(Exec(w, run, hash).chain, pair)
            == Gap(w.chain, pair) + AllDrawn(w, run, pair, hash) - AllPaidIn(w, run, pair, hash)
    decreases run
  {
    hide Inv, Allowed, Apply, Gap, Drawn, PaidIn;
    if run != [] {
      assert run[0] in run;
      StepKeeps(w, run[0], pair, hash);
      BackingIsConserved(Apply(w, run[0], hash), run[1..], pair, hash);
    }
  }

  // -------------------------------------------------------------------- solvency

  /** A voucher in supply has a stored trace, and so has one that is on its way home;
      and no token of this chain is named like the voucher's path. */
  predicate Traced(w: World, pair: Pair) {
    && (Supply(w.chain.bank, pair.ibc) > 0 ==> pair.ibc in w.chain.traces)
    && Supply(w.chain.bank, pair.path) == 0
    && (forall i :: i in w.inflight && w.inflight[i].denom == pair.path && w.inflight[i].amount > 0 ==>
          pair.ibc in w.chain.traces)
  }

  /** A chain on which nothing has happened yet starts without a gap. */
  lemma NothingYet(w: World, pair: Pair, hash: string -> string)
    requires w == World(Chain(Bank(map[], map[]), map[], map[]), map[], 0)
    requires Injective(hash) && Proper(pair, hash)
    ensures Inv(w, pair, hash) && Gap(w.chain, pair) == 0 && Traced(w, pair)
  {
    forall d: string
      ensures Held(w.chain.bank, d) == Supply(w.chain.bank, d)
    {
      assert HoldersOf(w.chain.bank.balances, d) == {};
    }
  }

  /** Neither a minted name nor a plain one is the voucher's path. */
  lemma PathIsNoName(pair: Pair, hash: string -> string)
    requires Proper(pair, hash)
    ensures pair.path != pair.native && !LooksHashed(pair.path)
  {
    PrefixedHasPath(pair.path, pair.channel);
    assert Prefix(Here(pair.channel))[0] == 't' && "ibc/"[0] == 'i';
  }

  /** What the trace store and the supplies have to do with each other, for one chain. */
  predicate TracedChain(c: Chain, pair: Pair) {
    (Supply(c.bank, pair.ibc) > 0 ==> pair.ibc in c.traces) && Supply(c.bank, pair.path) == 0
  }

  lemma MintTraced(c: Chain, a: Account, d: string, x: nat, pair: Pair)
    requires TracedChain(c, pair) && d != pair.path && (d == pair.ibc && x > 0 ==> pair.ibc in c.traces)
    ensures TracedChain(c.(bank := Mint(c.bank, a, d, x)), pair)
  {
  }

  lemma BurnTraced(c: Chain, a: Account, d: string, x: nat, pair: Pair)
    requires TracedChain(c, pair) && CanPay(c.bank, a, d, x)
    ensures TracedChain(c.(bank := Burn(c.bank, a, d, x)), pair)
  {
  }

  /** A transfer keeps the traces, and a packet with the voucher's path takes the
      voucher along, whose trace is known. */
  lemma TransferTraced(c: Chain, m: Msg, pair: Pair, hash: string -> string)
    requires Ready(c, pair, hash) && TracedChain(c, pair) && Transfer(c, m).Some?
    ensures TracedChain(Transfer(c, m).value.chain, pair)
    ensures Transfer(c, m).value.packet.denom == pair.path && m.amount > 0 ==> pair.ibc in c.traces
    ensures Transfer(c, m).value.chain.traces == c.traces
  {
    var path := FullDenomPath(c, m.denom).value;
    PathIsNoName(pair, hash);
    PacketIsTraced(c, m, pair, hash);
    BurnTraced(c, m.sender, m.denom, m.amount, pair);
    if Overridden(c.records, path, m.channel) {
      BurnTraced(c.(bank := Burn(c.bank, m.sender, m.denom, m.amount)), Escrow(m.channel), c.records[path].ibcDenom,
                 m.amount, pair);
    }
    SendTraced(c, m.sender, Escrow(m.channel), m.denom, m.amount, pair);
    hide Ready, TracedChain, Burn, CanPay, Coins.Send, Prefix, FullDenomPath;
  }

  lemma SendTraced(c: Chain, from: Account, to: Account, d: string, x: nat, pair: Pair)
    requires TracedChain(c, pair) && CanPay(c.bank, from, d, x)
    ensures TracedChain(c.(bank := Coins.Send(c.bank, from, to, d, x)), pair)
  {
  }

  lemma TraceOfPath(c: Chain, d: string, pair: Pair, hash: string -> string)
    requires Sound(c, hash) && Proper(pair, hash) && d in c.traces && c.traces[d] == pair.path
    ensures d == pair.ibc
  {
  }

  lemma PacketIsTraced(c: Chain, m: Msg, pair: Pair, hash: string -> string)
    requires Ready(c, pair, hash) && TracedChain(c, pair) && Transfer(c, m).Some?
    ensures Transfer(c, m).value.packet.denom == pair.path && m.amount > 0 ==> pair.ibc in c.traces
  {
    var path := FullDenomPath(c, m.denom).value;
    BalanceWithinSupply(c.bank, m.sender, pair.path);
    if Overridden(c.records, path, m.channel) && Transfer(c, m).value.packet.denom == pair.path {
      TraceOfPath(c, c.records[path].ibcDenom, pair, hash);
    } else if LooksHashed(m.denom) && path == pair.path {
      TraceOfPath(c, m.denom, pair, hash);
    }
    hide Sound, Proper, Kept, Conserved, Burn, Coins.Send, Prefix;
  }

  lemma ReceiveTraced(c: Chain, p: Incoming, pair: Pair, hash: string -> string)
    requires Ready(c, pair, hash) && TracedChain(c, pair) && ValidChannel(p.channel) && Receive(c, p, hash).Some?
    ensures TracedChain(Receive(c, p, hash).value, pair)
    ensures c.traces.Keys <= Receive(c, p, hash).value.traces.Keys
  {
    PathIsNoName(pair, hash);
    VoucherIsHashed(p, hash);
    if Prefix(p.source) <= p.denom {
      SendTraced(c, Escrow(p.channel), p.receiver, Unescrowed(p, hash), p.amount, pair);
    } else {
      var v := Voucher(p, hash);
      var known := c.(traces := c.traces[v := FullPath(VoucherTrace(p))]);
      MintTraced(known, p.receiver, v, p.amount, pair);
      MintTraced(known, Escrow(p.channel), v, p.amount, pair);
      var native := LockedNative(c.records, p, hash);
      if native.Some? {
        RegisteredIsNoVoucher(c, native.value, pair, hash);
        MintTraced(known.(bank := Mint(known.bank, Escrow(p.channel), v, p.amount)), p.receiver, native.value,
                   p.amount, pair);
      }
    }
    hide Ready, Mint, Coins.Send, CanPay, Prefix, ValidChannel, LockedNative, Voucher, FullPath, VoucherTrace,
      Unescrowed, ParseDenomTrace, Plain;
  }

  lemma RegisteredIsNoVoucher(c: Chain, n: string, pair: Pair, hash: string -> string)
    requires Ready(c, pair, hash) && n in c.records
    ensures n != pair.ibc && n != pair.path
  {
    PrefixedHasPath(pair.path, pair.channel);
    hide VoucherOf, ParseDenomTrace, Conserved;
  }

  lemma RefundTraced(c: Chain, p: Packet, pair: Pair, hash: string -> string)
    requires Ready(c, pair, hash) && TracedChain(c, pair) && Posted(p) && Refund(c, p, hash).Some?
    requires p.denom == pair.path && p.amount > 0 ==> pair.ibc in c.traces
    ensures TracedChain(Refund(c, p, hash).value, pair) && Refund(c, p, hash).value.traces == c.traces
  {
    var d := IBCDenom(ParseDenomTrace(p.denom), hash);
    if !(Prefix(Here(p.channel)) <= p.denom) {
      SendTraced(c, Escrow(p.channel), p.sender, d, p.amount, pair);
    } else {
      RefundMintsHashed(c, p, pair, hash);
      MintTraced(c, p.sender, d, p.amount, pair);
      MintTraced(c, Escrow(p.channel), d, p.amount, pair);
      var native := NativeAgain(c.records, p, hash);
      if native.Some? {
        RegisteredIsNoVoucher(c, native.value, pair, hash);
        MintTraced(c.(bank := Mint(c.bank, Escrow(p.channel), d, p.amount)), p.sender, native.value, p.amount, pair);
      }
    }
    hide Ready, TracedChain, Mint, Coins.Send, CanPay, Prefix, ValidChannel, NativeAgain, IBCDenom, ParseDenomTrace,
      Posted;
  }

  lemma RefundMintsHashed(c: Chain, p: Packet, pair: Pair, hash: string -> string)
    requires Ready(c, pair, hash) && Posted(p) && Prefix(Here(p.channel)) <= p.denom
    ensures var d := IBCDenom(ParseDenomTrace(p.denom), hash);
            d != pair.path && (d == pair.ibc ==> p.denom == pair.path)
  {
    PrefixedHasPath(p.denom, p.channel);
    PathIsNoName(pair, hash);
    if IBCDenom(ParseDenomTrace(p.denom), hash) == pair.ibc {
      PacketOfVoucher(p.denom, pair, hash);
    }
  }

  lemma StepTraced(w: World, e: Event, pair: Pair, hash: string -> string)
    requires Inv(w, pair, hash) && Allowed(e, pair, hash) && Traced(w, pair)
    ensures Traced(Apply(w, e, hash), pair)
  {
    hide Ready, Posted, Transfer, Receive, Refund, ValidChannel, Supply;
    match e {
      case Transfers(m, accepted) =>
        if Transfer(w.chain, m).Some? {
          TransferTraced(w.chain, m, pair, hash);
          PacketAmount(w.chain, m);
        }
      case Arrives(p) =>
        if Receive(w.chain, p, hash).Some? {
          ReceiveTraced(w.chain, p, pair, hash);
        }
      case Fails(i) =>
        if i in w.inflight && Refund(w.chain, w.inflight[i], hash).Some? {
          RefundTraced(w.chain, w.inflight[i], pair, hash);
        }
      case Succeeds(_) =>
      case Registers(_) =>
      case Pays(from, to, denom, amount) =>
        if CanPay(w.chain.bank, from, denom, amount) {
          SendTraced(w.chain, from, to, denom, amount, pair);
        }
    }
  }

  lemma PacketAmount(c: Chain, m: Msg)
    requires Transfer(c, m).Some?
    ensures Transfer(c, m).value.packet.amount == m.amount
  {
  }

  lemma {:induction false} RunTraced(w: World, run: seq<Event>, pair: Pair, hash: string -> string)
    requires Inv(w, pair, hash) && Traced(w, pair) && forall e :: e in run ==> Allowed(e, pair, hash)
    ensures Traced(Exec(w, run, hash), pair)
    decreases run
  {
    hide Inv, Allowed, Apply, Traced, Gap, Drawn, PaidIn;
    if run != [] {
      assert run[0] in run;
      StepKeeps(w, run[0], pair, hash);
      StepTraced(w, run[0], pair, hash);
      RunTraced(Apply(w, run[0], hash), run[1..], pair, hash);
    }
  }

  lemma EscrowCovers(c: Chain, a: Account, x: nat, pair: Pair, hash: string -> string)
    requires Ready(c, pair, hash) && Gap(c, pair) <= 0 && !a.Escrow?
    requires CanPay(c.bank, a, pair.native, x)
    ensures CanPay(c.bank, Escrow(pair.channel), pair.ibc, x) && Supply(c.bank, pair.ibc) >= x
  {
    HoldingsWithinSupply(c.bank, a, Escrow(pair.channel), pair.native);
    HoldingsWithinSupply(c.bank, a, Escrow(pair.channel), pair.ibc);
    hide Ready, Conserved;
  }

  lemma BurnLeavesOthers(b: Bank, a: Account, d: string, x: nat, other: Account, e: string)
    requires CanPay(b, a, d, x) && d != e
    ensures Balance(Burn(b, a, d, x), other, e) == Balance(b, other, e)
  {
  }

  /** With both balances at hand and the trace known, the send goes out. */
  lemma ReleaseGoesOut(c: Chain, m: Msg, pair: Pair, hash: string -> string)
    requires Ready(c, pair, hash) && m.denom == pair.native && m.channel == pair.channel
    requires pair.native in c.records && CanPay(c.bank, m.sender, m.denom, m.amount)
    requires CanPay(c.bank, Escrow(pair.channel), pair.ibc, m.amount) && pair.ibc in c.traces
    ensures Transfer(c, m).Some? && Transfer(c, m).value.packet == PacketFor(m, pair.path)
  {
    HalvesDiffer(pair, hash);
    assert FullDenomPath(c, m.denom) == Some(m.denom);
    VoucherGoesHome(c, pair, pair.channel, hash);
    BurnLeavesOthers(c.bank, m.sender, m.denom, m.amount, Escrow(pair.channel), pair.ibc);
    hide Sound, Proper, Conserved, Burn, Prefix, ParseDenomTrace, Balance;
  }

  /** In every state reached from one in which the escrow covers the native supply,
      by a run in which nobody draws on the escrow, whoever holds native tokens can
      send them: the release from escrow never falls short, the nested transfer never
      fails, and the voucher's full path goes out. */
  lemma OverrideIsSolvent(w: World, run: seq<Event>, m: Msg, pair: Pair, hash: string -> string)
    requires Inv(w, pair, hash) && Traced(w, pair) && forall e :: e in run ==> Allowed(e, pair, hash)
    requires Gap(w.chain, pair) <= 0 && AllDrawn(w, run, pair, hash) == 0
    requires m.denom == pair.native && m.channel == pair.channel && !m.sender.Escrow? && m.amount > 0
    requires pair.native in Exec(w, run, hash).chain.records
    requires CanPay(Exec(w, run, hash).chain.bank, m.sender, m.denom, m.amount)
    ensures var sent := Transfer(Exec(w, run, hash).chain, m);
            sent.Some? && sent.value.packet == PacketFor(m, pair.path)
  {
    BackingIsConserved(w, run, pair, hash);
    RunTraced(w, run, pair, hash);
    var c := Exec(w, run, hash).chain;
    EscrowCovers(c, m.sender, m.amount, pair, hash);
    hide Ready, Gap, Exec, CanPay, Transfer;
    ReleaseGoesOut(c, m, pair, hash);
  }
}
