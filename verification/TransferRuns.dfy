/**
 Whole runs of transfers, receipts and refunds on this chain, and what is known of a
 native token and its voucher in them.
 */
module TransferRuns {
  import opened Basics
  import opened Coins
  import opened Denoms
  import opened Registry
  import opened Transfers

  // ------------------------------------------------------------------------ runs

  /** The chain and the packets it has sent that have not been settled. */
  datatype World = World(chain: Chain, inflight: map<nat, Packet>, next: nat)

  datatype Event =
    | Transfers(m: Msg, accepted: bool)
    | Arrives(p: Incoming)
    | Fails(sequence: nat)
    | Succeeds(sequence: nat)
    | Registers(records: Records)
    | Pays(from: Account, to: Account, denom: string, amount: nat)

  /** A transfer the rate limiter or the channel refuses, a receipt answered with an
      error and a refund that fails change nothing. */
  ghost function Apply(w: World, e: Event, hash: string -> string): World {
    match e
    case Transfers(m, accepted) =>
      (match Transfer(w.chain, m)
       case None => w
       case Some(sent) =>
         if accepted then World(sent.chain, w.inflight[w.next := sent.packet], w.next + 1) else w)
    case Arrives(p) =>
      (match Receive(w.chain, p, hash)
       case None => w
       case Some(c) => w.(chain := c))
    case Fails(sequence) =>
      if sequence !in w.inflight then w
      else
        (match Refund(w.chain, w.inflight[sequence], hash)
         case None => w
         case Some(c) => w.(chain := c, inflight := w.inflight - {sequence}))
    case Succeeds(sequence) => w.(inflight := w.inflight - {sequence})
    case Registers(records) => w.(chain := w.chain.(records := records))
    case Pays(from, to, denom, amount) =>
      if CanPay(w.chain.bank, from, denom, amount)
      then w.(chain := w.chain.(bank := Coins.Send(w.chain.bank, from, to, denom, amount)))
      else w
  }

  ghost function Exec(w: World, run: seq<Event>, hash: string -> string): World
    decreases run
  {
    if run == [] then w else Exec(Apply(w, run[0], hash), run[1..], hash)
  }

  /** What IBC core and the registration messages see to; the registrations may
      change in any way. */
  ghost predicate Proceeds(e: Event, hash: string -> string) {
    match e
    case Transfers(m, _) => ValidChannel(m.channel)
    case Arrives(p) => ValidChannel(p.channel)
    case Registers(records) => Paired(records, hash)
    case _ => true
  }

  lemma TracesStaySound(c: Chain, p: Incoming, hash: string -> string)
    requires Sound(c, hash) && ValidChannel(p.channel)
    ensures Sound(c.(traces := c.traces[Voucher(p, hash) := FullPath(VoucherTrace(p))]), hash)
  {
    VoucherIsHashed(p, hash);
    hide ValidChannel, Paired, ParseDenomTrace, FullPath, IBCDenom;
  }

  lemma ReceiveStaysSound(c: Chain, p: Incoming, hash: string -> string)
    requires Sound(c, hash) && ValidChannel(p.channel) && Receive(c, p, hash).Some?
    ensures Sound(Receive(c, p, hash).value, hash)
  {
    TracesStaySound(c, p, hash);
    hide Paired, TracesSound, Injective, Voucher, VoucherTrace, FullPath, LockedNative, Mint, Coins.Send, CanPay;
  }

  lemma {:induction false} RunStaysSound(w: World, run: seq<Event>, hash: string -> string)
    requires Sound(w.chain, hash) && forall e :: e in run ==> Proceeds(e, hash)
    ensures Sound(Exec(w, run, hash).chain, hash)
    decreases run
  {
    hide Sound, Proceeds, Apply;
    if run != [] {
      assert run[0] in run;
      StepStaysSound(w, run[0], hash);
      RunStaysSound(Apply(w, run[0], hash), run[1..], hash);
    }
  }

  lemma OnlyBankMoves(c: Chain, m: Msg, p: Packet, hash: string -> string)
    ensures Transfer(c, m).Some? ==> Transfer(c, m).value.chain == c.(bank := Transfer(c, m).value.chain.bank)
    ensures Refund(c, p, hash).Some? ==> Refund(c, p, hash).value == c.(bank := Refund(c, p, hash).value.bank)
  {
    hide Mint, Burn, Coins.Send, CanPay, Prefix, Overridden, IBCDenom, ParseDenomTrace, NativeAgain, FullDenomPath;
  }

  lemma StepStaysSound(w: World, e: Event, hash: string -> string)
    requires Sound(w.chain, hash) && Proceeds(e, hash)
    ensures Sound(Apply(w, e, hash).chain, hash)
  {
    hide Paired, TracesSound, Injective, ValidChannel, Transfer, Refund, Receive, Coins.Send, CanPay;
    match e {
      case Transfers(m, _) => OnlyBankMoves(w.chain, m, PacketFor(m, ""), hash);
      case Arrives(p) =>
        if Receive(w.chain, p, hash).Some? {
          ReceiveStaysSound(w.chain, p, hash);
        }
      case Fails(i) =>
        if i in w.inflight {
          OnlyBankMoves(w.chain, Msg(User(""), "", "", 0, "", ""), w.inflight[i], hash);
        }
      case Succeeds(_) =>
      case Registers(_) =>
      case Pays(_, _, _, _) =>
    }
  }

  // ----------------------------------------------------------- a token and voucher

  /** A native token, its voucher with the voucher's full path, and their channel. */
  datatype Pair = Pair(native: string, ibc: string, channel: string, path: string)

  predicate Proper(pair: Pair, hash: string -> string) {
    && Plain(pair.native) && ValidChannel(pair.channel)
    && CameThrough(pair.path, pair.channel) && pair.ibc == "ibc/" + hash(pair.path)
  }

  /** This name is registered for the pair's voucher on the pair's channel. */
  predicate HoldsVoucher(records: Records, n: string, pair: Pair) {
    n in records && records[n].ibcDenom == pair.ibc && records[n].channelID == pair.channel
  }

  lemma HalvesDiffer(pair: Pair, hash: string -> string)
    requires Proper(pair, hash)
    ensures pair.native != pair.ibc && LooksHashed(pair.ibc)
  {
  }

  /** The voucher never leaves through its own channel into escrow. */
  lemma VoucherGoesHome(c: Chain, pair: Pair, channel: string, hash: string -> string)
    requires Sound(c, hash) && Proper(pair, hash) && ValidChannel(channel) && pair.ibc in c.traces
    ensures c.traces[pair.ibc] == pair.path
    ensures Prefix(Here(channel)) <= pair.path <==> channel == pair.channel
  {
    var path := c.traces[pair.ibc];
    assert hash(path) == ("ibc/" + hash(path))[4..];
    assert hash(pair.path) == ("ibc/" + hash(pair.path))[4..];
    if Prefix(Here(channel)) <= pair.path {
      EndOfPrefix(Here(channel), Here(pair.channel), pair.path);
    }
    hide Paired, CameThrough, Plain;
  }

  /** A packet that stands for the voucher carries the voucher's path. */
  lemma PacketOfVoucher(x: string, pair: Pair, hash: string -> string)
    requires Injective(hash) && Proper(pair, hash)
    requires IBCDenom(ParseDenomTrace(x), hash) == pair.ibc && ParseDenomTrace(x).path != ""
    ensures x == pair.path
  {
    PathOfVoucher(x, pair.path, pair.channel, hash);
  }

  lemma PlainIsItself(d: string, hash: string -> string)
    requires Plain(d)
    ensures IBCDenom(ParseDenomTrace(d), hash) == d
  {
    PathlessIsBase(d);
  }

  lemma PathOfPair(pair: Pair, hash: string -> string)
    requires Proper(pair, hash)
    ensures ParseDenomTrace(pair.path).path != "" && IBCDenom(ParseDenomTrace(pair.path), hash) == pair.ibc
    ensures Prefix(Here(pair.channel)) <= pair.path
  {
    PrefixedHasPath(pair.path, pair.channel);
  }

  /** How an override send comes about, and what it leaves. */
  lemma OverrideSends(c: Chain, m: Msg, pair: Pair, hash: string -> string)
    requires Sound(c, hash) && Proper(pair, hash) && m.denom == pair.native && m.channel == pair.channel
    requires HoldsVoucher(c.records, pair.native, pair) && Transfer(c, m).Some?
    ensures CanPay(c.bank, m.sender, pair.native, m.amount)
    ensures var burned := Burn(c.bank, m.sender, pair.native, m.amount);
            && CanPay(burned, Escrow(pair.channel), pair.ibc, m.amount)
            && Transfer(c, m) == Some(Sent(c.(bank := Burn(burned, Escrow(pair.channel), pair.ibc, m.amount)),
                                           PacketFor(m, pair.path)))
  {
    HalvesDiffer(pair, hash);
    assert FullDenomPath(c, m.denom) == Some(m.denom);
    VoucherGoesHome(c, pair, pair.channel, hash);
    hide Sound, Proper, Burn, CanPay, Prefix;
  }
}
