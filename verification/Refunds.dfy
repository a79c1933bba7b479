/**
 What a failed send gives back.  Whatever happens between a send and its failure,
 registrations of the voucher under other names included, the refund of a voucher
 that was on its way home is always paid; in which tokens is decided by what the
 voucher is registered as by then.
 */
module Refunds {
  import opened Basics
  import opened Coins
  import opened Denoms
  import Registry
  import opened TokenInfo
  import opened TransferRuns
  import opened Transfers

  /** The native tokens and vouchers of one account together. */
  function Combined(c: Chain, a: Account, pair: Pair): nat {
    Balance(c.bank, a, pair.native) + Balance(c.bank, a, pair.ibc)
  }

  predicate Half(d: string, pair: Pair) { d == pair.native || d == pair.ibc }

  /** A packet that takes the voucher back through its own channel. */
  predicate Homeward(p: Packet, pair: Pair) { p.channel == pair.channel && p.denom == pair.path }

  /** The voucher is registered on its channel for the pair's own name or not at all. */
  ghost predicate Faithful(records: Registry.Records, pair: Pair) {
    forall n :: HoldsVoucher(records, n, pair) ==> n == pair.native
  }

  // ------------------------------------------------------------- sending a half

  lemma BurnCombines(c: Chain, a: Account, from: Account, d: string, x: nat, pair: Pair)
    requires pair.native != pair.ibc && CanPay(c.bank, from, d, x)
    ensures Combined(c.(bank := Burn(c.bank, from, d, x)), a, pair)
            == Combined(c, a, pair) - if a == from && Half(d, pair) then x else 0
  {
  }

  lemma SendCombines(c: Chain, a: Account, from: Account, to: Account, d: string, x: nat, pair: Pair)
    requires pair.native != pair.ibc && CanPay(c.bank, from, d, x) && from != to
    ensures Combined(c.(bank := Coins.Send(c.bank, from, to, d, x)), a, pair)
            == Combined(c, a, pair) + if !Half(d, pair) then 0
                                      else if a == from then -(x as int)
                                      else if a == to then x else 0
  {
  }

  /** If the native name is overridden on the channel, it is for the pair's voucher. */
  predicate OverriddenAsPair(c: Chain, m: Msg, pair: Pair) {
    m.denom == pair.native && Overridden(c.records, m.denom, m.channel) ==>
      m.channel == pair.channel && HoldsVoucher(c.records, pair.native, pair)
  }

  /** Sending either half takes exactly the amount from what the sender has of both
      halves together, and puts the half's own path into the packet, or the
      voucher's. */
  lemma SendTakes(c: Chain, m: Msg, pair: Pair, hash: string -> string)
    requires Sound(c, hash) && Proper(pair, hash) && OverriddenAsPair(c, m, pair)
    requires ValidChannel(m.channel) && !m.sender.Escrow? && Half(m.denom, pair) && Transfer(c, m).Some?
    ensures Combined(Transfer(c, m).value.chain, m.sender, pair) == Combined(c, m.sender, pair) - m.amount
    ensures Transfer(c, m).value.packet == PacketFor(m, pair.path)
            || (m.denom == pair.native && Transfer(c, m).value.packet == PacketFor(m, pair.native))
  {
    HalvesDiffer(pair, hash);
    if m.denom == pair.ibc {
      VoucherGoesHome(c, pair, m.channel, hash);
      VoucherIsNotOverridden(c, m, hash);
      SendTakesPlainly(c, m, pair);
    } else if Overridden(c.records, m.denom, m.channel) {
      OverrideSends(c, m, pair, hash);
      var burned := Burn(c.bank, m.sender, pair.native, m.amount);
      BurnCombines(c, m.sender, m.sender, pair.native, m.amount, pair);
      BurnCombines(c.(bank := burned), m.sender, Escrow(pair.channel), pair.ibc, m.amount, pair);
    } else {
      SendTakesPlainly(c, m, pair);
    }
    hide Sound, Proper, Combined, Burn, CanPay, Coins.Send, Prefix, ValidChannel;
  }

  lemma VoucherIsNotOverridden(c: Chain, m: Msg, hash: string -> string)
    requires Sound(c, hash) && FullDenomPath(c, m.denom).Some? && LooksHashed(m.denom)
    ensures !Overridden(c.records, FullDenomPath(c, m.denom).value, m.channel)
  {
  }

  lemma SendTakesPlainly(c: Chain, m: Msg, pair: Pair)
    requires pair.native != pair.ibc && !m.sender.Escrow? && Half(m.denom, pair)
    requires Transfer(c, m).Some? && !Overridden(c.records, FullDenomPath(c, m.denom).value, m.channel)
    ensures Combined(Transfer(c, m).value.chain, m.sender, pair) == Combined(c, m.sender, pair) - m.amount
  {
    BurnCombines(c, m.sender, m.sender, m.denom, m.amount, pair);
    SendCombines(c, m.sender, m.sender, Escrow(m.channel), m.denom, m.amount, pair);
    hide Combined, Burn, CanPay, Coins.Send, Prefix;
  }

  // ---------------------------------------------------------- refunding a half

  /** The name in which a homeward packet is refunded, if it is not the voucher. */
  lemma RefundOfHomeward(c: Chain, p: Packet, pair: Pair, hash: string -> string)
    requires Proper(pair, hash) && Homeward(p, pair)
    ensures var again := NativeAgain(c.records, p, hash);
            && (again.Some? ==> HoldsVoucher(c.records, again.value, pair))
            && (again.None? ==> forall n :: !HoldsVoucher(c.records, n, pair))
            && Refund(c, p, hash)
               == Some(c.(bank := match again
                                  case Some(n) => Mint(Mint(c.bank, Escrow(pair.channel), pair.ibc, p.amount),
                                                       p.sender, n, p.amount)
                                  case None => Mint(c.bank, p.sender, pair.ibc, p.amount)))
  {
    PathOfPair(pair, hash);
    hide Proper, ParseDenomTrace, IBCDenom, Mint, Prefix;
    forall n
      ensures LocksAgain(c.records, n, p, hash) <==> HoldsVoucher(c.records, n, pair)
    {
    }
  }

  lemma OnePartner(c: Chain, n: string, other: string, pair: Pair, hash: string -> string)
    requires Sound(c, hash) && HoldsVoucher(c.records, n, pair) && HoldsVoucher(c.records, other, pair)
    ensures n == other
  {
  }

  lemma PartnerIsPlain(c: Chain, n: string, pair: Pair, hash: string -> string)
    requires Sound(c, hash) && Proper(pair, hash) && HoldsVoucher(c.records, n, pair)
    ensures n != pair.ibc
  {
  }

  lemma Minted(b: Bank, to: Account, d: string, x: nat, a: Account, e: string)
    ensures Balance(Mint(b, to, d, x), a, e) == Balance(b, a, e) + if a == to && d == e then x else 0
  {
  }

  /** The refund of a homeward packet: always paid; in native tokens exactly if the
      pair is registered then, in vouchers exactly if the voucher is not registered
      on its channel at all, and whole for the two halves together exactly if no
      other name has taken the voucher over. */
  lemma HomewardRefund(c: Chain, p: Packet, pair: Pair, hash: string -> string)
    requires Sound(c, hash) && Proper(pair, hash) && Homeward(p, pair) && !p.sender.Escrow? && p.amount > 0
    ensures Refund(c, p, hash).Some?
    ensures var t := Refund(c, p, hash).value;
            && (Balance(t.bank, p.sender, pair.native) == Balance(c.bank, p.sender, pair.native) + p.amount
                <==> HoldsVoucher(c.records, pair.native, pair))
            && (Balance(t.bank, p.sender, pair.ibc) == Balance(c.bank, p.sender, pair.ibc) + p.amount
                <==> forall n :: !HoldsVoucher(c.records, n, pair))
            && (Combined(t, p.sender, pair) == Combined(c, p.sender, pair) + p.amount <==> Faithful(c.records, pair))
  {
    RefundOfHomeward(c, p, pair, hash);
    HalvesDiffer(pair, hash);
    var b, a, x := c.bank, p.sender, p.amount;
    var again := NativeAgain(c.records, p, hash);
    if again.Some? {
      var n := again.value;
      PartnerIsPlain(c, n, pair, hash);
      PartnersAre(c, n, pair, hash);
      var escrowed := Mint(b, Escrow(pair.channel), pair.ibc, x);
      Minted(b, Escrow(pair.channel), pair.ibc, x, a, pair.native);
      Minted(b, Escrow(pair.channel), pair.ibc, x, a, pair.ibc);
      Minted(escrowed, a, n, x, a, pair.native);
      Minted(escrowed, a, n, x, a, pair.ibc);
    } else {
      Minted(b, a, pair.ibc, x, a, pair.native);
      Minted(b, a, pair.ibc, x, a, pair.ibc);
    }
    hide Sound, Proper, HoldsVoucher, Mint, Balance, Refund, NativeAgain;
  }

  lemma PartnersAre(c: Chain, n: string, pair: Pair, hash: string -> string)
    requires Sound(c, hash) && HoldsVoucher(c.records, n, pair)
    ensures forall m :: HoldsVoucher(c.records, m, pair) <==> m == n
  {
    forall m | HoldsVoucher(c.records, m, pair)
      ensures m == n
    {
      OnePartner(c, m, n, pair, hash);
    }
  }

  /** With the voucher registered under another name the refund pays that name, and
      neither half comes back. */
  lemma RefundPaysOtherName(c: Chain, p: Packet, other: string, pair: Pair, hash: string -> string)
    requires Sound(c, hash) && Proper(pair, hash) && Homeward(p, pair) && !p.sender.Escrow? && p.amount > 0
    requires HoldsVoucher(c.records, other, pair) && other != pair.native
    ensures Refund(c, p, hash).Some?
    ensures var t := Refund(c, p, hash).value;
            && Balance(t.bank, p.sender, other) == Balance(c.bank, p.sender, other) + p.amount
            && Combined(t, p.sender, pair) == Combined(c, p.sender, pair)
  {
    RefundOfHomeward(c, p, pair, hash);
    PartnersAre(c, other, pair, hash);
    PartnerIsPlain(c, other, pair, hash);
    var escrowed := Mint(c.bank, Escrow(pair.channel), pair.ibc, p.amount);
    Minted(c.bank, Escrow(pair.channel), pair.ibc, p.amount, p.sender, other);
    Minted(c.bank, Escrow(pair.channel), pair.ibc, p.amount, p.sender, pair.native);
    Minted(c.bank, Escrow(pair.channel), pair.ibc, p.amount, p.sender, pair.ibc);
    Minted(escrowed, p.sender, other, p.amount, p.sender, other);
    Minted(escrowed, p.sender, other, p.amount, p.sender, pair.native);
    Minted(escrowed, p.sender, other, p.amount, p.sender, pair.ibc);
    hide Sound, Proper, HoldsVoucher, Mint, Balance, Refund, NativeAgain;
  }

  /** The refund of a half that was escrowed gives it back, if it is paid at all. */
  lemma EscrowedRefund(c: Chain, p: Packet, pair: Pair, hash: string -> string)
    requires Proper(pair, hash) && ValidChannel(p.channel) && !p.sender.Escrow?
    requires p.denom == pair.native || (p.denom == pair.path && p.channel != pair.channel)
    requires Refund(c, p, hash).Some?
    ensures Combined(Refund(c, p, hash).value, p.sender, pair) == Combined(c, p.sender, pair) + p.amount
  {
    HalvesDiffer(pair, hash);
    PathOfPair(pair, hash);
    PlainIsItself(pair.native, hash);
    NotHomeward(p, pair, hash);
    var d := IBCDenom(ParseDenomTrace(p.denom), hash);
    SendCombines(c, p.sender, Escrow(p.channel), p.sender, d, p.amount, pair);
    hide Proper, Combined, CanPay, Coins.Send, Prefix, ValidChannel, IBCDenom, ParseDenomTrace;
  }

  lemma NotHomeward(p: Packet, pair: Pair, hash: string -> string)
    requires Proper(pair, hash) && ValidChannel(p.channel)
    requires p.denom == pair.native || (p.denom == pair.path && p.channel != pair.channel)
    ensures !(Prefix(Here(p.channel)) <= p.denom)
  {
    if Prefix(Here(p.channel)) <= p.denom {
      PrefixedHasPath(p.denom, p.channel);
      if p.denom == pair.path {
        EndOfPrefix(Here(p.channel), Here(pair.channel), pair.path);
      }
    }
  }

  lemma NativeIsNotHomeward(p: Packet, pair: Pair, hash: string -> string)
    requires Proper(pair, hash) && p.denom == pair.native
    ensures !Homeward(p, pair)
  {
    PrefixedHasPath(pair.path, pair.channel);
  }

  // ------------------------------------------------------------- after any run

  /** A send of either half that fails after any steps whatsoever: what the sender has
      of both together is restored by a refund that is paid, exactly unless the
      voucher was on its way home and has been registered under another name. */
  lemma FailedSendRestoresIff(w: World, m: Msg, run: seq<Event>, pair: Pair, hash: string -> string)
    requires Sound(w.chain, hash) && Proper(pair, hash) && forall e :: e in run ==> Proceeds(e, hash)
    requires ValidChannel(m.channel) && !m.sender.Escrow? && m.amount > 0 && Half(m.denom, pair)
    requires OverriddenAsPair(w.chain, m, pair) && Transfer(w.chain, m).Some?
    ensures var sent := Transfer(w.chain, m).value;
            var later := Exec(Apply(w, Transfers(m, true), hash), run, hash).chain;
            var refunded := Refund(later, sent.packet, hash);
            && Combined(sent.chain, m.sender, pair) == Combined(w.chain, m.sender, pair) - m.amount
            && (Homeward(sent.packet, pair) ==> refunded.Some?)
            && (refunded.Some? ==>
                  (Combined(refunded.value, m.sender, pair) == Combined(later, m.sender, pair) + m.amount <==>
                   !Homeward(sent.packet, pair) || Faithful(later.records, pair)))
  {
    SendTakes(w.chain, m, pair, hash);
    LaterIsSound(w, m, run, hash);
    var packet := Transfer(w.chain, m).value.packet;
    var later := Exec(Apply(w, Transfers(m, true), hash), run, hash).chain;
    hide Sound, Proper, Transfer, Refund, Combined, Apply, Exec, Proceeds, ValidChannel, OverriddenAsPair, Faithful;
    if packet.denom == pair.native {
      NativeIsNotHomeward(packet, pair, hash);
    }
    if Homeward(packet, pair) {
      HomewardRefund(later, packet, pair, hash);
    } else if Refund(later, packet, hash).Some? {
      EscrowedRefund(later, packet, pair, hash);
    }
  }

  lemma LaterIsSound(w: World, m: Msg, run: seq<Event>, hash: string -> string)
    requires Sound(w.chain, hash) && ValidChannel(m.channel) && forall e :: e in run ==> Proceeds(e, hash)
    ensures Sound(Exec(Apply(w, Transfers(m, true), hash), run, hash).chain, hash)
  {
    StepStaysSound(w, Transfers(m, true), hash);
    RunStaysSound(Apply(w, Transfers(m, true), hash), run, hash);
    hide *;
  }

  /** A failed override send, after any steps whatsoever, is always refunded: in native
      tokens exactly if the pair is registered then, in vouchers exactly if the voucher
      is not registered on its channel. */
  lemma FailedOverrideReturns(w: World, m: Msg, run: seq<Event>, pair: Pair, hash: string -> string)
    requires Sound(w.chain, hash) && Proper(pair, hash) && forall e :: e in run ==> Proceeds(e, hash)
    requires ValidChannel(m.channel) && !m.sender.Escrow? && m.amount > 0
    requires m.denom == pair.native && m.channel == pair.channel && HoldsVoucher(w.chain.records, pair.native, pair)
    requires Transfer(w.chain, m).Some?
    ensures var later := Exec(Apply(w, Transfers(m, true), hash), run, hash).chain;
            var refunded := Refund(later, Transfer(w.chain, m).value.packet, hash);
            && refunded.Some?
            && (Balance(refunded.value.bank, m.sender, pair.native)
                == Balance(later.bank, m.sender, pair.native) + m.amount
                <==> HoldsVoucher(later.records, pair.native, pair))
            && (Balance(refunded.value.bank, m.sender, pair.ibc) == Balance(later.bank, m.sender, pair.ibc) + m.amount
                <==> forall n :: !HoldsVoucher(later.records, n, pair))
  {
    OverrideSends(w.chain, m, pair, hash);
    LaterIsSound(w, m, run, hash);
    HomewardRefund(Exec(Apply(w, Transfers(m, true), hash), run, hash).chain, Transfer(w.chain, m).value.packet,
                   pair, hash);
    hide Sound, Proper, Transfer, Refund, Combined, Apply, Exec, Proceeds, ValidChannel, Faithful, HoldsVoucher, Burn;
  }

  /** The registration that gives the voucher to this name alone. */
  function TakenOver(other: string, pair: Pair): Registry.Records {
    map[other := TokenInfo(pair.ibc, pair.channel, other, "1")]
  }

  /** A run at which nothing of either half comes back: the voucher is registered under
      another name while the packet is out. */
  lemma TakeoverDivertsRefund(w: World, m: Msg, other: string, pair: Pair, hash: string -> string)
    requires Sound(w.chain, hash) && Proper(pair, hash) && Plain(other) && other != pair.native
    requires ValidChannel(m.channel) && !m.sender.Escrow? && m.amount > 0
    requires m.denom == pair.native && m.channel == pair.channel && HoldsVoucher(w.chain.records, pair.native, pair)
    requires Transfer(w.chain, m).Some?
    ensures var taking := Registers(TakenOver(other, pair));
            var later := Exec(Apply(w, Transfers(m, true), hash), [taking], hash).chain;
            var refunded := Refund(later, Transfer(w.chain, m).value.packet, hash);
            && Proceeds(taking, hash) && refunded.Some?
            && Combined(refunded.value, m.sender, pair) == Combined(later, m.sender, pair)
  {
    hide Sound, Proper, Transfer, Refund, Combined, Apply, Exec, Proceeds, ValidChannel, HoldsVoucher, Burn, CanPay,
      Balance, Plain, TakenOver;
    OverrideSends(w.chain, m, pair, hash);
    var taking := Registers(TakenOver(other, pair));
    var out := Apply(w, Transfers(m, true), hash);
    TakingProceeds(other, pair, hash);
    OneStep(out, taking, hash);
    LaterIsSound(w, m, [taking], hash);
    var later := Exec(out, [taking], hash).chain;
    RefundPaysOtherName(later, Transfer(w.chain, m).value.packet, other, pair, hash);
  }

  lemma TakingProceeds(other: string, pair: Pair, hash: string -> string)
    requires Proper(pair, hash) && Plain(other)
    ensures Proceeds(Registers(TakenOver(other, pair)), hash)
    ensures HoldsVoucher(TakenOver(other, pair), other, pair)
  {
    assert VoucherOf(pair.ibc, pair.channel, hash);
    hide VoucherOf, CameThrough, Plain, ValidChannel;
    var records := TakenOver(other, pair);
    assert forall n :: n in records <==> n == other;
    hide TakenOver;
  }

  lemma OneStep(w: World, e: Event, hash: string -> string)
    ensures Exec(w, [e], hash) == Apply(w, e, hash)
    ensures e.Registers? ==> Apply(w, e, hash).chain.records == e.records
  {
    assert [e][1..] == [];
    assert Exec(Apply(w, e, hash), [], hash) == Apply(w, e, hash);
  }

  lemma Undone(b: Bank, a: Account, d: string, x: nat)
    requires Conserved(b) && CanPay(b, a, d, x)
    ensures Mint(Burn(b, a, d, x), a, d, x) == b && Conserved(Burn(b, a, d, x))
  {
    BurnConserves(b, a, d, x);
    BurnedAndMinted(b, a, d, x);
  }

  /** A failed override send that nothing intervened in is undone exactly, down to
      every balance and supply. */
  lemma RefundUndoesSend(c: Chain, m: Msg, pair: Pair, hash: string -> string)
    requires Sound(c, hash) && Proper(pair, hash) && Conserved(c.bank)
    requires m.denom == pair.native && m.channel == pair.channel && HoldsVoucher(c.records, pair.native, pair)
    requires Transfer(c, m).Some?
    ensures Refund(Transfer(c, m).value.chain, Transfer(c, m).value.packet, hash) == Some(c)
  {
    OverrideSends(c, m, pair, hash);
    var sent := Transfer(c, m).value;
    RefundOfHomeward(sent.chain, sent.packet, pair, hash);
    PartnersAre(c, pair.native, pair, hash);
    hide Sound, Proper, Transfer, Refund, Mint, Burn, CanPay, Conserved, HoldsVoucher, NativeAgain;
    Undone(c.bank, m.sender, pair.native, m.amount);
    Undone(Burn(c.bank, m.sender, pair.native, m.amount), Escrow(pair.channel), pair.ibc, m.amount);
  }
}
