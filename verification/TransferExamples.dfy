/**
 A run, step by step from an empty chain, at whose end a failed send has given back
 neither half of what was sent; and a name whose way out and back is counted under
 two denominations.
 */
module TransferExamples {
  import opened Basics
  import opened Coins
  import opened Denoms
  import opened Refunds
  import Registry
  import opened StoreKeys
  import opened Text
  import opened TokenInfo
  import opened TransferRuns
  import opened Transfers

  lemma ExampleEnd(channel: string)
    requires channel == "channel-0" || channel == "channel-7"
    ensures IsValidChannelID(channel) && '/' !in channel && ValidChannel(channel)
  {
    var digit := if channel == "channel-0" then "0" else "7";
    assert channel[..8] == CHANNEL_PREFIX;
    assert channel[8..] == digit;
    assert AllDigits(digit) && DigitsValue(digit) == Some(if digit == "0" then 0 else 7);
  }

  // ------------------------------------------------------------- out and back

  const POOL_NAME := "pool/channel-7"

  /** Names that are just a port and a channel. */
  lemma PairName(e: End)
    requires ValidEnd(e)
    ensures var raw := e.port + "/" + e.channel;
            Split(raw) == [e.port, e.channel] && OnlyPairs(raw) && Settled(raw)
  {
    var raw, parts := e.port + "/" + e.channel, [e.port, e.channel];
    SplitPlain(e.port);
    SplitPlain(e.channel);
    SplitAtSlash(e.port, e.channel);
    assert Split(raw) == parts && parts[2..] == [];
    hide Split;
    WrittenOut(raw);
  }

  lemma PoolName()
    ensures Split(POOL_NAME) == ["pool", "channel-7"] && OnlyPairs(POOL_NAME) && Settled(POOL_NAME)
  {
    ExampleEnd("channel-7");
    assert POOL_NAME == "pool" + "/" + "channel-7";
    hide Split, OnlyPairs, Settled;
    PairName(End("pool", "channel-7"));
  }

  lemma NoWayHome(here: End)
    requires ValidEnd(here)
    ensures !(Prefix(here) <= POOL_NAME)
  {
    PoolName();
    hide Split, OnlyPairs, Settled, ValidEnd;
    if Prefix(here) <= POOL_NAME {
      var rest := POOL_NAME[|Prefix(here)|..];
      assert POOL_NAME == Prefix(here) + rest;
      PrefixSplits(here, rest);
      assert false;
    }
  }

  /** Its way out is counted under one denomination and its way back under another,
      whatever the channel. */
  lemma PairOutAndBack(here: End, there: End, hash: string -> string)
    requires ValidEnd(here) && ValidEnd(there) && HexHash(hash)
    ensures RecvDenom(there, here, Arrival(here, there, POOL_NAME), hash) != SendDenom(POOL_NAME, hash)
  {
    hide *;
    PoolName();
    NoWayHome(here);
    SentThenReturnedIff(here, there, POOL_NAME, hash);
  }

  // ------------------------------------------------------------------ a takeover

  const EXAMPLE_PATH := "transfer/channel-0/1"

  function ExamplePair(hash: string -> string): Pair {
    Pair("upica", "ibc/" + hash(EXAMPLE_PATH), "channel-0", EXAMPLE_PATH)
  }

  const ALICE := User("alice")
  const NOTHING := World(Chain(Bank(map[], map[]), map[], map[]), map[], 0)
  const ARRIVING := Incoming(End("transfer", "channel-9"), "channel-0", "1", 5, ALICE)
  const LEAVING := Msg(ALICE, "bob", "upica", 5, "channel-0", "")

  function Registered(name: string, hash: string -> string): Registry.Records { TakenOver(name, ExamplePair(hash)) }

  lemma PlainName(d: string)
    requires d != "" && '/' !in d
    ensures Plain(d)
  {
    SplitPlain(d);
    assert Split(d)[..0] == [];
    assert "ibc/"[3] == '/';
  }

  /** The path of an asset that came through a channel. */
  lemma AssetPath(channel: string, asset: string)
    requires ValidChannel(channel) && '/' !in asset && asset != ""
    ensures var raw := Prefix(Here(channel)) + asset;
            CameThrough(raw, channel) && FullPath(ParseDenomTrace(raw)) == raw && ParseDenomTrace(raw).path != ""
  {
    var raw, parts := Prefix(Here(channel)) + asset, [PORT, channel, asset];
    PrefixSplits(Here(channel), asset);
    SplitPlain(asset);
    assert Split(raw) == parts && parts[2..] == [asset];
    hide Split;
    assert Hops([asset]) == 0 && Hops(parts) == 1;
    WrittenOut(raw);
  }

  lemma ExamplePath()
    ensures Prefix(Here("channel-0")) + "1" == EXAMPLE_PATH
    ensures CameThrough(EXAMPLE_PATH, "channel-0") && ValidChannel("channel-0")
    ensures FullPath(ParseDenomTrace(EXAMPLE_PATH)) == EXAMPLE_PATH && ParseDenomTrace(EXAMPLE_PATH).path != ""
  {
    assert Prefix(Here("channel-0")) + "1" == EXAMPLE_PATH;
    hide *;
    ExampleEnd("channel-0");
    AssetPath("channel-0", "1");
  }

  lemma ExamplePairIsProper(hash: string -> string)
    ensures Proper(ExamplePair(hash), hash)
  {
    hide Plain, CameThrough, ValidChannel;
    ExamplePath();
    PlainName("upica");
  }

  /** The voucher of 5 and the native tokens for it, all at their place. */
  function Received(hash: string -> string): Bank {
    Mint(Mint(NOTHING.chain.bank, Escrow("channel-0"), ExamplePair(hash).ibc, 5), ALICE, "upica", 5)
  }

  lemma NothingIsSound(hash: string -> string)
    requires Injective(hash)
    ensures Sound(NOTHING.chain, hash)
  {
  }

  /** The arriving tokens are locked, and their native half goes to alice. */
  lemma ArrivesLocked(c: Chain, hash: string -> string)
    requires c == NOTHING.chain.(records := Registered("upica", hash))
    ensures Receive(c, ARRIVING, hash)
            == Some(Chain(Received(hash), map[ExamplePair(hash).ibc := EXAMPLE_PATH], c.records))
  {
    hide Mint, ParseDenomTrace, FullPath, Prefix, Voucher, VoucherTrace;
    ArrivingVoucher(hash);
    assert LocksFor(c.records, "upica", ARRIVING, hash);
  }

  lemma ArrivingVoucher(hash: string -> string)
    ensures !(Prefix(ARRIVING.source) <= ARRIVING.denom)
    ensures Voucher(ARRIVING, hash) == ExamplePair(hash).ibc && FullPath(VoucherTrace(ARRIVING)) == EXAMPLE_PATH
  {
    assert Prefix(ARRIVING.source)[0] == 't';
    hide ParseDenomTrace, FullPath, Prefix, CameThrough;
    ExamplePath();
  }

  lemma ReceivedBalances(hash: string -> string)
    ensures var b, ibc := Received(hash), ExamplePair(hash).ibc;
            && ibc != "upica" && ibc != "uother" && !LooksHashed("upica")
            && Balance(b, ALICE, "upica") == 5 && Balance(b, Escrow("channel-0"), ibc) == 5
            && Balance(b, ALICE, ibc) == 0 && Balance(b, ALICE, "uother") == 0
  {
    var ibc, e, empty := ExamplePair(hash).ibc, Escrow("channel-0"), NOTHING.chain.bank;
    assert ibc[0] == 'i' && "upica"[0] == 'u' && "uother"[0] == 'u' && "upica"[1] != "uother"[1];
    assert "ibc/"[0] == 'i';
    var locked := Mint(empty, e, ibc, 5);
    Minted(empty, e, ibc, 5, ALICE, "upica");
    Minted(empty, e, ibc, 5, ALICE, "uother");
    Minted(empty, e, ibc, 5, ALICE, ibc);
    Minted(empty, e, ibc, 5, e, ibc);
    Minted(locked, ALICE, "upica", 5, ALICE, "upica");
    Minted(locked, ALICE, "upica", 5, ALICE, "uother");
    Minted(locked, ALICE, "upica", 5, ALICE, ibc);
    Minted(locked, ALICE, "upica", 5, e, ibc);
    hide Mint;
  }

  lemma Burned(b: Bank, from: Account, d: string, x: nat, a: Account, e: string)
    requires CanPay(b, from, d, x)
    ensures Balance(Burn(b, from, d, x), a, e) == Balance(b, a, e) - if a == from && d == e then x else 0
  {
  }

  /** What alice sends leaves nothing behind, and its packet carries the path. */
  lemma LeavesHomeward(c: Chain, hash: string -> string)
    requires c == Chain(Received(hash), map[ExamplePair(hash).ibc := EXAMPLE_PATH], Registered("upica", hash))
    ensures Transfer(c, LEAVING).Some? && Transfer(c, LEAVING).value.packet == PacketFor(LEAVING, EXAMPLE_PATH)
    ensures var t := Transfer(c, LEAVING).value.chain;
            && Balance(t.bank, ALICE, "upica") == 0 && Balance(t.bank, ALICE, ExamplePair(hash).ibc) == 0
            && Balance(t.bank, ALICE, "uother") == 0
  {
    ReceivedBalances(hash);
    var ibc, e := ExamplePair(hash).ibc, Escrow("channel-0");
    hide Received, Burn, LooksHashed, Balance;
    assert FullDenomPath(c, "upica") == Some("upica");
    var burned := Burn(c.bank, ALICE, "upica", 5);
    Burned(c.bank, ALICE, "upica", 5, e, ibc);
    Burned(c.bank, ALICE, "upica", 5, ALICE, "upica");
    Burned(c.bank, ALICE, "upica", 5, ALICE, "uother");
    Burned(c.bank, ALICE, "upica", 5, ALICE, ibc);
    Burned(burned, e, ibc, 5, ALICE, "upica");
    Burned(burned, e, ibc, 5, ALICE, "uother");
    Burned(burned, e, ibc, 5, ALICE, ibc);
  }

  /** The voucher has another name by the time the packet fails. */
  lemma RefundedElsewhere(c: Chain, hash: string -> string)
    requires Sound(c, hash) && c.records == Registered("uother", hash)
    ensures var refunded := Refund(c, PacketFor(LEAVING, EXAMPLE_PATH), hash);
            && refunded.Some?
            && Balance(refunded.value.bank, ALICE, "uother") == Balance(c.bank, ALICE, "uother") + 5
            && Combined(refunded.value, ALICE, ExamplePair(hash)) == Combined(c, ALICE, ExamplePair(hash))
  {
    var pair := ExamplePair(hash);
    ExamplePairIsProper(hash);
    PlainName("uother");
    TakingProceeds("uother", pair, hash);
    assert "uother"[1] != "upica"[1];
    hide Sound, Proper, Refund, HoldsVoucher, Combined, Balance;
    RefundPaysOtherName(c, PacketFor(LEAVING, EXAMPLE_PATH), "uother", pair, hash);
  }

  lemma FiveSteps(w: World, a: Event, b: Event, c: Event, d: Event, e: Event, hash: string -> string)
    ensures Exec(w, [a, b, c, d, e], hash)
            == Apply(Apply(Apply(Apply(Apply(w, a, hash), b, hash), c, hash), d, hash), e, hash)
  {
    hide Apply;
    StepFirst(w, a, [b, c, d, e], hash);
    var w1 := Apply(w, a, hash);
    StepFirst(w1, b, [c, d, e], hash);
    var w2 := Apply(w1, b, hash);
    StepFirst(w2, c, [d, e], hash);
    var w3 := Apply(w2, c, hash);
    StepFirst(w3, d, [e], hash);
    OneStep(Apply(w3, d, hash), e, hash);
  }

  lemma StepFirst(w: World, e: Event, run: seq<Event>, hash: string -> string)
    ensures Exec(w, [e] + run, hash) == Exec(Apply(w, e, hash), run, hash)
  {
    assert ([e] + run)[1..] == run;
  }

  /** The world while the packet is out. */
  ghost function Out(hash: string -> string): World {
    var registered := Apply(NOTHING, Registers(Registered("upica", hash)), hash);
    Apply(Apply(registered, Arrives(ARRIVING), hash), Transfers(LEAVING, true), hash)
  }

  lemma OutIs(hash: string -> string)
    ensures var w := Out(hash);
            && w.inflight == map[0 := PacketFor(LEAVING, EXAMPLE_PATH)]
            && Balance(w.chain.bank, ALICE, "upica") == 0
            && Balance(w.chain.bank, ALICE, ExamplePair(hash).ibc) == 0
            && Balance(w.chain.bank, ALICE, "uother") == 0
  {
    hide Registered, Transfer, Receive, Balance;
    var w1 := Apply(NOTHING, Registers(Registered("upica", hash)), hash);
    ArrivesLocked(w1.chain, hash);
    var w2 := Apply(w1, Arrives(ARRIVING), hash);
    LeavesHomeward(w2.chain, hash);
  }

  lemma AllProceed(hash: string -> string)
    ensures Proceeds(Registers(Registered("upica", hash)), hash)
    ensures Proceeds(Registers(Registered("uother", hash)), hash)
    ensures Proceeds(Arrives(ARRIVING), hash) && Proceeds(Transfers(LEAVING, true), hash) && Proceeds(Fails(0), hash)
  {
    hide Proper, Plain, Paired, ValidChannel, TakenOver, ExamplePair, IsValidChannelID;
    ExampleEnd("channel-0");
    ExamplePairIsProper(hash);
    PlainName("upica");
    PlainName("uother");
    TakingProceeds("upica", ExamplePair(hash), hash);
    TakingProceeds("uother", ExamplePair(hash), hash);
  }

  lemma StaysSound(hash: string -> string)
    requires Injective(hash)
    ensures Sound(Apply(Out(hash), Registers(Registered("uother", hash)), hash).chain, hash)
  {
    NothingIsSound(hash);
    AllProceed(hash);
    hide Sound, Proceeds, Apply, Registered;
    var w1 := Apply(NOTHING, Registers(Registered("upica", hash)), hash);
    StepStaysSound(NOTHING, Registers(Registered("upica", hash)), hash);
    StepStaysSound(w1, Arrives(ARRIVING), hash);
    StepStaysSound(Apply(w1, Arrives(ARRIVING), hash), Transfers(LEAVING, true), hash);
    StepStaysSound(Out(hash), Registers(Registered("uother", hash)), hash);
  }

  /** The refund, once the voucher has another name. */
  lemma FailsElsewhere(hash: string -> string)
    requires Injective(hash)
    ensures var c := Apply(Apply(Out(hash), Registers(Registered("uother", hash)), hash), Fails(0), hash).chain;
            && Balance(c.bank, ALICE, "upica") == 0 && Balance(c.bank, ALICE, ExamplePair(hash).ibc) == 0
            && Balance(c.bank, ALICE, "uother") == 5
  {
    hide Out, Sound, Refund, Registered, Balance, Apply, PacketFor;
    var records := Registered("uother", hash);
    var w := Apply(Out(hash), Registers(records), hash);
    OutIs(hash);
    StaysSound(hash);
    Reregistered(Out(hash), records, hash);
    RefundedElsewhere(w.chain, hash);
    Failed(w, 0, hash);
  }

  lemma Reregistered(w: World, records: Registry.Records, hash: string -> string)
    ensures Apply(w, Registers(records), hash) == w.(chain := w.chain.(records := records))
  {
  }

  lemma Failed(w: World, i: nat, hash: string -> string)
    requires i in w.inflight && Refund(w.chain, w.inflight[i], hash).Some?
    ensures Apply(w, Fails(i), hash).chain == Refund(w.chain, w.inflight[i], hash).value
  {
    hide Refund;
  }

  lemma TheRunOut(hash: string -> string)
    ensures var w1 := Apply(NOTHING, Registers(Registered("upica", hash)), hash);
            Out(hash) == Apply(Apply(w1, Arrives(ARRIVING), hash), Transfers(LEAVING, true), hash)
  {
  }

  /** Register the pair, receive 5 of the token, send them back, register the voucher
      under another name, let the send fail: from an empty chain this is a possible run,
      and at its end alice holds nothing of either half, but 5 of the other name. */
  lemma TakeoverRun(hash: string -> string)
    requires Injective(hash)
    ensures var run := [Registers(Registered("upica", hash)), Arrives(ARRIVING), Transfers(LEAVING, true),
                        Registers(Registered("uother", hash)), Fails(0)];
            && (forall e :: e in run ==> Proceeds(e, hash))
            && var c := Exec(NOTHING, run, hash).chain;
               && Balance(c.bank, ALICE, "upica") == 0 && Balance(c.bank, ALICE, ExamplePair(hash).ibc) == 0
               && Balance(c.bank, ALICE, "uother") == 5
  {
    var a, b, send := Registers(Registered("upica", hash)), Arrives(ARRIVING), Transfers(LEAVING, true);
    hide *;
    AllProceed(hash);
    FailsElsewhere(hash);
    TheRunOut(hash);
    FiveSteps(NOTHING, a, b, send, Registers(Registered("uother", hash)), Fails(0), hash);
  }
}
