/**
 Where the two modules meet: a registered pair is limited under its voucher's path,
 by administrators and by packets alike, in both directions.
 */
module LimiterView {
  import opened Basics
  import opened Denoms
  import opened FlowLedger
  import opened StoreKeys
  import opened TransferRuns
  import opened Transfers

  /** The packet of an override send is counted under the path to which a limit that
      names the native token is put. */
  lemma OverrideIsCountedAtTarget(c: Chain, m: Msg, env: Env, pair: Pair, hash: string -> string)
    requires Sound(c, hash) && Proper(pair, hash) && m.denom == pair.native && m.channel == pair.channel
    requires HoldsVoucher(c.records, pair.native, pair) && env.registered == c.records && Transfer(c, m).Some?
    ensures var packet := Transfer(c, m).value.packet;
            Path(SendDenom(packet.denom, hash), packet.channel) == Target(env, Path(m.denom, m.channel))
  {
    OverrideSends(c, m, pair, hash);
    PathOfPair(pair, hash);
    hide Transfer, Proper, ParseDenomTrace;
  }

  /** So is a receipt that is turned into the native token. */
  lemma LockedReceiptIsCountedAtTarget(c: Chain, p: Incoming, native: string, env: Env, hash: string -> string)
    requires LockedNative(c.records, p, hash) == Some(native) && env.registered == c.records
    requires !(Prefix(p.source) <= p.denom)
    ensures Path(RecvDenom(p.source, Here(p.channel), p.denom, hash), p.channel)
            == Target(env, Path(native, p.channel))
  {
    assert LocksFor(c.records, native, p, hash);
    hide LockedNative, ParseDenomTrace;
  }

  /** And a refund that turns the voucher back into the native token is undone at the
      path where its send was counted. */
  lemma RefundIsUndoneAtTarget(c: Chain, p: Packet, native: string, env: Env, hash: string -> string)
    requires NativeAgain(c.records, p, hash) == Some(native) && env.registered == c.records
    requires ParseDenomTrace(p.denom).path != ""
    ensures Path(SendDenom(p.denom, hash), p.channel) == Target(env, Path(native, p.channel))
  {
    assert LocksAgain(c.records, native, p, hash);
    hide NativeAgain, ParseDenomTrace;
  }
}
