/**
 The denominations the rate limiter counts.  A packet names a token by its full
 path, `port/channel/…/base`; the bank holds it under its base name or, when the
 path is not empty, under `ibc/` and the hash of the path.  Paths are split the way
 ibc-go splits them; the hash is any function.
 */
module Denoms {
  import opened Basics
  import opened Text
  import opened StoreKeys

  // --------------------------------------------------------------- denom traces

  datatype DenomTrace = DenomTrace(path: string, base: string)

  /** `channel-` and a 64-bit decimal number. */
  predicate IsValidChannelID(s: string) {
    CHANNEL_PREFIX <= s && ParseUint(s[|CHANNEL_PREFIX|..]).Some?
  }

  /** The number of port and channel pairs a split path starts with. */
  function Hops(parts: seq<string>): (n: nat)
    ensures 2 * n <= |parts|
  {
    if |parts| >= 2 && IsValidChannelID(parts[1]) then 1 + Hops(parts[2..]) else 0
  }

  function ParseDenomTrace(raw: string): DenomTrace {
    var parts := Split(raw);
    var n := if |parts| > 2 then Hops(parts) else 0;
    DenomTrace(Join(parts[..2 * n]), Join(parts[2 * n..]))
  }

  function FullPath(t: DenomTrace): string {
    if t.path == "" then t.base else t.path + "/" + t.base
  }

  /** The denomination under which the bank holds the token. */
  function IBCDenom(t: DenomTrace, hash: string -> string): string {
    if t.path == "" then t.base else "ibc/" + hash(FullPath(t))
  }

  /** A path that is nothing but pairs, with no base name left. */
  predicate OnlyPairs(raw: string) {
    2 * Hops(Split(raw)) == |Split(raw)|
  }

  /** The pairs a path starts with: each has a channel in its second place, and what comes
      after them has not. */
  lemma {:induction false} HopsAre(parts: seq<string>)
    ensures var n := Hops(parts);
            && (forall i :: 0 <= i < n ==> IsValidChannelID(parts[2 * i + 1]))
            && (2 * n + 1 < |parts| ==> !IsValidChannelID(parts[2 * n + 1]))
  {
    hide IsValidChannelID;
    if |parts| >= 2 && IsValidChannelID(parts[1]) {
      HopsAre(parts[2..]);
      forall i | 0 <= i < Hops(parts)
        ensures IsValidChannelID(parts[2 * i + 1])
      {
        if i > 0 {
          assert parts[2 * i + 1] == parts[2..][2 * (i - 1) + 1];
        }
      }
      assert 2 * Hops(parts) + 1 < |parts| ==> parts[2 * Hops(parts) + 1] == parts[2..][2 * Hops(parts[2..]) + 1];
    }
  }

  /** A channel in this sense is `channel-` and digits, and every 64-bit number makes one. */
  lemma ChannelIDs(c: string, n: nat)
    ensures IsValidChannelID(c) ==> "channel-" <= c && |c| > 8 && AllDigits(c[8..])
    ensures n < TWO_64 ==> IsValidChannelID("channel-" + Decimal(n))
  {
    if n < TWO_64 {
      DecimalReadsBack(n);
      assert ("channel-" + Decimal(n))[8..] == Decimal(n);
    }
  }

  /** A path that is a trace names at least one hop and ends in something else; a single
      pair, and a base name with slashes of its own, is its own base. */
  lemma TraceIff(raw: string)
    ensures ParseDenomTrace(raw).path != "" <==> |Split(raw)| > 2 && IsValidChannelID(Split(raw)[1])
    ensures ParseDenomTrace(raw).path == "" ==> ParseDenomTrace(raw).base == raw
  {
    PathlessIsBase(raw);
    var parts := Split(raw);
    if |parts| > 2 && IsValidChannelID(parts[1]) {
      JoinIsNotEmpty(parts[..2 * Hops(parts)]);
    }
    hide IsValidChannelID;
  }

  lemma {:induction false} HopsFromTheFront(parts: seq<string>)
    requires 2 * Hops(parts) == |parts|
    ensures Hops(parts + [""]) == Hops(parts)
  {
    if parts == [] {
    } else {
      assert (parts + [""])[2..] == parts[2..] + [""];
      HopsFromTheFront(parts[2..]);
    }
  }

  lemma JoinIsNotEmpty(parts: seq<string>)
    requires |parts| >= 2
    ensures Join(parts) != ""
  {
  }

  /** Splitting a path into trace and base and writing it out again changes nothing,
      but for a path of pairs only, which gains a slash. */
  lemma WrittenOut(raw: string)
    ensures FullPath(ParseDenomTrace(raw))
            == if |Split(raw)| > 2 && OnlyPairs(raw) then raw + "/" else raw
  {
    var parts := Split(raw);
    var n := if |parts| > 2 then Hops(parts) else 0;
    JoinSplit(raw);
    JoinHalves(parts, 2 * n);
  }

  lemma JoinHalves(parts: seq<string>, m: nat)
    requires m <= |parts| && m != 1 && parts != []
    ensures Join(parts[..m]) == "" <==> m == 0
    ensures m == 0 ==> Join(parts[m..]) == Join(parts)
    ensures 0 < m < |parts| ==> Join(parts[..m]) + "/" + Join(parts[m..]) == Join(parts)
    ensures m == |parts| ==> Join(parts[..m]) == Join(parts) && Join(parts[m..]) == ""
  {
    assert parts == parts[..m] + parts[m..];
    if m == 0 {
      assert parts[m..] == parts && parts[..m] == [];
    } else {
      JoinIsNotEmpty(parts[..m]);
      if m == |parts| {
        assert parts[..m] == parts && parts[m..] == [];
      } else {
        JoinAppend(parts[..m], parts[m..]);
      }
    }
  }

  /** What has been written out once is split the same way again, for every string. */
  lemma TraceIsStable(raw: string)
    ensures ParseDenomTrace(FullPath(ParseDenomTrace(raw))) == ParseDenomTrace(raw)
  {
    WrittenOut(raw);
    var parts := Split(raw);
    if |parts| > 2 && OnlyPairs(raw) {
      SplitAtSlash(raw, "");
      assert raw + "/" + "" == raw + "/";
      assert Split(raw + "/") == parts + [""];
      HopsFromTheFront(parts);
      var n := Hops(parts);
      assert (parts + [""])[..2 * n] == parts == parts[..2 * n];
      assert (parts + [""])[2 * n..] == [""] && parts[2 * n..] == [];
    }
  }

  // ------------------------------------------------------------- packet denoms

  /** One end of a channel. */
  datatype End = End(port: string, channel: string)

  predicate ValidEnd(e: End) { '/' !in e.port && '/' !in e.channel && IsValidChannelID(e.channel) }

  /** GetDenomPrefix. */
  function Prefix(e: End): string { e.port + "/" + e.channel + "/" }

  /** ParseDenomFromSendPacket. */
  function SendDenom(denom: string, hash: string -> string): string {
    var trace := ParseDenomTrace(denom);
    if trace.path == "" then denom else IBCDenom(trace, hash)
  }

  /** ParseDenomFromRecvPacket. */
  function RecvDenom(source: End, dest: End, denom: string, hash: string -> string): string {
    if Prefix(source) <= denom then
      var unprefixed := denom[|Prefix(source)|..];
      var trace := ParseDenomTrace(unprefixed);
      if trace.path == "" then unprefixed else IBCDenom(trace, hash)
    else
      IBCDenom(ParseDenomTrace(Prefix(dest) + denom), hash)
  }

  /** The path of a token once it has arrived: one hop less when it comes back, one
      more when it does not; the transfer application keeps it as a trace. */
  function Arrival(source: End, dest: End, denom: string): string {
    FullPath(ParseDenomTrace(if Prefix(source) <= denom then denom[|Prefix(source)|..] else Prefix(dest) + denom))
  }

  lemma PathlessIsBase(raw: string)
    ensures ParseDenomTrace(raw).path == "" ==> ParseDenomTrace(raw).base == raw
  {
    var parts := Split(raw);
    var n := if |parts| > 2 then Hops(parts) else 0;
    JoinSplit(raw);
    if n == 0 {
      assert parts[0..] == parts;
    } else {
      JoinIsNotEmpty(parts[..2 * n]);
    }
  }

  /** The denomination counted for a sent token is the one the bank held it under,
      whatever its trace. */
  lemma SendCountsBankDenom(raw: string, hash: string -> string)
    ensures var trace := ParseDenomTrace(raw);
            SendDenom(FullPath(trace), hash) == IBCDenom(trace, hash)
  {
    TraceIsStable(raw);
    PathlessIsBase(raw);
  }

  /** The denomination counted for a received token is the one the bank then holds
      it under, and the one counted when it is sent on or back; for every string. */
  lemma ReceiveCountsBankDenom(source: End, dest: End, denom: string, hash: string -> string)
    ensures var arrived := Arrival(source, dest, denom);
            && RecvDenom(source, dest, denom, hash) == IBCDenom(ParseDenomTrace(arrived), hash)
            && RecvDenom(source, dest, denom, hash) == SendDenom(arrived, hash)
  {
    var raw := if Prefix(source) <= denom then denom[|Prefix(source)|..] else Prefix(dest) + denom;
    TraceIsStable(raw);
    PathlessIsBase(raw);
    SendCountsBankDenom(raw, hash);
  }

  lemma PrefixSplits(e: End, raw: string)
    requires ValidEnd(e)
    ensures Split(Prefix(e) + raw) == [e.port, e.channel] + Split(raw)
    ensures OnlyPairs(Prefix(e) + raw) <==> OnlyPairs(raw)
    ensures ParseDenomTrace(Prefix(e) + raw).path != ""
  {
    SplitPlain(e.port);
    SplitPlain(e.channel);
    assert Prefix(e) + raw == e.port + "/" + (e.channel + "/" + raw);
    SplitAtSlash(e.port, e.channel + "/" + raw);
    SplitAtSlash(e.channel, raw);
    var parts := Split(Prefix(e) + raw);
    assert parts == [e.port, e.channel] + Split(raw);
    assert parts[2..] == Split(raw);
    JoinIsNotEmpty(parts[..2 * Hops(parts)]);
  }

  /** A hash never looks like a channel identifier or a path. */
  ghost predicate HexHash(hash: string -> string) {
    forall s :: '/' !in hash(s) && '-' !in hash(s)
  }

  /** The paths tokens of this chain have: what is written out of a trace. */
  predicate Settled(raw: string) { FullPath(ParseDenomTrace(raw)) == raw }

  /** A token sent to another chain and back is counted under one denomination both
      times, unless its name is itself just a port and a channel. */
  lemma SentThenReturnedIff(here: End, there: End, raw: string, hash: string -> string)
    requires ValidEnd(here) && ValidEnd(there) && HexHash(hash)
    requires Settled(raw) && !(Prefix(here) <= raw)
    ensures RecvDenom(there, here, Arrival(here, there, raw), hash) == SendDenom(raw, hash)
            <==> !OnlyPairs(raw)
  {
    PrefixSplits(there, raw);
    WrittenOut(raw);
    WrittenOut(Prefix(there) + raw);
    var back := Arrival(here, there, raw);
    assert Prefix(there) <= back;
    if OnlyPairs(raw) {
      assert |Split(raw)| == 2;
      assert back == Prefix(there) + (raw + "/");
      assert back[|Prefix(there)|..] == raw + "/";
      PairAlone(raw, hash);
    } else {
      assert back == Prefix(there) + raw;
      assert back[|Prefix(there)|..] == raw;
    }
  }

  lemma PairAlone(raw: string, hash: string -> string)
    requires OnlyPairs(raw) && |Split(raw)| == 2 && HexHash(hash)
    ensures SendDenom(raw, hash) == raw
    ensures ParseDenomTrace(raw + "/").path != ""
    ensures IBCDenom(ParseDenomTrace(raw + "/"), hash) != raw
  {
    var parts := Split(raw);
    JoinSplit(raw);
    assert parts[..0] == [] && parts[0..] == parts;
    assert raw + "/" + "" == raw + "/";
    SplitAtSlash(raw, "");
    assert Split(raw + "/") == parts + [""];
    HopsFromTheFront(parts);
    JoinIsNotEmpty((parts + [""])[..2]);
    var t := ParseDenomTrace(raw + "/");
    if "ibc/" + hash(FullPath(t)) == raw {
      HashIsNoChannel(hash(FullPath(t)), parts);
    }
  }

  lemma HashIsNoChannel(hex: string, parts: seq<string>)
    requires '/' !in hex && '-' !in hex
    requires |parts| == 2 && Split("ibc/" + hex) == parts
    ensures !IsValidChannelID(parts[1])
  {
    SplitAtSlash("ibc", hex);
    SplitPlain("ibc");
    SplitPlain(hex);
    assert "ibc" + "/" + hex == "ibc/" + hex;
    assert parts[1] == hex;
    assert CHANNEL_PREFIX[7] == '-';
  }

  ghost predicate Injective(hash: string -> string) {
    forall s, t :: hash(s) == hash(t) ==> s == t
  }

  /** Base names that could be mistaken for a hashed path. */
  predicate LooksHashed(raw: string) { "ibc/" <= raw }

  /** Two tokens are counted together only if they are one token. */
  lemma SendDenomIsInjective(x: string, y: string, hash: string -> string)
    requires Settled(x) && Settled(y) && Injective(hash)
    requires !LooksHashed(x) && !LooksHashed(y)
    ensures SendDenom(x, hash) == SendDenom(y, hash) <==> x == y
  {
    var t, u := ParseDenomTrace(x), ParseDenomTrace(y);
    PathlessIsBase(x);
    PathlessIsBase(y);
    if SendDenom(x, hash) == SendDenom(y, hash) && t.path != "" && u.path != "" {
      assert hash(FullPath(t)) == ("ibc/" + hash(FullPath(t)))[4..];
      assert hash(FullPath(u)) == ("ibc/" + hash(FullPath(u)))[4..];
    }
  }

  // ------------------------------------------------------------ multi-hop paths

  /** A token at some chain, under the path that chain keeps for it. */
  datatype Token = Token(chain: nat, raw: string)

  /** Which channel end of which chain each channel end is connected to. */
  type Wiring = map<(nat, End), (nat, End)>

  ghost predicate Wired(w: Wiring) {
    forall k :: k in w ==> ValidEnd(k.1) && w[k] in w && w[w[k]] == k
  }

  function Move(w: Wiring, t: Token, e: End): Token
    requires (t.chain, e) in w
  {
    var (chain, far) := w[(t.chain, e)];
    Token(chain, Arrival(e, far, t.raw))
  }

  /** No hop of the path is undone by the next one, seen from the chain that keeps
      the path; and there is a base name at its end. */
  ghost predicate Reduced(w: Wiring, t: Token)
    decreases |t.raw|
  {
    && !OnlyPairs(t.raw)
    && forall e :: (t.chain, e) in w && Prefix(e) <= t.raw ==>
         var (chain, far) := w[(t.chain, e)];
         var rest := t.raw[|Prefix(e)|..];
         !(Prefix(far) <= rest) && Reduced(w, Token(chain, rest))
  }

  /** A token on its own chain. */
  lemma NativeIsReduced(w: Wiring, t: Token)
    requires !OnlyPairs(t.raw) && forall e :: (t.chain, e) in w ==> !(Prefix(e) <= t.raw)
    ensures Reduced(w, t)
  {
  }

  lemma {:induction false} EndOfPrefix(d: End, e: End, raw: string)
    requires ValidEnd(d) && ValidEnd(e) && Prefix(d) <= raw && Prefix(e) <= raw
    ensures d == e
  {
    PrefixSplits(d, raw[|Prefix(d)|..]);
    PrefixSplits(e, raw[|Prefix(e)|..]);
    assert Prefix(d) + raw[|Prefix(d)|..] == raw == Prefix(e) + raw[|Prefix(e)|..];
  }

  /** The path of a token that comes back, as a string. */
  lemma HomewardArrival(e: End, far: End, raw: string)
    requires ValidEnd(e) && !OnlyPairs(raw) && Prefix(e) <= raw
    ensures Arrival(e, far, raw) == raw[|Prefix(e)|..] && Prefix(e) + Arrival(e, far, raw) == raw
  {
    var rest := raw[|Prefix(e)|..];
    assert Prefix(e) + rest == raw;
    PrefixSplits(e, rest);
    WrittenOut(rest);
  }

  /** The path of a token that goes on, as a string. */
  lemma OutwardArrival(e: End, far: End, raw: string)
    requires ValidEnd(far) && !OnlyPairs(raw) && !(Prefix(e) <= raw)
    ensures Arrival(e, far, raw) == Prefix(far) + raw && !OnlyPairs(Prefix(far) + raw)
    ensures (Prefix(far) + raw)[|Prefix(far)|..] == raw
  {
    PrefixSplits(far, raw);
    WrittenOut(Prefix(far) + raw);
  }

  /** What `Reduced` says of one hop. */
  lemma ReducedHop(w: Wiring, t: Token, e: End)
    requires Reduced(w, t) && (t.chain, e) in w
    ensures !OnlyPairs(t.raw)
    ensures Prefix(e) <= t.raw ==>
              var (chain, far) := w[(t.chain, e)];
              var rest := t.raw[|Prefix(e)|..];
              !(Prefix(far) <= rest) && Reduced(w, Token(chain, rest))
  {
    hide OnlyPairs, Prefix;
  }

  /** Both ends of a connection know each other. */
  lemma FarEnd(w: Wiring, t: Token, e: End)
    requires Wired(w) && (t.chain, e) in w
    ensures var (chain, far) := w[(t.chain, e)];
            && ValidEnd(e) && ValidEnd(far)
            && Move(w, t, e) == Token(chain, Arrival(e, far, t.raw))
            && (chain, far) in w && w[(chain, far)] == (t.chain, e)
  {
    hide ValidEnd, Arrival;
    var (chain, far) := w[(t.chain, e)];
    assert w[(t.chain, e)] in w && w[w[(t.chain, e)]] == (t.chain, e);
  }

  lemma HomewardMove(w: Wiring, t: Token, e: End)
    requires Wired(w) && Reduced(w, t) && (t.chain, e) in w && Prefix(e) <= t.raw
    ensures Move(w, t, e) == Token(w[(t.chain, e)].0, t.raw[|Prefix(e)|..]) && Reduced(w, Move(w, t, e))
    ensures Prefix(e) + Move(w, t, e).raw == t.raw && !(Prefix(w[(t.chain, e)].1) <= Move(w, t, e).raw)
  {
    hide *;
    FarEnd(w, t, e);
    ReducedHop(w, t, e);
    HomewardArrival(e, w[(t.chain, e)].1, t.raw);
  }

  /** The token one hop further out is reduced: the one hop it can undo is this one. */
  lemma ReducedFurther(w: Wiring, t: Token, e: End, next: Token)
    requires Wired(w) && Reduced(w, t) && (t.chain, e) in w && !(Prefix(e) <= t.raw)
    requires var (chain, far) := w[(t.chain, e)];
             && next == Token(chain, Prefix(far) + t.raw) && w[(chain, far)] == (t.chain, e) && ValidEnd(far)
             && !OnlyPairs(next.raw) && next.raw[|Prefix(far)|..] == t.raw
    ensures Reduced(w, next)
  {
    var far := w[(t.chain, e)].1;
    OnlyOneHop(w, next, far);
    hide OnlyPairs, ValidEnd, Prefix, Wired;
  }

  lemma OnlyOneHop(w: Wiring, t: Token, far: End)
    requires Wired(w) && ValidEnd(far) && Prefix(far) <= t.raw
    ensures forall d :: (t.chain, d) in w && Prefix(d) <= t.raw ==> d == far
  {
    forall d | (t.chain, d) in w && Prefix(d) <= t.raw
      ensures d == far
    {
      EndOfPrefix(d, far, t.raw);
    }
    hide ValidEnd, Prefix;
  }

  lemma OutwardMove(w: Wiring, t: Token, e: End)
    requires Wired(w) && Reduced(w, t) && (t.chain, e) in w && !(Prefix(e) <= t.raw)
    ensures var (chain, far) := w[(t.chain, e)];
            Move(w, t, e) == Token(chain, Prefix(far) + t.raw) && Reduced(w, Move(w, t, e))
    ensures Prefix(w[(t.chain, e)].1) <= Move(w, t, e).raw
    ensures Move(w, t, e).raw[|Prefix(w[(t.chain, e)].1)|..] == t.raw
  {
    hide *;
    FarEnd(w, t, e);
    ReducedHop(w, t, e);
    OutwardArrival(e, w[(t.chain, e)].1, t.raw);
    ReducedFurther(w, t, e, Move(w, t, e));
  }

  /** A reduced token stays reduced wherever it goes. */
  lemma MoveKeepsReduced(w: Wiring, t: Token, e: End)
    requires Wired(w) && Reduced(w, t) && (t.chain, e) in w
    ensures Reduced(w, Move(w, t, e))
  {
    hide *;
    if Prefix(e) <= t.raw {
      HomewardMove(w, t, e);
    } else {
      OutwardMove(w, t, e);
    }
  }

  /** One hop and straight back. */
  lemma ThereAndBack(w: Wiring, t: Token, e: End)
    requires Wired(w) && Reduced(w, t) && (t.chain, e) in w
    ensures var far := w[(t.chain, e)].1;
            && (Move(w, t, e).chain, far) in w && Move(w, Move(w, t, e), far) == t
  {
    hide *;
    var far := w[(t.chain, e)].1;
    FarEnd(w, t, e);
    if Prefix(e) <= t.raw {
      HomewardMove(w, t, e);
      OutwardMove(w, Move(w, t, e), far);
    } else {
      OutwardMove(w, t, e);
      HomewardMove(w, Move(w, t, e), far);
    }
  }

  /** The token after leaving through these ends in turn. */
  ghost predicate Walks(w: Wiring, t: Token, ends: seq<End>)
    decreases ends
  {
    ends != [] ==> (t.chain, ends[0]) in w && Walks(w, Move(w, t, ends[0]), ends[1..])
  }

  ghost function Walk(w: Wiring, t: Token, ends: seq<End>): Token
    requires Walks(w, t, ends)
    decreases ends
  {
    if ends == [] then t else Walk(w, Move(w, t, ends[0]), ends[1..])
  }

  /** The ends through which the same way leads back. */
  ghost function WayBack(w: Wiring, t: Token, ends: seq<End>): seq<End>
    requires Walks(w, t, ends)
    decreases ends
  {
    if ends == [] then []
    else WayBack(w, Move(w, t, ends[0]), ends[1..]) + [w[(t.chain, ends[0])].1]
  }

  lemma {:induction false} WalkOn(w: Wiring, t: Token, ends: seq<End>, e: End)
    requires Walks(w, t, ends) && (Walk(w, t, ends).chain, e) in w
    ensures Walks(w, t, ends + [e]) && Walk(w, t, ends + [e]) == Move(w, Walk(w, t, ends), e)
    decreases ends
  {
    if ends == [] {
      assert ends + [e] == [e] && [e][1..] == [];
    } else {
      assert (ends + [e])[1..] == ends[1..] + [e];
      WalkOn(w, Move(w, t, ends[0]), ends[1..], e);
    }
  }

  /** Any way out, however long, and the same way back restore the token's path. */
  lemma {:induction false} ExcursionReturns(w: Wiring, t: Token, ends: seq<End>)
    requires Wired(w) && Reduced(w, t) && Walks(w, t, ends)
    ensures Reduced(w, Walk(w, t, ends))
    ensures Walks(w, Walk(w, t, ends), WayBack(w, t, ends))
    ensures Walk(w, Walk(w, t, ends), WayBack(w, t, ends)) == t
    decreases ends
  {
    hide Wired, Reduced, Arrival, Move;
    if ends != [] {
      var next := Move(w, t, ends[0]);
      MoveKeepsReduced(w, t, ends[0]);
      ExcursionReturns(w, next, ends[1..]);
      ThereAndBack(w, t, ends[0]);
      WalkOn(w, Walk(w, next, ends[1..]), WayBack(w, next, ends[1..]), w[(t.chain, ends[0])].1);
    }
  }

  /** A token that leaves through an end, travels any way and back, and returns
      through the same end is counted under one denomination both times. */
  lemma CountedAlike(w: Wiring, t: Token, ends: seq<End>, hash: string -> string)
    requires Wired(w) && Reduced(w, t) && Walks(w, t, ends) && ends != []
    ensures var here := ends[0];
            var far := w[(t.chain, here)].1;
            var next := Move(w, t, here);
            && Walks(w, Walk(w, t, ends), WayBack(w, next, ends[1..]))
            && var returning := Walk(w, Walk(w, t, ends), WayBack(w, next, ends[1..]));
               RecvDenom(far, here, returning.raw, hash) == SendDenom(t.raw, hash)
  {
    var here := ends[0];
    var next := Move(w, t, here);
    MoveKeepsReduced(w, t, here);
    ExcursionReturns(w, next, ends[1..]);
    ThereAndBack(w, t, here);
    ReceiveCountsBankDenom(w[(t.chain, here)].1, here, next.raw, hash);
  }
}
