/**
 The store keys of x/ratelimit.  A rate limit is stored under its denomination
 and channel, concatenated without a separator; a pending packet is stored under
 its channel, padded with NUL bytes to 16, and its sequence number in big-endian
 order.  Both read back uniquely for the channel identifiers IBC hands out.
 */
module StoreKeys {
  import opened Basics

  const CHANNEL_PREFIX: string := "channel-"
  const CHANNEL_LENGTH: nat := 16

  datatype Path = Path(denom: string, channel: string)
  datatype PacketId = PacketId(channel: string, sequence: nat)

  predicate IsDigit(c: char) { '0' <= c <= '9' }

  predicate AllDigits(s: string) { forall i :: 0 <= i < |s| ==> IsDigit(s[i]) }

  /** `channel-<decimal>`, short enough for the pending-packet key. */
  predicate CanonicalChannel(c: string) {
    && |CHANNEL_PREFIX| < |c| <= CHANNEL_LENGTH
    && c[..|CHANNEL_PREFIX|] == CHANNEL_PREFIX
    && AllDigits(c[|CHANNEL_PREFIX|..])
  }

  predicate CanonicalPacket(p: PacketId) {
    CanonicalChannel(p.channel) && p.sequence < TWO_64
  }

  // ---------------------------------------------------------------- rate limits

  function RateLimitKey(p: Path): string { p.denom + p.channel }

  function TrailingDigits(s: string): (n: nat)
    ensures n <= |s|
  {
    if s != [] && IsDigit(s[|s| - 1]) then 1 + TrailingDigits(s[..|s| - 1]) else 0
  }

  /** Splits a key again: the channel is the last `channel-<decimal>`. */
  function ParseRateLimitKey(key: string): Path {
    var cut := |key| - TrailingDigits(key) - |CHANNEL_PREFIX|;
    if cut < 0 then Path(key, "") else Path(key[..cut], key[cut..])
  }

  lemma {:induction false} DigitsAtTheEnd(front: string, digits: string)
    requires front != [] && !IsDigit(front[|front| - 1])
    requires AllDigits(digits)
    ensures TrailingDigits(front + digits) == |digits|
  {
    var s := front + digits;
    if digits == [] {
      assert s == front;
    } else {
      assert s[..|s| - 1] == front + digits[..|digits| - 1];
      DigitsAtTheEnd(front, digits[..|digits| - 1]);
    }
  }

  lemma RateLimitKeyReadsBack(p: Path)
    requires CanonicalChannel(p.channel)
    ensures ParseRateLimitKey(RateLimitKey(p)) == p
  {
    var n := |CHANNEL_PREFIX|;
    var front, digits := p.denom + p.channel[..n], p.channel[n..];
    assert RateLimitKey(p) == front + digits;
    DigitsAtTheEnd(front, digits);
  }

  /** Two limits on IBC channels share a key only if they are one limit. */
  lemma RateLimitKeyIsInjective(p: Path, q: Path)
    requires CanonicalChannel(p.channel) && CanonicalChannel(q.channel)
    ensures RateLimitKey(p) == RateLimitKey(q) <==> p == q
  {
    RateLimitKeyReadsBack(p);
    RateLimitKeyReadsBack(q);
  }

  /** For arbitrary identifiers keys do collide, and exactly when the one channel
      ends in the other and the denominations make up the difference. */
  lemma RateLimitKeysCollideIff(p: Path, q: Path)
    requires |p.channel| >= |q.channel|
    ensures RateLimitKey(p) == RateLimitKey(q) <==>
            var extra := p.channel[..|p.channel| - |q.channel|];
            p.channel == extra + q.channel && q.denom == p.denom + extra
  {
    var n := |p.channel| - |q.channel|;
    var extra := p.channel[..n];
    if RateLimitKey(p) == RateLimitKey(q) {
      var key := RateLimitKey(p);
      assert q.denom == key[..|q.denom|] && q.channel == key[|q.denom|..];
      assert p.channel == key[|p.denom|..] == extra + q.channel;
      assert q.denom == p.denom + extra;
    }
    if p.channel == extra + q.channel && q.denom == p.denom + extra {
      assert p.denom + (extra + q.channel) == (p.denom + extra) + q.channel;
    }
  }

  /** A channel identifier that is not IBC's own can take another limit's key. */
  lemma RateLimitKeyCollision()
    ensures RateLimitKey(Path("a", "bchannel-0")) == RateLimitKey(Path("ab", "channel-0"))
    ensures CanonicalChannel("channel-0") && !CanonicalChannel("bchannel-0")
  {
    assert "ab" == "a" + "b" && "bchannel-0" == "b" + "channel-0";
    assert "bchannel-0"[..8] == "bchannel" && "channel-0"[..8] == CHANNEL_PREFIX;
    assert "bchannel"[0] != CHANNEL_PREFIX[0];
  }

  // ------------------------------------------------------------ pending packets

  function Zeros(n: nat): (s: string)
    ensures |s| == n && forall i :: 0 <= i < n ==> s[i] == '\0'
  {
    if n == 0 then [] else ['\0'] + Zeros(n - 1)
  }

  /** A 16-byte buffer into which the identifier is copied. */
  function PadChannel(c: string): (s: string)
    ensures |s| == CHANNEL_LENGTH
  {
    if |c| >= CHANNEL_LENGTH then c[..CHANNEL_LENGTH] else c + Zeros(CHANNEL_LENGTH - |c|)
  }

  /** The last n bytes of a number, most significant first. */
  function BigEndian(x: nat, n: nat): (s: string)
    ensures |s| == n
  {
    if n == 0 then [] else BigEndian(x / 256, n - 1) + [(x % 256) as char]
  }

  function FromBigEndian(s: string): nat {
    if s == [] then 0 else 256 * FromBigEndian(s[..|s| - 1]) + s[|s| - 1] as nat
  }

  function PendingKey(p: PacketId): string {
    PadChannel(p.channel) + BigEndian(p.sequence, 8)
  }

  /** Drops NUL bytes from the end. */
  function TrimNuls(s: string): string {
    if s != [] && s[|s| - 1] == '\0' then TrimNuls(s[..|s| - 1]) else s
  }

  function ParsePendingKey(key: string): PacketId
    requires |key| >= CHANNEL_LENGTH
  {
    PacketId(TrimNuls(key[..CHANNEL_LENGTH]), FromBigEndian(key[CHANNEL_LENGTH..]))
  }

  function Pow256(n: nat): (p: nat)
    ensures p > 0
  {
    if n == 0 then 1 else 256 * Pow256(n - 1)
  }

  lemma {:induction false} BigEndianReadsBack(x: nat, n: nat)
    requires x < Pow256(n)
    ensures FromBigEndian(BigEndian(x, n)) == x
  {
    if n > 0 {
      BigEndianReadsBack(x / 256, n - 1);
      var s := BigEndian(x, n);
      assert s[..|s| - 1] == BigEndian(x / 256, n - 1);
    }
  }

  lemma {:induction false} TrimPadding(c: string, n: nat)
    requires c == [] || c[|c| - 1] != '\0'
    ensures TrimNuls(c + Zeros(n)) == c
  {
    if n == 0 {
      assert c + Zeros(0) == c;
    } else {
      var s := c + Zeros(n);
      assert s[..|s| - 1] == c + Zeros(n - 1);
      TrimPadding(c, n - 1);
    }
  }

  lemma PendingKeyReadsBack(p: PacketId)
    requires CanonicalPacket(p)
    ensures ParsePendingKey(PendingKey(p)) == p
  {
    var key, c := PendingKey(p), p.channel;
    assert key[..CHANNEL_LENGTH] == PadChannel(c) && key[CHANNEL_LENGTH..] == BigEndian(p.sequence, 8);
    assert c[|c| - 1] == c[|CHANNEL_PREFIX|..][|c| - 1 - |CHANNEL_PREFIX|];
    if |c| == CHANNEL_LENGTH {
      assert c + Zeros(0) == c == PadChannel(c);
    }
    TrimPadding(c, CHANNEL_LENGTH - |c|);
    assert Pow256(8) == TWO_64;
    BigEndianReadsBack(p.sequence, 8);
  }

  lemma PendingKeyIsInjective(p: PacketId, q: PacketId)
    requires CanonicalPacket(p) && CanonicalPacket(q)
    ensures PendingKey(p) == PendingKey(q) <==> p == q
  {
    PendingKeyReadsBack(p);
    PendingKeyReadsBack(q);
  }

  lemma NoNuls(c: string)
    requires CanonicalChannel(c)
    ensures forall i :: 0 <= i < |c| ==> c[i] != '\0'
  {
    forall i | 0 <= i < |c|
      ensures c[i] != '\0'
    {
      if i < |CHANNEL_PREFIX| {
        assert c[i] == c[..|CHANNEL_PREFIX|][i];
      } else {
        assert c[i] == c[|CHANNEL_PREFIX|..][i - |CHANNEL_PREFIX|];
      }
    }
  }

  /** A scan over a channel's unpadded identifier meets exactly the packets whose
      channel starts with it: `channel-1` also meets those of `channel-10`. */
  lemma PendingScanMeets(channel: string, p: PacketId)
    requires CanonicalChannel(channel) && CanonicalPacket(p)
    ensures channel <= PendingKey(p) <==> channel <= p.channel
  {
    NoNuls(channel);
    var key, c := PendingKey(p), p.channel;
    assert forall i :: 0 <= i < |c| ==> key[i] == c[i];
    assert forall i :: |c| <= i < CHANNEL_LENGTH ==> key[i] == '\0';
    if |channel| > |c| {
      assert channel[|c|] != '\0' && key[|c|] == '\0';
    } else if channel <= key {
      assert forall i :: 0 <= i < |channel| ==> channel[i] == key[i] == c[i];
    }
    if channel <= c {
      assert forall i :: 0 <= i < |channel| ==> channel[i] == c[i] == key[i];
    }
  }
}
