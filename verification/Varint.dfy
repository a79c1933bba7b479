/**
 Base-128 varints (Protocol Buffers "Encoding", section "Base 128 Varints"), as
 the generated code of x/ratelimit writes and reads them.  The functions say
 what the bytes mean; the methods are the loops over the buffer.
 */
module Varint {
  import opened Basics

  type byte = b: int | 0 <= b < 256

  datatype Error =
    | IntOverflow
    | UnexpectedEOF
    | InvalidLength
    | EndGroupForNonGroup
    | IllegalTag
    | WrongWireType
    | UnexpectedEndOfGroup
    | IllegalWireType

  datatype Result<+T> = Ok(value: T) | Err(error: Error)

  /** A number read from the input and the cursor after it. */
  datatype Read = Read(number: nat, next: nat)

  // ------------------------------------------------------------- bit twiddling

  function Pow2(n: nat): (p: nat)
    ensures p > 0
  {
    if n == 0 then 1 else 2 * Pow2(n - 1)
  }

  /** Bitwise or of two unsigned numbers. */
  function Or(x: nat, y: nat): nat {
    if x == 0 then y
    else if y == 0 then x
    else 2 * Or(x / 2, y / 2) + (if x % 2 == 1 || y % 2 == 1 then 1 else 0)
  }

  /** A left shift of a 64-bit word drops the bits that leave it. */
  function ShiftLeft64(x: nat, shift: nat): nat {
    (x * Pow2(shift)) % TWO_64
  }

  /** The number of bits of x. */
  function Len64(x: nat): nat {
    if x == 0 then 0 else 1 + Len64(x / 2)
  }

  lemma {:induction false} OrIsSum(x: nat, k: nat, shift: nat)
    requires x < Pow2(shift)
    ensures Or(x, k * Pow2(shift)) == x + k * Pow2(shift)
  {
    if shift == 0 {
      assert x == 0;
    } else {
      var y := k * Pow2(shift - 1);
      assert k * Pow2(shift) == 2 * y;
      if x != 0 && y != 0 {
        OrIsSum(x / 2, k, shift - 1);
      }
    }
  }

  lemma {:induction false} Pow2Sum(m: nat, n: nat)
    ensures Pow2(m + n) == Pow2(m) * Pow2(n)
  {
    if m > 0 {
      Pow2Sum(m - 1, n);
      assert Pow2(m + n) == 2 * (Pow2(m - 1) * Pow2(n));
    }
  }

  lemma Pow2Is64()
    ensures Pow2(7) == 128 && Pow2(63) == TWO_64 / 2 && Pow2(64) == TWO_64 && Pow2(70) == 64 * TWO_64
  {
    assert Pow2(3) == 8 && Pow2(4) == 16;
    Pow2Sum(3, 4);
    hide Pow2;
    Pow2Sum(7, 7); Pow2Sum(14, 14); Pow2Sum(28, 28); Pow2Sum(56, 7); Pow2Sum(63, 1); Pow2Sum(63, 7);
  }

  // ------------------------------------------------------------------ encoding

  /** The varint of v: seven bits per byte, least significant first, the high
      bit set on every byte but the last. */
  function VarintBytes(v: nat): (s: seq<byte>)
    ensures |s| >= 1
  {
    if v < 128 then [v] else [v % 128 + 128] + VarintBytes(v / 128)
  }

  /** The generated size formula, (Len64(x|1)+6)/7. */
  function Sov(x: nat): nat {
    (Len64(Or(x, 1)) + 6) / 7
  }

  lemma {:induction false} BitsOfOr1(x: nat)
    ensures Len64(Or(x, 1)) == if x == 0 then 1 else Len64(x)
  {
    if x == 0 {
      assert Len64(1) == 1 + Len64(0);
    } else {
      assert Or(x / 2, 0) == x / 2;
      assert Or(x, 1) == 2 * (x / 2) + 1;
    }
  }

  lemma SevenBits(x: nat)
    requires x >= 128
    ensures Len64(x) == 7 + Len64(x / 128)
  {
    var a := x / 2; var b := a / 2; var c := b / 2; var d := c / 2; var e := d / 2; var f := e / 2;
    assert Len64(x) == 1 + Len64(a);
    assert Len64(a) == 1 + Len64(b);
    assert Len64(b) == 1 + Len64(c);
    assert Len64(c) == 1 + Len64(d);
    assert Len64(d) == 1 + Len64(e);
    assert Len64(e) == 1 + Len64(f);
    assert f / 2 == x / 128;
  }

  lemma SmallBits(x: nat)
    requires x < 128
    ensures Len64(x) <= 7 && (x > 0 ==> Len64(x) >= 1)
  {
    var a := x / 2; var b := a / 2; var c := b / 2; var d := c / 2; var e := d / 2; var f := e / 2;
    assert f / 2 == 0;
    assert Len64(f) <= 1; assert Len64(e) <= 2; assert Len64(d) <= 3;
    assert Len64(c) <= 4; assert Len64(b) <= 5; assert Len64(a) <= 6;
  }

  /** The size formula is the length of the varint. */
  lemma {:induction false} SovIsLength(v: nat)
    ensures Sov(v) == |VarintBytes(v)|
  {
    BitsOfOr1(v);
    if v < 128 {
      SmallBits(v);
    } else {
      SovIsLength(v / 128);
      BitsOfOr1(v / 128);
      SevenBits(v);
    }
  }

  /** Writes the varint of v so that it ends just before `offset`, and returns
      where it starts. */
  method EncodeVarint(dAtA: array<byte>, offset: nat, v: nat) returns (base: nat)
    requires Sov(v) <= offset <= dAtA.Length
    modifies dAtA
    ensures base == offset - Sov(v)
    ensures dAtA[base..offset] == VarintBytes(v)
    ensures dAtA[..base] == old(dAtA[..base]) && dAtA[offset..] == old(dAtA[offset..])
  {
    SovIsLength(v);
    hide Or, Sov;
    base := offset - Sov(v);
    var at, rest := base, v;
    while rest >= 128
      invariant base <= at && at + |VarintBytes(rest)| == offset
      invariant VarintBytes(v) == dAtA[base..at] + VarintBytes(rest)
      invariant dAtA[..base] == old(dAtA[..base]) && dAtA[offset..] == old(dAtA[offset..])
      decreases rest
    {
      LowSeven(rest);
      ghost var written := dAtA[base..at];
      dAtA[at] := Or(rest % 128, 128);
      assert dAtA[base..at + 1] == written + [rest % 128 + 128];
      assert VarintBytes(rest) == [rest % 128 + 128] + VarintBytes(rest / 128);
      rest := rest / 128;
      at := at + 1;
    }
    ghost var written := dAtA[base..at];
    dAtA[at] := rest;
    assert dAtA[base..offset] == written + [rest];
  }

  lemma LowSeven(v: nat)
    ensures Or(v % 128, 128) == v % 128 + 128
  {
    Pow2Is64();
    OrIsSum(v % 128, 1, 7);
  }

  // ------------------------------------------------------------------ decoding

  /** The number of bytes from `at` on that ask for another one. */
  function Continuation(s: seq<byte>, at: nat): (n: nat)
    requires at <= |s|
    ensures at + n <= |s|
    decreases |s| - at
  {
    if at < |s| && s[at] >= 128 then 1 + Continuation(s, at + 1) else 0
  }

  /** The number that groups of seven bits stand for, least significant first. */
  function LittleEndian(s: seq<byte>): nat {
    if s == [] then 0 else s[0] % 128 + 128 * LittleEndian(s[1..])
  }

  /** A varint at the cursor: at most ten bytes, and only 64 bits of it count. */
  function ReadVarint(s: seq<byte>, at: nat): (r: Result<Read>)
    requires at <= |s|
    ensures r.Ok? ==> at < r.value.next <= |s| && r.value.number < TWO_64
  {
    var n := Continuation(s, at);
    if n >= 10 then Err(IntOverflow)
    else if at + n == |s| then Err(UnexpectedEOF)
    else Ok(Read(LittleEndian(s[at..at + n + 1]) % TWO_64, at + n + 1))
  }

  lemma {:induction false} LittleEndianAppend(s: seq<byte>, b: byte)
    ensures LittleEndian(s + [b]) == LittleEndian(s) + (b % 128) * Pow2(7 * |s|)
  {
    if s == [] {
      assert ([b])[1..] == [];
      assert LittleEndian([b]) == b % 128;
    } else {
      LittleEndianAppend(s[1..], b);
      assert (s + [b])[1..] == s[1..] + [b];
      Pow2Is64();
      Pow2Sum(7, 7 * |s[1..]|);
      assert 7 + 7 * |s[1..]| == 7 * |s|;
      Swap(b % 128, Pow2(7 * |s[1..]|));
    }
  }

  lemma Swap(x: int, y: int)
    ensures 128 * (x * y) == x * (128 * y)
  {
  }

  lemma {:induction false} LittleEndianBound(s: seq<byte>)
    ensures LittleEndian(s) < Pow2(7 * |s|)
  {
    if s != [] {
      LittleEndianBound(s[1..]);
      Pow2Is64();
      Pow2Sum(7, 7 * |s[1..]|);
      assert 7 + 7 * |s[1..]| == 7 * |s|;
    }
  }

  /** One step of the accumulating loop: or-ing in the next seven bits, shifted
      and cut to 64, keeps the accumulator the value so far modulo 2^64. */
  lemma Accumulate(s: seq<byte>, b: byte)
    requires |s| <= 9
    ensures Or(LittleEndian(s), ShiftLeft64(b % 128, 7 * |s|)) == LittleEndian(s + [b]) % TWO_64
  {
    LittleEndianBound(s);
    LittleEndianAppend(s, b);
    AddGroup(LittleEndian(s), b % 128, |s|);
  }

  lemma AddGroup(low: nat, k: nat, n: nat)
    requires n <= 9 && k < 128 && low < Pow2(7 * n)
    ensures Or(low, ShiftLeft64(k, 7 * n)) == (low + k * Pow2(7 * n)) % TWO_64
  {
    if n == 9 {
      TopBit(low, k);
    } else {
      Pow2Sum(7, 7 * n);
      Pow2Grows(7 + 7 * n, 63);
      Pow2Is64();
      LowGroup(low, k, 7 * n);
    }
  }

  lemma LowGroup(low: nat, k: nat, shift: nat)
    requires k < 128 && low < Pow2(shift) && 128 * Pow2(shift) <= TWO_64
    ensures Or(low, ShiftLeft64(k, shift)) == (low + k * Pow2(shift)) % TWO_64
  {
    hide Or, Pow2;
    var group := k * Pow2(shift);
    ProductFits(k, Pow2(shift));
    OrIsSum(low, k, shift);
    DropMultiple(0, group);
    DropMultiple(0, low + group);
  }

  lemma ProductFits(k: nat, p: nat)
    requires k < 128 && 128 * p <= TWO_64
    ensures k * p + p <= TWO_64
  {
    assert (k + 1) * p <= 128 * p;
  }

  /** Nine groups stay below 2^63, so nothing has been dropped yet. */
  lemma NineGroupsFit(s: seq<byte>)
    requires |s| <= 9
    ensures LittleEndian(s) % TWO_64 == LittleEndian(s)
  {
    LittleEndianBound(s);
    Pow2Grows(7 * |s|, 63);
    Pow2Is64();
    DropMultiple(0, LittleEndian(s));
  }

  /** The tenth group only has one bit left of the 64. */
  lemma TopBit(low: nat, k: nat)
    requires low < Pow2(63)
    ensures Or(low, ShiftLeft64(k, 63)) == (low + k * Pow2(63)) % TWO_64
  {
    Pow2Is64();
    hide Or, Pow2;
    var q, r := k / 2, k % 2;
    assert k * Pow2(63) == q * TWO_64 + r * Pow2(63);
    DropMultiple(q, r * Pow2(63));
    DropMultiple(q, low + r * Pow2(63));
    OrIsSum(low, r, 63);
  }

  lemma DropMultiple(q: nat, r: nat)
    requires r < TWO_64
    ensures (q * TWO_64 + r) % TWO_64 == r
  {
  }

  lemma {:induction false} Pow2Grows(m: nat, n: nat)
    requires m <= n
    ensures Pow2(m) <= Pow2(n)
  {
    if m < n {
      Pow2Grows(m, n - 1);
    }
  }

  /** The decoding loop: shifts seven bits at a time into an accumulator. */
  method DecodeVarint(dAtA: seq<byte>, start: nat) returns (r: Result<Read>)
    requires start <= |dAtA|
    ensures r == ReadVarint(dAtA, start)
  {
    var iNdEx, wire, shift := start, 0, 0;
    while true
      invariant start <= iNdEx <= |dAtA| && shift == 7 * (iNdEx - start) && iNdEx - start <= 10
      invariant Continuation(dAtA, start) == (iNdEx - start) + Continuation(dAtA, iNdEx)
      invariant iNdEx - start <= 9 ==> wire == LittleEndian(dAtA[start..iNdEx])
      decreases |dAtA| - iNdEx
    {
      if shift >= 64 {
        return Err(IntOverflow);
      }
      if iNdEx >= |dAtA| {
        return Err(UnexpectedEOF);
      }
      var b := dAtA[iNdEx];
      wire := NextGroup(dAtA, start, iNdEx, wire, shift, b);
      iNdEx := iNdEx + 1;
      if b < 128 {
        return Ok(Read(wire, iNdEx));
      }
      shift := shift + 7;
    }
  }

  /** The loop's accumulating assignment. */
  method NextGroup(ghost s: seq<byte>, ghost start: nat, ghost at: nat, wire: nat, shift: nat, b: byte)
    returns (next: nat)
    requires start <= at < |s| && at - start <= 9 && shift == 7 * (at - start) && s[at] == b
    requires wire == LittleEndian(s[start..at])
    ensures next == LittleEndian(s[start..at + 1]) % TWO_64
    ensures at - start <= 8 ==> next == LittleEndian(s[start..at + 1])
  {
    next := Or(wire, ShiftLeft64(b % 128, shift));
    Accumulate(s[start..at], b);
    assert s[start..at] + [b] == s[start..at + 1];
    if at - start <= 8 {
      NineGroupsFit(s[start..at + 1]);
    }
  }

  // ---------------------------------------------------------------- round trip

  lemma {:induction false} VarintValue(v: nat)
    ensures LittleEndian(VarintBytes(v)) == v
  {
    if v < 128 {
      assert VarintBytes(v)[1..] == [];
    } else {
      VarintValue(v / 128);
      assert VarintBytes(v)[1..] == VarintBytes(v / 128);
    }
  }

  lemma {:induction false} VarintFits(v: nat, k: nat)
    requires k >= 1 && v < Pow2(7 * k)
    ensures |VarintBytes(v)| <= k
  {
    if v >= 128 {
      Pow2Is64();
      assert k != 1;
      Pow2Sum(7, 7 * (k - 1));
      assert v < 128 * Pow2(7 * (k - 1));
      VarintFits(v / 128, k - 1);
    }
  }

  lemma {:induction false} VarintContinues(p: seq<byte>, v: nat, t: seq<byte>)
    ensures Continuation(p + VarintBytes(v) + t, |p|) == |VarintBytes(v)| - 1
    decreases v
  {
    var s := p + VarintBytes(v) + t;
    assert s[|p|] == VarintBytes(v)[0];
    if v >= 128 {
      var q := p + [v % 128 + 128];
      VarintContinues(q, v / 128, t);
      assert q + VarintBytes(v / 128) + t == s;
    }
  }

  /** Reading a varint back, wherever it stands in the input: every 64-bit
      number is read as itself, and the cursor ends right after it. */
  lemma VarintRoundTrip(p: seq<byte>, v: nat, t: seq<byte>)
    requires v < TWO_64
    ensures ReadVarint(p + VarintBytes(v) + t, |p|) == Ok(Read(v, |p| + |VarintBytes(v)|))
  {
    Pow2Is64();
    VarintFits(v, 10);
    VarintContinues(p, v, t);
    VarintValue(v);
    assert (p + VarintBytes(v) + t)[|p|..|p| + |VarintBytes(v)|] == VarintBytes(v);
  }

  // ------------------------------------------------------- the rest of the input

  lemma {:induction false} ContinuationInside(p: seq<byte>, s: seq<byte>, t: seq<byte>, at: nat)
    requires at <= |s| && at + Continuation(s, at) < |s|
    ensures Continuation(p + s + t, |p| + at) == Continuation(s, at)
    decreases |s| - at
  {
    if at < |s| {
      assert (p + s + t)[|p| + at] == s[at];
      if s[at] >= 128 {
        ContinuationInside(p, s, t, at + 1);
      }
    }
  }

  /** A varint reads the same whatever surrounds it. */
  lemma VarintInside(p: seq<byte>, s: seq<byte>, t: seq<byte>, at: nat)
    requires at <= |s| && ReadVarint(s, at).Ok?
    ensures ReadVarint(p + s + t, |p| + at)
            == Ok(Read(ReadVarint(s, at).value.number, |p| + ReadVarint(s, at).value.next))
  {
    ContinuationInside(p, s, t, at);
    var n := Continuation(s, at);
    assert (p + s + t)[|p| + at..|p| + at + n + 1] == s[at..at + n + 1];
  }
}
