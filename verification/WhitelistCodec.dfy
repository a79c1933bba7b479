/**
 The wire format of the whitelist messages of x/ratelimit: a pair of addresses,
 and the query response that repeats such pairs.  Marshalling fills a presized
 buffer from its end; unmarshalling merges fields into a receiver, which keeps
 what it had read when an error stops it.
 */
module WhitelistCodec {
  import opened Basics
  import opened Varint
  import opened WireFields

  type Bytes = seq<byte>

  datatype Pair = Pair(sender: Bytes, receiver: Bytes)

  /** What a decoder leaves in its receiver, and the error it returned, if any. */
  datatype Decoded<T> = Decoded(message: T, error: Option<Error>)

  const EMPTY_PAIR := Pair([], [])

  // ------------------------------------------------------------------ encoding

  /** A tag byte and a length. */
  function Header(tag: byte, len: nat): Bytes { [tag] + VarintBytes(len) }

  /** A length-delimited field: its tag byte, the length, the bytes. */
  function Delimited(tag: byte, body: Bytes): Bytes { Header(tag, |body|) + body }

  lemma DelimitedSize(tag: byte, body: Bytes)
    ensures |Header(tag, |body|)| == 1 + Sov(|body|)
    ensures |Delimited(tag, body)| == 1 + Sov(|body|) + |body|
  {
    SovIsLength(|body|);
  }

  /** Empty strings are not written at all. */
  function StringField(tag: byte, body: Bytes): Bytes {
    if |body| > 0 then Delimited(tag, body) else []
  }

  function EncodePair(m: Pair): Bytes {
    StringField(0x0a, m.sender) + StringField(0x12, m.receiver)
  }

  function EncodePairs(ms: seq<Pair>): Bytes {
    if ms == [] then [] else Delimited(0x0a, EncodePair(ms[0])) + EncodePairs(ms[1..])
  }

  /** The generated Size(), from the lengths alone. */
  function SizePair(m: Pair): nat {
    (if |m.sender| > 0 then 1 + |m.sender| + Sov(|m.sender|) else 0)
    + (if |m.receiver| > 0 then 1 + |m.receiver| + Sov(|m.receiver|) else 0)
  }

  function SizePairs(ms: seq<Pair>): nat {
    if ms == [] then 0
    else 1 + SizePair(ms[0]) + Sov(SizePair(ms[0])) + SizePairs(ms[1..])
  }

  lemma SizeOfPair(m: Pair)
    ensures SizePair(m) == |EncodePair(m)|
  {
    SovIsLength(|m.sender|);
    SovIsLength(|m.receiver|);
  }

  lemma {:induction false} SizeOfPairs(ms: seq<Pair>)
    ensures SizePairs(ms) == |EncodePairs(ms)|
  {
    if ms != [] {
      SizeOfPair(ms[0]);
      SovIsLength(SizePair(ms[0]));
      SizeOfPairs(ms[1..]);
    }
  }

  /** A buffer in which the bytes from `start` on have been overwritten. */
  function Splice(buffer: Bytes, start: nat, written: Bytes): Bytes
    requires start + |written| <= |buffer|
  {
    buffer[..start] + written + buffer[start + |written|..]
  }

  /** Writing in front of what was just written. */
  lemma SpliceInFront(buffer: Bytes, start: nat, first: Bytes, second: Bytes)
    requires start + |first| + |second| <= |buffer|
    ensures Splice(Splice(buffer, start + |first|, second), start, first)
            == Splice(buffer, start, first + second)
  {
  }

  /** A body with its header written in front of it. */
  lemma HeaderInFront(was: Bytes, mid: Bytes, now: Bytes, start: nat, tag: byte, body: Bytes)
    requires start + |Delimited(tag, body)| <= |was|
    requires mid == Splice(was, start + |Header(tag, |body|)|, body)
    requires now == Splice(mid, start, Header(tag, |body|))
    ensures now == Splice(was, start, Delimited(tag, body))
  {
    hide Header;
    SpliceInFront(was, start, Header(tag, |body|), body);
  }

  /** The receiver's field with the sender's written in front of it. */
  lemma SenderInFront(was: Bytes, mid: Bytes, now: Bytes, start: nat, m: Pair)
    requires start + |EncodePair(m)| <= |was|
    requires mid == Splice(was, start + |StringField(0x0a, m.sender)|, StringField(0x12, m.receiver))
    requires now == Splice(mid, start, StringField(0x0a, m.sender))
    ensures now == Splice(was, start, EncodePair(m))
  {
    hide StringField;
    SpliceInFront(was, start, StringField(0x0a, m.sender), StringField(0x12, m.receiver));
  }

  lemma PairSize(m: Pair)
    ensures SizePair(m) == |EncodePair(m)| == |StringField(0x0a, m.sender)| + |StringField(0x12, m.receiver)|
  {
    SizeOfPair(m);
  }

  lemma SpliceNothing(buffer: Bytes, start: nat)
    requires start <= |buffer|
    ensures Splice(buffer, start, []) == buffer
  {
  }

  /** Writes a length and a tag byte in front of a body that is already there. */
  method WriteHeader(dAtA: array<byte>, i: nat, tag: byte, len: nat) returns (start: nat)
    requires 1 + Sov(len) <= i <= dAtA.Length
    modifies dAtA
    ensures start == i - (1 + Sov(len))
    ensures |Header(tag, len)| == 1 + Sov(len)
    ensures dAtA[..] == Splice(old(dAtA[..]), start, Header(tag, len))
  {
    SovIsLength(len);
    hide Sov;
    ghost var was := dAtA[..];
    start := EncodeVarint(dAtA, i, len);
    assert dAtA[..] == Splice(was, start, VarintBytes(len)) by {
      assert dAtA[..] == dAtA[..start] + dAtA[start..i] + dAtA[i..];
    }
    ghost var mid := dAtA[..];
    start := start - 1;
    dAtA[start] := tag;
    assert dAtA[..] == Splice(mid, start, [tag]);
    SpliceInFront(was, start, [tag], VarintBytes(len));
  }

  /** Writes one length-delimited field so that it ends at `end`. */
  method WriteDelimited(dAtA: array<byte>, end: nat, tag: byte, body: Bytes) returns (start: nat)
    requires 1 + |body| + Sov(|body|) <= end <= dAtA.Length
    modifies dAtA
    ensures start == end - (1 + |body| + Sov(|body|))
    ensures start + |Delimited(tag, body)| == end
    ensures dAtA[..] == Splice(old(dAtA[..]), start, Delimited(tag, body))
  {
    hide Sov, VarintBytes, Header, Delimited;
    DelimitedSize(tag, body);
    ghost var was := dAtA[..];
    var i := end - |body|;
    forall k | 0 <= k < |body| {
      dAtA[i + k] := body[k];
    }
    ghost var mid := dAtA[..];
    assert mid == Splice(was, i, body);
    hide Splice;
    start := WriteHeader(dAtA, i, tag, |body|);
    HeaderInFront(was, mid, dAtA[..], start, tag, body);
  }

  /** Writes a string field, unless the string is empty. */
  method WriteString(dAtA: array<byte>, end: nat, tag: byte, body: Bytes) returns (start: nat)
    requires |StringField(tag, body)| <= end <= dAtA.Length
    modifies dAtA
    ensures start + |StringField(tag, body)| == end
    ensures dAtA[..] == Splice(old(dAtA[..]), start, StringField(tag, body))
  {
    SovIsLength(|body|);
    hide Sov, VarintBytes;
    start := end;
    if |body| > 0 {
      start := WriteDelimited(dAtA, end, tag, body);
    } else {
      SpliceNothing(dAtA[..], end);
    }
  }

  /** Fills the buffer backwards from `end`; returns the number of bytes. */
  method MarshalPairToSizedBuffer(m: Pair, dAtA: array<byte>, end: nat) returns (n: nat)
    requires SizePair(m) <= end <= dAtA.Length
    modifies dAtA
    ensures n == SizePair(m) == |EncodePair(m)|
    ensures dAtA[..] == Splice(old(dAtA[..]), end - n, EncodePair(m))
  {
    hide *;
    PairSize(m);
    ghost var was := dAtA[..];
    var i := WriteString(dAtA, end, 0x12, m.receiver);
    ghost var mid := dAtA[..];
    i := WriteString(dAtA, i, 0x0a, m.sender);
    SenderInFront(was, mid, dAtA[..], i, m);
    n := end - i;
  }

  method MarshalPair(m: Pair) returns (dAtA: array<byte>)
    ensures fresh(dAtA) && dAtA[..] == EncodePair(m)
  {
    dAtA := new byte[SizePair(m)];
    var n := MarshalPairToSizedBuffer(m, dAtA, dAtA.Length);
    assert n == dAtA.Length;
  }

  lemma {:induction false} SizeOfSuffix(ms: seq<Pair>, k: nat)
    requires k <= |ms|
    ensures SizePairs(ms[k..]) <= SizePairs(ms)
  {
    if k == 0 {
      assert ms[0..] == ms;
    } else {
      SizeOfSuffix(ms[1..], k - 1);
      assert ms[1..][k - 1..] == ms[k..];
    }
  }

  /** Writes one nested message with its length and tag so that it ends at `end`. */
  method WriteNested(dAtA: array<byte>, end: nat, m: Pair) returns (start: nat)
    requires 1 + SizePair(m) + Sov(SizePair(m)) <= end <= dAtA.Length
    modifies dAtA
    ensures start == end - (1 + SizePair(m) + Sov(SizePair(m)))
    ensures start + |Delimited(0x0a, EncodePair(m))| == end
    ensures dAtA[..] == Splice(old(dAtA[..]), start, Delimited(0x0a, EncodePair(m)))
  {
    hide *;
    PairSize(m);
    DelimitedSize(0x0a, EncodePair(m));
    ghost var was := dAtA[..];
    var size := MarshalPairToSizedBuffer(m, dAtA, end);
    ghost var mid := dAtA[..];
    start := WriteHeader(dAtA, end - size, 0x0a, size);
    HeaderInFront(was, mid, dAtA[..], start, 0x0a, EncodePair(m));
  }

  lemma NoPairs()
    ensures EncodePairs([]) == [] && SizePairs([]) == 0
  {
  }

  lemma SuffixStep(ms: seq<Pair>, k: nat)
    requires k < |ms|
    ensures SizePairs(ms[k..]) == 1 + SizePair(ms[k]) + Sov(SizePair(ms[k])) + SizePairs(ms[k + 1..])
    ensures EncodePairs(ms[k..]) == Delimited(0x0a, EncodePair(ms[k])) + EncodePairs(ms[k + 1..])
    ensures SizePairs(ms[k..]) <= SizePairs(ms)
  {
    SizeOfSuffix(ms, k);
    var rest := ms[k..];
    assert rest[0] == ms[k] && rest[1..] == ms[k + 1..];
  }

  /** Fills the buffer backwards, last pair first; returns the number of bytes. */
  method MarshalPairsToSizedBuffer(ms: seq<Pair>, dAtA: array<byte>) returns (n: nat)
    requires SizePairs(ms) <= dAtA.Length
    modifies dAtA
    ensures n == SizePairs(ms) == |EncodePairs(ms)|
    ensures dAtA[..] == Splice(old(dAtA[..]), dAtA.Length - n, EncodePairs(ms))
  {
    hide *;
    SizeOfPairs(ms);
    var i, iNdEx := dAtA.Length, |ms| - 1;
    assert ms[iNdEx + 1..] == [];
    NoPairs();
    SpliceNothing(dAtA[..], i);
    while iNdEx >= 0
      invariant -1 <= iNdEx < |ms|
      invariant i == dAtA.Length - SizePairs(ms[iNdEx + 1..]) >= 0
      invariant i + |EncodePairs(ms[iNdEx + 1..])| == dAtA.Length
      invariant dAtA[..] == Splice(old(dAtA[..]), i, EncodePairs(ms[iNdEx + 1..]))
    {
      SuffixStep(ms, iNdEx);
      i := WriteNested(dAtA, i, ms[iNdEx]);
      SpliceInFront(old(dAtA[..]), i, Delimited(0x0a, EncodePair(ms[iNdEx])), EncodePairs(ms[iNdEx + 1..]));
      iNdEx := iNdEx - 1;
    }
    assert ms[0..] == ms;
    n := dAtA.Length - i;
  }

  /** The whole message: the backward cursor ends at the start of the buffer. */
  method MarshalPairs(ms: seq<Pair>) returns (dAtA: array<byte>)
    ensures fresh(dAtA) && dAtA.Length == SizePairs(ms) && dAtA[..] == EncodePairs(ms)
  {
    dAtA := new byte[SizePairs(ms)];
    var n := MarshalPairsToSizedBuffer(ms, dAtA);
    assert n == dAtA.Length;
  }

  // ------------------------------------------------------------------ decoding

  /** Merges the fields from the cursor on into a pair. */
  function DecodePair(s: Bytes, at: nat, m: Pair): Decoded<Pair>
    requires at <= |s| <= MAX_INT
    decreases |s| - at
  {
    if at == |s| then Decoded(m, None)
    else
      match ReadField(s, at, 2)
      case Err(e) => Decoded(m, Some(e))
      case Ok(f) => DecodePair(s, f.Next(), MergePair(s, f, m))
  }

  function MergePair(s: Bytes, f: Field, m: Pair): Pair
    requires f.Known? ==> f.chunk.start <= f.chunk.end <= |s|
  {
    match f
    case Unknown(_) => m
    case Known(k, c) =>
      if k == 1 then m.(sender := s[c.start..c.end]) else m.(receiver := s[c.start..c.end])
  }

  /** Merges the fields from the cursor on into a list of pairs; a pair whose
      decoding fails has been appended by then. */
  function DecodePairs(s: Bytes, at: nat, ms: seq<Pair>): Decoded<seq<Pair>>
    requires at <= |s| <= MAX_INT
    decreases |s| - at
  {
    if at == |s| then Decoded(ms, None)
    else
      match ReadField(s, at, 1)
      case Err(e) => Decoded(ms, Some(e))
      case Ok(f) =>
        var merged := MergePairs(s, f, ms);
        if merged.error.Some? then merged else DecodePairs(s, f.Next(), merged.message)
  }

  function MergePairs(s: Bytes, f: Field, ms: seq<Pair>): Decoded<seq<Pair>>
    requires |s| <= MAX_INT
    requires f.Known? ==> f.chunk.start <= f.chunk.end <= |s|
  {
    match f
    case Unknown(_) => Decoded(ms, None)
    case Known(_, c) =>
      var nested := DecodePair(s[c.start..c.end], 0, EMPTY_PAIR);
      Decoded(ms + [nested.message], nested.error)
  }

  class WhitelistedAddressPair {
    var sender: Bytes
    var receiver: Bytes

    constructor ()
      ensures Value() == EMPTY_PAIR
    {
      sender, receiver := [], [];
    }

    function Value(): Pair
      reads this
    {
      Pair(sender, receiver)
    }

    /** Total on every input: the receiver ends up as DecodePair says, and so
        does the error. */
    method Unmarshal(dAtA: Bytes) returns (error: Option<Error>)
      requires |dAtA| <= MAX_INT
      modifies this
      ensures Decoded(Value(), error) == DecodePair(dAtA, 0, old(Value()))
    {
      var iNdEx := 0;
      while iNdEx < |dAtA|
        invariant iNdEx <= |dAtA|
        invariant DecodePair(dAtA, 0, old(Value())) == DecodePair(dAtA, iNdEx, Value())
        decreases |dAtA| - iNdEx
      {
        var field := DecodeField(dAtA, iNdEx, 2);
        match field {
          case Err(e) =>
            return Some(e);
          case Ok(f) =>
            if f.Known? {
              if f.fieldNum == 1 {
                sender := dAtA[f.chunk.start..f.chunk.end];
              } else {
                receiver := dAtA[f.chunk.start..f.chunk.end];
              }
            }
            iNdEx := f.Next();
        }
      }
      error := None;
    }
  }

  class AllWhitelistedAddresses {
    var addressPairs: seq<Pair>

    constructor ()
      ensures addressPairs == []
    {
      addressPairs := [];
    }

    method Unmarshal(dAtA: Bytes) returns (error: Option<Error>)
      requires |dAtA| <= MAX_INT
      modifies this
      ensures Decoded(addressPairs, error) == DecodePairs(dAtA, 0, old(addressPairs))
    {
      var iNdEx := 0;
      while iNdEx < |dAtA|
        invariant iNdEx <= |dAtA|
        invariant DecodePairs(dAtA, 0, old(addressPairs)) == DecodePairs(dAtA, iNdEx, addressPairs)
        decreases |dAtA| - iNdEx
      {
        var field := DecodeField(dAtA, iNdEx, 1);
        match field {
          case Err(e) =>
            return Some(e);
          case Ok(f) =>
            if f.Known? {
              var pair := new WhitelistedAddressPair();
              var nested := pair.Unmarshal(dAtA[f.chunk.start..f.chunk.end]);
              addressPairs := addressPairs + [pair.Value()];
              if nested.Some? {
                return nested;
              }
            }
            iNdEx := f.Next();
        }
      }
      error := None;
    }
  }

  // ------------------------------------------------------- concatenation merges

  lemma PairEnd(s: Bytes, m: Pair)
    requires |s| <= MAX_INT
    ensures DecodePair(s, |s|, m) == Decoded(m, None)
  {
  }

  lemma PairsEnd(s: Bytes, ms: seq<Pair>)
    requires |s| <= MAX_INT
    ensures DecodePairs(s, |s|, ms) == Decoded(ms, None)
  {
  }

  /** One decoded field, on its own and inside a longer input. */
  lemma PairStep(p: Bytes, s: Bytes, t: Bytes, at: nat, m: Pair) returns (next: nat, merged: Pair)
    requires at < |s| && |p + s + t| <= MAX_INT && DecodePair(s, at, m).error.None?
    ensures at < next <= |s|
    ensures DecodePair(s, at, m) == DecodePair(s, next, merged)
    ensures DecodePair(p + s + t, |p| + at, m) == DecodePair(p + s + t, |p| + next, merged)
  {
    hide ReadField;
    var f := ReadField(s, at, 2).value;
    FieldInside(p, s, t, at, 2);
    next, merged := f.Next(), MergePair(s, f, m);
    assert MergePair(p + s + t, Shift(f, |p|), m) == merged;
  }

  /** Decoding a message that stands at the end of a longer input. */
  lemma {:induction false} PairAfter(p: Bytes, s: Bytes, at: nat, m: Pair)
    requires at <= |s| && |p + s| <= MAX_INT && DecodePair(s, at, m).error.None?
    ensures DecodePair(p + s, |p| + at, m) == DecodePair(s, at, m)
    decreases |s| - at
  {
    hide *;
    if at == |s| {
      PairEnd(s, m);
      PairEnd(p + s, m);
      return;
    }
    assert p + s + [] == p + s;
    var next, merged := PairStep(p, s, [], at, m);
    PairAfter(p, s, next, merged);
  }

  /** Decoding an input whose first part is a whole message. */
  lemma {:induction false} PairBefore(s: Bytes, t: Bytes, at: nat, m: Pair)
    requires at <= |s| && |s + t| <= MAX_INT && DecodePair(s, at, m).error.None?
    ensures DecodePair(s + t, at, m) == DecodePair(s + t, |s|, DecodePair(s, at, m).message)
    decreases |s| - at
  {
    hide *;
    if at == |s| {
      PairEnd(s, m);
      return;
    }
    assert [] + s + t == s + t;
    var next, merged := PairStep([], s, t, at, m);
    PairBefore(s, t, next, merged);
  }

  /** Concatenating two encodings merges the messages. */
  lemma PairConcat(s: Bytes, t: Bytes, m: Pair)
    requires |s + t| <= MAX_INT
    requires DecodePair(s, 0, m).error.None?
    requires DecodePair(t, 0, DecodePair(s, 0, m).message).error.None?
    ensures DecodePair(s + t, 0, m) == DecodePair(t, 0, DecodePair(s, 0, m).message)
  {
    PairBefore(s, t, 0, m);
    PairAfter(s, t, 0, DecodePair(s, 0, m).message);
  }

  lemma PairsStep(p: Bytes, s: Bytes, t: Bytes, at: nat, ms: seq<Pair>)
    returns (next: nat, merged: seq<Pair>)
    requires at < |s| && |p + s + t| <= MAX_INT && DecodePairs(s, at, ms).error.None?
    ensures at < next <= |s|
    ensures DecodePairs(s, at, ms) == DecodePairs(s, next, merged)
    ensures DecodePairs(p + s + t, |p| + at, ms) == DecodePairs(p + s + t, |p| + next, merged)
  {
    hide ReadField, DecodePair;
    var f := ReadField(s, at, 1).value;
    FieldInside(p, s, t, at, 1);
    next, merged := f.Next(), MergePairs(s, f, ms).message;
    assert MergePairs(p + s + t, Shift(f, |p|), ms) == MergePairs(s, f, ms);
  }

  lemma {:induction false} PairsAfter(p: Bytes, s: Bytes, at: nat, ms: seq<Pair>)
    requires at <= |s| && |p + s| <= MAX_INT && DecodePairs(s, at, ms).error.None?
    ensures DecodePairs(p + s, |p| + at, ms) == DecodePairs(s, at, ms)
    decreases |s| - at
  {
    hide *;
    if at == |s| {
      PairsEnd(s, ms);
      PairsEnd(p + s, ms);
      return;
    }
    assert p + s + [] == p + s;
    var next, merged := PairsStep(p, s, [], at, ms);
    PairsAfter(p, s, next, merged);
  }

  lemma {:induction false} PairsBefore(s: Bytes, t: Bytes, at: nat, ms: seq<Pair>)
    requires at <= |s| && |s + t| <= MAX_INT && DecodePairs(s, at, ms).error.None?
    ensures DecodePairs(s + t, at, ms) == DecodePairs(s + t, |s|, DecodePairs(s, at, ms).message)
    decreases |s| - at
  {
    hide *;
    if at == |s| {
      PairsEnd(s, ms);
      return;
    }
    assert [] + s + t == s + t;
    var next, merged := PairsStep([], s, t, at, ms);
    PairsBefore(s, t, next, merged);
  }

  /** Concatenating two encoded responses concatenates what they hold. */
  lemma PairsConcat(s: Bytes, t: Bytes, ms: seq<Pair>)
    requires |s + t| <= MAX_INT
    requires DecodePairs(s, 0, ms).error.None?
    requires DecodePairs(t, 0, DecodePairs(s, 0, ms).message).error.None?
    ensures DecodePairs(s + t, 0, ms) == DecodePairs(t, 0, DecodePairs(s, 0, ms).message)
  {
    PairsBefore(s, t, 0, ms);
    PairsAfter(s, t, 0, DecodePairs(s, 0, ms).message);
  }

  /** A whole field that a message with `count` fields does not know. */
  predicate UnknownField(u: Bytes, count: nat) {
    0 < |u| <= MAX_INT && ReadField(u, 0, count) == Ok(Unknown(|u|))
  }

  /** An unknown field between the fields of a pair changes nothing. */
  lemma UnknownFieldInPair(s: Bytes, u: Bytes, t: Bytes, m: Pair)
    requires |s + u + t| <= MAX_INT && UnknownField(u, 2)
    requires DecodePair(s, 0, m).error.None?
    requires DecodePair(t, 0, DecodePair(s, 0, m).message).error.None?
    ensures DecodePair(s + u + t, 0, m) == DecodePair(s + t, 0, m)
  {
    var mid := DecodePair(s, 0, m).message;
    assert DecodePair(u, 0, mid) == Decoded(mid, None);
    PairConcat(s, u, m);
    PairConcat(s + u, t, m);
    PairConcat(s, t, m);
  }

  /** An unknown field between the fields of a response changes nothing. */
  lemma UnknownFieldInPairs(s: Bytes, u: Bytes, t: Bytes, ms: seq<Pair>)
    requires |s + u + t| <= MAX_INT && UnknownField(u, 1)
    requires DecodePairs(s, 0, ms).error.None?
    requires DecodePairs(t, 0, DecodePairs(s, 0, ms).message).error.None?
    ensures DecodePairs(s + u + t, 0, ms) == DecodePairs(s + t, 0, ms)
  {
    var mid := DecodePairs(s, 0, ms).message;
    assert DecodePairs(u, 0, mid) == Decoded(mid, None);
    PairsConcat(s, u, ms);
    PairsConcat(s + u, t, ms);
    PairsConcat(s, t, ms);
  }

  // ---------------------------------------------------------------- round trip

  /** Reading back one length-delimited field. */
  lemma DelimitedIsField(fieldNum: nat, body: Bytes, count: nat)
    requires 1 <= fieldNum <= count && fieldNum <= 2
    requires |Delimited(8 * fieldNum + 2, body)| <= MAX_INT
    ensures var s := Delimited(8 * fieldNum + 2, body);
            && ReadField(s, 0, count) == Ok(Known(fieldNum, Chunk(|s| - |body|, |s|)))
            && s[|s| - |body|..|s|] == body
  {
    var tag: byte := 8 * fieldNum + 2;
    var s := Delimited(tag, body);
    HeaderReads(tag, body);
    hide ReadVarint, VarintBytes, SkipField;
    assert ReadTag(s, 0) == Ok(Tag(fieldNum, 2, 1));
    assert ReadChunk(s, 1) == Ok(Chunk(|s| - |body|, |s|));
  }

  lemma HeaderReads(tag: byte, body: Bytes)
    requires tag < 128 && |body| <= MAX_INT
    ensures var s := Delimited(tag, body);
            && ReadVarint(s, 0) == Ok(Read(tag, 1))
            && ReadVarint(s, 1) == Ok(Read(|body|, |s| - |body|))
  {
    var s := Delimited(tag, body);
    assert VarintBytes(tag) == [tag];
    assert s == [tag] + VarintBytes(|body|) + body;
    hide *;
    assert s == [] + VarintBytes(tag) + (VarintBytes(|body|) + body);
    VarintRoundTrip([], tag, VarintBytes(|body|) + body);
    VarintRoundTrip([tag], |body|, body);
  }

  /** One string field on its own sets that field. */
  lemma StringFieldDecodes(fieldNum: nat, body: Bytes, m: Pair)
    requires fieldNum == 1 || fieldNum == 2
    requires |StringField(8 * fieldNum + 2, body)| <= MAX_INT
    requires |body| == 0 ==> (if fieldNum == 1 then m.sender else m.receiver) == []
    ensures DecodePair(StringField(8 * fieldNum + 2, body), 0, m)
            == Decoded(if fieldNum == 1 then m.(sender := body) else m.(receiver := body), None)
  {
    if |body| > 0 {
      DelimitedIsField(fieldNum, body, 2);
    }
  }

  /** Decoding what was encoded gives the pair back. */
  lemma PairRoundTrip(m: Pair)
    requires |EncodePair(m)| <= MAX_INT
    ensures DecodePair(EncodePair(m), 0, EMPTY_PAIR) == Decoded(m, None)
  {
    StringFieldDecodes(1, m.sender, EMPTY_PAIR);
    StringFieldDecodes(2, m.receiver, Pair(m.sender, []));
    PairConcat(StringField(0x0a, m.sender), StringField(0x12, m.receiver), EMPTY_PAIR);
  }

  /** Decoding what was encoded gives the list of pairs back, behind whatever the
      receiver held before. */
  lemma {:induction false} PairsRoundTrip(ms: seq<Pair>, before: seq<Pair>)
    requires |EncodePairs(ms)| <= MAX_INT
    ensures DecodePairs(EncodePairs(ms), 0, before) == Decoded(before + ms, None)
    decreases ms
  {
    hide *;
    if ms == [] {
      NothingDecodes(before);
      assert before + ms == before;
      return;
    }
    EncodeFirst(ms);
    FirstPairDecodes(ms[0], before);
    PairsRoundTrip(ms[1..], before + [ms[0]]);
    assert before + [ms[0]] + ms[1..] == before + ms;
    PairsConcat(Delimited(0x0a, EncodePair(ms[0])), EncodePairs(ms[1..]), before);
  }

  lemma NothingDecodes(before: seq<Pair>)
    ensures EncodePairs([]) == [] && DecodePairs([], 0, before) == Decoded(before, None)
  {
  }

  lemma EncodeFirst(ms: seq<Pair>)
    requires ms != []
    ensures EncodePairs(ms) == Delimited(0x0a, EncodePair(ms[0])) + EncodePairs(ms[1..])
  {
  }

  lemma FirstPairDecodes(m: Pair, before: seq<Pair>)
    requires |Delimited(0x0a, EncodePair(m))| <= MAX_INT
    ensures DecodePairs(Delimited(0x0a, EncodePair(m)), 0, before) == Decoded(before + [m], None)
  {
    var body := EncodePair(m);
    PairRoundTrip(m);
    DelimitedIsField(1, body, 1);
    hide ReadField, DecodePair, EncodePair, Delimited;
    OneField(Delimited(0x0a, body), m, before);
  }

  /** A message of one field that holds the encoding of a pair. */
  lemma OneField(s: Bytes, m: Pair, before: seq<Pair>)
    requires 0 < |s| <= MAX_INT && ReadField(s, 0, 1).Ok? && ReadField(s, 0, 1).value.Known?
    requires var f := ReadField(s, 0, 1).value;
             && f.fieldNum == 1 && f.chunk.end == |s| && s[f.chunk.start..f.chunk.end] == EncodePair(m)
    requires DecodePair(EncodePair(m), 0, EMPTY_PAIR) == Decoded(m, None)
    ensures DecodePairs(s, 0, before) == Decoded(before + [m], None)
  {
    hide ReadField, DecodePair, EncodePair;
    var f := ReadField(s, 0, 1).value;
    assert MergePairs(s, f, before) == Decoded(before + [m], None);
    PairsEnd(s, before + [m]);
  }

  /** Marshalling into a fresh buffer and unmarshalling it again. */
  method RoundTrip(ms: seq<Pair>) returns (copy: AllWhitelistedAddresses, error: Option<Error>)
    requires SizePairs(ms) <= MAX_INT
    ensures error.None? && copy.addressPairs == ms
  {
    SizeOfPairs(ms);
    var dAtA := MarshalPairs(ms);
    copy := new AllWhitelistedAddresses();
    error := copy.Unmarshal(dAtA[..]);
    PairsRoundTrip(ms, []);
    assert [] + ms == ms;
  }
}
