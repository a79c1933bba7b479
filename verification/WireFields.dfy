/**
 The pieces every generated decoder of x/ratelimit is made of: a field's tag, a
 length-delimited value, and the skipping of a field the decoder does not know.

 Cursors are Go ints: an addition that leaves the 63-bit range turns negative,
 and the generated code tests for that.  The length of an input is such an int.
 */
module WireFields {
  import opened Basics
  import opened Varint

  const MAX_INT: nat := 0x7fff_ffff_ffff_ffff

  datatype Tag = Tag(fieldNum: int, wireType: nat, next: nat)

  /** Go's int(uint64). */
  function ToInt(u: nat): int
    requires u < TWO_64
  {
    if u <= MAX_INT then u else u - TWO_64
  }

  /** Go's int32(uint64): the low 32 bits, as a signed number. */
  function ToInt32(u: nat): int {
    var low := u % 0x1_0000_0000;
    if low < 0x8000_0000 then low else low - 0x1_0000_0000
  }

  /** Go's addition of two non-negative ints. */
  function AddInt(x: nat, y: nat): int
    requires x <= MAX_INT && y <= MAX_INT
  {
    if x + y <= MAX_INT then x + y else x + y - TWO_64
  }

  // ---------------------------------------------------------------------- tags

  function ReadTag(s: seq<byte>, at: nat): (r: Result<Tag>)
    requires at <= |s|
    ensures r.Ok? ==> at < r.value.next <= |s|
  {
    match ReadVarint(s, at)
    case Err(e) => Err(e)
    case Ok(wire) =>
      var fieldNum, wireType := ToInt32(wire.number / 8), wire.number % 8;
      if wireType == 4 then Err(EndGroupForNonGroup)
      else if fieldNum <= 0 then Err(IllegalTag)
      else Ok(Tag(fieldNum, wireType, wire.next))
  }

  method DecodeTag(dAtA: seq<byte>, start: nat) returns (r: Result<Tag>)
    requires start <= |dAtA|
    ensures r == ReadTag(dAtA, start)
  {
    var wire := DecodeVarint(dAtA, start);
    if wire.Err? {
      return Err(wire.error);
    }
    var fieldNum, wireType := ToInt32(wire.value.number / 8), wire.value.number % 8;
    if wireType == 4 {
      return Err(EndGroupForNonGroup);
    }
    if fieldNum <= 0 {
      return Err(IllegalTag);
    }
    r := Ok(Tag(fieldNum, wireType, wire.value.next));
  }

  // --------------------------------------------------- length-delimited values

  /** Where the bytes of a length-delimited value lie. */
  datatype Chunk = Chunk(start: nat, end: nat)

  function ReadChunk(s: seq<byte>, at: nat): (r: Result<Chunk>)
    requires at <= |s| <= MAX_INT
    ensures r.Ok? ==> at < r.value.start <= r.value.end <= |s|
  {
    match ReadVarint(s, at)
    case Err(e) => Err(e)
    case Ok(len) =>
      if ToInt(len.number) < 0 then Err(InvalidLength)
      else
        var post := AddInt(len.next, len.number);
        if post < 0 then Err(InvalidLength)
        else if post > |s| then Err(UnexpectedEOF)
        else Ok(Chunk(len.next, post))
  }

  method DecodeChunk(dAtA: seq<byte>, start: nat) returns (r: Result<Chunk>)
    requires start <= |dAtA| <= MAX_INT
    ensures r == ReadChunk(dAtA, start)
  {
    var len := DecodeVarint(dAtA, start);
    if len.Err? {
      return Err(len.error);
    }
    if ToInt(len.value.number) < 0 {
      return Err(InvalidLength);
    }
    var postIndex := AddInt(len.value.next, len.value.number);
    if postIndex < 0 {
      return Err(InvalidLength);
    }
    if postIndex > |dAtA| {
      return Err(UnexpectedEOF);
    }
    r := Ok(Chunk(len.value.next, postIndex));
  }

  // ------------------------------------------------------------ unknown fields

  /** Where the cursor stands after one item of a skipped field, and how many
      groups are then open; the cursor may lie beyond the input. */
  datatype Item = Item(next: nat, depth: nat)

  function SkipItem(s: seq<byte>, at: nat, depth: nat): (r: Result<Item>)
    requires at <= |s| <= MAX_INT
    ensures r.Ok? ==> at < r.value.next <= MAX_INT
  {
    match ReadVarint(s, at)
    case Err(e) => Err(e)
    case Ok(wire) =>
      match wire.number % 8
      case 0 =>
        (match ReadVarint(s, wire.next)
         case Err(e) => Err(e)
         case Ok(value) => Ok(Item(value.next, depth)))
      case 1 => Advance(wire.next, 8, depth)
      case 2 =>
        (match ReadVarint(s, wire.next)
         case Err(e) => Err(e)
         case Ok(len) =>
           if ToInt(len.number) < 0 then Err(InvalidLength)
           else Advance(len.next, len.number, depth))
      case 3 => Ok(Item(wire.next, depth + 1))
      case 4 =>
        if depth == 0 then Err(UnexpectedEndOfGroup)
        else Ok(Item(wire.next, depth - 1))
      case 5 => Advance(wire.next, 4, depth)
      case _ => Err(IllegalWireType)
  }

  function Advance(at: nat, step: nat, depth: nat): (r: Result<Item>)
    requires at <= MAX_INT && step <= MAX_INT
    ensures r.Ok? ==> r.value == Item(at + step, depth) && at + step <= MAX_INT
  {
    if AddInt(at, step) < 0 then Err(InvalidLength) else Ok(Item(at + step, depth))
  }

  /** Skips items until every opened group is closed. */
  function Skip(s: seq<byte>, at: nat, depth: nat): (r: Result<nat>)
    requires |s| <= MAX_INT
    ensures r.Ok? ==> at < r.value <= MAX_INT
    decreases |s| - at
  {
    if at >= |s| then Err(UnexpectedEOF)
    else
      match SkipItem(s, at, depth)
      case Err(e) => Err(e)
      case Ok(item) =>
        if item.depth == 0 then Ok(item.next) else Skip(s, item.next, item.depth)
  }

  method DecodeSkipItem(dAtA: seq<byte>, start: nat, depth: nat) returns (r: Result<Item>)
    requires start <= |dAtA| <= MAX_INT
    ensures r == SkipItem(dAtA, start, depth)
  {
    var wire := DecodeVarint(dAtA, start);
    if wire.Err? {
      return Err(wire.error);
    }
    match wire.value.number % 8 {
      case 0 =>
        var value := DecodeVarint(dAtA, wire.value.next);
        if value.Err? {
          return Err(value.error);
        }
        return Ok(Item(value.value.next, depth));
      case 1 =>
        return Advance(wire.value.next, 8, depth);
      case 2 =>
        var len := DecodeVarint(dAtA, wire.value.next);
        if len.Err? {
          return Err(len.error);
        }
        if ToInt(len.value.number) < 0 {
          return Err(InvalidLength);
        }
        return Advance(len.value.next, len.value.number, depth);
      case 3 =>
        return Ok(Item(wire.value.next, depth + 1));
      case 4 =>
        if depth == 0 {
          return Err(UnexpectedEndOfGroup);
        }
        return Ok(Item(wire.value.next, depth - 1));
      case 5 =>
        return Advance(wire.value.next, 4, depth);
      case _ =>
        return Err(IllegalWireType);
    }
  }

  method SkipUnknown(dAtA: seq<byte>) returns (r: Result<nat>)
    requires |dAtA| <= MAX_INT
    ensures r == Skip(dAtA, 0, 0)
  {
    var iNdEx, depth := 0, 0;
    while iNdEx < |dAtA|
      invariant Skip(dAtA, 0, 0) == Skip(dAtA, iNdEx, depth)
      decreases |dAtA| - iNdEx
    {
      var item := DecodeSkipItem(dAtA, iNdEx, depth);
      if item.Err? {
        return Err(item.error);
      }
      iNdEx, depth := item.value.next, item.value.depth;
      if depth == 0 {
        return Ok(iNdEx);
      }
    }
    r := Err(UnexpectedEOF);
  }

  /** The cursor after an unknown field, which is read again from its tag on. */
  function SkipField(s: seq<byte>, at: nat): (r: Result<nat>)
    requires at <= |s| <= MAX_INT
    ensures r.Ok? ==> at < r.value <= |s|
  {
    match Skip(s[at..], 0, 0)
    case Err(e) => Err(e)
    case Ok(n) =>
      var next := AddInt(at, n);
      if next < 0 then Err(InvalidLength)
      else if next > |s| then Err(UnexpectedEOF)
      else Ok(next)
  }

  method DecodeSkipField(dAtA: seq<byte>, start: nat) returns (r: Result<nat>)
    requires start <= |dAtA| <= MAX_INT
    ensures r == SkipField(dAtA, start)
  {
    var skippy := SkipUnknown(dAtA[start..]);
    if skippy.Err? {
      return Err(skippy.error);
    }
    var next := AddInt(start, skippy.value);
    if next < 0 {
      return Err(InvalidLength);
    }
    if next > |dAtA| {
      return Err(UnexpectedEOF);
    }
    r := Ok(next);
  }

  // ------------------------------------------ reading in the middle of an input

  lemma TagInside(p: seq<byte>, s: seq<byte>, t: seq<byte>, at: nat)
    requires at <= |s| && ReadTag(s, at).Ok?
    ensures var tag := ReadTag(s, at).value;
            ReadTag(p + s + t, |p| + at) == Ok(tag.(next := |p| + tag.next))
  {
    VarintInside(p, s, t, at);
    hide ReadVarint;
  }

  lemma ChunkInside(p: seq<byte>, s: seq<byte>, t: seq<byte>, at: nat)
    requires |p + s + t| <= MAX_INT
    requires at <= |s| && ReadChunk(s, at).Ok?
    ensures var c := ReadChunk(s, at).value;
            && ReadChunk(p + s + t, |p| + at) == Ok(Chunk(|p| + c.start, |p| + c.end))
            && (p + s + t)[|p| + c.start..|p| + c.end] == s[c.start..c.end]
  {
    VarintInside(p, s, t, at);
  }

  lemma SkipItemExtends(s: seq<byte>, t: seq<byte>, at: nat, depth: nat)
    requires |s + t| <= MAX_INT
    requires at <= |s| && SkipItem(s, at, depth).Ok?
    ensures SkipItem(s + t, at, depth) == SkipItem(s, at, depth)
  {
    VarintExtends(s, t, at);
    var wire := ReadVarint(s, at).value;
    if wire.number % 8 == 0 || wire.number % 8 == 2 {
      VarintExtends(s, t, wire.next);
    }
  }

  lemma VarintExtends(s: seq<byte>, t: seq<byte>, at: nat)
    requires at <= |s| && ReadVarint(s, at).Ok?
    ensures ReadVarint(s + t, at) == ReadVarint(s, at)
  {
    VarintInside([], s, t, at);
    assert [] + s + t == s + t;
  }

  /** Skipping that succeeds does not look at what follows. */
  lemma {:induction false} SkipExtends(s: seq<byte>, t: seq<byte>, at: nat, depth: nat)
    requires |s + t| <= MAX_INT && Skip(s, at, depth).Ok?
    ensures Skip(s + t, at, depth) == Skip(s, at, depth)
    decreases |s| - at
  {
    SkipItemExtends(s, t, at, depth);
    var item := SkipItem(s, at, depth).value;
    if item.depth != 0 {
      SkipExtends(s, t, item.next, item.depth);
    }
  }

  lemma SkipFieldInside(p: seq<byte>, s: seq<byte>, t: seq<byte>, at: nat)
    requires |p + s + t| <= MAX_INT
    requires at <= |s| && SkipField(s, at).Ok?
    ensures SkipField(p + s + t, |p| + at) == Ok(|p| + SkipField(s, at).value)
  {
    hide Skip;
    SkipExtends(s[at..], t, 0, 0);
    assert (p + s + t)[|p| + at..] == s[at..] + t;
  }

  // -------------------------------------------------------------- whole fields

  /** One field of a message: the bytes of a known length-delimited field, or a
      skipped one. */
  datatype Field = Known(fieldNum: int, chunk: Chunk) | Unknown(next: nat) {
    function Next(): nat {
      if Known? then chunk.end else next
    }
  }

  /** The field at the cursor, for a message whose fields 1 to `count` are
      length-delimited and which knows no others. */
  function ReadField(s: seq<byte>, at: nat, count: nat): (r: Result<Field>)
    requires at <= |s| <= MAX_INT
    ensures r.Ok? ==> at < r.value.Next() <= |s|
    ensures r.Ok? && r.value.Known? ==>
              1 <= r.value.fieldNum <= count && r.value.chunk.start <= r.value.chunk.end
  {
    match ReadTag(s, at)
    case Err(e) => Err(e)
    case Ok(tag) =>
      if tag.fieldNum <= count then
        if tag.wireType != 2 then Err(WrongWireType)
        else
          (match ReadChunk(s, tag.next)
           case Err(e) => Err(e)
           case Ok(c) => Ok(Known(tag.fieldNum, c)))
      else
        match SkipField(s, at)
        case Err(e) => Err(e)
        case Ok(next) => Ok(Unknown(next))
  }

  method DecodeField(dAtA: seq<byte>, start: nat, count: nat) returns (r: Result<Field>)
    requires start <= |dAtA| <= MAX_INT
    ensures r == ReadField(dAtA, start, count)
  {
    var tag := DecodeTag(dAtA, start);
    if tag.Err? {
      return Err(tag.error);
    }
    if tag.value.fieldNum <= count {
      if tag.value.wireType != 2 {
        return Err(WrongWireType);
      }
      var chunk := DecodeChunk(dAtA, tag.value.next);
      if chunk.Err? {
        return Err(chunk.error);
      }
      return Ok(Known(tag.value.fieldNum, chunk.value));
    }
    var next := DecodeSkipField(dAtA, start);
    if next.Err? {
      return Err(next.error);
    }
    r := Ok(Unknown(next.value));
  }

  /** A field and its bytes, moved by the length of what stands in front. */
  function Shift(f: Field, distance: nat): Field {
    match f
    case Known(k, c) => Known(k, Chunk(distance + c.start, distance + c.end))
    case Unknown(next) => Unknown(distance + next)
  }

  /** A field reads the same whatever surrounds it. */
  lemma FieldInside(p: seq<byte>, s: seq<byte>, t: seq<byte>, at: nat, count: nat)
    requires |p + s + t| <= MAX_INT
    requires at <= |s| && ReadField(s, at, count).Ok?
    ensures ReadField(p + s + t, |p| + at, count) == Ok(Shift(ReadField(s, at, count).value, |p|))
    ensures var f := ReadField(s, at, count).value;
            f.Known? ==> (p + s + t)[|p| + f.chunk.start..|p| + f.chunk.end]
                         == s[f.chunk.start..f.chunk.end]
  {
    hide ReadTag, ReadChunk, SkipField;
    TagInside(p, s, t, at);
    var tag := ReadTag(s, at).value;
    if tag.fieldNum <= count {
      ChunkInside(p, s, t, tag.next);
    } else {
      SkipFieldInside(p, s, t, at);
    }
  }
}
