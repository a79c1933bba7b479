/**
 What the generated decoders accept, as a grammar of bytes rather than as a program:
 a field is a tag and, by the tag's wire type, a varint, eight bytes, a length with
 that many bytes, a group of fields with an end tag, or four bytes.
 */
module WireGrammar {
  import opened Basics
  import opened Varint
  import opened WireFields

  /** A varint of any length the code reads: up to ten bytes, all but the last with
      the high bit set. */
  predicate IsVarint(raw: seq<byte>) {
    && 1 <= |raw| <= 10 && raw[|raw| - 1] < 128
    && forall i :: 0 <= i < |raw| - 1 ==> raw[i] >= 128
  }

  /** The 64 bits a varint stands for. */
  function Meaning(raw: seq<byte>): nat { LittleEndian(raw) % TWO_64 }

  function WireType(tag: seq<byte>): nat { Meaning(tag) % 8 }

  function FieldNumber(tag: seq<byte>): int { ToInt32(Meaning(tag) / 8) }

  datatype WireField =
    | Number(tag: seq<byte>, raw: seq<byte>)
    | Fixed(tag: seq<byte>, body: seq<byte>)
    | Delimited(tag: seq<byte>, length: seq<byte>, body: seq<byte>)
    | Group(tag: seq<byte>, fields: FieldList, end: seq<byte>)

  datatype FieldList = Nil | Cons(head: WireField, tail: FieldList)

  function Bytes(f: WireField): seq<byte> {
    match f
    case Number(tag, raw) => tag + raw
    case Fixed(tag, body) => tag + body
    case Delimited(tag, length, body) => tag + length + body
    case Group(tag, fields, end) => tag + AllBytes(fields) + end
  }

  function AllBytes(fields: FieldList): seq<byte> {
    match fields
    case Nil => []
    case Cons(f, rest) => Bytes(f) + AllBytes(rest)
  }

  /** A field and its wire type; the number in a group's end tag is not compared with
      the one in its start tag. */
  predicate WellFormed(f: WireField) {
    && IsVarint(f.tag)
    && match f
       case Number(tag, raw) => WireType(tag) == 0 && IsVarint(raw)
       case Fixed(tag, body) => (WireType(tag) == 1 && |body| == 8) || (WireType(tag) == 5 && |body| == 4)
       case Delimited(tag, length, body) => WireType(tag) == 2 && IsVarint(length) && Meaning(length) == |body|
       case Group(tag, fields, end) =>
         WireType(tag) == 3 && AllWellFormed(fields) && IsVarint(end) && WireType(end) == 4
  }

  predicate AllWellFormed(fields: FieldList) {
    match fields
    case Nil => true
    case Cons(f, rest) => WellFormed(f) && AllWellFormed(rest)
  }

  // ------------------------------------------------------------- places in an input

  /** These bytes stand at this place. */
  predicate At(s: seq<byte>, at: nat, u: seq<byte>) {
    at + |u| <= |s| && s[at..at + |u|] == u
  }

  lemma AtSplits(s: seq<byte>, at: nat, u: seq<byte>, v: seq<byte>)
    ensures At(s, at, u + v) <==> At(s, at, u) && At(s, at + |u|, v)
  {
    if at + |u| + |v| <= |s| {
      assert s[at..at + |u + v|] == s[at..at + |u|] + s[at + |u|..at + |u| + |v|];
      if At(s, at, u + v) {
        assert s[at..at + |u|] == (u + v)[..|u|] && s[at + |u|..at + |u| + |v|] == (u + v)[|u|..];
      }
    }
  }

  // ------------------------------------------------------------------- varints

  lemma {:induction false} ContinuationOf(s: seq<byte>, at: nat, last: nat)
    requires at <= last < |s| && s[last] < 128 && forall i :: at <= i < last ==> s[i] >= 128
    ensures Continuation(s, at) == last - at
    decreases last - at
  {
    if at < last {
      ContinuationOf(s, at + 1, last);
    }
  }

  /** A varint is read as what it means, wherever it stands. */
  lemma ReadsVarint(s: seq<byte>, at: nat, raw: seq<byte>)
    requires IsVarint(raw) && At(s, at, raw)
    ensures ReadVarint(s, at) == Ok(Read(Meaning(raw), at + |raw|))
  {
    forall i | 0 <= i < |raw|
      ensures s[at + i] == raw[i]
    {
      assert s[at..at + |raw|][i] == s[at + i];
    }
    forall i | at <= i < at + |raw| - 1
      ensures s[i] >= 128
    {
      assert s[at + (i - at)] == raw[i - at];
    }
    ContinuationOf(s, at, at + |raw| - 1);
  }

  lemma {:induction false} ContinuationBytes(s: seq<byte>, at: nat)
    requires at <= |s|
    ensures forall i :: at <= i < at + Continuation(s, at) ==> s[i] >= 128
    ensures at + Continuation(s, at) < |s| ==> s[at + Continuation(s, at)] < 128
    decreases |s| - at
  {
    if at < |s| && s[at] >= 128 {
      ContinuationBytes(s, at + 1);
    }
  }

  /** And whatever is read is one. */
  lemma VarintRead(s: seq<byte>, at: nat) returns (raw: seq<byte>)
    requires at <= |s| && ReadVarint(s, at).Ok?
    ensures IsVarint(raw) && At(s, at, raw)
    ensures ReadVarint(s, at) == Ok(Read(Meaning(raw), at + |raw|))
  {
    ContinuationBytes(s, at);
    raw := s[at..ReadVarint(s, at).value.next];
  }

  // ----------------------------------------------------- what is well-formed is skipped

  /** The item a field starts with. */
  lemma FirstItem(s: seq<byte>, at: nat, f: WireField, depth: nat)
    requires WellFormed(f) && At(s, at, Bytes(f)) && |s| <= MAX_INT
    ensures SkipItem(s, at, depth)
            == Ok(if f.Group? then Item(at + |f.tag|, depth + 1) else Item(at + |Bytes(f)|, depth))
    ensures |Bytes(f)| >= 1
  {
    hide At, ReadVarint, IsVarint, AllBytes, AllWellFormed, Meaning;
    WithinInput(s, at, Bytes(f));
    match f {
      case Number(tag, raw) =>
        AtSplits(s, at, tag, raw);
        ReadsVarint(s, at, tag);
        ReadsVarint(s, at + |tag|, raw);
      case Fixed(tag, body) =>
        AtSplits(s, at, tag, body);
        ReadsVarint(s, at, tag);
      case Delimited(tag, length, body) =>
        AtSplits(s, at, tag + length, body);
        AtSplits(s, at, tag, length);
        ReadsVarint(s, at, tag);
        ReadsVarint(s, at + |tag|, length);
      case Group(tag, fields, end) =>
        AtSplits(s, at, tag + AllBytes(fields), end);
        AtSplits(s, at, tag, AllBytes(fields));
        ReadsVarint(s, at, tag);
    }
  }

  lemma WithinInput(s: seq<byte>, at: nat, u: seq<byte>)
    requires At(s, at, u)
    ensures at + |u| <= |s|
  {
  }

  /** A well-formed field is skipped from its first byte to its last. */
  lemma {:induction false} FieldIsSkipped(s: seq<byte>, at: nat, f: WireField, depth: nat)
    requires WellFormed(f) && At(s, at, Bytes(f)) && |s| <= MAX_INT
    ensures |Bytes(f)| >= 1
    ensures var next := at + |Bytes(f)|;
            Skip(s, at, depth) == if depth == 0 then Ok(next) else Skip(s, next, depth)
    decreases f
  {
    hide At, SkipItem, IsVarint, AllBytes, Meaning;
    WithinInput(s, at, Bytes(f));
    FirstItem(s, at, f, depth);
    if f.Group? {
      AtSplits(s, at, f.tag + AllBytes(f.fields), f.end);
      AtSplits(s, at, f.tag, AllBytes(f.fields));
      FieldsAreSkipped(s, at + |f.tag|, f.fields, depth + 1);
      GroupEnds(s, at + |f.tag| + |AllBytes(f.fields)|, f.end, depth);
    }
  }

  /** The end tag of a group. */
  lemma GroupEnds(s: seq<byte>, at: nat, end: seq<byte>, depth: nat)
    requires IsVarint(end) && WireType(end) == 4 && At(s, at, end) && |s| <= MAX_INT
    ensures Skip(s, at, depth + 1) == if depth == 0 then Ok(at + |end|) else Skip(s, at + |end|, depth)
  {
    hide ReadVarint, At, IsVarint, Meaning;
    WithinInput(s, at, end);
    ReadsVarint(s, at, end);
  }

  lemma {:induction false} FieldsAreSkipped(s: seq<byte>, at: nat, fields: FieldList, depth: nat)
    requires AllWellFormed(fields) && At(s, at, AllBytes(fields)) && |s| <= MAX_INT && depth > 0
    ensures Skip(s, at, depth) == Skip(s, at + |AllBytes(fields)|, depth)
    decreases fields
  {
    hide At, Skip, WellFormed, Bytes;
    if fields.Cons? {
      AtSplits(s, at, Bytes(fields.head), AllBytes(fields.tail));
      FieldIsSkipped(s, at, fields.head, depth);
      FieldsAreSkipped(s, at + |Bytes(fields.head)|, fields.tail, depth);
    }
  }

  // ----------------------------------------------------- what is skipped is well-formed

  /** A field that is no group, from the item that skips it. */
  lemma ItemIsField(s: seq<byte>, at: nat, depth: nat) returns (f: WireField)
    requires at <= |s| <= MAX_INT && SkipItem(s, at, depth).Ok?
    requires ReadVarint(s, at).value.number % 8 !in {3, 4}
    requires SkipItem(s, at, depth).value.next <= |s|
    ensures WellFormed(f) && !f.Group? && At(s, at, Bytes(f))
    ensures SkipItem(s, at, depth) == Ok(Item(at + |Bytes(f)|, depth))
  {
    hide ReadVarint, IsVarint, Meaning, At;
    var tag := VarintRead(s, at);
    var from, next := at + |tag|, SkipItem(s, at, depth).value.next;
    match WireType(tag) {
      case 0 =>
        var raw := VarintRead(s, from);
        AtSplits(s, at, tag, raw);
        f := Number(tag, raw);
      case 2 =>
        var length := VarintRead(s, from);
        var body := s[from + |length|..next];
        AtSlice(s, from + |length|, next);
        AtSplits(s, at, tag, length);
        AtSplits(s, at, tag + length, body);
        f := Delimited(tag, length, body);
      case _ =>
        AtSlice(s, from, next);
        AtSplits(s, at, tag, s[from..next]);
        f := Fixed(tag, s[from..next]);
    }
  }

  /** What an item does to the number of open groups. */
  lemma ItemInGroup(s: seq<byte>, at: nat, depth: nat) returns (tag: seq<byte>)
    requires at <= |s| <= MAX_INT && depth >= 1 && SkipItem(s, at, depth).Ok?
    ensures IsVarint(tag) && At(s, at, tag) && WireType(tag) == ReadVarint(s, at).value.number % 8
    ensures SkipItem(s, at, depth).value.depth
            == if WireType(tag) == 3 then depth + 1 else if WireType(tag) == 4 then depth - 1 else depth
    ensures WireType(tag) in {3, 4} ==> SkipItem(s, at, depth).value.next == at + |tag|
  {
    hide ReadVarint, IsVarint, Meaning, At;
    tag := VarintRead(s, at);
  }

  lemma AtSlice(s: seq<byte>, at: nat, to: nat)
    requires at <= to <= |s|
    ensures At(s, at, s[at..to])
  {
  }

  /** From inside a group, the fields up to its end tag, and what skipping does then. */
  lemma GroupBody(s: seq<byte>, at: nat, depth: nat) returns (fields: FieldList, end: seq<byte>)
    requires |s| <= MAX_INT && depth >= 1 && Skip(s, at, depth).Ok? && Skip(s, at, depth).value <= |s|
    ensures AllWellFormed(fields) && IsVarint(end) && WireType(end) == 4
    ensures At(s, at, AllBytes(fields) + end)
    ensures var m := at + |AllBytes(fields) + end|;
            m > at && Skip(s, at, depth) == if depth == 1 then Ok(m) else Skip(s, m, depth - 1)
    decreases |s| - at
  {
    hide ReadVarint, IsVarint, Meaning, At, SkipItem, WireType;
    var item := SkipItem(s, at, depth).value;
    var tag := ItemInGroup(s, at, depth);
    match WireType(tag) {
      case 4 =>
        fields, end := Nil, tag;
        assert AllBytes(fields) + end == end;
      case 3 =>
        var inner, close := GroupBody(s, item.next, depth + 1);
        var k := item.next + |AllBytes(inner) + close|;
        fields, end := GroupBody(s, k, depth);
        var f := Group(tag, inner, close);
        GroupAt(s, at, f);
        PrependedAt(s, at, f, fields, end);
        fields := Cons(f, fields);
      case _ =>
        var f := ItemIsField(s, at, depth);
        fields, end := GroupBody(s, item.next, depth);
        PrependedAt(s, at, f, fields, end);
        fields := Cons(f, fields);
    }
  }

  lemma GroupAt(s: seq<byte>, at: nat, f: WireField)
    requires f.Group? && At(s, at, f.tag) && At(s, at + |f.tag|, AllBytes(f.fields) + f.end)
    ensures At(s, at, Bytes(f)) && |Bytes(f)| == |f.tag| + |AllBytes(f.fields) + f.end|
  {
    AtSplits(s, at, f.tag, AllBytes(f.fields) + f.end);
    assert f.tag + (AllBytes(f.fields) + f.end) == Bytes(f);
    hide At;
  }

  lemma PrependedAt(s: seq<byte>, at: nat, f: WireField, fields: FieldList, end: seq<byte>)
    requires At(s, at, Bytes(f)) && At(s, at + |Bytes(f)|, AllBytes(fields) + end)
    ensures At(s, at, AllBytes(Cons(f, fields)) + end)
    ensures |AllBytes(Cons(f, fields)) + end| == |Bytes(f)| + |AllBytes(fields) + end|
  {
    AtSplits(s, at, Bytes(f), AllBytes(fields) + end);
    assert Bytes(f) + (AllBytes(fields) + end) == AllBytes(Cons(f, fields)) + end;
    hide At;
  }

  /** What skipping passes over is one well-formed field. */
  lemma SkippedIsField(s: seq<byte>, at: nat) returns (f: WireField)
    requires |s| <= MAX_INT && Skip(s, at, 0).Ok? && Skip(s, at, 0).value <= |s|
    ensures WellFormed(f) && At(s, at, Bytes(f)) && Skip(s, at, 0).value == at + |Bytes(f)|
  {
    hide ReadVarint, IsVarint, Meaning, At;
    var tag := VarintRead(s, at);
    if WireType(tag) == 3 {
      var fields, end := GroupBody(s, at + |tag|, 1);
      f := Group(tag, fields, end);
      GroupAt(s, at, f);
    } else {
      f := ItemIsField(s, at, 0);
    }
  }

  // -------------------------------------------------------------- fields of a message

  /** A field as a message with `count` length-delimited fields takes it. */
  predicate Acceptable(f: WireField, count: nat) {
    && WellFormed(f) && FieldNumber(f.tag) > 0
    && (FieldNumber(f.tag) <= count ==> f.Delimited?)
  }

  /** How it is read. */
  function ReadAs(f: WireField, at: nat, count: nat): Field
    requires Acceptable(f, count)
  {
    var end := at + |Bytes(f)|;
    if FieldNumber(f.tag) <= count then Known(FieldNumber(f.tag), Chunk(end - |f.body|, end)) else Unknown(end)
  }

  lemma TagStands(s: seq<byte>, at: nat, f: WireField)
    requires At(s, at, Bytes(f))
    ensures At(s, at, f.tag)
    ensures f.Delimited? ==> At(s, at + |f.tag|, f.length)
  {
    hide At;
    match f {
      case Number(tag, raw) => AtSplits(s, at, tag, raw);
      case Fixed(tag, body) => AtSplits(s, at, tag, body);
      case Delimited(tag, length, body) =>
        AtSplits(s, at, tag + length, body);
        AtSplits(s, at, tag, length);
      case Group(tag, fields, end) =>
        AtSplits(s, at, tag + AllBytes(fields), end);
        AtSplits(s, at, tag, AllBytes(fields));
    }
  }

  lemma AtFromThere(s: seq<byte>, at: nat, u: seq<byte>)
    requires at <= |s|
    ensures At(s[at..], 0, u) <==> At(s, at, u)
  {
    if at + |u| <= |s| {
      assert s[at..][0..0 + |u|] == s[at..at + |u|];
    }
  }

  // ------------------------------------------------------- what is refused, and how

  /** A tag: no end of a group, and a number of which the low 32 bits make a positive
      signed one. */
  lemma TagIsRead(s: seq<byte>, at: nat, tag: seq<byte>)
    requires IsVarint(tag) && At(s, at, tag)
    ensures at <= |s|
    ensures var wire, number := Meaning(tag), Meaning(tag) / 8 % 0x1_0000_0000;
            ReadTag(s, at)
            == if wire % 8 == 4 then Err(EndGroupForNonGroup)
               else if number == 0 || number >= 0x8000_0000 then Err(IllegalTag)
               else Ok(Tag(number, wire % 8, at + |tag|))
  {
    hide ReadVarint, Meaning, IsVarint;
    ReadsVarint(s, at, tag);
  }

  /** A length: the value must end at a non-negative 63-bit place, inside the input. */
  lemma LengthIsRead(s: seq<byte>, at: nat, length: seq<byte>)
    requires IsVarint(length) && At(s, at, length) && |s| <= MAX_INT
    ensures at <= |s|
    ensures var from, n := at + |length|, Meaning(length);
            ReadChunk(s, at)
            == if from + n >= 0x8000_0000_0000_0000 then Err(InvalidLength)
               else if from + n > |s| then Err(UnexpectedEOF)
               else Ok(Chunk(from, from + n))
  {
    hide ReadVarint, Meaning, IsVarint, At;
    WithinInput(s, at, length);
    ReadsVarint(s, at, length);
  }

  /** Ten bytes with the high bit set are no varint, and neither is an input that ends
      before one without it. */
  lemma NoVarint(s: seq<byte>, at: nat)
    requires at <= |s| && forall i :: at <= i < |s| && i < at + 10 ==> s[i] >= 128
    ensures ReadVarint(s, at) == Err(if |s| - at >= 10 then IntOverflow else UnexpectedEOF)
  {
    LongContinuation(s, at, if |s| - at >= 10 then 10 else |s| - at);
  }

  lemma {:induction false} LongContinuation(s: seq<byte>, at: nat, n: nat)
    requires at + n <= |s| && forall i :: at <= i < at + n ==> s[i] >= 128
    ensures Continuation(s, at) >= n
    decreases n
  {
    if n > 0 {
      LongContinuation(s, at + 1, n - 1);
    }
  }

  /** An unknown field of wire type 6 or 7 has no length; an end of a group is none while
      no group is open. */
  lemma NoItem(s: seq<byte>, at: nat, tag: seq<byte>)
    requires IsVarint(tag) && At(s, at, tag) && |s| <= MAX_INT
    ensures WireType(tag) in {6, 7} ==> forall depth: nat :: at < |s| && Skip(s, at, depth) == Err(IllegalWireType)
    ensures WireType(tag) == 4 ==> at < |s| && Skip(s, at, 0) == Err(UnexpectedEndOfGroup)
  {
    ReadsVarint(s, at, tag);
    hide ReadVarint, Meaning;
  }

  /** A known field must be length-delimited. */
  lemma KnownIsDelimited(s: seq<byte>, at: nat, tag: seq<byte>, count: nat)
    requires IsVarint(tag) && At(s, at, tag) && |s| <= MAX_INT
    requires 0 < FieldNumber(tag) <= count && WireType(tag) !in {2, 4}
    ensures at <= |s| && ReadField(s, at, count) == Err(WrongWireType)
  {
    hide ReadVarint, Meaning, IsVarint;
    ReadsVarint(s, at, tag);
  }

  // ------------------------------------------------------------------- what is read

  /** An acceptable field is read as what it is, wherever it stands. */
  lemma FieldIsRead(s: seq<byte>, at: nat, f: WireField, count: nat)
    requires |s| <= MAX_INT && Acceptable(f, count) && At(s, at, Bytes(f))
    ensures at <= |s| && ReadField(s, at, count) == Ok(ReadAs(f, at, count))
  {
    hide At, ReadVarint, IsVarint, Meaning, Skip, AllBytes, AllWellFormed;
    WithinInput(s, at, Bytes(f));
    TagStands(s, at, f);
    ReadsVarint(s, at, f.tag);
    if FieldNumber(f.tag) <= count {
      ReadsVarint(s, at + |f.tag|, f.length);
    } else {
      AtFromThere(s, at, Bytes(f));
      FieldIsSkipped(s[at..], 0, f, 0);
    }
  }

  /** And whatever is read is one. */
  lemma ReadIsField(s: seq<byte>, at: nat, count: nat) returns (f: WireField)
    requires at <= |s| <= MAX_INT && ReadField(s, at, count).Ok?
    ensures Acceptable(f, count) && At(s, at, Bytes(f))
    ensures ReadField(s, at, count) == Ok(ReadAs(f, at, count))
  {
    hide At, ReadVarint, IsVarint, Meaning, Skip, AllBytes, AllWellFormed;
    var tag := VarintRead(s, at);
    if FieldNumber(tag) <= count {
      var length := VarintRead(s, at + |tag|);
      var from := at + |tag| + |length|;
      var body := s[from..ReadField(s, at, count).value.chunk.end];
      AtSlice(s, from, from + |body|);
      AtSplits(s, at, tag, length);
      AtSplits(s, at, tag + length, body);
      f := Delimited(tag, length, body);
    } else {
      f := SkippedIsField(s[at..], 0);
      AtFromThere(s, at, Bytes(f));
      SameTag(s, at, tag, f);
    }
  }

  lemma SameTag(s: seq<byte>, at: nat, tag: seq<byte>, f: WireField)
    requires IsVarint(tag) && At(s, at, tag) && WellFormed(f) && At(s, at, Bytes(f))
    ensures f.tag == tag
  {
    TagStands(s, at, f);
    ReadsVarint(s, at, tag);
    ReadsVarint(s, at, f.tag);
    hide ReadVarint, IsVarint, Meaning, AllBytes, AllWellFormed;
  }

  /** Exactly when bytes are one field that a message does not know: when they are a
      well-formed field, of any wire type, with a number above the known ones. */
  lemma UnknownFieldIff(u: seq<byte>, count: nat)
    requires |u| <= MAX_INT
    ensures ReadField(u, 0, count) == Ok(Unknown(|u|))
            <==> exists f: WireField :: WellFormed(f) && FieldNumber(f.tag) > count && Bytes(f) == u
  {
    hide ReadField, WellFormed, Bytes, FieldNumber;
    if ReadField(u, 0, count) == Ok(Unknown(|u|)) {
      var f := ReadIsField(u, 0, count);
    }
    if f: WireField :| WellFormed(f) && FieldNumber(f.tag) > count && Bytes(f) == u {
      FieldIsRead(u, 0, f, count);
    }
  }

  // --------------------------------------------------------- fields as they are written

  lemma {:induction false} WrittenVarint(v: nat)
    ensures var raw := VarintBytes(v); raw[|raw| - 1] < 128 && forall i :: 0 <= i < |raw| - 1 ==> raw[i] >= 128
  {
    if v >= 128 {
      WrittenVarint(v / 128);
    }
  }

  /** A written varint means its number. */
  lemma WrittenMeans(v: nat)
    requires v < TWO_64
    ensures IsVarint(VarintBytes(v)) && Meaning(VarintBytes(v)) == v
  {
    Pow2Is64();
    VarintFits(v, 10);
    WrittenVarint(v);
    VarintValue(v);
  }

  lemma WrittenTag(n: nat, wireType: nat)
    requires n < 0x8000_0000 && wireType < 8
    ensures var tag := VarintBytes(8 * n + wireType);
            IsVarint(tag) && WireType(tag) == wireType && FieldNumber(tag) == n
  {
    WrittenMeans(8 * n + wireType);
    assert (8 * n + wireType) / 8 == n && (8 * n + wireType) % 8 == wireType;
    hide IsVarint, Meaning;
  }

  /** The five layouts of a field that a message with `count` fields does not know. */
  lemma UnknownLayouts(n: nat, count: nat, v: nat, eight: seq<byte>, four: seq<byte>, body: seq<byte>,
                       fields: FieldList)
    requires count < n < 0x8000_0000 && v < TWO_64 && |eight| == 8 && |four| == 4 && AllWellFormed(fields)
    requires |body| <= MAX_INT - 30 && |AllBytes(fields)| <= MAX_INT - 30
    ensures var u := VarintBytes(8 * n) + VarintBytes(v); |u| <= MAX_INT && ReadField(u, 0, count) == Ok(Unknown(|u|))
    ensures var u := VarintBytes(8 * n + 1) + eight; |u| <= MAX_INT && ReadField(u, 0, count) == Ok(Unknown(|u|))
    ensures var u := VarintBytes(8 * n + 2) + VarintBytes(|body|) + body;
            |u| <= MAX_INT && ReadField(u, 0, count) == Ok(Unknown(|u|))
    ensures var u := VarintBytes(8 * n + 3) + AllBytes(fields) + VarintBytes(8 * n + 4);
            |u| <= MAX_INT && ReadField(u, 0, count) == Ok(Unknown(|u|))
    ensures var u := VarintBytes(8 * n + 5) + four; |u| <= MAX_INT && ReadField(u, 0, count) == Ok(Unknown(|u|))
  {
    hide VarintBytes, Meaning, WireType, FieldNumber, ReadField;
    WrittenTag(n, 0);
    WrittenTag(n, 1);
    WrittenTag(n, 2);
    WrittenTag(n, 3);
    WrittenTag(n, 4);
    WrittenTag(n, 5);
    WrittenMeans(v);
    WrittenMeans(|body|);
    IsUnknown(Number(VarintBytes(8 * n), VarintBytes(v)), n, count);
    IsUnknown(Fixed(VarintBytes(8 * n + 1), eight), n, count);
    IsUnknown(Delimited(VarintBytes(8 * n + 2), VarintBytes(|body|), body), n, count);
    IsUnknown(Group(VarintBytes(8 * n + 3), fields, VarintBytes(8 * n + 4)), n, count);
    IsUnknown(Fixed(VarintBytes(8 * n + 5), four), n, count);
  }

  lemma IsUnknown(f: WireField, n: nat, count: nat)
    requires WellFormed(f) && FieldNumber(f.tag) == n > count && |Bytes(f)| <= MAX_INT
    ensures ReadField(Bytes(f), 0, count) == Ok(Unknown(|Bytes(f)|))
  {
    hide *;
    UnknownFieldIff(Bytes(f), count);
  }
}
