/**
 The messages the whitelist decoders accept, and what they mean: a message is any
 sequence of acceptable fields; of each string the last field counts, and every
 field of the list is a pair of its own.
 */
module WhitelistGrammar {
  import opened Basics
  import opened Varint
  import opened WireFields
  import opened WhitelistCodec
  import opened G = WireGrammar

  predicate AllAcceptable(fields: FieldList, count: nat) {
    match fields
    case Nil => true
    case Cons(f, rest) => Acceptable(f, count) && AllAcceptable(rest, count)
  }

  /** The body of the last field of this number, or what was there before. */
  function Last(fields: FieldList, number: int, before: Bytes): Bytes {
    match fields
    case Nil => before
    case Cons(f, rest) => Last(rest, number, if f.Delimited? && FieldNumber(f.tag) == number then f.body else before)
  }

  function PairOf(fields: FieldList, m: Pair): Pair {
    Pair(Last(fields, 1, m.sender), Last(fields, 2, m.receiver))
  }

  // ------------------------------------------------------------------- one pair

  lemma BodyStands(s: Bytes, at: nat, f: WireField)
    requires f.Delimited? && At(s, at, G.Bytes(f))
    ensures var end := at + |G.Bytes(f)|; |f.body| <= end <= |s| && s[end - |f.body|..end] == f.body
  {
    AtSplits(s, at, f.tag + f.length, f.body);
  }

  /** Fields in a row are merged in a row, and what follows them is merged after. */
  lemma {:induction false} PairReads(s: Bytes, at: nat, fields: FieldList, m: Pair)
    requires |s| <= MAX_INT && AllAcceptable(fields, 2) && At(s, at, AllBytes(fields))
    ensures at + |AllBytes(fields)| <= |s|
    ensures DecodePair(s, at, m) == DecodePair(s, at + |AllBytes(fields)|, PairOf(fields, m))
    decreases fields
  {
    hide At, ReadField, Acceptable, G.Bytes;
    WithinInput(s, at, AllBytes(fields));
    match fields {
      case Nil =>
      case Cons(f, rest) =>
        AtSplits(s, at, G.Bytes(f), AllBytes(rest));
        FieldIsRead(s, at, f, 2);
        MergesAs(s, at, f, m);
        PairOfFirst(f, rest, m);
        PairReads(s, at + |G.Bytes(f)|, rest, MergePair(s, ReadAs(f, at, 2), m));
    }
  }

  /** An error leaves what the fields before it said. */
  lemma PairStops(s: Bytes, at: nat, fields: FieldList, m: Pair)
    requires |s| <= MAX_INT && AllAcceptable(fields, 2) && At(s, at, AllBytes(fields))
    requires at + |AllBytes(fields)| < |s| && ReadField(s, at + |AllBytes(fields)|, 2).Err?
    ensures DecodePair(s, at, m)
            == Decoded(PairOf(fields, m), Some(ReadField(s, at + |AllBytes(fields)|, 2).error))
  {
    PairReads(s, at, fields, m);
    hide ReadField, AllAcceptable, At;
  }

  lemma PairOfFirst(f: WireField, rest: FieldList, m: Pair)
    ensures PairOf(Cons(f, rest), m) == PairOf(rest, PairOf(Cons(f, Nil), m))
    ensures var k := if f.Delimited? then FieldNumber(f.tag) else 0;
            PairOf(Cons(f, Nil), m) == Pair(if k == 1 then f.body else m.sender, if k == 2 then f.body else m.receiver)
  {
    LastFirst(f, rest, 1, m.sender);
    LastFirst(f, rest, 2, m.receiver);
    hide FieldNumber, Last;
  }

  lemma LastFirst(f: WireField, rest: FieldList, number: int, before: Bytes)
    ensures Last(Cons(f, Nil), number, before)
            == if f.Delimited? && FieldNumber(f.tag) == number then f.body else before
    ensures Last(Cons(f, rest), number, before) == Last(rest, number, Last(Cons(f, Nil), number, before))
  {
    hide FieldNumber;
    assert forall b: Bytes :: Last(Nil, number, b) == b;
  }

  lemma MergesAs(s: Bytes, at: nat, f: WireField, m: Pair)
    requires |s| <= MAX_INT && Acceptable(f, 2) && At(s, at, G.Bytes(f))
    ensures var r := ReadAs(f, at, 2);
            && r.Next() == at + |G.Bytes(f)| > at && (r.Known? ==> r.chunk.start <= r.chunk.end <= |s|)
            && MergePair(s, r, m) == PairOf(Cons(f, Nil), m)
  {
    NotEmpty(f);
    if FieldNumber(f.tag) <= 2 {
      BodyStands(s, at, f);
    }
    hide At, G.Bytes, FieldNumber, WellFormed, PairOf;
    PairOfFirst(f, Nil, m);
  }

  lemma NotEmpty(f: WireField)
    requires WellFormed(f)
    ensures |G.Bytes(f)| >= 1
  {
  }

  lemma {:induction false} PairParses(s: Bytes, at: nat, m: Pair) returns (fields: FieldList)
    requires at <= |s| <= MAX_INT && DecodePair(s, at, m).error.None?
    ensures AllAcceptable(fields, 2) && At(s, at, AllBytes(fields)) && at + |AllBytes(fields)| == |s|
    decreases |s| - at
  {
    hide At, DecodePair, Acceptable, G.Bytes, PairOf;
    if at == |s| {
      NothingAt(s, at);
      return Nil;
    }
    var f := FirstOfPair(s, at, m);
    var rest := PairParses(s, at + |G.Bytes(f)|, PairOf(Cons(f, Nil), m));
    AtSplits(s, at, G.Bytes(f), AllBytes(rest));
    fields := Cons(f, rest);
  }

  lemma NothingAt(s: Bytes, at: nat)
    requires at <= |s|
    ensures At(s, at, [])
  {
  }

  lemma FirstOfPair(s: Bytes, at: nat, m: Pair) returns (f: WireField)
    requires at < |s| <= MAX_INT && DecodePair(s, at, m).error.None?
    ensures Acceptable(f, 2) && At(s, at, G.Bytes(f)) && |G.Bytes(f)| >= 1 && at + |G.Bytes(f)| <= |s|
    ensures DecodePair(s, at + |G.Bytes(f)|, PairOf(Cons(f, Nil), m)) == DecodePair(s, at, m)
  {
    hide At, ReadField, Acceptable, G.Bytes, MergePair, ReadAs, PairOf;
    f := ReadIsField(s, at, 2);
    MergesAs(s, at, f, m);
    WithinInput(s, at, G.Bytes(f));
  }

  lemma NothingLeft(s: Bytes, m: Pair)
    requires |s| <= MAX_INT
    ensures DecodePair(s, |s|, m) == Decoded(m, None)
  {
  }

  /** A pair is decoded without error exactly from a sequence of acceptable fields; and
      however its bytes are cut into such fields, each of its strings is the last field
      of its number. */
  lemma PairDecodesIff(s: Bytes, m: Pair)
    requires |s| <= MAX_INT
    ensures DecodePair(s, 0, m).error.None? <==>
            exists fields: FieldList :: AllAcceptable(fields, 2) && AllBytes(fields) == s
    ensures forall fields: FieldList :: AllAcceptable(fields, 2) && AllBytes(fields) == s ==>
              DecodePair(s, 0, m).message == PairOf(fields, m)
  {
    hide DecodePair, AllAcceptable, AllBytes, PairOf;
    if DecodePair(s, 0, m).error.None? {
      var fields := PairParses(s, 0, m);
    }
    forall fields: FieldList | AllAcceptable(fields, 2) && AllBytes(fields) == s
      ensures DecodePair(s, 0, m) == Decoded(PairOf(fields, m), None)
    {
      PairReads(s, 0, fields, m);
      NothingLeft(s, PairOf(fields, m));
    }
  }

  // ------------------------------------------------------------------- the list

  /** Every pair in the list can be decoded. */
  predicate PairsReadable(fields: FieldList) {
    match fields
    case Nil => true
    case Cons(f, rest) =>
      && (f.Delimited? && FieldNumber(f.tag) == 1 ==>
            |f.body| <= MAX_INT && DecodePair(f.body, 0, EMPTY_PAIR).error.None?)
      && PairsReadable(rest)
  }

  /** The pairs of the list, in order. */
  function PairsOf(fields: FieldList): seq<Pair>
    requires PairsReadable(fields)
  {
    match fields
    case Nil => []
    case Cons(f, rest) =>
      (if f.Delimited? && FieldNumber(f.tag) == 1 then [DecodePair(f.body, 0, EMPTY_PAIR).message] else [])
      + PairsOf(rest)
  }

  lemma ListMergesAs(s: Bytes, at: nat, f: WireField, ms: seq<Pair>)
    requires |s| <= MAX_INT && Acceptable(f, 1) && At(s, at, G.Bytes(f))
    ensures var r := ReadAs(f, at, 1);
            && r.Next() == at + |G.Bytes(f)| > at && (r.Known? ==> r.chunk.start <= r.chunk.end <= |s|)
            && (MergePairs(s, r, ms).error.None? <==> PairsReadable(Cons(f, Nil)))
            && (PairsReadable(Cons(f, Nil)) ==> MergePairs(s, r, ms).message == ms + PairsOf(Cons(f, Nil)))
  {
    hide FieldNumber, DecodePair;
    NotEmpty(f);
    if FieldNumber(f.tag) <= 1 {
      BodyStands(s, at, f);
    }
    hide At, G.Bytes, WellFormed;
  }

  lemma {:induction false} PairsRead(s: Bytes, at: nat, fields: FieldList, ms: seq<Pair>)
    requires |s| <= MAX_INT && AllAcceptable(fields, 1)
    requires At(s, at, AllBytes(fields)) && at + |AllBytes(fields)| == |s|
    ensures DecodePairs(s, at, ms).error.None? <==> PairsReadable(fields)
    ensures PairsReadable(fields) ==> DecodePairs(s, at, ms).message == ms + PairsOf(fields)
    decreases fields
  {
    hide At, ReadField, Acceptable, G.Bytes, MergePairs, ReadAs, DecodePair;
    match fields {
      case Nil =>
      case Cons(f, rest) =>
        AtSplits(s, at, G.Bytes(f), AllBytes(rest));
        FieldIsRead(s, at, f, 1);
        ListMergesAs(s, at, f, ms);
        var merged := MergePairs(s, ReadAs(f, at, 1), ms);
        if merged.error.None? {
          PairsRead(s, at + |G.Bytes(f)|, rest, merged.message);
        }
    }
  }

  /** A pair that cannot be decoded is appended as far as it was read, and ends the list. */
  lemma FailedPairIsKept(s: Bytes, at: nat, f: WireField, ms: seq<Pair>)
    requires |s| <= MAX_INT && Acceptable(f, 1) && FieldNumber(f.tag) == 1 && At(s, at, G.Bytes(f))
    requires |f.body| <= MAX_INT && DecodePair(f.body, 0, EMPTY_PAIR).error.Some?
    ensures at <= |s|
    ensures var partial := DecodePair(f.body, 0, EMPTY_PAIR);
            DecodePairs(s, at, ms) == Decoded(ms + [partial.message], partial.error)
  {
    hide At, ReadField, G.Bytes, DecodePair, WellFormed, FieldNumber;
    WithinInput(s, at, G.Bytes(f));
    NotEmpty(f);
    FieldIsRead(s, at, f, 1);
    BodyStands(s, at, f);
  }

  lemma {:induction false} PairsParse(s: Bytes, at: nat, ms: seq<Pair>) returns (fields: FieldList)
    requires at <= |s| <= MAX_INT && DecodePairs(s, at, ms).error.None?
    ensures AllAcceptable(fields, 1) && At(s, at, AllBytes(fields)) && at + |AllBytes(fields)| == |s|
    decreases |s| - at
  {
    hide At, DecodePairs, Acceptable, G.Bytes;
    if at == |s| {
      NothingAt(s, at);
      return Nil;
    }
    var f, next := FirstOfList(s, at, ms);
    var rest := PairsParse(s, at + |G.Bytes(f)|, next);
    AtSplits(s, at, G.Bytes(f), AllBytes(rest));
    fields := Cons(f, rest);
  }

  lemma FirstOfList(s: Bytes, at: nat, ms: seq<Pair>) returns (f: WireField, next: seq<Pair>)
    requires at < |s| <= MAX_INT && DecodePairs(s, at, ms).error.None?
    ensures Acceptable(f, 1) && At(s, at, G.Bytes(f)) && |G.Bytes(f)| >= 1 && at + |G.Bytes(f)| <= |s|
    ensures DecodePairs(s, at + |G.Bytes(f)|, next) == DecodePairs(s, at, ms)
  {
    hide At, ReadField, Acceptable, G.Bytes, MergePairs, ReadAs;
    f := ReadIsField(s, at, 1);
    ListMergesAs(s, at, f, ms);
    next := MergePairs(s, ReadAs(f, at, 1), ms).message;
    WithinInput(s, at, G.Bytes(f));
  }

  /** The list is decoded without error exactly from a sequence of acceptable fields
      whose pairs can all be decoded; they are appended in order. */
  lemma PairsDecodeIff(s: Bytes, ms: seq<Pair>)
    requires |s| <= MAX_INT
    ensures DecodePairs(s, 0, ms).error.None? <==>
            exists fields: FieldList :: AllAcceptable(fields, 1) && PairsReadable(fields) && AllBytes(fields) == s
    ensures forall fields: FieldList :: AllAcceptable(fields, 1) && PairsReadable(fields) && AllBytes(fields) == s ==>
              DecodePairs(s, 0, ms).message == ms + PairsOf(fields)
  {
    hide DecodePairs, AllAcceptable, AllBytes, PairsReadable, PairsOf;
    if DecodePairs(s, 0, ms).error.None? {
      var fields := PairsParse(s, 0, ms);
      PairsRead(s, 0, fields, ms);
    }
    forall fields: FieldList | AllAcceptable(fields, 1) && PairsReadable(fields) && AllBytes(fields) == s
      ensures DecodePairs(s, 0, ms).error.None? && DecodePairs(s, 0, ms).message == ms + PairsOf(fields)
    {
      PairsRead(s, 0, fields, ms);
    }
  }

  // ------------------------------------------------------------ shortest encodings

  /** A varint has no shorter form than the written one. */
  lemma ShortestVarint(raw: seq<byte>)
    requires IsVarint(raw)
    ensures |VarintBytes(Meaning(raw))| <= |raw|
  {
    LittleEndianBound(raw);
    assert Meaning(raw) <= LittleEndian(raw);
    VarintFits(Meaning(raw), |raw|);
  }

  lemma {:induction false} LongerVarint(x: nat, y: nat)
    requires x <= y
    ensures |VarintBytes(x)| <= |VarintBytes(y)|
  {
    if x >= 128 {
      LongerVarint(x / 128, y / 128);
    }
  }

  /** The bytes a written string takes. */
  function Cost(body: Bytes): nat {
    if body == [] then 0 else 1 + |VarintBytes(|body|)| + |body|
  }

  lemma FieldCosts(f: WireField)
    requires WellFormed(f) && f.Delimited?
    ensures |G.Bytes(f)| >= 1 + |VarintBytes(|f.body|)| + |f.body| >= Cost(f.body)
  {
    ShortestVarint(f.length);
    hide VarintBytes, Meaning;
  }

  lemma {:induction false} FieldsCost(fields: FieldList, m: Pair)
    requires AllAcceptable(fields, 2)
    ensures |AllBytes(fields)| + Cost(m.sender) + Cost(m.receiver)
            >= Cost(PairOf(fields, m).sender) + Cost(PairOf(fields, m).receiver)
    decreases fields
  {
    hide Cost, G.Bytes, WellFormed, FieldNumber, PairOf;
    match fields {
      case Nil => NoFields(m);
      case Cons(f, rest) =>
        PairOfFirst(f, rest, m);
        if f.Delimited? {
          FieldCosts(f);
        }
        FieldsCost(rest, PairOf(Cons(f, Nil), m));
    }
  }

  lemma NoFields(m: Pair)
    ensures PairOf(Nil, m) == m
  {
  }

  lemma WrittenCosts(m: Pair)
    ensures |EncodePair(m)| == Cost(m.sender) + Cost(m.receiver)
  {
  }

  /** A pair is written in the fewest bytes: nothing shorter is decoded into it. */
  lemma PairIsShortest(s: Bytes)
    requires |s| <= MAX_INT && DecodePair(s, 0, EMPTY_PAIR).error.None?
    ensures |EncodePair(DecodePair(s, 0, EMPTY_PAIR).message)| <= |s|
  {
    hide DecodePair, EncodePair, AllBytes, AllAcceptable, PairOf, Cost;
    PairDecodesIff(s, EMPTY_PAIR);
    var fields: FieldList :| AllAcceptable(fields, 2) && AllBytes(fields) == s;
    FieldsCost(fields, EMPTY_PAIR);
    NothingCosts();
    WrittenCosts(PairOf(fields, EMPTY_PAIR));
  }

  lemma NothingCosts()
    ensures Cost([]) == 0
  {
  }

  lemma {:induction false} ListCosts(fields: FieldList)
    requires AllAcceptable(fields, 1) && PairsReadable(fields)
    ensures |AllBytes(fields)| >= |EncodePairs(PairsOf(fields))|
    decreases fields
  {
    hide DecodePair, EncodePair, G.Bytes, WellFormed, FieldNumber, VarintBytes, WhitelistCodec.Delimited;
    match fields {
      case Nil =>
      case Cons(f, rest) =>
        ListCosts(rest);
        if f.Delimited? && FieldNumber(f.tag) == 1 {
          var m := DecodePair(f.body, 0, EMPTY_PAIR).message;
          PairIsShortest(f.body);
          FieldCosts(f);
          LongerVarint(|EncodePair(m)|, |f.body|);
          WrittenPair(m, PairsOf(rest));
          assert PairsOf(fields) == [m] + PairsOf(rest);
        } else {
          assert PairsOf(fields) == [] + PairsOf(rest) == PairsOf(rest);
        }
    }
  }

  lemma WrittenPair(m: Pair, rest: seq<Pair>)
    ensures |EncodePairs([m] + rest)| == 1 + |VarintBytes(|EncodePair(m)|)| + |EncodePair(m)| + |EncodePairs(rest)|
  {
    assert ([m] + rest)[1..] == rest;
  }

  /** So is the list. */
  lemma PairsAreShortest(s: Bytes)
    requires |s| <= MAX_INT && DecodePairs(s, 0, []).error.None?
    ensures |EncodePairs(DecodePairs(s, 0, []).message)| <= |s|
  {
    hide DecodePairs, EncodePairs, AllBytes, AllAcceptable, PairsOf, PairsReadable;
    PairsDecodeIff(s, []);
    var fields: FieldList :| AllAcceptable(fields, 1) && PairsReadable(fields) && AllBytes(fields) == s;
    ListCosts(fields);
    assert [] + PairsOf(fields) == PairsOf(fields);
  }
}
