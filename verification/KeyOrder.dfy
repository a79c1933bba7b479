/**
 The order in which an iterator visits pending packets: a channel's packets come in the
 order of their sequence numbers, because the number is written most significant byte
 first.
 */
module KeyOrder {
  import opened Basics
  import opened KVStore
  import opened StoreKeys

  lemma {:induction false} CommonFront(p: string, a: string, b: string)
    ensures LexLeq(p + a, p + b) <==> LexLeq(a, b)
  {
    if p == [] {
      assert p + a == a && p + b == b;
    } else {
      assert (p + a)[1..] == p[1..] + a && (p + b)[1..] == p[1..] + b;
      CommonFront(p[1..], a, b);
    }
  }

  lemma {:induction false} LastDecides(a: string, b: string, c: char, d: char)
    requires |a| == |b|
    ensures LexLeq(a + [c], b + [d]) <==> if a == b then c <= d else LexLeq(a, b)
  {
    if a == [] {
      assert a + [c] == [c] && b + [d] == [d];
      assert [c][1..] == [] && [d][1..] == [];
    } else {
      assert (a + [c])[1..] == a[1..] + [c] && (b + [d])[1..] == b[1..] + [d];
      assert a == [a[0]] + a[1..] && b == [b[0]] + b[1..];
      LastDecides(a[1..], b[1..], c, d);
    }
  }

  lemma HighFirst(x: nat, y: nat)
    ensures x <= y <==> if x / 256 == y / 256 then x % 256 <= y % 256 else x / 256 <= y / 256
  {
  }

  lemma NothingFirst()
    ensures LexLeq([], [])
  {
  }

  lemma {:induction false} BigEndianOrder(x: nat, y: nat, n: nat)
    requires x < Pow256(n) && y < Pow256(n)
    ensures LexLeq(BigEndian(x, n), BigEndian(y, n)) <==> x <= y
  {
    if n == 0 {
      NothingFirst();
    } else {
      hide LexLeq, FromBigEndian;
      BigEndianOrder(x / 256, y / 256, n - 1);
      BigEndianReadsBack(x / 256, n - 1);
      BigEndianReadsBack(y / 256, n - 1);
      LastDecides(BigEndian(x / 256, n - 1), BigEndian(y / 256, n - 1), (x % 256) as char, (y % 256) as char);
      HighFirst(x, y);
    }
  }

  /** Within a channel the keys of pending packets are in the order of their numbers. */
  lemma PendingKeysInOrder(p: PacketId, q: PacketId)
    requires p.channel == q.channel && p.sequence < TWO_64 && q.sequence < TWO_64
    ensures LexLeq(PendingKey(p), PendingKey(q)) <==> p.sequence <= q.sequence
  {
    assert Pow256(8) == TWO_64;
    CommonFront(PadChannel(p.channel), BigEndian(p.sequence, 8), BigEndian(q.sequence, 8));
    BigEndianOrder(p.sequence, q.sequence, 8);
  }
}
