/** Node ids, their XOR distance and the bucket of an id (section 2.1 of the Kademlia paper by Maymounkov and
    Mazières, 2002). */
module XorMetric {
  type NodeId = s: seq<bv8> | |s| == 32 witness seq(32, _ => 0)

  function Xor(x: bv8, y: bv8): bv8 { x ^ y }

  function Distance(a: NodeId, b: NodeId): NodeId { seq(32, i requires 0 <= i < 32 => Xor(a[i], b[i])) }

  /** The order of byte arrays: the first differing byte decides. */
  predicate Less(a: NodeId, b: NodeId) { exists i :: 0 <= i < 32 && LessAt(a, b, i) }

  predicate LessAt(a: NodeId, b: NodeId, i: nat)
    requires i < 32
  {
    a[i] < b[i] && Agree(a, b, i)
  }

  predicate Agree(a: NodeId, b: NodeId, n: int)
    requires n <= 32
  {
    forall k :: 0 <= k < n ==> a[k] == b[k]
  }

  predicate Nearer(a: NodeId, b: NodeId, target: NodeId) { Less(Distance(a, target), Distance(b, target)) }

  // ---- Distances are linearly ordered and injective ----

  lemma {:induction false} LessTransitive(a: NodeId, b: NodeId, c: NodeId)
    requires Less(a, b) && Less(b, c)
    ensures Less(a, c)
  {
    var i :| 0 <= i < 32 && LessAt(a, b, i);
    var j :| 0 <= j < 32 && LessAt(b, c, j);
    var m := if i < j then i else j;
    assert LessAt(a, c, m);
  }

  lemma {:induction false} LessAsymmetric(a: NodeId, b: NodeId)
    requires Less(a, b)
    ensures !Less(b, a)
  {
    var i :| 0 <= i < 32 && LessAt(a, b, i);
    forall j | 0 <= j < 32
      ensures !LessAt(b, a, j)
    {
      assert j < i ==> a[j] == b[j];
      assert i < j ==> a[i] != b[i];
    }
  }

  lemma {:induction false} LessTotalFrom(a: NodeId, b: NodeId, n: nat)
    requires n <= 32 && Agree(a, b, n) && a != b
    ensures Less(a, b) || Less(b, a)
    decreases 32 - n
  {
    if n < 32 && a[n] == b[n] {
      LessTotalFrom(a, b, n + 1);
    } else if n < 32 {
      assert Agree(b, a, n);
      assert LessAt(a, b, n) || LessAt(b, a, n);
    }
  }

  lemma {:induction false} XorCancels(x: bv8, y: bv8, z: bv8)
    requires Xor(x, z) == Xor(y, z)
    ensures x == y
  {
  }

  /** For a fixed target no two ids are equally far, so any two are ordered. */
  lemma {:induction false} DistancesOrdered(a: NodeId, b: NodeId, target: NodeId)
    requires a != b
    ensures Nearer(a, b, target) || Nearer(b, a, target)
  {
    hide Xor, Less;
    if Distance(a, target) == Distance(b, target) {
      forall i | 0 <= i < 32
        ensures a[i] == b[i]
      {
        assert Distance(a, target)[i] == Distance(b, target)[i];
        XorCancels(a[i], b[i], target[i]);
      }
      assert false;
    }
    LessTotalFrom(Distance(a, target), Distance(b, target), 0);
  }

  // ---- Bits ----

  function Mask(j: nat): bv8
    requires j < 8
  {
    if j == 0 then 128 else if j == 1 then 64 else if j == 2 then 32 else if j == 3 then 16
    else if j == 4 then 8 else if j == 5 then 4 else if j == 6 then 2 else 1
  }

  /** Bit `j` of a byte, the most significant one first. */
  predicate Bit(b: bv8, j: nat)
    requires j < 8
  {
    b & Mask(j) != 0
  }

  /** Bit `n` of an id, the most significant one first. */
  predicate IdBit(id: NodeId, n: nat)
    requires n < 256
  {
    Bit(id[n / 8], n % 8)
  }

  /** The integer part of the binary logarithm of a non-zero byte. */
  function Log2(d: bv8): (n: nat)
    requires d != 0
    ensures n < 8
  {
    if d >= 128 then 7 else if d >= 64 then 6 else if d >= 32 then 5 else if d >= 16 then 4
    else if d >= 8 then 3 else if d >= 4 then 2 else if d >= 2 then 1 else 0
  }

  /** The first set bit of a byte. */
  lemma {:induction false} LogIsFirstSetBit(d: bv8, j: nat)
    requires d != 0 && j <= 7 - Log2(d)
    ensures Bit(d, j) <==> j == 7 - Log2(d)
  {
  }

  lemma {:induction false} BitOfXor(x: bv8, y: bv8, j: nat)
    requires j < 8
    ensures Bit(Xor(x, y), j) <==> Bit(x, j) != Bit(y, j)
  {
    MaskedXor(x, y, Mask(j));
  }

  lemma {:induction false} MaskedXor(x: bv8, y: bv8, m: bv8)
    requires m & (m - 1) == 0
    ensures (x ^ y) & m != 0 <==> (x & m != 0) != (y & m != 0)
  {
  }

  lemma {:induction false} SmallerLogIsLess(x: bv8, y: bv8)
    requires x != 0 && y != 0 && Log2(x) < Log2(y)
    ensures x < y
  {
  }

  // ---- Buckets ----

  /** The first byte that is not zero, 32 if there is none. */
  function FirstByte(d: NodeId, from: nat): (i: nat)
    requires from <= 32 && forall k :: 0 <= k < from ==> d[k] == 0
    ensures from <= i <= 32 && (i < 32 ==> d[i] != 0) && forall k :: 0 <= k < i ==> d[k] == 0
    decreases 32 - from
  {
    if from < 32 && d[from] == 0 then FirstByte(d, from + 1) else from
  }

  /** `bucket_index`; the node's own id goes to the last bucket. */
  function Bucket(local: NodeId, id: NodeId): (b: nat)
    ensures b < 256
  {
    var d := Distance(local, id);
    var i := FirstByte(d, 0);
    if i == 32 then 255 else 8 * i + (7 - Log2(d[i]))
  }

  lemma {:induction false} SameByteSameBits(x: bv8, y: bv8)
    requires Xor(x, y) == 0
    ensures x == y
  {
  }

  /** The bucket of another node is the first bit where its id differs from the local one. */
  lemma {:induction false} BucketIsFirstDifferingBit(local: NodeId, id: NodeId)
    requires local != id
    ensures var b := Bucket(local, id);
            && IdBit(local, b) != IdBit(id, b)
            && forall n: nat :: n < b ==> IdBit(local, n) == IdBit(id, n)
  {
    hide Xor, Bit, Log2;
    var d := Distance(local, id);
    var i := FirstByte(d, 0);
    if i == 32 {
      forall k | 0 <= k < 32
        ensures local[k] == id[k]
      {
        assert d[k] == Xor(local[k], id[k]) == 0;
        SameByteSameBits(local[k], id[k]);
      }
      assert false;
    } else {
      var b := Bucket(local, id);
      assert b / 8 == i && b % 8 == 7 - Log2(d[i]);
      FirstBitOfByte(local[i], id[i], b % 8);
      forall n: nat | n < b
        ensures IdBit(local, n) == IdBit(id, n)
      {
        if n / 8 < i {
          assert d[n / 8] == Xor(local[n / 8], id[n / 8]) == 0;
          SameByteSameBits(local[n / 8], id[n / 8]);
        } else {
          assert n / 8 == i && n % 8 < b % 8;
          FirstBitOfByte(local[i], id[i], n % 8);
        }
      }
    }
  }

  lemma {:induction false} FirstBitOfByte(x: bv8, y: bv8, j: nat)
    requires Xor(x, y) != 0 && j <= 7 - Log2(Xor(x, y))
    ensures Bit(x, j) != Bit(y, j) <==> j == 7 - Log2(Xor(x, y))
  {
    LogIsFirstSetBit(Xor(x, y), j);
    BitOfXor(x, y, j);
  }

  /** A lower bucket holds only strictly farther nodes. */
  lemma {:induction false} LowerBucketIsFarther(local: NodeId, a: NodeId, b: NodeId)
    requires Bucket(local, a) < Bucket(local, b)
    ensures Less(Distance(local, b), Distance(local, a))
  {
    var da, db := Distance(local, a), Distance(local, b);
    var i, j := FirstByte(da, 0), FirstByte(db, 0);
    assert i < 32 && i <= j;
    if i == j {
      SmallerLogIsLess(db[i], da[i]);
    } else {
      assert db[i] == 0;
    }
    assert LessAt(db, da, i);
  }

  lemma {:induction false} DistanceSymmetric(a: NodeId, b: NodeId)
    ensures Distance(a, b) == Distance(b, a)
  {
    forall i | 0 <= i < 32
      ensures Distance(a, b)[i] == Distance(b, a)[i]
    {
    }
  }
}
