/** The voter bit mask of `crates/arx-bitvec`: bytes, filled from the most significant bit. */
module BitVectors {
  import opened Types

  const BUCKET_SIZE: nat := 8

  function RequiredBuckets(numBits: nat): nat {
    if numBits == 0 then 0 else (numBits - 1) / BUCKET_SIZE + 1
  }

  function WithNumBits(numBits: nat): BitVec {
    BitVec(seq(RequiredBuckets(numBits), _ => 0))
  }

  function Mask(offset: nat): bv8
    requires offset < 8
  {
    0x80 >> offset
  }

  predicate IsSet(b: BitVec, pos: nat) {
    pos / BUCKET_SIZE < |b.inner| && b.inner[pos / BUCKET_SIZE] & Mask(pos % BUCKET_SIZE) != 0
  }

  function Resize(b: BitVec, buckets: nat): (r: BitVec)
    ensures |r.inner| == if |b.inner| < buckets then buckets else |b.inner|
  {
    if |b.inner| < buckets then BitVec(b.inner + seq(buckets - |b.inner|, _ => 0)) else b
  }

  function Set(b: BitVec, pos: nat): BitVec {
    var bucket := pos / BUCKET_SIZE;
    var grown := Resize(b, bucket + 1);
    BitVec(grown.inner[bucket := grown.inner[bucket] | Mask(pos % BUCKET_SIZE)])
  }

  function TrailingZeros(b: bv8): nat
    requires b != 0
  {
    if b & 1 != 0 then 0 else if b & 2 != 0 then 1 else if b & 4 != 0 then 2 else if b & 8 != 0 then 3
    else if b & 16 != 0 then 4 else if b & 32 != 0 then 5 else if b & 64 != 0 then 6 else 7
  }

  function LastSetBit(b: BitVec): Option<nat>
    decreases |b.inner|
  {
    if b.inner == [] then None
    else
      var last := b.inner[|b.inner| - 1];
      if last != 0 then Some(BUCKET_SIZE * |b.inner| - TrailingZeros(last) - 1)
      else LastSetBit(BitVec(b.inner[..|b.inner| - 1]))
  }

  function OnesBelow(b: BitVec, n: nat): seq<nat> {
    if n == 0 then [] else OnesBelow(b, n - 1) + (if IsSet(b, n - 1) then [n - 1] else [])
  }

  /** The set positions in ascending order. */
  function IterOnes(b: BitVec): seq<nat> {
    OnesBelow(b, BUCKET_SIZE * |b.inner|)
  }

  lemma MaskSelects(b: bv8, i: nat, j: nat)
    requires i < 8 && j < 8
    ensures ((b | Mask(i)) & Mask(j) != 0) <==> (i == j || b & Mask(j) != 0)
  {
    assert Mask(0) == 0x80 && Mask(1) == 0x40 && Mask(2) == 0x20 && Mask(3) == 0x10;
    assert Mask(4) == 0x08 && Mask(5) == 0x04 && Mask(6) == 0x02 && Mask(7) == 0x01;
  }

  lemma SetAddsOnePosition(b: BitVec, pos: nat, q: nat)
    ensures IsSet(Set(b, pos), q) <==> q == pos || IsSet(b, q)
    ensures |Set(b, pos).inner| == |Resize(b, pos / BUCKET_SIZE + 1).inner|
  {
    var bucket := pos / BUCKET_SIZE;
    if q / BUCKET_SIZE == bucket {
      var before := Resize(b, bucket + 1).inner[bucket];
      MaskSelects(before, pos % BUCKET_SIZE, q % BUCKET_SIZE);
      assert |b.inner| <= bucket ==> before == 0;
    }
  }

  lemma FreshHasNoBits(numBits: nat, q: nat)
    ensures !IsSet(WithNumBits(numBits), q)
  {
  }

  lemma TrailingZerosIsLowest(b: bv8, k: nat)
    requires b != 0 && k < 8
    ensures TrailingZeros(b) < 8
    ensures b & Mask(7 - TrailingZeros(b)) != 0
    ensures k > 7 - TrailingZeros(b) ==> b & Mask(k) == 0
  {
    assert Mask(0) == 0x80 && Mask(1) == 0x40 && Mask(2) == 0x20 && Mask(3) == 0x10;
    assert Mask(4) == 0x08 && Mask(5) == 0x04 && Mask(6) == 0x02 && Mask(7) == 0x01;
  }

  /** `last_set_bit` is the greatest set position, and absent only when nothing is set. */
  lemma {:induction false} LastSetBitIsGreatest(b: BitVec, q: nat)
    ensures LastSetBit(b).None? ==> !IsSet(b, q)
    ensures LastSetBit(b).Some? ==> IsSet(b, LastSetBit(b).value)
    ensures LastSetBit(b).Some? && q > LastSetBit(b).value ==> !IsSet(b, q)
    decreases |b.inner|
  {
    if b.inner != [] {
      var n := |b.inner| - 1;
      var last := b.inner[n];
      if last != 0 {
        TrailingZerosIsLowest(last, q % BUCKET_SIZE);
        var p := LastSetBit(b).value;
        assert p / BUCKET_SIZE == n && p % BUCKET_SIZE == 7 - TrailingZeros(last);
      } else {
        var shorter := BitVec(b.inner[..n]);
        LastSetBitIsGreatest(shorter, q);
      }
    }
  }

  lemma {:induction false} OnesBelowMembers(b: BitVec, n: nat, q: nat)
    ensures q in OnesBelow(b, n) <==> q < n && IsSet(b, q)
  {
    if n > 0 {
      OnesBelowMembers(b, n - 1, q);
    }
  }

  lemma {:induction false} OnesBelowAscending(b: BitVec, n: nat)
    ensures forall i, j :: 0 <= i < j < |OnesBelow(b, n)| ==> OnesBelow(b, n)[i] < OnesBelow(b, n)[j]
  {
    if n > 0 {
      OnesBelowAscending(b, n - 1);
      var ones := OnesBelow(b, n - 1);
      forall k | 0 <= k < |ones| ensures ones[k] < n - 1 {
        OnesBelowMembers(b, n - 1, ones[k]);
      }
    }
  }

  lemma IterOnesMembers(b: BitVec, q: nat)
    ensures q in IterOnes(b) <==> IsSet(b, q)
  {
    OnesBelowMembers(b, BUCKET_SIZE * |b.inner|, q);
  }

  lemma SameBits(a: bv8, b: bv8)
    requires forall k :: 0 <= k < 8 ==> (a & Mask(k) != 0 <==> b & Mask(k) != 0)
    ensures a == b
  {
    assert Mask(0) == 0x80 && Mask(1) == 0x40 && Mask(2) == 0x20 && Mask(3) == 0x10;
    assert Mask(4) == 0x08 && Mask(5) == 0x04 && Mask(6) == 0x02 && Mask(7) == 0x01;
  }

  /** Masks of one size are determined by the positions they set. */
  lemma SamePositions(a: BitVec, b: BitVec)
    requires |a.inner| == |b.inner| && forall q: nat :: IsSet(a, q) <==> IsSet(b, q)
    ensures a == b
  {
    forall i | 0 <= i < |a.inner| ensures a.inner[i] == b.inner[i] {
      forall k | 0 <= k < 8 ensures a.inner[i] & Mask(k) != 0 <==> b.inner[i] & Mask(k) != 0 {
        var q := BUCKET_SIZE * i + k;
        assert q / BUCKET_SIZE == i && q % BUCKET_SIZE == k;
        assert IsSet(a, q) <==> IsSet(b, q);
      }
      SameBits(a.inner[i], b.inner[i]);
    }
  }
}
