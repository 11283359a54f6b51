/** Bytes, and the little-endian image of a 64-bit `size_t` in memory. */
module Bytes {
  type Byte = b: int | 0 <= b < 256
  type Bytes = seq<Byte>

  function Pow256(k: nat): (p: nat)
    ensures p > 0
  {
    if k == 0 then 1 else 256 * Pow256(k - 1)
  }

  const SIZE_LIMIT: nat := 0x1_0000_0000_0000_0000
  const SIZE_BYTES: nat := 8

  type SizeT = n: nat | n < SIZE_LIMIT

  /** The `k` low bytes of `n`, lowest first. */
  function Le(n: nat, k: nat): (bs: Bytes)
    ensures |bs| == k
    decreases k
  {
    if k == 0 then [] else [n % 256] + Le(n / 256, k - 1)
  }

  function FromLe(bs: Bytes): (n: nat)
    ensures n < Pow256(|bs|)
    decreases |bs|
  {
    if bs == [] then 0 else bs[0] + 256 * FromLe(bs[1..])
  }

  lemma {:induction false} FromLeOfLe(n: nat, k: nat)
    requires n < Pow256(k)
    ensures FromLe(Le(n, k)) == n
    decreases k
  {
    if k > 0 {
      FromLeOfLe(n / 256, k - 1);
      assert Le(n, k)[1..] == Le(n / 256, k - 1);
    }
  }

  lemma {:induction false} LeOfFromLe(bs: Bytes)
    ensures Le(FromLe(bs), |bs|) == bs
    decreases |bs|
  {
    if bs != [] {
      LeOfFromLe(bs[1..]);
      assert FromLe(bs) % 256 == bs[0] && FromLe(bs) / 256 == FromLe(bs[1..]);
    }
  }

  lemma SizeFits()
    ensures Pow256(SIZE_BYTES) == SIZE_LIMIT
  {
    assert Pow256(0) == 1;
    assert Pow256(1) == 0x100;
    assert Pow256(2) == 0x1_0000;
    assert Pow256(3) == 0x100_0000;
    assert Pow256(4) == 0x1_0000_0000;
    assert Pow256(5) == 0x100_0000_0000;
    assert Pow256(6) == 0x1_0000_0000_0000;
    assert Pow256(7) == 0x100_0000_0000_0000;
  }

  function EncodeSize(n: SizeT): (bs: Bytes)
    ensures |bs| == SIZE_BYTES
  {
    Le(n, SIZE_BYTES)
  }

  function DecodeSize(bs: Bytes): SizeT
    requires |bs| == SIZE_BYTES
  {
    SizeFits();
    FromLe(bs)
  }

  /** Both directions: the image of a size determines it, and every 8 bytes are such an image. */
  lemma {:induction false} SizeRoundTrip(n: SizeT, bs: Bytes)
    requires |bs| == SIZE_BYTES
    ensures DecodeSize(EncodeSize(n)) == n
    ensures DecodeSize(bs) == n <==> bs == EncodeSize(n)
  {
    SizeFits();
    FromLeOfLe(n, SIZE_BYTES);
    LeOfFromLe(bs);
  }

  /** The image is little-endian. */
  lemma {:induction false} LittleEndian(n: SizeT)
    ensures var b: seq<int> := EncodeSize(n);
      n == b[0] + 0x100 * b[1] + 0x1_0000 * b[2] + 0x100_0000 * b[3] + 0x1_0000_0000 * b[4]
         + 0x100_0000_0000 * b[5] + 0x1_0000_0000_0000 * b[6] + 0x100_0000_0000_0000 * b[7]
  {
    var b := EncodeSize(n);
    SizeFits();
    FromLeOfLe(n, SIZE_BYTES);
    hide Le, Pow256;
    FromLeStep(b, 0);
    FromLeStep(b, 1);
    FromLeStep(b, 2);
    FromLeStep(b, 3);
    FromLeStep(b, 4);
    FromLeStep(b, 5);
    FromLeStep(b, 6);
    FromLeStep(b, 7);
    assert b[0..] == b && FromLe(b[8..]) == 0;
  }

  lemma FromLeStep(bs: Bytes, k: nat)
    requires k < |bs|
    ensures FromLe(bs[k..]) == bs[k] + 256 * FromLe(bs[k + 1..])
  {
    assert bs[k..][1..] == bs[k + 1..];
  }

  lemma Cut(a: Bytes, b: Bytes)
    ensures (a + b)[..|a|] == a && (a + b)[|a|..] == b
  {
  }

  /** The contents of a sequence of buffers. */
  function Flatten(pieces: seq<Bytes>): Bytes
    decreases |pieces|
  {
    if pieces == [] then [] else pieces[0] + Flatten(pieces[1..])
  }

  lemma {:induction false} FlattenAppend(a: seq<Bytes>, b: seq<Bytes>)
    ensures Flatten(a + b) == Flatten(a) + Flatten(b)
    decreases |a|
  {
    if a == [] {
      assert a + b == b;
    } else {
      FlattenAppend(a[1..], b);
      assert (a + b)[1..] == a[1..] + b;
    }
  }

  lemma FlattenOne(p: Bytes)
    ensures Flatten([p]) == p
  {
    assert Flatten([p]) == p + Flatten([]);
  }
}
