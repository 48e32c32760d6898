/** Native little-endian images of the scalar fields that the codecs copy byte by byte. */
module Bytes {

  type byte = x: int | 0 <= x < 256
  type int64 = x: int | -0x8000_0000_0000_0000 <= x < 0x8000_0000_0000_0000

  const TWO_64 := 0x1_0000_0000_0000_0000

  function Pow256(n: nat): (p: nat)
    ensures p > 0
  {
    if n == 0 then 1 else 256 * Pow256(n - 1)
  }

  /** The `width` bytes of `v`, least significant first. */
  function Encode(v: nat, width: nat): (bs: seq<byte>)
    ensures |bs| == width
    decreases width, v
  {
    if width == 0 then [] else [v % 256] + Encode(v / 256, width - 1)
  }

  function Decode(bs: seq<byte>): nat {
    if bs == [] then 0 else bs[0] + 256 * Decode(bs[1..])
  }

  /** Byte `k` of the image holds the digit of weight `256^k`. */
  lemma {:induction false} EncodeByte(v: nat, width: nat, k: nat)
    requires k < width
    ensures Encode(v, width)[k] == (v / Pow256(k)) % 256
    decreases k
  {
    if k > 0 {
      EncodeByte(v / 256, width - 1, k - 1);
      DivideTwice(v, Pow256(k - 1));
    } else {
      assert Pow256(0) == 1;
    }
  }

  lemma DivideTwice(v: nat, p: nat)
    requires p > 0
    ensures (v / 256) / p == v / (256 * p)
  {
    var q := v / (256 * p);
    var r := v - 256 * p * q;
    assert 0 <= r < 256 * p;
    assert v == 256 * (p * q) + r;
    assert v / 256 == p * q + r / 256;
    assert 0 <= r / 256 < p;
    Quotient(v / 256, p, q, r / 256);
  }

  lemma Quotient(n: nat, p: nat, q: nat, r: nat)
    requires n == p * q + r && r < p
    ensures n / p == q
  {
    var d := n / p;
    assert n == p * d + n % p;
    Spread(p, q, d);
    Spread(p, d, q);
  }

  lemma Spread(p: nat, a: nat, b: nat)
    ensures a < b ==> p * a + p <= p * b
  {
    if a < b {
      var c := b - a - 1;
      assert p * (a + 1 + c) == p * a + p + p * c;
    }
  }

  lemma {:induction false} DecodeEncode(v: nat, width: nat)
    requires v < Pow256(width)
    ensures Decode(Encode(v, width)) == v
    decreases width
  {
    if width > 0 {
      assert v / 256 < Pow256(width - 1);
      DecodeEncode(v / 256, width - 1);
      assert Encode(v, width)[1..] == Encode(v / 256, width - 1);
    }
  }

  lemma {:induction false} DecodeBound(bs: seq<byte>)
    ensures Decode(bs) < Pow256(|bs|)
  {
    if bs != [] {
      DecodeBound(bs[1..]);
    }
  }

  lemma Widths()
    ensures Pow256(1) == 0x100 && Pow256(4) == 0x1_0000_0000 && Pow256(8) == TWO_64
  {
    assert Pow256(2) == 0x1_0000 && Pow256(3) == 0x100_0000;
    assert Pow256(5) == 0x100_0000_0000 && Pow256(6) == 0x1_0000_0000_0000 && Pow256(7) == 0x100_0000_0000_0000;
  }

  /** Two's complement in eight bytes. */
  function EncodeSigned(v: int64): (bs: seq<byte>)
    ensures |bs| == 8
  {
    Encode(if v < 0 then v + TWO_64 else v, 8)
  }

  function DecodeSigned(bs: seq<byte>): int64
    requires |bs| == 8
  {
    Widths();
    DecodeBound(bs);
    var n := Decode(bs);
    if n >= TWO_64 / 2 then n - TWO_64 else n
  }

  lemma DecodeEncodeSigned(v: int64)
    ensures DecodeSigned(EncodeSigned(v)) == v
  {
    Widths();
    DecodeEncode(if v < 0 then v + TWO_64 else v, 8);
  }
}
