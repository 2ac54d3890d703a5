/** Octets and fixed-width big-endian integers, as Python's struct and int.to_bytes lay them out. */
module Bytes {
  type Byte = b: int | 0 <= b < 256
  type Bytes = seq<Byte>

  datatype Option<+T> = None | Some(value: T)

  const MASK32: nat := 0x1_0000_0000
  const MASK64: nat := 0x1_0000_0000_0000_0000

  function Pow256(k: nat): (p: nat)
    ensures p >= 1
  {
    if k == 0 then 1 else 256 * Pow256(k - 1)
  }

  /** The low `width` octets of n, most significant first. */
  function BigEndian(n: nat, width: nat): (bs: Bytes)
    ensures |bs| == width
  {
    if width == 0 then [] else BigEndian(n / 256, width - 1) + [n % 256]
  }

  function FromBigEndian(bs: Bytes): nat {
    if bs == [] then 0 else FromBigEndian(bs[..|bs| - 1]) * 256 + bs[|bs| - 1]
  }

  lemma {:induction false} BigEndianRoundTrip(n: nat, width: nat)
    requires n < Pow256(width)
    ensures FromBigEndian(BigEndian(n, width)) == n
  {
    if width > 0 {
      BigEndianRoundTrip(n / 256, width - 1);
      var bs := BigEndian(n, width);
      assert bs[..width - 1] == BigEndian(n / 256, width - 1);
    }
  }

  lemma {:induction false} FromBigEndianRoundTrip(bs: Bytes)
    ensures FromBigEndian(bs) < Pow256(|bs|)
    ensures BigEndian(FromBigEndian(bs), |bs|) == bs
  {
    if bs != [] {
      FromBigEndianRoundTrip(bs[..|bs| - 1]);
      var n := FromBigEndian(bs);
      assert n / 256 == FromBigEndian(bs[..|bs| - 1]);
      assert n % 256 == bs[|bs| - 1];
    }
  }

  lemma Widths()
    ensures Pow256(4) == MASK32 && Pow256(8) == MASK64
  {
    assert Pow256(1) == 256 && Pow256(2) == 0x1_0000 && Pow256(3) == 0x100_0000 && Pow256(4) == MASK32;
    assert Pow256(5) == 0x100_0000_0000 && Pow256(6) == 0x1_0000_0000_0000;
    assert Pow256(7) == 0x100_0000_0000_0000;
  }

  lemma DivMod(x: nat, q: nat, n: nat, r: nat)
    requires n > 0 && x == q * n + r && r < n
    ensures x / n == q && x % n == r
  {
    var d := x / n - q;
    assert x == (x / n) * n + x % n;
    assert d * n == r - x % n;
    assert d >= 1 ==> (d - 1) * n >= 0;
    assert d <= -1 ==> (-d - 1) * n >= 0;
  }

  lemma SmallMod(n: nat, range: nat)
    requires n < range
    ensures n % range == n
  {
  }

  /** A number reduced to its field, printed and parsed. */
  lemma {:induction false} WordRoundTrip(n: int, width: nat, range: nat)
    requires range == Pow256(width)
    ensures FromBigEndian(BigEndian(n % range, width)) == n % range
  {
    BigEndianRoundTrip(n % range, width);
  }

  /** A field of octets, parsed and printed. */
  lemma {:induction false} WordParsed(bs: Bytes, width: nat, range: nat)
    requires |bs| == width && range == Pow256(width)
    ensures FromBigEndian(bs) < range && BigEndian(FromBigEndian(bs) % range, width) == bs
  {
    FromBigEndianRoundTrip(bs);
    var n := FromBigEndian(bs);
    SmallMod(n, range);
  }
}
