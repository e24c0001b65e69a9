/** Octet strings and big-endian integers, as the wire formats use them. */
module Bytes {

  type byte = x: int | 0 <= x < 256

  type Octets = seq<byte>

  type uint32 = x: int | 0 <= x < 0x1_0000_0000
  type uint64 = x: int | 0 <= x < 0x1_0000_0000_0000_0000
  type int64 = x: int | -0x8000_0000_0000_0000 <= x < 0x8000_0000_0000_0000

  function Pow256(n: nat): (p: nat)
    ensures p > 0
  {
    if n == 0 then 1 else 256 * Pow256(n - 1)
  }

  /** The `width` low-order octets of `v`, most significant first. */
  function ToBE(v: nat, width: nat): (s: Octets)
    ensures |s| == width
  {
    if width == 0 then [] else ToBE(v / 256, width - 1) + [v % 256]
  }

  function FromBE(s: Octets): nat {
    if s == [] then 0 else FromBE(s[..|s| - 1]) * 256 + s[|s| - 1]
  }

  lemma {:induction false} FromBEBound(s: Octets)
    ensures FromBE(s) < Pow256(|s|)
  {
    if s != [] {
      FromBEBound(s[..|s| - 1]);
    }
  }

  /** Decoding undoes encoding, up to the width. */
  lemma {:induction false} FromToBE(v: nat, width: nat)
    requires v < Pow256(width)
    ensures FromBE(ToBE(v, width)) == v
  {
    if width != 0 {
      FromToBE(v / 256, width - 1);
      assert ToBE(v, width)[..width - 1] == ToBE(v / 256, width - 1);
    }
  }

  /** Encoding undoes decoding. */
  lemma {:induction false} ToFromBE(s: Octets)
    ensures ToBE(FromBE(s), |s|) == s
  {
    if s != [] {
      var init, last := s[..|s| - 1], s[|s| - 1];
      ToFromBE(init);
      assert FromBE(s) / 256 == FromBE(init) && FromBE(s) % 256 == last;
      assert s == init + [last];
    }
  }

  lemma Widths()
    ensures Pow256(1) == 0x100 && Pow256(2) == 0x1_0000 && Pow256(3) == 0x100_0000
    ensures Pow256(4) == 0x1_0000_0000 && Pow256(8) == 0x1_0000_0000_0000_0000
  {
    assert Pow256(2) == 256 * Pow256(1);
    assert Pow256(3) == 256 * Pow256(2);
    assert Pow256(4) == 256 * Pow256(3);
    assert Pow256(5) == 256 * Pow256(4);
    assert Pow256(6) == 256 * Pow256(5);
    assert Pow256(7) == 256 * Pow256(6);
    assert Pow256(8) == 256 * Pow256(7);
  }
}
