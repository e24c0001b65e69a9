/**
 AES-128-CMAC and the key derivation built on it (core/esim/crypto/crypto.go).  The block cipher is a
 parameter.  Subkeys are stated in the field of 2^128 elements, as section 6.1 of NIST SP 800-38B
 means them, and the MAC by the recursion of its section 6.2.
 */
module Cmac {
  import opened Wrappers

  type OctetString = seq<bv8>
  type Block = b: OctetString | |b| == 16 witness seq(16, _ => 0)

  /** Key and input block to output block. */
  type Cipher = (Block, Block) -> Block

  function Zeros(n: nat): (s: OctetString)
    ensures |s| == n && forall i :: 0 <= i < n ==> s[i] == 0
  {
    if n == 0 then [] else Zeros(n - 1) + [0]
  }

  const ZERO_BLOCK: Block := Zeros(16)

  function Xor(a: Block, b: Block): Block {
    seq(16, i requires 0 <= i < 16 => a[i] ^ b[i])
  }

  // ---- blocks as polynomials over two elements ----

  /** The exponents whose coefficient is one. */
  type Poly = set<nat>

  function Sum(a: Poly, b: Poly): Poly { (a - b) + (b - a) }

  function TimesX(a: Poly): Poly { set e <- a :: e + 1 }

  const MODULUS: Poly := {128, 7, 2, 1, 0}

  /** Multiplication by x in the field: one subtraction of the modulus is enough. */
  function Doubled(a: Poly): Poly {
    if 127 in a then Sum(TimesX(a), MODULUS) else TimesX(a)
  }

  function Weight(j: nat): bv8
    requires j < 8
  {
    match j case 0 => 1 case 1 => 2 case 2 => 4 case 3 => 8 case 4 => 16 case 5 => 32 case 6 => 64 case _ => 128
  }

  predicate Bit(x: bv8, j: nat)
    requires j < 8
  {
    x & Weight(j) != 0
  }

  /** Bit strings are written with the highest exponent first. */
  predicate Coefficient(b: Block, e: nat)
    requires e < 128
  {
    Bit(b[15 - e / 8], e % 8)
  }

  function PolyOf(b: Block): (p: Poly)
    ensures forall e <- p :: e < 128
  {
    set e: nat | e < 128 && Coefficient(b, e)
  }

  function If(c: bool, w: bv8): bv8 { if c then w else 0 }

  function OctetWithBits(b0: bool, b1: bool, b2: bool, b3: bool, b4: bool, b5: bool, b6: bool, b7: bool): bv8 {
    If(b0, 1) | If(b1, 2) | If(b2, 4) | If(b3, 8) | If(b4, 16) | If(b5, 32) | If(b6, 64) | If(b7, 128)
  }

  lemma BitsOfOctet(b0: bool, b1: bool, b2: bool, b3: bool, b4: bool, b5: bool, b6: bool, b7: bool)
    ensures var x := OctetWithBits(b0, b1, b2, b3, b4, b5, b6, b7);
      && Bit(x, 0) == b0 && Bit(x, 1) == b1 && Bit(x, 2) == b2 && Bit(x, 3) == b3
      && Bit(x, 4) == b4 && Bit(x, 5) == b5 && Bit(x, 6) == b6 && Bit(x, 7) == b7
  {
  }

  function OctetOf(p: Poly, base: nat): bv8 {
    OctetWithBits(base in p, base + 1 in p, base + 2 in p, base + 3 in p, base + 4 in p, base + 5 in p, base + 6 in p,
        base + 7 in p)
  }

  function BlockOf(p: Poly): Block {
    seq(16, i requires 0 <= i < 16 => OctetOf(p, 8 * (15 - i)))
  }

  lemma OctetBits(p: Poly, base: nat, j: nat)
    requires j < 8
    ensures Bit(OctetOf(p, base), j) <==> base + j in p
  {
    hide OctetWithBits, Bit;
    BitsOfOctet(base in p, base + 1 in p, base + 2 in p, base + 3 in p, base + 4 in p, base + 5 in p, base + 6 in p,
        base + 7 in p);
    match j case 0 => case 1 => case 2 => case 3 => case 4 => case 5 => case 6 => case _ =>
  }

  lemma SameBits(x: bv8, y: bv8)
    requires forall j: nat :: j < 8 ==> (Bit(x, j) <==> Bit(y, j))
    ensures x == y
  {
    assert Bit(x, 0) == Bit(y, 0) && Bit(x, 1) == Bit(y, 1) && Bit(x, 2) == Bit(y, 2) && Bit(x, 3) == Bit(y, 3);
    assert Bit(x, 4) == Bit(y, 4) && Bit(x, 5) == Bit(y, 5) && Bit(x, 6) == Bit(y, 6) && Bit(x, 7) == Bit(y, 7);
  }

  /** Blocks and polynomials below degree 128 are the same thing. */
  lemma PolyOfBlockOf(p: Poly)
    requires forall e <- p :: e < 128
    ensures PolyOf(BlockOf(p)) == p
  {
    hide OctetOf, Bit;
    forall e: nat | e < 128 ensures Coefficient(BlockOf(p), e) <==> e in p {
      OctetBits(p, 8 * (e / 8), e % 8);
      assert BlockOf(p)[15 - e / 8] == OctetOf(p, 8 * (e / 8));
    }
  }

  lemma BlockOfPolyOf(b: Block)
    ensures BlockOf(PolyOf(b)) == b
  {
    hide OctetOf, Bit;
    var p := PolyOf(b);
    forall i | 0 <= i < 16 ensures BlockOf(p)[i] == b[i] {
      forall j: nat | j < 8 ensures Bit(BlockOf(p)[i], j) <==> Bit(b[i], j) {
        OctetBits(p, 8 * (15 - i), j);
        var e := 8 * (15 - i) + j;
        assert e / 8 == 15 - i && e % 8 == j;
        assert Coefficient(b, e) <==> Bit(b[i], j);
      }
      SameBits(BlockOf(p)[i], b[i]);
    }
  }

  lemma XorBit(x: bv8, y: bv8, j: nat)
    requires j < 8
    ensures Bit(x ^ y, j) <==> Bit(x, j) != Bit(y, j)
  {
    match j case 0 => case 1 => case 2 => case 3 => case 4 => case 5 => case 6 => case _ =>
  }

  /** Exclusive or is addition. */
  lemma XorIsSum(a: Block, b: Block)
    ensures PolyOf(Xor(a, b)) == Sum(PolyOf(a), PolyOf(b))
  {
    hide Bit;
    forall e: nat | e < 128 ensures Coefficient(Xor(a, b), e) <==> Coefficient(a, e) != Coefficient(b, e) {
      XorBit(a[15 - e / 8], b[15 - e / 8], e % 8);
    }
  }

  // ---- the shift and the subkeys ----

  function ShiftedOctet(x: bv8, lower: bv8): bv8 { (x << 1) | (lower >> 7) }

  lemma ShiftedBit(x: bv8, lower: bv8, j: nat)
    requires j < 8
    ensures Bit(ShiftedOctet(x, lower), j) <==> if j == 0 then Bit(lower, 7) else Bit(x, j - 1)
  {
    match j case 0 => case 1 => case 2 => case 3 => case 4 => case 5 => case 6 => case _ =>
  }

  function Below(l: Block, i: nat): bv8
    requires i < 16
  {
    if i == 15 then 0 else l[i + 1]
  }

  ghost predicate ShiftedFrom(out: Block, l: Block) {
    forall i :: 0 <= i < 16 ==> out[i] == ShiftedOctet(l[i], Below(l, i))
  }

  /** The octet-wise shift drops the top coefficient of the product with x, and nothing else. */
  lemma ShiftIsTimesX(out: Block, l: Block)
    requires ShiftedFrom(out, l)
    ensures PolyOf(out) == TimesX(PolyOf(l)) - {128}
  {
    hide Bit, ShiftedOctet;
    forall e: nat | e < 128 ensures Coefficient(out, e) <==> e > 0 && Coefficient(l, e - 1) {
      ShiftedCoefficient(out, l, e);
    }
    forall e: nat ensures e in PolyOf(out) <==> e in TimesX(PolyOf(l)) - {128} {
      if 0 < e < 128 { assert e - 1 in PolyOf(l) <==> e in TimesX(PolyOf(l)); }
    }
  }

  lemma ShiftedCoefficient(out: Block, l: Block, e: nat)
    requires ShiftedFrom(out, l) && e < 128
    ensures Coefficient(out, e) <==> e > 0 && Coefficient(l, e - 1)
  {
    hide Bit, ShiftedOctet;
    var i, j := 15 - e / 8, e % 8;
    assert out[i] == ShiftedOctet(l[i], Below(l, i));
    ShiftedBit(l[i], Below(l, i), j);
    if e == 0 {
      NoBits(7);
    } else if j == 0 {
      assert (e - 1) / 8 == e / 8 - 1 && (e - 1) % 8 == 7;
    } else {
      assert (e - 1) / 8 == e / 8 && (e - 1) % 8 == j - 1;
    }
  }

  lemma NoBits(j: nat)
    requires j < 8
    ensures !Bit(0, j)
  {
  }

  method ShiftLeft(l: Block) returns (out: Block)
    ensures PolyOf(out) == TimesX(PolyOf(l)) - {128}
  {
    hide PolyOf, TimesX, ShiftedOctet;
    var buffer := new bv8[16];
    var carry: bv8 := 0;
    ghost var lower: bv8 := 0;
    for i := 16 downto 0
      invariant carry == lower >> 7 && (i > 0 ==> lower == Below(l, i - 1))
      invariant forall k :: i <= k < 16 ==> buffer[k] == ShiftedOctet(l[k], Below(l, k))
    {
      ShiftedOctetIs(l[i], lower);
      buffer[i] := (l[i] << 1) | carry;
      carry, lower := l[i] >> 7, l[i];
    }
    out := buffer[..];
    assert forall i :: 0 <= i < 16 ==> out[i] == buffer[i];
    ShiftIsTimesX(out, l);
  }

  lemma ShiftedOctetIs(x: bv8, lower: bv8)
    ensures ShiftedOctet(x, lower) == (x << 1) | (lower >> 7)
  {
  }

  /** The low coefficients of the modulus, as a block. */
  const RB: Block := Zeros(15) + [0x87]

  lemma RbIsLowModulus()
    ensures PolyOf(RB) == MODULUS - {128}
  {
    forall e: nat | e < 128 ensures Coefficient(RB, e) <==> e in {7, 2, 1, 0} {
      if e < 8 { assert RB[15] == 0x87; } else { assert RB[15 - e / 8] == 0; }
    }
  }

  lemma TopBit(x: bv8)
    ensures Bit(x, 7) <==> x & 0x80 != 0
  {
  }

  /** Shifting, and adding the constant when a bit fell off the top, is multiplication by x. */
  lemma ShiftAndAddIsDoubling(l: Block, shifted: Block)
    requires PolyOf(shifted) == TimesX(PolyOf(l)) - {128}
    ensures BlockOf(Doubled(PolyOf(l))) == if l[0] & 0x80 != 0 then Xor(shifted, RB) else shifted
    ensures PolyOf(BlockOf(Doubled(PolyOf(l)))) == Doubled(PolyOf(l))
  {
    var p := PolyOf(l);
    assert 127 in p <==> l[0] & 0x80 != 0 by {
      assert Coefficient(l, 127) <==> Bit(l[0], 7);
      TopBit(l[0]);
    }
    hide Bit, Xor, PolyOf, BlockOf;
    RbIsLowModulus();
    XorIsSum(shifted, RB);
    DropTop(p);
    PolyOfBlockOf(Doubled(p));
    BlockOfPolyOf(if l[0] & 0x80 != 0 then Xor(shifted, RB) else shifted);
  }

  lemma DropTop(p: Poly)
    requires forall e <- p :: e < 128
    ensures Doubled(p) == if 127 in p then Sum(TimesX(p) - {128}, MODULUS - {128}) else TimesX(p) - {128}
    ensures forall e <- Doubled(p) :: e < 128
  {
    assert 128 in TimesX(p) <==> 127 in p;
    var q := TimesX(p);
    assert forall e <- q :: e <= 128;
    hide TimesX;
    assert 128 in q ==> Sum(q, MODULUS) == Sum(q - {128}, MODULUS - {128});
    assert 128 !in q ==> q - {128} == q;
  }

  /** The subkeys are L·x and L·x·x, where L is the cipher of the zero block. */
  function Subkey1(cipher: Cipher, key: Block): Block {
    BlockOf(Doubled(PolyOf(cipher(key, ZERO_BLOCK))))
  }

  function Subkey2(cipher: Cipher, key: Block): Block {
    BlockOf(Doubled(Doubled(PolyOf(cipher(key, ZERO_BLOCK)))))
  }

  method XorInPlace(a: array<bv8>, b: Block)
    requires a.Length == 16
    modifies a
    ensures a[..] == Xor(old(a[..]), b)
  {
    for i := 0 to 16
      invariant forall k :: 0 <= k < 16 ==> a[k] == if k < i then old(a[k]) ^ b[k] else old(a[k])
    {
      a[i] := a[i] ^ b[i];
    }
  }

  method DoubleBlock(l: Block) returns (k: Block)
    ensures k == BlockOf(Doubled(PolyOf(l))) && PolyOf(k) == Doubled(PolyOf(l))
  {
    hide PolyOf, BlockOf, Doubled;
    k := ShiftLeft(l);
    ShiftAndAddIsDoubling(l, k);
    if l[0] & 0x80 != 0 {
      var buffer := new bv8[16](i requires 0 <= i < 16 => k[i]);
      assert buffer[..] == k;
      XorInPlace(buffer, RB);
      k := buffer[..];
    }
  }

  method CmacSubkeys(cipher: Cipher, key: Block) returns (k1: Block, k2: Block)
    ensures k1 == Subkey1(cipher, key) && k2 == Subkey2(cipher, key)
  {
    k1 := DoubleBlock(cipher(key, ZERO_BLOCK));
    k2 := DoubleBlock(k1);
  }

  // ---- why one subtraction is the field multiplication ----

  /** The multiple of the modulus by the polynomial with coefficients `q`, lowest first. */
  function Multiple(q: seq<bool>): Poly {
    if q == [] then {} else Sum(TimesX(Multiple(q[1..])), if q[0] then MODULUS else {})
  }

  lemma {:induction false} MultiplesReachDegree128(q: seq<bool>) returns (d: nat)
    ensures Multiple(q) != {} ==> d >= 128 && d in Multiple(q)
  {
    d := 0;
    if q != [] {
      var e := MultiplesReachDegree128(q[1..]);
      if Multiple(q[1..]) != {} {
        d := e + 1;
      } else {
        assert TimesX({}) == {};
        d := 128;
      }
    }
  }

  /** Among the polynomials below degree 128, the doubled one is the only one congruent to the product with x. */
  lemma DoubledIsTheResidue(a: Poly, r: Poly)
    requires forall e <- a :: e < 128
    ensures (forall e <- r :: e < 128) && (exists q :: TimesX(a) == Sum(r, Multiple(q))) <==> r == Doubled(a)
  {
    DropTop(a);
    var top := [127 in a];
    assert Multiple(top) == if 127 in a then MODULUS else {} by {
      assert top[1..] == [] && TimesX({}) == {};
    }
    assert TimesX(a) == Sum(Doubled(a), Multiple(top)) by { SumCancels(TimesX(a), Multiple(top)); }
    if (forall e <- r :: e < 128) && (exists q :: TimesX(a) == Sum(r, Multiple(q))) {
      var q :| TimesX(a) == Sum(r, Multiple(q));
      OnlyResidue(a, r, q);
    }
  }

  lemma SumCancels(a: Poly, b: Poly)
    ensures Sum(Sum(a, b), b) == a
  {
  }

  lemma OnlyResidue(a: Poly, r: Poly, q: seq<bool>)
    requires (forall e <- a :: e < 128) && (forall e <- r :: e < 128) && TimesX(a) == Sum(r, Multiple(q))
    ensures r == Doubled(a)
  {
    DropTop(a);
    var first := if q == [] then [127 in a] else [q[0] != (127 in a)] + q[1..];
    var m := if 127 in a then MODULUS else {};
    assert Multiple(first) == Sum(Multiple(q), m) by {
      assert first[1..] == if q == [] then [] else q[1..];
      assert TimesX({}) == {};
      hide TimesX;
      assert q == [] ==> Multiple(q) == {};
    }
    assert Sum(r, Doubled(a)) == Multiple(first) by {
      assert Doubled(a) == Sum(TimesX(a), m);
      hide TimesX, Doubled;
    }
    var d := MultiplesReachDegree128(first);
    assert Multiple(first) == {};
    assert forall e :: e in r <==> e in Doubled(a) by {
      assert forall e :: e in Sum(r, Doubled(a)) ==> e in Multiple(first);
    }
  }

  // ---- the MAC ----

  function Padded(m: OctetString): Block
    requires |m| < 16
  {
    m + [0x80] + Zeros(15 - |m|)
  }

  /** The last block, masked by the subkey that tells whether it was complete. */
  function LastBlock(cipher: Cipher, key: Block, m: OctetString): Block
    requires |m| <= 16
  {
    if |m| == 16 then Xor(Subkey1(cipher, key), m) else Xor(Subkey2(cipher, key), Padded(m))
  }

  function MacFrom(cipher: Cipher, key: Block, c: Block, m: OctetString): Block
    decreases |m|
  {
    if |m| > 16 then MacFrom(cipher, key, cipher(key, Xor(c, m[..16])), m[16..])
    else cipher(key, Xor(c, LastBlock(cipher, key, m)))
  }

  function Mac(cipher: Cipher, key: Block, m: OctetString): Block { MacFrom(cipher, key, ZERO_BLOCK, m) }

  function MacResult(cipher: Cipher, key: OctetString, m: OctetString): Result<Block, string> {
    if |key| == 16 then Ok(Mac(cipher, key, m)) else Err("key must be 16 bytes")
  }

  lemma XorCommutes(a: Block, b: Block)
    ensures Xor(a, b) == Xor(b, a)
  {
  }

  /** The bytes after the last full block that is not final. */
  function Tail(m: OctetString): (r: OctetString)
    ensures |r| <= 16
  {
    var blocks := |m| / 16;
    if |m| % 16 == 0 && blocks > 0 then m[(blocks - 1) * 16..] else m[blocks * 16..]
  }

  method MaskedTail(cipher: Cipher, key: Block, msg: OctetString) returns (last: Block)
    ensures last == LastBlock(cipher, key, Tail(msg))
  {
    hide Subkey1, Subkey2, Xor, PolyOf, BlockOf;
    var k1, k2 := CmacSubkeys(cipher, key);
    var blocks, rem := |msg| / 16, |msg| % 16;
    var buffer := new bv8[16](_ => 0);
    ghost var tail := Tail(msg);
    if rem == 0 && blocks > 0 {
      CopyInto(buffer, msg[(blocks - 1) * 16..]);
      assert buffer[..] == tail;
      XorCommutes(tail, k1);
      XorInPlace(buffer, k1);
    } else {
      CopyInto(buffer, msg[blocks * 16..]);
      buffer[rem] := 0x80;
      assert buffer[..] == Padded(tail);
      XorCommutes(Padded(tail), k2);
      XorInPlace(buffer, k2);
    }
    last := buffer[..];
  }

  method CMAC(cipher: Cipher, key: OctetString, msg: OctetString) returns (r: Result<Block, string>)
    ensures r == MacResult(cipher, key, msg)
  {
    hide Xor, LastBlock, MacFrom, Tail;
    if |key| != 16 {
      return Err("key must be 16 bytes");
    }
    var last := MaskedTail(cipher, key, msg);
    var x := ZERO_BLOCK;
    var chainBlocks := if |msg| % 16 == 0 then |msg| / 16 - 1 else |msg| / 16;
    var i := 0;
    assert msg[0..] == msg;
    while i < chainBlocks
      invariant 0 <= i && (i <= chainBlocks || i == 0)
      invariant 16 * i <= |msg| && Mac(cipher, key, msg) == MacFrom(cipher, key, x, msg[16 * i..])
    {
      var y := XorBlocks(msg[16 * i..16 * i + 16], x);
      MacStep(cipher, key, x, msg, i);
      x := cipher(key, y);
      i := i + 1;
    }
    MacEnd(cipher, key, x, msg, i);
    var y := XorBlocks(last, x);
    r := Ok(cipher(key, y));
  }

  lemma MacStep(cipher: Cipher, key: Block, x: Block, msg: OctetString, i: nat)
    requires 16 * i + 16 < |msg|
    ensures MacFrom(cipher, key, x, msg[16 * i..])
         == MacFrom(cipher, key, cipher(key, Xor(msg[16 * i..16 * i + 16], x)), msg[16 * (i + 1)..])
  {
    hide Xor;
    var m := msg[16 * i..];
    assert m[..16] == msg[16 * i..16 * i + 16] && m[16..] == msg[16 * (i + 1)..];
    XorCommutes(m[..16], x);
  }

  lemma MacEnd(cipher: Cipher, key: Block, x: Block, msg: OctetString, i: nat)
    requires 16 * i <= |msg| <= 16 * i + 16 && (|msg| == 16 * i ==> i == 0)
    ensures MacFrom(cipher, key, x, msg[16 * i..]) == cipher(key, Xor(LastBlock(cipher, key, Tail(msg)), x))
  {
    hide Xor, LastBlock, MacFrom, Tail;
    TailFrom(msg, i);
    MacOfLast(cipher, key, x, Tail(msg));
    XorCommutes(LastBlock(cipher, key, Tail(msg)), x);
  }

  lemma TailFrom(msg: OctetString, i: nat)
    requires 16 * i <= |msg| <= 16 * i + 16 && (|msg| == 16 * i ==> i == 0)
    ensures msg[16 * i..] == Tail(msg)
  {
    assert |msg| == 16 * i + 16 ==> |msg| / 16 == i + 1;
    assert |msg| < 16 * i + 16 ==> |msg| / 16 == i;
  }

  method CopyInto(a: array<bv8>, s: OctetString)
    requires |s| <= a.Length
    modifies a
    ensures a[..] == s + old(a[..])[|s|..]
  {
    for i := 0 to |s|
      invariant forall k :: 0 <= k < a.Length ==> a[k] == if k < i then s[k] else old(a[k])
    {
      a[i] := s[i];
    }
  }

  method XorBlocks(a: Block, b: Block) returns (y: Block)
    ensures y == Xor(a, b)
  {
    var buffer := new bv8[16];
    for j := 0 to 16
      invariant forall k :: 0 <= k < j ==> buffer[k] == a[k] ^ b[k]
    {
      buffer[j] := a[j] ^ b[j];
    }
    y := buffer[..];
  }

  // ---- what the MAC depends on ----

  /** The message cut into blocks, the last one padded if it is incomplete. */
  function Blocks(m: OctetString): (bs: seq<Block>)
    ensures |bs| > 0
    decreases |m|
  {
    if |m| > 16 then [m[..16]] + Blocks(m[16..]) else if |m| == 16 then [m] else [Padded(m)]
  }

  predicate Complete(m: OctetString) { |m| > 0 && |m| % 16 == 0 }

  function Chain(cipher: Cipher, key: Block, bs: seq<Block>): Block {
    if bs == [] then ZERO_BLOCK
    else cipher(key, Xor(Chain(cipher, key, bs[..|bs| - 1]), bs[|bs| - 1]))
  }

  function MaskLast(bs: seq<Block>, k: Block): seq<Block>
    requires bs != []
  {
    bs[..|bs| - 1] + [Xor(k, bs[|bs| - 1])]
  }

  /** The steps of section 6.2, from the front: the MAC is the chain over the blocks with the last one masked. */
  lemma MacIsChain(cipher: Cipher, key: Block, m: OctetString)
    ensures Mac(cipher, key, m)
         == Chain(cipher, key, MaskLast(Blocks(m), if Complete(m) then Subkey1(cipher, key) else Subkey2(cipher, key)))
  {
    ChainContinues(cipher, key, [], m);
    assert [] + Blocks(m) == Blocks(m);
  }

  lemma {:induction false} ChainContinues(cipher: Cipher, key: Block, done: seq<Block>, m: OctetString)
    ensures MacFrom(cipher, key, Chain(cipher, key, done), m)
         == Chain(cipher, key, MaskLast(done + Blocks(m),
                                        if Complete(m) then Subkey1(cipher, key) else Subkey2(cipher, key)))
    decreases |m|
  {
    hide Subkey1, Subkey2, Xor, Padded, Chain;
    var k := if Complete(m) then Subkey1(cipher, key) else Subkey2(cipher, key);
    var bs := done + Blocks(m);
    if |m| > 16 {
      var next := done + [m[..16]];
      ChainGrows(cipher, key, done, m[..16]);
      ChainContinues(cipher, key, next, m[16..]);
      assert next + Blocks(m[16..]) == bs;
      assert Complete(m) == Complete(m[16..]);
    } else {
      hide MacFrom;
      assert bs[..|bs| - 1] == done;
      ChainGrows(cipher, key, done, LastBlock(cipher, key, m));
      MacOfLast(cipher, key, Chain(cipher, key, done), m);
    }
  }

  lemma ChainGrows(cipher: Cipher, key: Block, done: seq<Block>, b: Block)
    ensures Chain(cipher, key, done + [b]) == cipher(key, Xor(Chain(cipher, key, done), b))
  {
    hide Xor;
    assert (done + [b])[..|done|] == done;
  }

  lemma MacOfLast(cipher: Cipher, key: Block, c: Block, m: OctetString)
    requires |m| <= 16
    ensures MacFrom(cipher, key, c, m) == cipher(key, Xor(c, LastBlock(cipher, key, m)))
  {
    hide Xor, LastBlock;
  }

  /** The blocks and the choice of subkey determine the message: padding confuses no two of them. */
  lemma {:induction false} FormatDeterminesMessage(m: OctetString, n: OctetString)
    requires Blocks(m) == Blocks(n) && Complete(m) == Complete(n)
    ensures m == n
    decreases |m|
  {
    hide Padded;
    assert |Blocks(m)| > 1 <==> |m| > 16;
    assert |Blocks(n)| > 1 <==> |n| > 16;
    if |m| > 16 {
      BlocksSplit(m);
      BlocksSplit(n);
      FormatDeterminesMessage(m[16..], n[16..]);
    } else {
      assert Blocks(m)[0] == Blocks(n)[0];
      if |m| < 16 { PaddingDeterminesBytes(m, n); }
    }
  }

  lemma BlocksSplit(m: OctetString)
    requires |m| > 16
    ensures Blocks(m)[0] == m[..16] && Blocks(m)[1..] == Blocks(m[16..]) && Complete(m) == Complete(m[16..])
    ensures m == m[..16] + m[16..]
  {
    hide Complete, Padded;
    CompleteRest(m);
    BlocksOfLong(m);
    hide Blocks;
    var first: seq<Block>, rest := [m[..16]], Blocks(m[16..]);
    assert (first + rest)[0] == first[0] && (first + rest)[1..] == rest;
  }

  lemma BlocksOfLong(m: OctetString)
    requires |m| > 16
    ensures Blocks(m) == [m[..16]] + Blocks(m[16..])
  {
    hide Padded;
  }

  lemma CompleteRest(m: OctetString)
    requires |m| > 16
    ensures Complete(m) == Complete(m[16..])
  {
    assert (|m| - 16) % 16 == |m| % 16;
  }

  lemma LongerIsNotPadded(m: OctetString, n: OctetString)
    requires |m| < 16 && |n| < 16
    ensures |m| < |n| ==> Padded(m) != Padded(n)
  {
    if |m| < |n| {
      assert Padded(m)[|n|] == 0 && Padded(n)[|n|] == 0x80;
    }
  }

  lemma PaddingDeterminesBytes(m: OctetString, n: OctetString)
    requires |m| < 16 && |n| < 16 && Padded(m) == Padded(n)
    ensures m == n
  {
    LongerIsNotPadded(m, n);
    LongerIsNotPadded(n, m);
    assert m == Padded(m)[..|m|] && n == Padded(n)[..|n|];
  }

  /** Doubling loses nothing, so different L give different subkeys. */
  lemma DoublingIsInjective(a: Poly, b: Poly)
    requires (forall e <- a :: e < 128) && (forall e <- b :: e < 128) && Doubled(a) == Doubled(b)
    ensures a == b
  {
    assert 0 in Doubled(a) <==> 127 in a;
    assert 0 in Doubled(b) <==> 127 in b;
    assert TimesX(a) == TimesX(b) by {
      if 127 in a {
        assert Sum(Sum(TimesX(a), MODULUS), MODULUS) == TimesX(a);
        assert Sum(Sum(TimesX(b), MODULUS), MODULUS) == TimesX(b);
      }
    }
    forall e: nat ensures e in a <==> e in b {
      assert e in a <==> e + 1 in TimesX(a);
      assert e in b <==> e + 1 in TimesX(b);
    }
  }

  // ---- key derivation in counter mode ----

  function Octet(x: nat): bv8 { (x % 256) as bv8 }

  /** A counter in four octets; it wraps as a 32-bit counter does. */
  function Be32(i: nat): (s: OctetString)
    ensures |s| == 4
  {
    [Octet(i / 0x100_0000), Octet(i / 0x1_0000), Octet(i / 0x100), Octet(i)]
  }

  /** The first `n` blocks of key material. */
  function Derived(cipher: Cipher, k: Block, context: OctetString, n: nat): (s: OctetString)
    ensures |s| == 16 * n
  {
    if n == 0 then [] else Derived(cipher, k, context, n - 1) + Mac(cipher, k, context + Be32(n))
  }

  function KdfKey(key: OctetString): Result<Block, string> {
    if |key| == 16 then Ok(key)
    else if |key| == 32 then Ok(Xor(key[..16], key[16..]))
    else Err("key must be 16 or 32 bytes")
  }

  function KdfResult(cipher: Cipher, key: OctetString, context: OctetString, length: int): Result<OctetString, string> {
    match KdfKey(key)
    case Err(e) => Err(e)
    case Ok(k) =>
      if length <= 0 || length % 16 != 0 then Err("length must be a positive multiple of 16")
      else Ok(Derived(cipher, k, context, length / 16))
  }

  method NormalizedKey(key: OctetString) returns (r: Result<Block, string>)
    ensures r == KdfKey(key)
  {
    if |key| == 16 {
      r := Ok(key);
    } else if |key| == 32 {
      var folded := XorBlocks(key[..16], key[16..]);
      r := Ok(folded);
    } else {
      r := Err("key must be 16 or 32 bytes");
    }
  }

  method KDF(cipher: Cipher, key: OctetString, context: OctetString, length: int)
      returns (r: Result<OctetString, string>)
    ensures r == KdfResult(cipher, key, context, length)
  {
    hide Mac, Xor, Be32;
    var k := NormalizedKey(key);
    if k.Err? {
      return Err(k.error);
    }
    if length <= 0 || length % 16 != 0 {
      return Err("length must be a positive multiple of 16");
    }
    var out: OctetString := [];
    var i := 1;
    while |out| < length
      invariant i >= 1 && |out| == 16 * (i - 1) && |out| <= length
      invariant out == Derived(cipher, k.value, context, i - 1)
    {
      var block := CMAC(cipher, k.value, context + Be32(i));
      out := out + block.value;
      i := i + 1;
    }
    assert i - 1 == length / 16 && out[..length] == out;
    r := Ok(out[..length]);
  }

  /** Block `i` of the key material is the MAC of the context and the counter, whatever the length asked for. */
  lemma {:induction false} DerivedBlock(cipher: Cipher, k: Block, context: OctetString, n: nat, i: nat)
    requires 1 <= i <= n
    ensures Derived(cipher, k, context, n)[16 * (i - 1)..16 * i] == Mac(cipher, k, context + Be32(i))
  {
    hide Mac, Be32;
    var out := Derived(cipher, k, context, n);
    var init, last := Derived(cipher, k, context, n - 1), Mac(cipher, k, context + Be32(n));
    assert out == init + last;
    hide Derived;
    if i < n {
      DerivedBlock(cipher, k, context, n - 1, i);
      SliceOfPrefix(init, last, 16 * (i - 1), 16 * i);
    } else {
      assert (init + last)[|init|..] == last;
    }
  }

  lemma SliceOfPrefix(a: OctetString, b: OctetString, i: nat, j: nat)
    requires i <= j <= |a|
    ensures (a + b)[i..j] == a[i..j]
  {
  }

  // ---- session keys ----

  datatype SessionKeys = SessionKeys(enc: Block, mac: Block, kek: Block, dek: Block)

  function LabelBlock(tag: bv8): Block { [tag] + Zeros(15) }

  function SessionKey(cipher: Cipher, k: Block, tag: bv8): Block {
    Mac(cipher, k, LabelBlock(tag) + Be32(1))
  }

  method DeriveSessionKey(cipher: Cipher, shared: OctetString, tag: bv8) returns (r: Result<Block, string>)
    ensures r == match KdfKey(shared) case Err(e) => Err(e) case Ok(k) => Ok(SessionKey(cipher, k, tag))
  {
    hide Mac, Be32;
    var context := new bv8[16](_ => 0);
    context[0] := tag;
    assert context[..] == LabelBlock(tag);
    var derived := KDF(cipher, shared, context[..], 16);
    if derived.Err? {
      return Err(derived.error);
    }
    ghost var k := KdfKey(shared).value;
    assert Derived(cipher, k, LabelBlock(tag), 1) == Derived(cipher, k, LabelBlock(tag), 0)
        + SessionKey(cipher, k, tag);
    assert derived.value == SessionKey(cipher, k, tag);
    r := Ok(derived.value);
  }

  function SessionKeysOf(cipher: Cipher, k: Block): SessionKeys {
    SessionKeys(SessionKey(cipher, k, 1), SessionKey(cipher, k, 2), SessionKey(cipher, k, 3), SessionKey(cipher, k, 4))
  }

  method DeriveSessionKeys(cipher: Cipher, shared: OctetString) returns (r: Result<SessionKeys, string>)
    ensures r == match KdfKey(shared) case Err(e) => Err(e) case Ok(k) => Ok(SessionKeysOf(cipher, k))
  {
    hide SessionKey;
    var enc := DeriveSessionKey(cipher, shared, 1);
    if enc.Err? { return Err(enc.error); }
    var mac := DeriveSessionKey(cipher, shared, 2);
    var kek := DeriveSessionKey(cipher, shared, 3);
    var dek := DeriveSessionKey(cipher, shared, 4);
    r := Ok(SessionKeys(enc.value, mac.value, kek.value, dek.value));
  }

  /**
   The session keys of a shared secret of 32 octets: the MACs of the octets 1 to 4, each followed by fifteen
   zeros and by the counter value one, under the exclusive or of the secret's halves.
   */
  lemma {:induction false} KeysOfSecret(cipher: Cipher, shared: OctetString)
    requires |shared| == 32
    ensures var k := KdfKey(shared);
      && k.Ok? && (forall j :: 0 <= j < 16 ==> k.value[j] == shared[j] ^ shared[j + 16])
      && SessionKeysOf(cipher, k.value) == SessionKeys(
           Mac(cipher, k.value, [1, 0, 0, 0, 0, 0, 0, 0, 0, 0, 0, 0, 0, 0, 0, 0, 0, 0, 0, 1]),
           Mac(cipher, k.value, [2, 0, 0, 0, 0, 0, 0, 0, 0, 0, 0, 0, 0, 0, 0, 0, 0, 0, 0, 1]),
           Mac(cipher, k.value, [3, 0, 0, 0, 0, 0, 0, 0, 0, 0, 0, 0, 0, 0, 0, 0, 0, 0, 0, 1]),
           Mac(cipher, k.value, [4, 0, 0, 0, 0, 0, 0, 0, 0, 0, 0, 0, 0, 0, 0, 0, 0, 0, 0, 1]))
  {
    hide Mac;
    assert forall j :: 0 <= j < 16 ==> shared[16..][j] == shared[j + 16];
    LabelledOne(1);
    LabelledOne(2);
    LabelledOne(3);
    LabelledOne(4);
  }

  lemma {:induction false} LabelledOne(tag: bv8)
    ensures LabelBlock(tag) + Be32(1) == [tag, 0, 0, 0, 0, 0, 0, 0, 0, 0, 0, 0, 0, 0, 0, 0, 0, 0, 0, 1]
  {
    OneInFour();
    hide Be32;
    var s := LabelBlock(tag) + Be32(1);
    assert forall i :: 1 <= i < 16 ==> s[i] == Zeros(15)[i - 1] == 0;
  }

  lemma {:induction false} OneInFour()
    ensures Be32(1) == [0, 0, 0, 1]
  {
    assert Octet(0) == 0 && Octet(1) == 1;
  }

  /** An incomplete last block is followed by one bit that is set and by zeros. */
  lemma {:induction false} PaddedOctets(m: OctetString)
    requires |m| < 16
    ensures var b := Padded(m);
      b[..|m|] == m && b[|m|] == 0x80 && forall i :: |m| < i < 16 ==> b[i] == 0
  {
  }
}
