/**
 Payload encryption (core/esim/crypto/crypto.go): CBC over a block cipher (section 6.2 of NIST
 SP 800-38A) with the padding of section 6.3 of RFC 5652.  The cipher and its inverse are parameters,
 and so is the random initialisation vector.
 */
module Cbc {
  import opened Wrappers
  import opened Cmac

  // ---- padding ----

  function Repeat(b: bv8, n: nat): (s: OctetString)
    ensures |s| == n && forall i :: 0 <= i < n ==> s[i] == b
  {
    if n == 0 then [] else Repeat(b, n - 1) + [b]
  }

  /** The low bits of a number, lowest first, and the number they stand for. */
  function BitsOf(n: nat, width: nat): (s: seq<bool>)
    ensures |s| == width
  {
    if width == 0 then [] else [n % 2 == 1] + BitsOf(n / 2, width - 1)
  }

  function NatOf(s: seq<bool>): nat {
    if s == [] then 0 else (if s[0] then 1 else 0) + 2 * NatOf(s[1..])
  }

  function Pow2(n: nat): nat { if n == 0 then 1 else 2 * Pow2(n - 1) }

  lemma {:induction false} NatOfBitsOf(n: nat, width: nat)
    requires n < Pow2(width)
    ensures NatOf(BitsOf(n, width)) == n
  {
    if width > 0 {
      NatOfBitsOf(n / 2, width - 1);
      assert BitsOf(n, width)[1..] == BitsOf(n / 2, width - 1);
    }
  }

  lemma {:induction false} BitsOfNatOf(s: seq<bool>)
    ensures NatOf(s) < Pow2(|s|) && BitsOf(NatOf(s), |s|) == s
  {
    if s != [] {
      BitsOfNatOf(s[1..]);
      var rest := NatOf(s[1..]);
      assert NatOf(s) / 2 == rest && (NatOf(s) % 2 == 1 <==> s[0]);
      assert s == [s[0]] + s[1..];
    }
  }

  lemma Pow2Of8()
    ensures Pow2(8) == 256
  {
    assert Pow2(4) == 16;
    assert Pow2(8) == 16 * Pow2(4);
  }

  function OctetOfBits(s: seq<bool>): bv8
    requires |s| == 8
  {
    OctetWithBits(s[0], s[1], s[2], s[3], s[4], s[5], s[6], s[7])
  }

  function BitsInOctet(b: bv8): (s: seq<bool>)
    ensures |s| == 8
  {
    [Bit(b, 0), Bit(b, 1), Bit(b, 2), Bit(b, 3), Bit(b, 4), Bit(b, 5), Bit(b, 6), Bit(b, 7)]
  }

  lemma BitsRoundTrip(s: seq<bool>)
    requires |s| == 8
    ensures BitsInOctet(OctetOfBits(s)) == s
  {
    hide OctetWithBits, Bit;
    BitsOfOctet(s[0], s[1], s[2], s[3], s[4], s[5], s[6], s[7]);
  }

  lemma OctetRoundTrip(b: bv8)
    ensures OctetOfBits(BitsInOctet(b)) == b
  {
    hide OctetWithBits, Bit;
    var s := BitsInOctet(b);
    BitsOfOctet(s[0], s[1], s[2], s[3], s[4], s[5], s[6], s[7]);
    SameBits(OctetOfBits(s), b);
  }

  /** A count below 256 in one octet, and back. */
  function CountOctet(n: nat): bv8
    requires n < 256
  {
    OctetOfBits(BitsOf(n, 8))
  }

  function Count(b: bv8): (n: nat)
    ensures n < 256
  {
    Pow2Of8();
    BitsOfNatOf(BitsInOctet(b));
    NatOf(BitsInOctet(b))
  }

  lemma CountOfOctet(n: nat)
    requires n < 256
    ensures Count(CountOctet(n)) == n
  {
    hide OctetOfBits, BitsInOctet;
    Pow2Of8();
    BitsRoundTrip(BitsOf(n, 8));
    NatOfBitsOf(n, 8);
  }

  lemma OctetOfCount(b: bv8)
    ensures CountOctet(Count(b)) == b
  {
    hide OctetOfBits;
    BitsOfNatOf(BitsInOctet(b));
    OctetRoundTrip(b);
  }

  function WithPadding(data: OctetString, size: nat): (r: OctetString)
    requires 0 < size < 256
    ensures |r| == |data| + size - |data| % size
  {
    var pad := size - |data| % size;
    data + Repeat(CountOctet(pad), pad)
  }

  lemma PaddedLength(n: nat, size: nat)
    requires size > 0
    ensures (n + size - n % size) % size == 0 && n + size - n % size >= size
  {
    var q := n / size;
    assert n + size - n % size == (q + 1) * size;
    MultipleMod(q + 1, size);
  }

  lemma MultipleMod(q: nat, size: nat)
    requires size > 0
    ensures q * size % size == 0 && q * size / size == q
  {
    assert q * size == size * q + 0;
    DivModUnique(q * size, size, q, 0);
  }

  lemma DivModUnique(n: nat, d: nat, q: nat, r: nat)
    requires 0 <= r < d && n == d * q + r
    ensures n / d == q && n % d == r
  {
    var x := n / d - q;
    assert n == d * (n / d) + n % d;
    assert d * x == r - n % d;
    assert !(x >= 1) && !(x <= -1);
  }

  function Unpadded(data: OctetString, size: nat): Result<OctetString, string>
    requires 0 < size < 256
  {
    if |data| == 0 || |data| % size != 0 then Err("bad length")
    else
      var pad := Count(data[|data| - 1]);
      if pad == 0 || pad > size || pad > |data| then Err("bad padding")
      else if exists i :: |data| - pad <= i < |data| && data[i] != CountOctet(pad) then Err("bad padding bytes")
      else Ok(data[..|data| - pad])
  }

  method Pkcs7Pad(data: OctetString, size: nat) returns (r: OctetString)
    requires 0 < size < 256
    ensures r == WithPadding(data, size)
  {
    hide Count, CountOctet;
    var pad := size - |data| % size;
    var out := new bv8[|data| + pad];
    for i := 0 to |data|
      invariant out[..i] == data[..i]
    {
      out[i] := data[i];
    }
    for i := |data| to out.Length
      invariant out[..i] == data + Repeat(CountOctet(pad), i - |data|)
    {
      out[i] := CountOctet(pad);
    }
    r := out[..];
  }

  method Pkcs7Unpad(data: OctetString, size: nat) returns (r: Result<OctetString, string>)
    requires 0 < size < 256
    ensures r == Unpadded(data, size)
  {
    if |data| == 0 || |data| % size != 0 {
      return Err("bad length");
    }
    var pad := Count(data[|data| - 1]);
    if pad == 0 || pad > size || pad > |data| {
      return Err("bad padding");
    }
    CountOfOctet(pad);
    OctetOfCount(data[|data| - 1]);
    hide CountOctet, Count;
    for i := |data| - pad to |data|
      invariant forall k :: |data| - pad <= k < i ==> data[k] == CountOctet(pad)
    {
      OctetOfCount(data[i]);
      if Count(data[i]) != pad {
        return Err("bad padding bytes");
      }
    }
    r := Ok(data[..|data| - pad]);
  }

  /** Removing the padding succeeds exactly on padded data, and gives what was padded. */
  lemma UnpadIff(data: OctetString, size: nat, p: OctetString)
    requires 0 < size < 256
    ensures Unpadded(data, size) == Ok(p) <==> data == WithPadding(p, size)
  {
    if data == WithPadding(p, size) {
      UnpadUndoesPad(p, size);
    }
    if Unpadded(data, size) == Ok(p) {
      PadUndoesUnpad(data, size, p);
    }
  }

  lemma UnpadUndoesPad(p: OctetString, size: nat)
    requires 0 < size < 256
    ensures Unpadded(WithPadding(p, size), size) == Ok(p)
  {
    hide Count, CountOctet;
    var data, pad := WithPadding(p, size), size - |p| % size;
    PaddedLength(|p|, size);
    CountOfOctet(pad);
    assert forall i :: |p| <= i < |data| ==> data[i] == CountOctet(pad);
    assert data[..|data| - pad] == p;
  }

  lemma PadUndoesUnpad(data: OctetString, size: nat, p: OctetString)
    requires 0 < size < 256 && Unpadded(data, size) == Ok(p)
    ensures WithPadding(p, size) == data
  {
    hide Count, CountOctet;
    var pad := Count(data[|data| - 1]);
    RestOfMultiple(|data|, size, pad);
    assert forall i :: |data| - pad <= i < |data| ==> data[i] == CountOctet(pad);
  }

  lemma RestOfMultiple(n: nat, size: nat, pad: nat)
    requires 0 < pad <= size && pad <= n && n % size == 0
    ensures size - (n - pad) % size == pad
  {
    RestOfProduct(n, size, pad, n / size);
  }

  lemma RestOfProduct(n: nat, size: nat, pad: nat, q: nat)
    requires 0 < pad <= size && pad <= n && n == size * q
    ensures size - (n - pad) % size == pad
  {
    assert q > 0;
    var p := q - 1;
    assert size * q == size * p + size;
    if pad < size {
      DivModUnique(n - pad, size, p, size - pad);
    } else {
      DivModUnique(n - pad, size, p, 0);
    }
  }

  // ---- chaining ----

  function CbcEncrypt(cipher: Cipher, key: Block, iv: Block, p: OctetString): (c: OctetString)
    requires |p| % 16 == 0
    ensures |c| == |p|
    decreases |p|
  {
    if p == [] then []
    else
      var c := cipher(key, Xor(p[..16], iv));
      c + CbcEncrypt(cipher, key, c, p[16..])
  }

  function CbcDecrypt(inverse: Cipher, key: Block, iv: Block, c: OctetString): (p: OctetString)
    requires |c| % 16 == 0
    ensures |p| == |c|
    decreases |c|
  {
    if c == [] then []
    else Xor(inverse(key, c[..16]), iv) + CbcDecrypt(inverse, key, c[..16], c[16..])
  }

  ghost predicate Undoes(f: Cipher, g: Cipher) {
    forall k: Block, b: Block :: f(k, g(k, b)) == b
  }

  lemma XorTwice(a: Block, b: Block)
    ensures Xor(Xor(a, b), b) == a
  {
    forall i | 0 <= i < 16 ensures Xor(Xor(a, b), b)[i] == a[i] {
      XorOctetTwice(a[i], b[i]);
    }
  }

  lemma XorOctetTwice(x: bv8, y: bv8)
    ensures (x ^ y) ^ y == x
  {
  }

  lemma {:induction false} CbcDecryptUndoesEncrypt(cipher: Cipher, inverse: Cipher, key: Block, iv: Block,
      p: OctetString)
    requires |p| % 16 == 0 && Undoes(inverse, cipher)
    ensures CbcDecrypt(inverse, key, iv, CbcEncrypt(cipher, key, iv, p)) == p
    decreases |p|
  {
    hide Xor;
    if p != [] {
      var c: Block := cipher(key, Xor(p[..16], iv));
      var rest := CbcEncrypt(cipher, key, c, p[16..]);
      assert (c + rest)[..16] == c && (c + rest)[16..] == rest;
      CbcDecryptUndoesEncrypt(cipher, inverse, key, c, p[16..]);
      XorTwice(p[..16], iv);
      assert p[..16] + p[16..] == p;
    }
  }

  lemma {:induction false} CbcEncryptUndoesDecrypt(cipher: Cipher, inverse: Cipher, key: Block, iv: Block,
      c: OctetString)
    requires |c| % 16 == 0 && Undoes(cipher, inverse)
    ensures CbcEncrypt(cipher, key, iv, CbcDecrypt(inverse, key, iv, c)) == c
    decreases |c|
  {
    hide Xor;
    if c != [] {
      var p: Block := Xor(inverse(key, c[..16]), iv);
      var rest := CbcDecrypt(inverse, key, c[..16], c[16..]);
      assert (p + rest)[..16] == p && (p + rest)[16..] == rest;
      CbcEncryptUndoesDecrypt(cipher, inverse, key, c[..16], c[16..]);
      XorTwice(inverse(key, c[..16]), iv);
      assert c[..16] + c[16..] == c;
    }
  }

  // ---- the two operations ----

  function Encrypted(cipher: Cipher, key: OctetString, iv: Block, pt: OctetString): Result<OctetString, string> {
    if |key| != 16 then Err("key must be 16 bytes")
    else
      PaddedLength(|pt|, 16);
      Ok(iv + CbcEncrypt(cipher, key, iv, WithPadding(pt, 16)))
  }

  function Decrypted(inverse: Cipher, key: OctetString, ct: OctetString): Result<OctetString, string> {
    if |key| != 16 then Err("key must be 16 bytes")
    else if |ct| < 32 || |ct| % 16 != 0 then Err("bad ciphertext length")
    else Unpadded(CbcDecrypt(inverse, key, ct[..16], ct[16..]), 16)
  }

  method Encrypt(cipher: Cipher, key: OctetString, iv: Block, pt: OctetString) returns (r: Result<OctetString, string>)
    ensures r == Encrypted(cipher, key, iv, pt)
  {
    if |key| != 16 {
      return Err("key must be 16 bytes");
    }
    var padded := Pkcs7Pad(pt, 16);
    PaddedLength(|pt|, 16);
    r := Ok(iv + CbcEncrypt(cipher, key, iv, padded));
  }

  method Decrypt(inverse: Cipher, key: OctetString, ct: OctetString) returns (r: Result<OctetString, string>)
    ensures r == Decrypted(inverse, key, ct)
  {
    if |key| != 16 {
      return Err("key must be 16 bytes");
    }
    if |ct| < 32 || |ct| % 16 != 0 {
      return Err("bad ciphertext length");
    }
    r := Pkcs7Unpad(CbcDecrypt(inverse, key, ct[..16], ct[16..]), 16);
  }

  /** Decryption undoes encryption, for every payload and every initialisation vector. */
  lemma DecryptUndoesEncrypt(cipher: Cipher, inverse: Cipher, key: Block, iv: Block, pt: OctetString)
    requires Undoes(inverse, cipher)
    ensures Encrypted(cipher, key, iv, pt).Ok?
    ensures Decrypted(inverse, key, Encrypted(cipher, key, iv, pt).value) == Ok(pt)
  {
    hide Unpadded, WithPadding, CbcEncrypt, CbcDecrypt;
    PaddedLength(|pt|, 16);
    var padded := WithPadding(pt, 16);
    var c := CbcEncrypt(cipher, key, iv, padded);
    assert (iv + c)[..16] == iv && (iv + c)[16..] == c;
    CbcDecryptUndoesEncrypt(cipher, inverse, key, iv, padded);
    UnpadUndoesPad(pt, 16);
  }

  /** Decryption gives a payload exactly when its input is an encryption of that payload. */
  lemma DecryptIff(cipher: Cipher, inverse: Cipher, key: OctetString, ct: OctetString, pt: OctetString)
    requires Undoes(inverse, cipher) && Undoes(cipher, inverse)
    ensures Decrypted(inverse, key, ct) == Ok(pt) <==> |ct| >= 16 && Encrypted(cipher, key, ct[..16], pt) == Ok(ct)
  {
    hide Unpadded, WithPadding;
    if |key| == 16 && |ct| >= 16 && Encrypted(cipher, key, ct[..16], pt) == Ok(ct) {
      DecryptUndoesEncrypt(cipher, inverse, key, ct[..16], pt);
    }
    if Decrypted(inverse, key, ct) == Ok(pt) {
      var padded := CbcDecrypt(inverse, key, ct[..16], ct[16..]);
      PadUndoesUnpad(padded, 16, pt);
      CbcEncryptUndoesDecrypt(cipher, inverse, key, ct[..16], ct[16..]);
      assert ct[..16] + ct[16..] == ct;
    }
  }

  // ---- block by block ----

  function BlockAt(s: OctetString, k: nat): Block
    requires 16 * k + 16 <= |s|
  {
    s[16 * k..16 * k + 16]
  }

  /**
   Every block of the ciphertext is the cipher of its plaintext block and the ciphertext block before it, the
   first one of the initialisation vector (section 6.2 of NIST SP 800-38A).
   */
  lemma {:induction false} CbcChains(cipher: Cipher, key: Block, iv: Block, p: OctetString, k: nat)
    requires |p| % 16 == 0 && 16 * k + 16 <= |p|
    ensures var c := CbcEncrypt(cipher, key, iv, p);
      BlockAt(c, k) == cipher(key, Xor(BlockAt(p, k), if k == 0 then iv else BlockAt(c, k - 1)))
    decreases |p|
  {
    hide Xor;
    var first: Block := cipher(key, Xor(p[..16], iv));
    var rest := CbcEncrypt(cipher, key, first, p[16..]);
    var c := CbcEncrypt(cipher, key, iv, p);
    assert c == first + rest && p[..16] == BlockAt(p, 0);
    hide CbcEncrypt;
    assert BlockAt(c, 0) == first;
    if k > 0 {
      CbcChains(cipher, key, first, p[16..], k - 1);
      assert BlockAt(p[16..], k - 1) == BlockAt(p, k);
      ShiftedBlock(first, rest, k - 1);
      if k > 1 { ShiftedBlock(first, rest, k - 2); }
    }
  }

  lemma {:induction false} ShiftedBlock(first: Block, rest: OctetString, k: nat)
    requires 16 * k + 16 <= |rest|
    ensures 16 * (k + 1) + 16 <= |first + rest| && BlockAt(first + rest, k + 1) == BlockAt(rest, k)
  {
  }

  /** The padding of a short payload, octet by octet: between one and sixteen octets, each of them their number. */
  lemma {:induction false} PaddingOctets(data: OctetString)
    ensures var r := WithPadding(data, 16); var pad := |r| - |data|;
      && 1 <= pad <= 16 && |r| % 16 == 0 && r[..|data|] == data
      && forall i :: |data| <= i < |r| ==> r[i] == NumberOctet(pad)
  {
    hide CountOctet;
    PaddedLength(|data|, 16);
    var r := WithPadding(data, 16);
    CountIsNumber(|r| - |data|);
    assert r[..|data|] == data;
  }

  function NumberOctet(n: nat): bv8
    requires 1 <= n <= 16
  {
    match n
    case 1 => 0x01 case 2 => 0x02 case 3 => 0x03 case 4 => 0x04 case 5 => 0x05 case 6 => 0x06 case 7 => 0x07
    case 8 => 0x08 case 9 => 0x09 case 10 => 0x0a case 11 => 0x0b case 12 => 0x0c case 13 => 0x0d case 14 => 0x0e
    case 15 => 0x0f case _ => 0x10
  }

  lemma {:induction false} CountIsNumber(n: nat)
    requires 1 <= n <= 16
    ensures CountOctet(n) == NumberOctet(n)
  {
    EightBits(n);
    assert OctetOfBits(BitsOf(n, 8)) == OctetWithBits(n % 2 == 1, n / 2 % 2 == 1, n / 4 % 2 == 1, n / 8 % 2 == 1,
                                                      n / 16 % 2 == 1, false, false, false);
    hide BitsOf;
    SmallOctets(n);
  }

  lemma {:induction false} EightBits(n: nat)
    requires n <= 16
    ensures BitsOf(n, 8) == [n % 2 == 1, n / 2 % 2 == 1, n / 4 % 2 == 1, n / 8 % 2 == 1, n / 16 % 2 == 1,
                             false, false, false]
  {
    assert n / 4 == n / 2 / 2 && n / 8 == n / 4 / 2 && n / 16 == n / 8 / 2 && n / 16 / 2 == 0;
    assert BitsOf(0, 3) == [false] + BitsOf(0, 2) == [false, false] + BitsOf(0, 1) == [false, false, false];
    assert BitsOf(n / 16, 4) == [n / 16 % 2 == 1] + BitsOf(0, 3);
    assert BitsOf(n / 8, 5) == [n / 8 % 2 == 1] + BitsOf(n / 16, 4);
    assert BitsOf(n / 4, 6) == [n / 4 % 2 == 1] + BitsOf(n / 8, 5);
    assert BitsOf(n / 2, 7) == [n / 2 % 2 == 1] + BitsOf(n / 4, 6);
  }

  lemma {:induction false} SmallOctets(n: nat)
    requires 1 <= n <= 16
    ensures OctetWithBits(n % 2 == 1, n / 2 % 2 == 1, n / 4 % 2 == 1, n / 8 % 2 == 1, n / 16 % 2 == 1,
                          false, false, false) == NumberOctet(n)
  {
    match n
    case 1 => case 2 => case 3 => case 4 => case 5 => case 6 => case 7 => case 8 =>
    case 9 => case 10 => case 11 => case 12 => case 13 => case 14 => case 15 => case _ =>
  }
}
