/** The 24-byte sequencing header in front of every frame (core/hydra/shim/shim.go). */
module Shim {
  import opened Bytes
  import opened Wrappers

  const MAGIC: nat := 0x4859
  const VERSION: byte := 1
  const HEADER_LEN: nat := 24

  const FLAG_NONE: byte := 0

  datatype Header = Header(version: byte, flags: byte, weaveId: uint32, number: uint64, tsNanos: int64)

  datatype Error = Short | BadMagic | BadVersion

  function New(weaveId: uint32, number: uint64, tsNanos: int64): Header {
    Header(VERSION, FLAG_NONE, weaveId, number, tsNanos)
  }

  /** The two's-complement reading of a signed 64-bit value, and back. */
  function ToUnsigned(t: int64): uint64 {
    if t < 0 then t + 0x1_0000_0000_0000_0000 else t
  }

  function ToSigned(u: uint64): int64 {
    if u < 0x8000_0000_0000_0000 then u else u - 0x1_0000_0000_0000_0000
  }

  function Encoded(h: Header): (b: Octets)
    ensures |b| == HEADER_LEN
  {
    ToBE(MAGIC, 2) + [h.version, h.flags] + ToBE(h.weaveId, 4) + ToBE(h.number, 8) + ToBE(ToUnsigned(h.tsNanos), 8)
  }

  method PutBE(b: array<byte>, offset: nat, width: nat, v: nat)
    requires offset + width <= b.Length
    modifies b
    ensures b[..] == old(b[..offset]) + ToBE(v, width) + old(b[offset + width..])
  {
    var i, rest := width, v;
    while i > 0
      invariant 0 <= i <= width
      invariant ToBE(v, width) == ToBE(rest, i) + b[offset + i..offset + width]
      invariant b[..offset + i] == old(b[..offset + i])
      invariant b[offset + width..] == old(b[offset + width..])
    {
      i := i - 1;
      ghost var tail := b[offset + i + 1..offset + width];
      b[offset + i] := rest % 256;
      assert b[offset + i..offset + width] == [rest % 256] + tail;
      assert ToBE(rest, i + 1) + tail == ToBE(rest / 256, i) + ([rest % 256] + tail);
      rest := rest / 256;
    }
    assert ToBE(v, width) == b[offset..offset + width];
    assert b[..] == b[..offset] + b[offset..offset + width] + b[offset + width..];
  }

  method Encode(h: Header) returns (b: array<byte>)
    ensures fresh(b) && b[..] == Encoded(h)
  {
    b := new byte[HEADER_LEN](_ => 0);
    PutBE(b, 0, 2, MAGIC);
    b[2] := h.version;
    b[3] := h.flags;
    assert b[..4] == ToBE(MAGIC, 2) + [h.version, h.flags];
    PutBE(b, 4, 4, h.weaveId);
    assert b[..8] == ToBE(MAGIC, 2) + [h.version, h.flags] + ToBE(h.weaveId, 4);
    PutBE(b, 8, 8, h.number);
    PutBE(b, 16, 8, ToUnsigned(h.tsNanos));
  }

  function Field(b: Octets, lo: nat, hi: nat): nat
    requires lo <= hi <= |b|
  {
    FromBE(b[lo..hi])
  }

  function Decode(b: Octets): Result<(Header, Octets), Error> {
    if |b| < HEADER_LEN then Err(Short)
    else if Field(b, 0, 2) != MAGIC then Err(BadMagic)
    else
      FieldBound(b, 4, 8); FieldBound(b, 8, 16); FieldBound(b, 16, 24);
      var h := Header(b[2], b[3], Field(b, 4, 8), Field(b, 8, 16), ToSigned(Field(b, 16, 24)));
      if h.version != VERSION then Err(BadVersion)
      else Ok((h, b[HEADER_LEN..]))
  }

  function Frame(h: Header, payload: Octets): (b: Octets)
    ensures |b| == HEADER_LEN + |payload|
  {
    Encoded(h) + payload
  }

  lemma FieldBound(b: Octets, lo: nat, hi: nat)
    requires lo <= hi <= |b|
    ensures hi - lo == 4 ==> Field(b, lo, hi) < 0x1_0000_0000
    ensures hi - lo == 8 ==> Field(b, lo, hi) < 0x1_0000_0000_0000_0000
  {
    Widths();
    FromBEBound(b[lo..hi]);
  }

  lemma Slices(h: Header, payload: Octets)
    ensures var b := Frame(h, payload);
      && b[0..2] == ToBE(MAGIC, 2) && b[2] == h.version && b[3] == h.flags
      && b[4..8] == ToBE(h.weaveId, 4) && b[8..16] == ToBE(h.number, 8)
      && b[16..24] == ToBE(ToUnsigned(h.tsNanos), 8) && b[24..] == payload
  {
  }

  /** `Decode` undoes `Frame` for every payload and every header of the supported version. */
  lemma DecodeFrame(h: Header, payload: Octets)
    ensures Decode(Frame(h, payload)) == if h.version == VERSION then Ok((h, payload)) else Err(BadVersion)
  {
    Slices(h, payload);
    Widths();
    FromToBE(MAGIC, 2);
    FromToBE(h.weaveId, 4);
    FromToBE(h.number, 8);
    FromToBE(ToUnsigned(h.tsNanos), 8);
  }

  /** The frames `Decode` accepts are exactly those that `Frame` builds, so a frame has one reading. */
  lemma FrameDecode(b: Octets)
    requires Decode(b).Ok?
    ensures var (h, payload) := Decode(b).value; h.version == VERSION && Frame(h, payload) == b
  {
    FieldBound(b, 4, 8); FieldBound(b, 8, 16); FieldBound(b, 16, 24);
    ToFromBE(b[0..2]);
    ToFromBE(b[4..8]);
    ToFromBE(b[8..16]);
    ToFromBE(b[16..24]);
    assert b == b[0..2] + [b[2], b[3]] + b[4..8] + b[8..16] + b[16..24] + b[24..];
  }

  /** Which frames are refused, and with which error: the first check that fails decides. */
  lemma DecodeErrors(b: Octets)
    ensures Decode(b) == Err(Short) <==> |b| < HEADER_LEN
    ensures Decode(b) == Err(BadMagic) <==> |b| >= HEADER_LEN && b[..2] != [0x48, 0x59]
    ensures Decode(b) == Err(BadVersion) <==> |b| >= HEADER_LEN && b[..2] == [0x48, 0x59] && b[2] != VERSION
  {
    if |b| >= HEADER_LEN {
      ToFromBE(b[0..2]);
      FromToBE(MAGIC, 2) by { Widths(); }
      assert ToBE(MAGIC, 2) == [0x48, 0x59];
      assert b[..2] == b[0..2];
    }
  }

  /** Where everything is in a frame: magic, version, flags, weave, number, time, big-endian, and the payload. */
  lemma {:induction false} FrameLayout(h: Header, payload: Octets)
    ensures var b := Frame(h, payload);
      && |b| == 24 + |payload|
      && b[0] == 0x48 && b[1] == 0x59 && b[2] == h.version && b[3] == h.flags
      && FromBE(b[4..8]) == h.weaveId && FromBE(b[8..16]) == h.number
      && FromBE(b[16..24]) == (if h.tsNanos < 0 then h.tsNanos + 0x1_0000_0000_0000_0000 else h.tsNanos)
      && b[24..] == payload
  {
    Slices(h, payload);
    Widths();
    FromToBE(h.weaveId, 4);
    FromToBE(h.number, 8);
    FromToBE(ToUnsigned(h.tsNanos), 8);
    MagicOctets();
    hide ToBE, FromBE;
    var b := Frame(h, payload);
    assert b[..2] == ToBE(MAGIC, 2);
    assert b[0] == b[..2][0] && b[1] == b[..2][1];
    assert b[4..8] == ToBE(h.weaveId, 4) && b[8..16] == ToBE(h.number, 8);
    assert b[16..24] == ToBE(ToUnsigned(h.tsNanos), 8);
  }

  lemma {:induction false} MagicOctets()
    ensures ToBE(MAGIC, 2) == [0x48, 0x59]
  {
    assert ToBE(0x48, 1) == ToBE(0, 0) + [0x48];
    assert ToBE(0x4859, 2) == ToBE(0x48, 1) + [0x59];
  }
}
