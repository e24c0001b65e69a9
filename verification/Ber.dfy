/**
 BER elements as the charging-record reader takes them apart
 (core/fairwave-control/internal/collector/cdr.go), and the encodings it undoes (sections 8.1.2 and
 8.1.3 of ITU-T X.690).  Tags are 64-bit signed integers.
 */
module Ber {
  import opened Bytes
  import opened Wrappers

  const CONTEXT: nat := 2

  datatype Tlv = Tlv(cls: nat, constructed: bool, tag: int, content: Octets)

  datatype Error = ShortElement | TruncatedTag | TruncatedLength | BadLength | OutOfRange

  /** 64-bit signed wrap-around. */
  function Int64(x: int): int {
    (x + 0x8000_0000_0000_0000) % 0x1_0000_0000_0000_0000 - 0x8000_0000_0000_0000
  }

  // ---- the reader ----

  /** High tag number form: seven bits an octet, the top bit says that more follow. */
  function TagFrom(b: Octets, acc: int): (r: Result<(int, Octets), Error>)
    ensures r.Ok? ==> |r.value.1| < |b|
  {
    if b == [] then Err(TruncatedTag)
    else
      var tag := Int64(acc * 128 + b[0] % 128);
      if b[0] < 128 then Ok((tag, b[1..])) else TagFrom(b[1..], tag)
  }

  /** The length, and what follows it. */
  function LengthFrom(b: Octets): Result<(nat, Octets), Error> {
    if b == [] then Err(TruncatedLength)
    else if b[0] < 128 then Ok((b[0], b[1..]))
    else
      var n := b[0] - 128;
      if n == 0 || n > 4 || 1 + n > |b| then Err(BadLength)
      else Ok((FromBE(b[1..1 + n]), b[1 + n..]))
  }

  function ContentFrom(cls: nat, constructed: bool, tag: int, b: Octets): Result<(Tlv, Octets), Error> {
    match LengthFrom(b)
    case Err(e) => Err(e)
    case Ok((length, rest)) =>
      if length > |rest| then Err(OutOfRange)
      else Ok((Tlv(cls, constructed, tag, rest[..length]), rest[length..]))
  }

  function Element(b: Octets): Result<(Tlv, Octets), Error> {
    if |b| < 2 then Err(ShortElement)
    else
      var cls, constructed, low := b[0] / 64, b[0] / 32 % 2 == 1, b[0] % 32;
      if low != 31 then ContentFrom(cls, constructed, low, b[1..])
      else
        match TagFrom(b[1..], 0)
        case Err(e) => Err(e)
        case Ok((tag, rest)) => ContentFrom(cls, constructed, tag, rest)
  }

  lemma {:induction false} TagShrinks(b: Octets, acc: int)
    ensures TagFrom(b, acc).Ok? ==> EndsWith(b, TagFrom(b, acc).value.1)
  {
    if b != [] && b[0] >= 128 { TagShrinks(b[1..], Int64(acc * 128 + b[0] % 128)); }
  }

  /**
   Every element read takes at least two octets, and splits its input into a header, the content and
   the rest.
   */
  lemma ElementSplits(b: Octets)
    ensures Element(b).Ok? ==>
      var (t, rest) := Element(b).value; |t.content| + |rest| + 2 <= |b| && EndsWith(b, t.content + rest)
  {
    hide ContentFrom, TagFrom;
    if |b| >= 2 {
      var low := b[0] % 32;
      ContentSplits(b[0] / 64, b[0] / 32 % 2 == 1, low, b[1..]);
      TagShrinks(b[1..], 0);
      if low == 31 && TagFrom(b[1..], 0).Ok? {
        var (tag, rest) := TagFrom(b[1..], 0).value;
        ContentSplits(b[0] / 64, b[0] / 32 % 2 == 1, tag, rest);
        if ContentFrom(b[0] / 64, b[0] / 32 % 2 == 1, tag, rest).Ok? {
          var (t, after) := ContentFrom(b[0] / 64, b[0] / 32 % 2 == 1, tag, rest).value;
          SuffixOfSuffix(b[1..], rest, t.content + after);
        }
      }
    }
  }

  predicate EndsWith(b: Octets, end: Octets) {
    |end| <= |b| && b[|b| - |end|..] == end
  }

  lemma SuffixOfSuffix(b: Octets, mid: Octets, end: Octets)
    requires EndsWith(b, mid) && EndsWith(mid, end)
    ensures EndsWith(b, end)
  {
  }

  lemma ContentSplits(cls: nat, constructed: bool, tag: int, b: Octets)
    ensures ContentFrom(cls, constructed, tag, b).Ok? ==>
      var (t, rest) := ContentFrom(cls, constructed, tag, b).value;
      |t.content| + |rest| + 1 <= |b| && EndsWith(b, t.content + rest)
  {
  }

  function Children(content: Octets): Result<seq<Tlv>, Error>
    decreases |content|
  {
    if content == [] then Ok([])
    else
      match Element(content)
      case Err(e) => Err(e)
      case Ok((t, rest)) =>
        ElementSplits(content);
        match Children(rest)
        case Err(e) => Err(e)
        case Ok(more) => Ok([t] + more)
  }

  // ---- the reader's loops ----

  method ParseTlv(b: Octets) returns (r: Result<(Tlv, Octets), Error>)
    ensures r == Element(b)
  {
    if |b| < 2 {
      return Err(ShortElement);
    }
    var cls, constructed, tag := b[0] / 64, b[0] / 32 % 2 == 1, (b[0] % 32) as int;
    var off := 1;
    if tag == 31 {
      tag := 0;
      while true
        invariant 1 <= off <= |b|
        invariant TagFrom(b[off..], tag) == TagFrom(b[1..], 0)
        decreases |b| - off
      {
        if off >= |b| {
          return Err(TruncatedTag);
        }
        ghost var before, rest := tag, b[off..];
        tag := Int64(tag * 128 + b[off] % 128);
        var last := b[off] < 128;
        off := off + 1;
        assert rest[1..] == b[off..]
            && TagFrom(rest, before) == if last then Ok((tag, b[off..])) else TagFrom(b[off..], tag);
        if last {
          break;
        }
      }
    }
    assert Element(b) == ContentFrom(cls, constructed, tag, b[off..]);
    r := ParseContent(b, off, cls, constructed, tag);
  }

  method ParseContent(b: Octets, start: nat, cls: nat, constructed: bool, tag: int)
      returns (r: Result<(Tlv, Octets), Error>)
    requires start <= |b|
    ensures r == ContentFrom(cls, constructed, tag, b[start..])
  {
    var off := start;
    if off >= |b| {
      return Err(TruncatedLength);
    }
    var length: nat := b[off];
    off := off + 1;
    if length >= 128 {
      var n := length - 128;
      if n == 0 || n > 4 || off + n > |b| {
        return Err(BadLength);
      }
      length := 0;
      for i := 0 to n
        invariant length == FromBE(b[off..off + i])
      {
        assert b[off..off + i + 1][..i] == b[off..off + i];
        length := length * 256 + b[off + i];
      }
      assert b[start..][1..1 + n] == b[off..off + n];
      off := off + n;
    }
    assert LengthFrom(b[start..]) == Ok((length, b[off..]));
    if off + length > |b| {
      return Err(OutOfRange);
    }
    assert b[off..][..length] == b[off..off + length] && b[off..][length..] == b[off + length..];
    r := Ok((Tlv(cls, constructed, tag, b[off..off + length]), b[off + length..]));
  }

  method ParseChildren(content: Octets) returns (r: Result<seq<Tlv>, Error>)
    ensures r == Children(content)
  {
    hide Element;
    var out: seq<Tlv> := [];
    var rest := content;
    assert Children(content).Ok? ==> [] + Children(content).value == Children(content).value;
    while |rest| > 0
      invariant Children(content) == Prepended(out, Children(rest))
      decreases |rest|
    {
      var e := ParseTlv(rest);
      if e.Err? {
        return Err(e.error);
      }
      ElementSplits(rest);
      ghost var later := Children(e.value.1);
      if later.Ok? { assert out + ([e.value.0] + later.value) == out + [e.value.0] + later.value; }
      out := out + [e.value.0];
      rest := e.value.1;
    }
    assert rest == [] && out + [] == out;
    r := Ok(out);
  }

  function Prepended(ts: seq<Tlv>, r: Result<seq<Tlv>, Error>): Result<seq<Tlv>, Error> {
    match r
    case Err(e) => Err(e)
    case Ok(more) => Ok(ts + more)
  }

  // ---- encodings ----

  /**
   How an element is written: with so many octets of high tag number (none for the low form), and so
   many octets of long-form length (none for the short form).
   */
  datatype Form = Form(tagOctets: nat, lengthOctets: nat)

  function Pow128(k: nat): (p: nat)
    ensures p > 0
  {
    if k == 0 then 1 else 128 * Pow128(k - 1)
  }

  /** The `k` low-order seven-bit groups of `v`, each marked as continued. */
  function Continued(v: nat, k: nat): (b: Octets)
    ensures |b| == k
  {
    if k == 0 then [] else Continued(v / 128, k - 1) + [128 + v % 128]
  }

  function HighTag(v: nat, k: nat): (b: Octets)
    requires k > 0
    ensures |b| == k
  {
    Continued(v / 128, k - 1) + [v % 128]
  }

  const TAG_LIMIT: int := 0x8000_0000_0000_0000

  ghost predicate Encodable(t: Tlv, f: Form) {
    && t.cls < 4 && 0 <= t.tag < TAG_LIMIT
    && (if f.tagOctets == 0 then t.tag < 31 else t.tag < Pow128(f.tagOctets))
    && (if f.lengthOctets == 0 then |t.content| < 128 else f.lengthOctets <= 4 && |t.content| < Pow256(f.lengthOctets))
  }

  function Identifier(t: Tlv, low: nat): byte
    requires t.cls < 4 && low < 32
  {
    t.cls * 64 + (if t.constructed then 32 else 0) + low
  }

  function TagPart(t: Tlv, f: Form): Octets
    requires Encodable(t, f)
  {
    if f.tagOctets == 0 then [Identifier(t, t.tag)] else [Identifier(t, 31)] + HighTag(t.tag, f.tagOctets)
  }

  function LengthPart(length: nat, octets: nat): Octets
    requires if octets == 0 then length < 128 else octets <= 4
  {
    if octets == 0 then [length] else [128 + octets] + ToBE(length, octets)
  }

  function Encoded(t: Tlv, f: Form): Octets
    requires Encodable(t, f)
  {
    TagPart(t, f) + LengthPart(|t.content|, f.lengthOctets) + t.content
  }

  // ---- reading undoes writing ----

  lemma Int64Small(x: int)
    requires 0 <= x < TAG_LIMIT
    ensures Int64(x) == x
  {
  }

  lemma {:induction false} TagOfContinued(v: nat, k: nat, rest: Octets)
    requires v < Pow128(k) && v < TAG_LIMIT
    ensures TagFrom(Continued(v, k) + rest, 0) == TagFrom(rest, v)
  {
    if k == 0 {
      assert Continued(v, k) + rest == rest;
    } else {
      var last: byte := 128 + v % 128;
      var tail := [last] + rest;
      assert Continued(v, k) + rest == Continued(v / 128, k - 1) + tail;
      TagOfContinued(v / 128, k - 1, tail);
      assert v / 128 * 128 + last % 128 == v;
      Int64Small(v);
      assert tail[1..] == rest;
    }
  }

  lemma TagOfHigh(v: nat, k: nat, rest: Octets)
    requires k > 0 && v < Pow128(k) && v < TAG_LIMIT
    ensures TagFrom(HighTag(v, k) + rest, 0) == Ok((v, rest))
  {
    var last: byte := v % 128;
    var tail := [last] + rest;
    assert HighTag(v, k) + rest == Continued(v / 128, k - 1) + tail;
    TagOfContinued(v / 128, k - 1, tail);
    assert v / 128 * 128 + last % 128 == v;
    Int64Small(v);
    assert tail[1..] == rest;
  }

  lemma LengthOfPart(length: nat, octets: nat, rest: Octets)
    requires if octets == 0 then length < 128 else octets <= 4 && length < Pow256(octets)
    ensures LengthFrom(LengthPart(length, octets) + rest) == Ok((length, rest))
  {
    var b := LengthPart(length, octets) + rest;
    if octets == 0 {
      assert b[1..] == rest;
    } else {
      assert b[1..1 + octets] == ToBE(length, octets) && b[1 + octets..] == rest;
      FromToBE(length, octets);
    }
  }

  lemma IdentifierParts(t: Tlv, low: nat)
    requires t.cls < 4 && low < 32
    ensures var id := Identifier(t, low); id / 64 == t.cls && (id / 32 % 2 == 1) == t.constructed && id % 32 == low
  {
  }

  lemma ContentOfEncoded(t: Tlv, octets: nat, rest: Octets)
    requires if octets == 0 then |t.content| < 128 else octets <= 4 && |t.content| < Pow256(octets)
    ensures ContentFrom(t.cls, t.constructed, t.tag, LengthPart(|t.content|, octets) + (t.content + rest))
        == Ok((t, rest))
  {
    hide LengthFrom, LengthPart;
    var tail := t.content + rest;
    LengthOfPart(|t.content|, octets, tail);
    assert tail[..|t.content|] == t.content && tail[|t.content|..] == rest;
  }

  /** Reading an encoded element, in whatever form it was written, gives the element back. */
  lemma ElementOfEncoded(t: Tlv, f: Form, rest: Octets)
    requires Encodable(t, f)
    ensures Element(Encoded(t, f) + rest) == Ok((t, rest))
  {
    hide ContentFrom, TagFrom, LengthPart, HighTag;
    var length := LengthPart(|t.content|, f.lengthOctets);
    var afterTag := length + (t.content + rest);
    var b := Encoded(t, f) + rest;
    assert b == TagPart(t, f) + afterTag;
    assert |length| > 0 by { LengthPartNonempty(|t.content|, f.lengthOctets); }
    ContentOfEncoded(t, f.lengthOctets, rest);
    if f.tagOctets == 0 {
      IdentifierParts(t, t.tag);
      assert b[1..] == afterTag;
    } else {
      IdentifierParts(t, 31);
      assert b[1..] == HighTag(t.tag, f.tagOctets) + afterTag;
      TagOfHigh(t.tag, f.tagOctets, afterTag);
    }
  }

  lemma LengthPartNonempty(length: nat, octets: nat)
    requires if octets == 0 then length < 128 else octets <= 4
    ensures |LengthPart(length, octets)| > 0
  {
  }

  ghost predicate AllEncodable(ts: seq<Tlv>, fs: seq<Form>) {
    |ts| == |fs| && forall i :: 0 <= i < |ts| ==> Encodable(ts[i], fs[i])
  }

  function EncodedAll(ts: seq<Tlv>, fs: seq<Form>): Octets
    requires AllEncodable(ts, fs)
  {
    if ts == [] then [] else Encoded(ts[0], fs[0]) + EncodedAll(ts[1..], fs[1..])
  }

  /** Reading the concatenated encodings of any elements gives exactly those elements. */
  lemma {:induction false} ChildrenOfEncoded(ts: seq<Tlv>, fs: seq<Form>)
    requires AllEncodable(ts, fs)
    ensures Children(EncodedAll(ts, fs)) == Ok(ts)
  {
    hide Element, Encoded, Encodable;
    if ts != [] {
      ElementSplits(EncodedAll(ts, fs));
      ElementOfEncoded(ts[0], fs[0], EncodedAll(ts[1..], fs[1..]));
      ChildrenOfEncoded(ts[1..], fs[1..]);
      assert ts == [ts[0]] + ts[1..];
    }
  }

  // ---- what is read was written ----

  lemma {:induction false} HighTagFront(d: nat, v: nat, k: nat)
    requires d < 128 && k > 0 && v < Pow128(k)
    ensures HighTag(d * Pow128(k) + v, k + 1) == [128 + d] + HighTag(v, k)
  {
    ContinuedFront(d, v / 128, k - 1);
    var p := Pow128(k - 1);
    assert d * Pow128(k) == 128 * (d * p);
    assert (d * Pow128(k) + v) / 128 == d * p + v / 128;
    assert (d * Pow128(k) + v) % 128 == v % 128;
    assert Continued(d * p + v / 128, k) + [v % 128] == [128 + d] + (Continued(v / 128, k - 1) + [v % 128]);
  }

  lemma {:induction false} ContinuedFront(d: nat, v: nat, k: nat)
    requires d < 128 && v < Pow128(k)
    ensures Continued(d * Pow128(k) + v, k + 1) == [128 + d] + Continued(v, k)
  {
    if k == 0 {
      assert Continued(d, 1) == Continued(d / 128, 0) + [128 + d % 128];
    } else {
      ContinuedFront(d, v / 128, k - 1);
      var p := Pow128(k - 1);
      assert d * Pow128(k) == 128 * (d * p);
      assert (d * Pow128(k) + v) / 128 == d * p + v / 128;
      assert (d * Pow128(k) + v) % 128 == v % 128;
      assert [128 + d] + Continued(v / 128, k - 1) + [128 + v % 128]
          == [128 + d] + (Continued(v / 128, k - 1) + [128 + v % 128]);
    }
  }

  /** The tag number the groups at the front of `b` stand for, without wrap-around. */
  function TagValue(b: Octets, acc: nat): (v: nat)
    ensures v >= acc
  {
    if b == [] then acc
    else if b[0] < 128 then acc * 128 + b[0]
    else TagValue(b[1..], acc * 128 + b[0] % 128)
  }

  /** A high tag number that fits was written as `k` groups, and its value continues the accumulator. */
  lemma {:induction false} TagReadIsHigh(b: Octets, acc: nat) returns (k: nat, v: nat)
    requires TagFrom(b, acc).Ok?
    requires TagValue(b, acc) < TAG_LIMIT
    ensures var (tag, rest) := TagFrom(b, acc).value;
      && k == |b| - |rest| && 0 < k && v < Pow128(k)
      && tag == acc * Pow128(k) + v == TagValue(b, acc) && b == HighTag(v, k) + rest
    decreases |b|
  {
    hide Int64, HighTag, Pow128;
    TagShrinks(b, acc);
    var d := b[0] % 128;
    var rest := TagFrom(b, acc).value.1;
    k := |b| - |rest|;
    if b[0] < 128 {
      v := d;
      Int64Small(acc * 128 + d);
      assert b == [b[0]] + b[1..];
      OneGroup(d);
    } else {
      TagShrinks(b[1..], Int64(acc * 128 + d));
      Int64Small(acc * 128 + d);
      var _, v' := TagReadIsHigh(b[1..], acc * 128 + d);
      v := d * Pow128(k - 1) + v';
      assert b == [128 + d] + b[1..];
      MoreGroups(acc, d, v', k - 1, rest);
    }
  }

  lemma MoreGroups(acc: nat, d: nat, v: nat, k: nat, rest: Octets)
    requires d < 128 && k > 0 && v < Pow128(k)
    ensures (acc * 128 + d) * Pow128(k) + v == acc * Pow128(k + 1) + (d * Pow128(k) + v)
    ensures d * Pow128(k) + v < Pow128(k + 1)
    ensures [128 + d] + (HighTag(v, k) + rest) == HighTag(d * Pow128(k) + v, k + 1) + rest
  {
    hide Pow128, HighTag;
    Scale(acc, d, v, k);
    PrependGroup(d, v, k, rest);
  }

  lemma OneGroup(d: nat)
    requires d < 128
    ensures HighTag(d, 1) == [d] && Pow128(1) == 128
  {
  }

  lemma PrependGroup(d: nat, v: nat, k: nat, rest: Octets)
    requires d < 128 && k > 0 && v < Pow128(k)
    ensures [128 + d] + (HighTag(v, k) + rest) == HighTag(d * Pow128(k) + v, k + 1) + rest
  {
    hide HighTag;
    HighTagFront(d, v, k);
    assert [128 + d] + HighTag(v, k) + rest == [128 + d] + (HighTag(v, k) + rest);
  }

  lemma Scale(acc: nat, d: nat, v: nat, k: nat)
    requires d < 128 && v < Pow128(k)
    ensures (acc * 128 + d) * Pow128(k) + v == acc * Pow128(k + 1) + (d * Pow128(k) + v)
    ensures d * Pow128(k) + v < Pow128(k + 1)
  {
    var p := Pow128(k);
    assert Pow128(k + 1) == 128 * p;
    assert (acc * 128 + d) * p == acc * (128 * p) + d * p;
    assert (d + 1) * p <= 128 * p;
  }

  lemma LengthReadIsPart(b: Octets)
    requires LengthFrom(b).Ok?
    ensures var (length, rest) := LengthFrom(b).value; var octets := |b| - |rest| - 1;
      && octets <= 4 && (if octets == 0 then length < 128 else length < Pow256(octets))
      && b == LengthPart(length, octets) + rest
  {
    if b[0] < 128 {
      assert b == [b[0]] + b[1..];
    } else {
      var n := b[0] - 128;
      FromBEBound(b[1..1 + n]);
      ToFromBE(b[1..1 + n]);
      assert b == [b[0]] + b[1..1 + n] + b[1 + n..];
    }
  }

  /** The tag number of an element does not wrap. */
  predicate TagFits(b: Octets)
    requires b != []
  {
    b[0] % 32 == 31 ==> TagValue(b[1..], 0) < TAG_LIMIT
  }

  lemma ContentReadIsPart(cls: nat, constructed: bool, tag: int, b: Octets) returns (octets: nat)
    requires ContentFrom(cls, constructed, tag, b).Ok?
    ensures var (t, rest) := ContentFrom(cls, constructed, tag, b).value;
      && t.cls == cls && t.constructed == constructed && t.tag == tag
      && (if octets == 0 then |t.content| < 128 else octets <= 4 && |t.content| < Pow256(octets))
      && b == LengthPart(|t.content|, octets) + t.content + rest
  {
    hide LengthPart;
    var (length, body) := LengthFrom(b).value;
    octets := |b| - |body| - 1;
    LengthReadIsPart(b);
    assert body == body[..length] + body[length..];
    assert LengthPart(length, octets) + (body[..length] + body[length..])
        == LengthPart(length, octets) + body[..length] + body[length..];
  }

  lemma LowTagRead(b: Octets) returns (f: Form)
    requires Element(b).Ok? && b[0] % 32 != 31
    ensures var (t, rest) := Element(b).value; Encodable(t, f) && b == Encoded(t, f) + rest
  {
    hide ContentFrom, LengthPart;
    var (t, rest) := Element(b).value;
    var octets := ContentReadIsPart(b[0] / 64, b[0] / 32 % 2 == 1, b[0] % 32, b[1..]);
    f := Form(0, octets);
    IdentifierParts(t, t.tag);
    assert Identifier(t, t.tag) == b[0];
    assert b == [b[0]] + b[1..];
    assert [b[0]] + (LengthPart(|t.content|, octets) + t.content + rest)
        == [b[0]] + LengthPart(|t.content|, octets) + t.content + rest;
  }

  lemma HighTagRead(b: Octets) returns (f: Form)
    requires Element(b).Ok? && b[0] % 32 == 31 && TagFits(b)
    ensures var (t, rest) := Element(b).value; Encodable(t, f) && b == Encoded(t, f) + rest
  {
    hide ContentFrom, LengthPart, TagFrom, TagValue, HighTag, Pow128, Pow256;
    var (t, rest) := Element(b).value;
    var after := TagFrom(b[1..], 0).value.1;
    var k, v := TagReadIsHigh(b[1..], 0);
    var octets := ContentReadIsPart(b[0] / 64, b[0] / 32 % 2 == 1, v, after);
    f := Form(k, octets);
    IdentifierParts(t, 31);
    assert Identifier(t, 31) == b[0];
    assert b == [b[0]] + b[1..];
    assert [b[0]] + (HighTag(v, k) + (LengthPart(|t.content|, octets) + t.content + rest))
        == [b[0]] + HighTag(v, k) + LengthPart(|t.content|, octets) + t.content + rest;
  }

  /**
   Nothing else is accepted: what the reader takes for an element is an encoding of that element, with
   however many leading zero groups, exactly when its tag number does not wrap.
   */
  lemma EncodedIsElement(b: Octets)
    requires Element(b).Ok?
    ensures var (t, rest) := Element(b).value;
      TagFits(b) <==> exists f: Form :: IsEncoding(b, t, f, rest)
  {
    var (t, rest) := Element(b).value;
    if TagFits(b) {
      var f;
      if b[0] % 32 != 31 {
        f := LowTagRead(b);
      } else {
        f := HighTagRead(b);
      }
      assert IsEncoding(b, t, f, rest);
    }
    forall f: Form | IsEncoding(b, t, f, rest) ensures TagFits(b) {
      EncodingFits(b, t, f, rest);
    }
  }

  ghost predicate IsEncoding(b: Octets, t: Tlv, f: Form, rest: Octets) {
    Encodable(t, f) && b == Encoded(t, f) + rest
  }

  lemma EncodingFits(b: Octets, t: Tlv, f: Form, rest: Octets)
    requires b != [] && IsEncoding(b, t, f, rest)
    ensures TagFits(b)
  {
    if f.tagOctets == 0 { LowTagFits(b, t, f, rest); } else { HighTagFits(b, t, f, rest); }
  }

  lemma LowTagFits(b: Octets, t: Tlv, f: Form, rest: Octets)
    requires b != [] && IsEncoding(b, t, f, rest) && f.tagOctets == 0
    ensures TagFits(b)
  {
    hide LengthPart, Identifier;
    IdentifierParts(t, t.tag);
    assert b[0] == Identifier(t, t.tag);
  }

  lemma Regroup(a: Octets, b: Octets, c: Octets, d: Octets, e: Octets)
    ensures a + b + c + d + e == a + (b + (c + d + e))
  {
  }

  lemma HighTagFits(b: Octets, t: Tlv, f: Form, rest: Octets)
    requires b != [] && IsEncoding(b, t, f, rest) && f.tagOctets > 0
    ensures TagFits(b)
  {
    hide LengthPart, HighTag, Identifier, Pow128;
    var length := LengthPart(|t.content|, f.lengthOctets);
    var after := length + t.content + rest;
    Regroup([Identifier(t, 31)], HighTag(t.tag, f.tagOctets), length, t.content, rest);
    ValueOfHigh(t.tag, f.tagOctets, after);
  }

  lemma {:induction false} ValueOfContinued(v: nat, k: nat, rest: Octets)
    requires v < Pow128(k)
    ensures TagValue(Continued(v, k) + rest, 0) == TagValue(rest, v)
  {
    if k == 0 {
      assert Continued(v, k) + rest == rest;
    } else {
      var last: byte := 128 + v % 128;
      var tail := [last] + rest;
      assert Continued(v, k) + rest == Continued(v / 128, k - 1) + tail;
      ValueOfContinued(v / 128, k - 1, tail);
      assert v / 128 * 128 + last % 128 == v && tail[1..] == rest;
    }
  }

  lemma ValueOfHigh(v: nat, k: nat, rest: Octets)
    requires k > 0 && v < Pow128(k)
    ensures TagValue(HighTag(v, k) + rest, 0) == v
  {
    var last: byte := v % 128;
    var tail := [last] + rest;
    assert HighTag(v, k) + rest == Continued(v / 128, k - 1) + tail;
    ValueOfContinued(v / 128, k - 1, tail);
    assert v / 128 * 128 + last == v;
  }
}
