/**
 Reading GTP packets off a tap (core/fairwave-control/internal/collector/upf.go): the headers, the
 walk over the information elements of a control message, and the subscriber's digits.
 */
module Gtp {
  import opened Bytes
  import opened Wrappers

  datatype Frame = Frame(version: nat, msgType: byte, teid: uint32, payload: Octets)

  const GPDU: byte := 255

  function ParseGTP(data: Octets): Option<Frame> {
    if |data| < 8 || data[0] / 16 !in {2, 3} then None
    else
      var end := 8 + FromBE(data[2..4]);
      if end > |data| then None
      else
        FourOctets(data[4..8]);
        Some(Frame(if data[0] / 16 == 3 then 1 else 2, data[1], FromBE(data[4..8]), data[8..end]))
  }

  lemma FourOctets(b: Octets)
    requires |b| == 4
    ensures FromBE(b) < 0x1_0000_0000
  {
    Widths();
    FromBEBound(b);
  }

  const UDP: byte := 17

  function UdpOf(pkt: Octets): Option<Octets> {
    if pkt == [] then None
    else if pkt[0] / 16 == 4 then
      var ihl := pkt[0] % 16 * 4;
      if |pkt| < 20 || ihl < 20 || ihl + 8 > |pkt| || pkt[9] != UDP then None else Some(pkt[ihl..])
    else if pkt[0] / 16 == 6 then
      if |pkt| < 48 || pkt[6] != UDP then None else Some(pkt[40..])
    else None
  }

  function ParseUDPGTP(pkt: Octets): Option<Frame> {
    match UdpOf(pkt)
    case None => None
    case Some(udp) => if |udp| < 8 then None else ParseGTP(udp[8..])
  }

  // ---- packets read back ----

  /** A header with the given first octet, and its payload. */
  function GtpOctets(first: byte, kind: byte, teid: uint32, payload: Octets): Octets {
    [first, kind] + ToBE(|payload|, 2) + ToBE(teid, 4) + payload
  }

  predicate UdpHeaderBefore(ip: Octets) {
    |ip| >= 20
    && if ip[0] / 16 == 4 then |ip| == ip[0] % 16 * 4 && ip[9] == UDP
       else ip[0] / 16 == 6 && |ip| == 40 && ip[6] == UDP
  }

  lemma GtpReadsBack(first: byte, kind: byte, teid: uint32, payload: Octets, after: Octets)
    requires first / 16 in {2, 3} && |payload| < 0x1_0000
    ensures ParseGTP(GtpOctets(first, kind, teid, payload) + after)
         == Some(Frame(if first / 16 == 3 then 1 else 2, kind, teid, payload))
  {
    var b := GtpOctets(first, kind, teid, payload) + after;
    Widths();
    FromToBE(|payload|, 2);
    FromToBE(teid, 4);
    hide ToBE, FromBE;
    assert b[2..4] == ToBE(|payload|, 2);
    assert b[4..8] == ToBE(teid, 4);
    assert b[8..8 + |payload|] == payload;
  }

  /** A frame in UDP over either version of IP, whatever options and trailing octets, reads back as it was built. */
  lemma PacketReadsBack(ip: Octets, udp: Octets, first: byte, kind: byte, teid: uint32, payload: Octets, after: Octets)
    requires UdpHeaderBefore(ip) && |udp| == 8 && first / 16 in {2, 3} && |payload| < 0x1_0000
    ensures ParseUDPGTP(ip + (udp + (GtpOctets(first, kind, teid, payload) + after)))
         == Some(Frame(if first / 16 == 3 then 1 else 2, kind, teid, payload))
  {
    var g := GtpOctets(first, kind, teid, payload) + after;
    GtpReadsBack(first, kind, teid, payload, after);
    assert |g| >= 8;
    hide ParseGTP, GtpOctets;
    var pkt := ip + (udp + g);
    assert pkt[|ip|..] == udp + g && (udp + g)[8..] == g;
    assert pkt[0] == ip[0] && pkt[6] == ip[6] && pkt[9] == ip[9];
  }

  /** Nothing else is accepted: a packet that gives a frame is one built of IP, UDP and GTP headers around it. */
  lemma {:induction false} PacketIsBuilt(pkt: Octets)
    requires ParseUDPGTP(pkt).Some?
    ensures var f := ParseUDPGTP(pkt).value;
      exists ip, udp, first, after ::
        && UdpHeaderBefore(ip) && |udp| == 8 && first / 16 == (if f.version == 1 then 3 else 2) && f.version in {1, 2}
        && IsPacket(pkt, ip, udp, first, f.msgType, f.teid, f.payload, after)
  {
    var f, body := ParseUDPGTP(pkt).value, UdpOf(pkt).value;
    var cut := |pkt| - |body|;
    var ip, udp, g := pkt[..cut], body[..8], body[8..];
    IpHeaderCut(pkt);
    GtpIsBuilt(g);
    var after := g[8 + |f.payload|..];
    hide ParseGTP, UdpOf, GtpOctets;
    assert pkt == ip + body && body == udp + g;
    assert ParseUDPGTP(pkt) == ParseGTP(g);
    assert g[0] / 16 == (if f.version == 1 then 3 else 2) && f.version in {1, 2};
    assert UdpHeaderBefore(ip) && |udp| == 8;
    assert IsPacket(pkt, ip, udp, g[0], f.msgType, f.teid, f.payload, after);
  }

  lemma {:induction false} GtpIsBuilt(g: Octets)
    requires ParseGTP(g).Some?
    ensures var f := ParseGTP(g).value;
      && |g| >= 8 + |f.payload| && |f.payload| < 0x1_0000 && f.version in {1, 2}
      && g[0] / 16 == (if f.version == 1 then 3 else 2)
      && g == GtpOctets(g[0], f.msgType, f.teid, f.payload) + g[8 + |f.payload|..]
  {
    var f := ParseGTP(g).value;
    Widths();
    FromBEBound(g[2..4]);
    ToFromBE(g[2..4]);
    ToFromBE(g[4..8]);
    hide ToBE, FromBE;
    assert |f.payload| == FromBE(g[2..4]) && f.teid == FromBE(g[4..8]);
    assert ToBE(|f.payload|, 2) == g[2..4] && ToBE(f.teid, 4) == g[4..8];
    assert [g[0], f.msgType] == g[..2];
  }

  ghost predicate IsPacket(pkt: Octets, ip: Octets, udp: Octets, first: byte, kind: byte, teid: uint32,
      payload: Octets, after: Octets)
  {
    |payload| < 0x1_0000 && pkt == ip + (udp + (GtpOctets(first, kind, teid, payload) + after))
  }

  lemma {:induction false} IpHeaderCut(pkt: Octets)
    requires ParseUDPGTP(pkt).Some?
    ensures var body := UdpOf(pkt).value; var cut := |pkt| - |body|;
      cut >= 0 && pkt[cut..] == body && UdpHeaderBefore(pkt[..cut])
  {
  }

  /**
   The version reported for an accepted frame is the one in the top three bits of its first octet
   exactly for a first digit of 3; a frame whose top three bits say version 2 is never accepted.
   */
  lemma VersionFieldReadIff(data: Octets)
    ensures ParseGTP(data).Some? ==> (ParseGTP(data).value.version == data[0] / 32 <==> data[0] / 16 == 3)
    ensures data != [] && data[0] / 32 == 2 ==> ParseGTP(data).None?
  {
    if data != [] {
      var b := data[0];
      assert b / 32 == b / 16 / 2;
    }
  }

  // ---- the subscriber's digits ----

  const MAX_DIGITS: nat := 15

  function Digit(n: nat): char
    requires n < 10
  {
    '0' + n as char
  }

  function DigitsOf(b: byte): string {
    (if b / 16 <= 9 then [Digit(b / 16)] else []) + (if b % 16 <= 9 then [Digit(b % 16)] else [])
  }

  function AllDigits(v: Octets): string {
    if v == [] then "" else AllDigits(v[..|v| - 1]) + DigitsOf(v[|v| - 1])
  }

  function ImsiOf(v: Octets): string {
    var digits := AllDigits(v);
    if |digits| > MAX_DIGITS then digits[..MAX_DIGITS] else digits
  }

  method DecodeIMSI(v: Octets) returns (imsi: string)
    ensures imsi == ImsiOf(v)
  {
    if |v| == 0 {
      return "";
    }
    var out: string := "";
    for i := 0 to |v|
      invariant out == AllDigits(v[..i])
    {
      assert v[..i + 1][..i] == v[..i];
      var hi, lo := v[i] / 16, v[i] % 16;
      ghost var before := out;
      if hi <= 9 {
        out := out + [Digit(hi)];
      }
      if lo <= 9 {
        out := out + [Digit(lo)];
      }
      assert out == before + DigitsOf(v[i]);
    }
    assert v[..|v|] == v;
    if |out| > MAX_DIGITS {
      out := out[..MAX_DIGITS];
    }
    imsi := out;
  }

  // ---- information elements ----

  datatype Fteid = Fteid(iface: nat, teid: uint32)

  const IE_IMSI: byte := 1
  const IE_FTEID: byte := 87
  const IE_BEARER_CONTEXT: byte := 93
  const IE_PDN_CONNECTION: byte := 96

  function FteidOf(v: Octets): Option<Fteid> {
    if |v| < 5 then None
    else
      FourOctets(v[1..5]);
      Some(Fteid(v[0] % 16, FromBE(v[1..5])))
  }

  /** What a walk has gathered so far. */
  datatype Learned = Learned(imsi: string, teids: seq<Fteid>)

  function WalkFrom(ies: Octets, nested: bool, l: Learned): Learned
    decreases !nested, |ies|
  {
    if |ies| < 4 then l
    else
      var len := FromBE(ies[2..4]);
      if len > |ies| - 4 then l
      else WalkFrom(ies[4 + len..], nested, ElementFrom(ies[0], ies[4..4 + len], nested, l))
  }

  function ElementFrom(kind: byte, value: Octets, nested: bool, l: Learned): Learned
    decreases !nested, |value|, 0
  {
    if kind == IE_IMSI then (if l.imsi == "" then l.(imsi := ImsiOf(value)) else l)
    else if kind == IE_FTEID then
      match FteidOf(value) case None => l case Some(t) => l.(teids := l.teids + [t])
    else if kind in {IE_BEARER_CONTEXT, IE_PDN_CONNECTION} && !nested then WalkFrom(value, true, l)
    else l
  }

  method Walk(ies: Octets, nested: bool, start: Learned) returns (l: Learned)
    ensures l == WalkFrom(ies, nested, start)
    decreases !nested
  {
    l := start;
    var rest := ies;
    while |rest| >= 4
      invariant WalkFrom(ies, nested, start) == WalkFrom(rest, nested, l)
      decreases |rest|
    {
      var kind, len := rest[0], FromBE(rest[2..4]);
      var value := rest[4..];
      if len > |value| {
        return;
      }
      value := value[..len];
      assert value == rest[4..4 + len];
      if kind == IE_IMSI {
        if l.imsi == "" {
          var digits := DecodeIMSI(value);
          l := l.(imsi := digits);
        }
      } else if kind == IE_FTEID {
        var t := FteidOf(value);
        if t.Some? {
          l := l.(teids := l.teids + [t.value]);
        }
      } else if kind == IE_BEARER_CONTEXT || kind == IE_PDN_CONNECTION {
        if !nested {
          l := Walk(value, true, l);
        }
      }
      rest := rest[4 + len..];
    }
  }

  function Learn(f: Frame): Learned {
    if f.version != 2 then Learned("", []) else WalkFrom(f.payload, false, Learned("", []))
  }

  // ---- what a built message teaches ----

  type digit = x: int | 0 <= x < 10

  /** An information element; contexts hold elements that are not contexts of their own. */
  datatype Leaf =
    | Imsi(digits: seq<digit>)
    | Endpoint(flags: nat, iface: nat, teid: uint32, address: Octets)
    | Other(kind: byte, value: Octets)

  datatype Ie = Plain(leaf: Leaf) | Context(kind: byte, leaves: seq<Leaf>)

  function Octet(high: nat, low: nat): byte
    requires high < 16 && low < 16
  {
    high * 16 + low
  }

  /** Digits two to an octet, the first one high; an odd one out is filled up with fifteen. */
  function Packed(digits: seq<digit>): Octets
  {
    if digits == [] then []
    else if |digits| == 1 then [Octet(digits[0], 15)]
    else [Octet(digits[0], digits[1])] + Packed(digits[2..])
  }

  function Text(digits: seq<digit>): string
  {
    seq(|digits|, i requires 0 <= i < |digits| => Digit(digits[i]))
  }

  predicate LeafValid(x: Leaf) {
    match x
    case Imsi(digits) => digits != [] && |digits| <= MAX_DIGITS
    case Endpoint(flags, iface, _, address) => flags < 16 && iface < 16 && |address| < 0x1000
    case Other(kind, value) => kind !in {IE_IMSI, IE_FTEID, IE_BEARER_CONTEXT, IE_PDN_CONNECTION} && |value| < 0x1_0000
  }

  predicate LeavesValid(xs: seq<Leaf>) {
    forall i :: 0 <= i < |xs| ==> LeafValid(xs[i])
  }

  function LeafKind(x: Leaf): byte {
    match x case Imsi(_) => IE_IMSI case Endpoint(_, _, _, _) => IE_FTEID case Other(kind, _) => kind
  }

  function LeafValue(x: Leaf): Octets
    requires LeafValid(x)
  {
    match x
    case Imsi(digits) => Packed(digits)
    case Endpoint(flags, iface, teid, address) => [flags * 16 + iface] + ToBE(teid, 4) + address
    case Other(_, value) => value
  }

  /** The type, an octet that is not looked at, the length and the value. */
  function Tagged(kind: byte, value: Octets): Octets {
    [kind, 0] + ToBE(|value|, 2) + value
  }

  function Leaves(xs: seq<Leaf>): Octets
    requires LeavesValid(xs)
  {
    if xs == [] then [] else Tagged(LeafKind(xs[0]), LeafValue(xs[0])) + Leaves(xs[1..])
  }

  predicate IeValid(ie: Ie) {
    match ie
    case Plain(x) => LeafValid(x)
    case Context(kind, xs) =>
      kind in {IE_BEARER_CONTEXT, IE_PDN_CONNECTION} && LeavesValid(xs) && |Leaves(xs)| < 0x1_0000
  }

  function IeOctets(ie: Ie): Octets
    requires IeValid(ie)
  {
    match ie
    case Plain(x) => Tagged(LeafKind(x), LeafValue(x))
    case Context(kind, xs) => Tagged(kind, Leaves(xs))
  }

  function Message(ies: seq<Ie>): Octets
    requires forall i :: 0 <= i < |ies| ==> IeValid(ies[i])
  {
    if ies == [] then [] else IeOctets(ies[0]) + Message(ies[1..])
  }

  function LeavesOf(ie: Ie): seq<Leaf> {
    match ie case Plain(x) => [x] case Context(_, xs) => xs
  }

  /** All leaves of a message, in order, whether in a context or not. */
  function AllLeaves(ies: seq<Ie>): seq<Leaf> {
    if ies == [] then []
    else LeavesOf(ies[0]) + AllLeaves(ies[1..])
  }

  /** What a listener should learn: the first subscriber, and every endpoint in order. */
  function Taught(l: Learned, xs: seq<Leaf>): Learned
    decreases |xs|
  {
    if xs == [] then l else Taught(TaughtBy(l, xs[0]), xs[1..])
  }

  function TaughtBy(l: Learned, x: Leaf): Learned {
    match x
    case Imsi(digits) => if l.imsi == "" then l.(imsi := Text(digits)) else l
    case Endpoint(_, iface, teid, _) => l.(teids := l.teids + [Fteid(iface, teid)])
    case Other(_, _) => l
  }

  lemma {:induction false} AllDigitsAppend(a: Octets, b: Octets)
    ensures AllDigits(a + b) == AllDigits(a) + AllDigits(b)
  {
    hide DigitsOf;
    if b == [] {
      assert a + b == a;
    } else {
      AllDigitsAppend(a, b[..|b| - 1]);
      assert (a + b)[..|a + b| - 1] == a + b[..|b| - 1];
    }
  }

  lemma {:induction false} PackedReadsBack(digits: seq<digit>)
    ensures AllDigits(Packed(digits)) == Text(digits)
    decreases |digits|
  {
    hide DigitsOf;
    if |digits| == 1 {
      OneOctet(Octet(digits[0], 15));
      NibblesOf(digits[0], 15);
    } else if |digits| > 1 {
      var b := Octet(digits[0], digits[1]);
      PackedReadsBack(digits[2..]);
      AllDigitsAppend([b], Packed(digits[2..]));
      OneOctet(b);
      NibblesOf(digits[0], digits[1]);
      assert Text(digits) == [Digit(digits[0]), Digit(digits[1])] + Text(digits[2..]);
    }
  }

  lemma NibblesOf(high: nat, low: nat)
    requires high < 16 && low < 16
    ensures DigitsOf(Octet(high, low)) ==
      (if high <= 9 then [Digit(high)] else []) + (if low <= 9 then [Digit(low)] else [])
  {
    assert Octet(high, low) / 16 == high && Octet(high, low) % 16 == low;
  }

  lemma OneOctet(b: byte)
    ensures AllDigits([b]) == DigitsOf(b)
  {
    assert [b][..0] == [];
  }

  /** The subscriber's digits come back from an element that packs them high digit first. */
  lemma ImsiReadsBack(digits: seq<digit>)
    requires |digits| <= MAX_DIGITS
    ensures ImsiOf(Packed(digits)) == Text(digits)
  {
    PackedReadsBack(digits);
  }

  lemma TaggedFront(kind: byte, value: Octets, rest: Octets)
    requires |value| < 0x1_0000
    ensures var b := Tagged(kind, value) + rest;
      && |b| >= 4 + |value| && b[0] == kind && FromBE(b[2..4]) == |value|
      && b[4..4 + |value|] == value && b[4 + |value|..] == rest
  {
    var b := Tagged(kind, value) + rest;
    Widths();
    FromToBE(|value|, 2);
    assert b[2..4] == ToBE(|value|, 2);
  }

  lemma LeafTeaches(x: Leaf, nested: bool, l: Learned)
    requires LeafValid(x)
    ensures |LeafValue(x)| < 0x1_0000
    ensures ElementFrom(LeafKind(x), LeafValue(x), nested, l) == TaughtBy(l, x)
  {
    match x
    case Imsi(digits) =>
      ImsiReadsBack(digits);
      PackedIsShort(digits);
    case Endpoint(flags, iface, teid, address) =>
      var v := LeafValue(x);
      assert v[1..5] == ToBE(teid, 4);
      Widths();
      FromToBE(teid, 4);
    case Other(_, _) =>
  }

  lemma {:induction false} PackedIsShort(digits: seq<digit>)
    ensures |Packed(digits)| <= |digits|
    decreases |digits|
  {
    if |digits| > 1 { PackedIsShort(digits[2..]); }
  }

  lemma {:induction false} TaughtAppend(l: Learned, xs: seq<Leaf>, ys: seq<Leaf>)
    ensures Taught(l, xs + ys) == Taught(Taught(l, xs), ys)
    decreases |xs|
  {
    hide TaughtBy;
    if xs == [] {
      assert xs + ys == ys;
    } else {
      assert (xs + ys)[1..] == xs[1..] + ys;
      TaughtAppend(TaughtBy(l, xs[0]), xs[1..], ys);
    }
  }

  lemma {:induction false} LeavesTeach(xs: seq<Leaf>, nested: bool, l: Learned)
    requires LeavesValid(xs)
    ensures WalkFrom(Leaves(xs), nested, l) == Taught(l, xs)
    decreases |xs|
  {
    hide LeafKind, LeafValue, Tagged, ElementFrom, TaughtBy;
    if xs != [] {
      LeafTeaches(xs[0], nested, l);
      TaggedFront(LeafKind(xs[0]), LeafValue(xs[0]), Leaves(xs[1..]));
      LeavesTeach(xs[1..], nested, TaughtBy(l, xs[0]));
    }
  }

  lemma {:induction false} LeavesOfMessage(ies: seq<Ie>)
    requires forall i :: 0 <= i < |ies| ==> IeValid(ies[i])
    ensures LeavesValid(AllLeaves(ies))
  {
    if ies != [] {
      LeavesOfMessage(ies[1..]);
      assert IeValid(ies[0]) && LeavesValid(LeavesOf(ies[0]));
    }
  }

  /**
   A built message, with elements at the top and in contexts, teaches exactly the first subscriber
   in it and every endpoint in order.
   */
  lemma {:induction false} MessageTeaches(ies: seq<Ie>, l: Learned)
    requires forall i :: 0 <= i < |ies| ==> IeValid(ies[i])
    ensures LeavesValid(AllLeaves(ies))
    ensures WalkFrom(Message(ies), false, l) == Taught(l, AllLeaves(ies))
    decreases |ies|
  {
    hide LeafKind, LeafValue, Tagged, Leaves, TaughtBy;
    LeavesOfMessage(ies);
    if ies != [] {
      LeavesOfMessage(ies[1..]);
      assert IeValid(ies[0]);
      match ies[0]
      case Plain(x) =>
        LeafTeaches(x, false, l);
        TaggedFront(LeafKind(x), LeafValue(x), Message(ies[1..]));
        MessageTeaches(ies[1..], TaughtBy(l, x));
        assert AllLeaves(ies)[1..] == AllLeaves(ies[1..]);
      case Context(kind, xs) =>
        TaggedFront(kind, Leaves(xs), Message(ies[1..]));
        LeavesTeach(xs, true, l);
        assert ElementFrom(kind, Leaves(xs), false, l) == Taught(l, xs);
        MessageTeaches(ies[1..], Taught(l, xs));
        TaughtAppend(l, xs, AllLeaves(ies[1..]));
    }
  }

  // ---- against the telephony encodings ----

  /** Digits two to an octet, the first one low: telephony BCD (section 8.3 of 3GPP TS 29.274). */
  function Telephony(digits: seq<digit>): Octets
  {
    if digits == [] then []
    else if |digits| == 1 then [Octet(15, digits[0])]
    else [Octet(digits[1], digits[0])] + Telephony(digits[2..])
  }

  /** The first two digits agree, and the next two, and so on. */
  predicate PairsEqual(digits: seq<digit>) {
    |digits| < 2 || (digits[0] == digits[1] && PairsEqual(digits[2..]))
  }

  /** Each pair of digits swapped. */
  function Swapped(digits: seq<digit>): (s: seq<digit>)
    ensures |s| == |digits|
  {
    if |digits| < 2 then digits else [digits[1], digits[0]] + Swapped(digits[2..])
  }

  lemma {:induction false} TelephonyReadsSwapped(digits: seq<digit>)
    ensures AllDigits(Telephony(digits)) == Text(Swapped(digits))
    decreases |digits|
  {
    hide DigitsOf;
    if |digits| == 1 {
      OneOctet(Octet(15, digits[0]));
      NibblesOf(15, digits[0]);
    } else if |digits| > 1 {
      var b := Octet(digits[1], digits[0]);
      TelephonyReadsSwapped(digits[2..]);
      AllDigitsAppend([b], Telephony(digits[2..]));
      OneOctet(b);
      NibblesOf(digits[1], digits[0]);
      assert Text(Swapped(digits)) == [Digit(digits[1]), Digit(digits[0])] + Text(Swapped(digits[2..]));
    }
  }

  lemma {:induction false} SwappedIsSameIff(digits: seq<digit>)
    ensures Swapped(digits) == digits <==> PairsEqual(digits)
    decreases |digits|
  {
    if |digits| >= 2 {
      var rest := digits[2..];
      SwappedIsSameIff(rest);
      assert digits == [digits[0], digits[1]] + rest;
      assert Swapped(digits) == [digits[1], digits[0]] + Swapped(rest);
      assert Swapped(digits)[2..] == Swapped(rest) && digits[2..] == rest;
    }
  }

  /**
   The subscriber read from a telephony-BCD element is the one that was written exactly when its
   digits agree pairwise, because every octet is read high digit first.
   */
  lemma TelephonyReadsBackIff(digits: seq<digit>)
    requires |digits| <= MAX_DIGITS
    ensures ImsiOf(Telephony(digits)) == Text(digits) <==> PairsEqual(digits)
  {
    TelephonyReadsSwapped(digits);
    SwappedIsSameIff(digits);
    var s := Swapped(digits);
    if Text(s) == Text(digits) {
      forall i | 0 <= i < |s| ensures s[i] == digits[i] {
        assert Text(s)[i] == Text(digits)[i];
      }
      assert s == digits;
    }
  }

  // ---- what teaches nothing ----

  /** A context inside a context is skipped, whatever it holds. */
  lemma {:induction false} InnerContextIsSkipped(kind: byte, value: Octets, rest: Octets, l: Learned)
    requires kind in {93, 96} && |value| < 0x1_0000
    ensures WalkFrom(Tagged(kind, value) + rest, true, l) == WalkFrom(rest, true, l)
  {
    TaggedFront(kind, value, rest);
  }

  /** An element that is longer than what is left of the message ends the walk. */
  lemma {:induction false} OverlongEndsWalk(kind: byte, flags: byte, len: nat, value: Octets, nested: bool, l: Learned)
    requires |value| < len < 0x1_0000
    ensures WalkFrom([kind, flags] + ToBE(len, 2) + value, nested, l) == l
  {
    var ies := [kind, flags] + ToBE(len, 2) + value;
    Widths();
    FromToBE(len, 2);
    assert ies[2..4] == ToBE(len, 2);
  }

  /** An endpoint needs five octets: its type and a tunnel. */
  lemma {:induction false} ShortEndpointTeachesNothing(value: Octets, rest: Octets, nested: bool, l: Learned)
    requires |value| < 5
    ensures WalkFrom(Tagged(87, value) + rest, nested, l) == WalkFrom(rest, nested, l)
  {
    TaggedFront(87, value, rest);
  }

  /** A subscriber's number is cut after fifteen digits. */
  lemma {:induction false} LongNumbersAreCut(digits: seq<digit>)
    ensures ImsiOf(Packed(digits)) == if |digits| <= 15 then Text(digits) else Text(digits)[..15]
  {
    PackedReadsBack(digits);
  }

  /**
   The length that is read from an element written with its length in the second and third octet and
   its instance in the fourth (section 8.2.1 of 3GPP TS 29.274) is the one that was written exactly
   when both length octets and the instance octet are equal.
   */
  lemma StandardLengthReadIff(kind: byte, instance: byte, value: Octets)
    requires |value| < 0x1_0000
    ensures var b := [kind] + ToBE(|value|, 2) + [instance] + value;
      FromBE(b[2..4]) == |value| <==> |value| / 256 == |value| % 256 == instance
  {
    var n := |value|;
    var b := [kind] + ToBE(n, 2) + [instance] + value;
    LengthOctets(n);
    hide ToBE, FromBE;
    assert b[2..4] == [n % 256, instance];
    TwoOctets(n % 256, instance);
    ShiftedLengthIff(n, instance);
  }

  lemma {:induction false} LengthOctets(n: nat)
    requires n < 0x1_0000
    ensures ToBE(n, 2) == [n / 256, n % 256]
  {
    assert ToBE(n, 2) == ToBE(n / 256, 1) + [n % 256];
    assert ToBE(n / 256, 1) == ToBE(n / 256 / 256, 0) + [n / 256 % 256];
  }

  lemma {:induction false} ShiftedLengthIff(n: nat, instance: nat)
    requires n < 0x1_0000 && instance < 256
    ensures n % 256 * 256 + instance == n <==> n / 256 == n % 256 == instance
  {
    assert n == n / 256 * 256 + n % 256;
  }

  lemma TwoOctets(x: byte, y: byte)
    ensures FromBE([x, y]) == x * 256 + y
  {
    assert [x, y][..1] == [x] && [x][..0] == [];
    assert FromBE([x]) == x;
  }
}
