/**
 Uplink and downlink, on packets as they are built (core/fairwave-control/internal/collector/upf.go): what a
 session message teaches about a tunnel decides which counter the tunnel's octets go to.
 */
module Directions {
  import opened Bytes
  import opened Wrappers
  import opened Accountant
  import AccountantRuns
  import Gtp

  /** An IP packet with a GTP message in it. */
  datatype Packet = Packet(ip: Octets, udp: Octets, first: byte, kind: byte, teid: uint32, body: Octets, after: Octets)
  {
    predicate Valid() { Gtp.UdpHeaderBefore(ip) && |udp| == 8 && |body| < 0x1_0000 }

    function Octets(): Octets { ip + (udp + (Gtp.GtpOctets(first, kind, teid, body) + after)) }
  }

  predicate MessageValid(ies: seq<Gtp.Ie>) {
    (forall i :: 0 <= i < |ies| ==> Gtp.IeValid(ies[i])) && |Gtp.Message(ies)| < 0x1_0000
  }

  /** The subscriber and the endpoints a message carries. */
  function Carried(ies: seq<Gtp.Ie>): Gtp.Learned { Gtp.Taught(Gtp.Learned("", []), Gtp.AllLeaves(ies)) }

  predicate IsControl(p: Packet, ies: seq<Gtp.Ie>) {
    p.Valid() && p.first / 16 == 2 && MessageValid(ies) && p.body == Gtp.Message(ies)
  }

  predicate IsUser(p: Packet) { p.Valid() && p.first / 16 == 3 && p.kind == 255 }

  function Observed(s: State, p: Packet): State { Step(s, EventOf(p.Octets())) }

  /** The type of the last endpoint with that tunnel that is an uplink or a downlink one. */
  function LastType(teids: seq<Gtp.Fteid>, teid: uint32): Option<nat> {
    if teids == [] then None
    else
      var t := teids[|teids| - 1];
      if t.teid == teid && t.iface in {0, 1, 5, 6} then Some(t.iface) else LastType(teids[..|teids| - 1], teid)
  }

  lemma {:induction false} BoundByType(m: map<uint32, Owner>, imsi: string, teids: seq<Gtp.Fteid>, teid: uint32)
    ensures var b := Bound(m, imsi, teids);
      match LastType(teids, teid)
      case None => (teid in b <==> teid in m) && (teid in b ==> b[teid] == m[teid])
      case Some(k) => teid in b && b[teid] == Owner(imsi, if k == 0 || k == 5 then Up else Down)
  {
    if teids != [] { BoundByType(m, imsi, teids[..|teids| - 1], teid); }
  }

  lemma {:induction false} ControlMeans(p: Packet, ies: seq<Gtp.Ie>)
    requires IsControl(p, ies)
    ensures var l := Carried(ies);
      EventOf(p.Octets()) ==
        if l.imsi == "" then Nothing
        else if p.kind in {32, 33, 34, 35} then Attach(l.imsi, l.teids)
        else if p.kind in {36, 37} then Detach(l.imsi)
        else Nothing
  {
    hide Gtp.ParseUDPGTP, Gtp.Taught, Gtp.AllLeaves, Gtp.Message, Gtp.WalkFrom;
    Gtp.PacketReadsBack(p.ip, p.udp, p.first, p.kind, p.teid, p.body, p.after);
    Gtp.MessageTeaches(ies, Gtp.Learned("", []));
  }

  lemma {:induction false} UserMeans(p: Packet)
    requires IsUser(p)
    ensures EventOf(p.Octets()) == Count(p.teid, |p.body|)
  {
    UserPacketCounts(p.ip, p.udp, p.first, p.teid, p.body, p.after);
  }

  /** What `n` octets add to a subscriber's uplink and downlink counts. */
  ghost predicate Adds(s: State, t: State, imsi: string, up: nat, dn: nat) {
    && CountersOf(t.byImsi, imsi) == Counters(CountersOf(s.byImsi, imsi).up + up, CountersOf(s.byImsi, imsi).dn + dn)
    && t.unknown == s.unknown
    && forall other: string :: other != imsi ==> CountersOf(t.byImsi, other) == CountersOf(s.byImsi, other)
  }

  /**
   A session message of type 32 to 35 with a subscriber decides its tunnels: a user packet on an S1-U eNodeB
   or S5/S8 serving endpoint (type 0 or 5) then adds its length to the subscriber's uplink, and on an S1-U
   serving or S5/S8 packet gateway endpoint (type 1 or 6) to its downlink.
   */
  lemma {:induction false} SessionDecidesDirection(s: State, c: Packet, ies: seq<Gtp.Ie>, u: Packet)
    requires IsControl(c, ies) && c.kind in {32, 33, 34, 35} && Carried(ies).imsi != "" && IsUser(u)
    ensures var l, t := Carried(ies), Observed(s, c); var k := LastType(l.teids, u.teid);
      && (k == Some(0) || k == Some(5) ==> Adds(t, Observed(t, u), l.imsi, |u.body|, 0))
      && (k == Some(1) || k == Some(6) ==> Adds(t, Observed(t, u), l.imsi, 0, |u.body|))
      && (forall imsi: string :: CountersOf(t.byImsi, imsi) == CountersOf(s.byImsi, imsi)) && t.unknown == s.unknown
  {
    hide EventOf, Carried, Bound, IsControl;
    ControlMeans(c, ies);
    UserMeans(u);
    BoundByType(s.byTeid, Carried(ies).imsi, Carried(ies).teids, u.teid);
    TypesAre(Carried(ies).teids, u.teid);
  }

  lemma {:induction false} TypesAre(teids: seq<Gtp.Fteid>, teid: uint32)
    ensures LastType(teids, teid).Some? ==> LastType(teids, teid).value in {0, 1, 5, 6}
  {
    if teids != [] { TypesAre(teids[..|teids| - 1], teid); }
  }

  /** A tunnel none of whose endpoints in the message is an uplink or a downlink one stays whose it was. */
  lemma {:induction false} OtherTypesTeachNothing(s: State, c: Packet, ies: seq<Gtp.Ie>, teid: uint32)
    requires IsControl(c, ies) && c.kind in {32, 33, 34, 35} && LastType(Carried(ies).teids, teid) == None
    ensures var t := Observed(s, c);
      (teid in t.byTeid <==> teid in s.byTeid) && (teid in s.byTeid ==> t.byTeid[teid] == s.byTeid[teid])
  {
    hide EventOf, Carried, Bound, IsControl;
    ControlMeans(c, ies);
    BoundByType(s.byTeid, Carried(ies).imsi, Carried(ies).teids, teid);
  }

  /** After a deletion, of type 36 or 37, octets on a tunnel of that subscriber are unknown, and other tunnels stay. */
  lemma {:induction false} DeletionMakesUnknown(s: State, c: Packet, ies: seq<Gtp.Ie>, u: Packet)
    requires IsControl(c, ies) && c.kind in {36, 37} && IsUser(u)
    requires Carried(ies).imsi != "" && u.teid in s.byTeid
    ensures var t := Observed(s, c); var v := Observed(t, u);
      if s.byTeid[u.teid].imsi == Carried(ies).imsi then
        v.unknown == s.unknown + |u.body| && v.byImsi == s.byImsi
      else u.teid in t.byTeid && t.byTeid[u.teid] == s.byTeid[u.teid]
  {
    hide EventOf, Carried, IsControl;
    ControlMeans(c, ies);
    UserMeans(u);
  }

  /** Any other message, and one without a subscriber, changes nothing. */
  lemma {:induction false} OtherMessagesTeachNothing(s: State, c: Packet, ies: seq<Gtp.Ie>)
    requires IsControl(c, ies)
    requires c.kind !in {32, 33, 34, 35, 36, 37} || Carried(ies).imsi == ""
    ensures Observed(s, c) == s
  {
    hide EventOf, Carried, IsControl;
    ControlMeans(c, ies);
  }

  // ---- one exchange, octet by octet ----

  /** An IPv4 header without options, and a UDP header. */
  const IP_AND_UDP: Octets := [0x45, 0, 0, 0, 0, 0, 0, 0, 64, 17, 0, 0, 10, 0, 0, 1, 10, 0, 0, 2]
                              + [0x08, 0x4b, 0x08, 0x4b, 0, 0, 0, 0]

  /** A create-session response: subscriber 12, and in a bearer context an endpoint of some type with tunnel 7. */
  function Response(flags: byte): Octets {
    IP_AND_UDP + [0x20, 33, 0, 22, 0, 0, 0, 0]
    + [1, 0, 0, 1, 0x12]
    + [93, 0, 0, 13] + [87, 0, 0, 9, flags, 0, 0, 0, 7, 10, 0, 0, 3]
  }

  /** Three octets on tunnel 7. */
  const USER: Octets := IP_AND_UDP + [0x30, 255, 0, 3, 0, 0, 0, 7] + [1, 2, 3]

  const SUBSCRIBER: Gtp.Leaf := Gtp.Imsi([1, 2])

  function EndpointOf(flags: byte): Gtp.Leaf { Gtp.Endpoint(flags / 16, flags % 16, 7, [10, 0, 0, 3]) }

  function AttachIes(flags: byte): seq<Gtp.Ie> { [Gtp.Plain(SUBSCRIBER), Gtp.Context(93, [EndpointOf(flags)])] }

  const BODY_START: Octets := [1, 0, 0, 1, 0x12]

  function ContextOctets(flags: byte): Octets { [93, 0, 0, 13] + [87, 0, 0, 9, flags, 0, 0, 0, 7, 10, 0, 0, 3] }

  lemma {:induction false} LeavesAre(flags: byte)
    ensures Gtp.LeafValid(SUBSCRIBER) && Gtp.LeafValue(SUBSCRIBER) == [0x12]
    ensures Gtp.LeafValid(EndpointOf(flags)) && Gtp.LeafValue(EndpointOf(flags)) == [flags, 0, 0, 0, 7, 10, 0, 0, 3]
    ensures Gtp.LeavesValid([EndpointOf(flags)])
    ensures Gtp.Leaves([EndpointOf(flags)]) == [87, 0, 0, 9, flags, 0, 0, 0, 7, 10, 0, 0, 3]
  {
    SmallNumbers();
    assert [1, 2][2..] == [];
    assert Gtp.Packed([1, 2]) == [0x12];
    assert flags / 16 * 16 + flags % 16 == flags;
    assert [EndpointOf(flags)][1..] == [];
  }

  lemma {:induction false} AttachMessage(flags: byte)
    ensures MessageValid(AttachIes(flags))
    ensures Gtp.Message(AttachIes(flags)) == BODY_START + ContextOctets(flags)
  {
    hide Gtp.LeafValue, Gtp.Leaves, Gtp.LeafValid;
    LeavesAre(flags);
    SmallNumbers();
    var ies := AttachIes(flags);
    assert Gtp.IeValid(ies[0]) && Gtp.IeValid(ies[1]);
    assert Gtp.IeOctets(ies[0]) == BODY_START;
    assert Gtp.IeOctets(ies[1]) == ContextOctets(flags);
    hide Gtp.IeOctets;
    assert ies[1..] == [ies[1]] && ies[1..][1..] == [];
    assert Gtp.Message(ies[1..]) == ContextOctets(flags) + [];
  }

  lemma {:induction false} AttachCarries(flags: byte)
    ensures Carried(AttachIes(flags)) == Gtp.Learned("12", [Gtp.Fteid(flags % 16, 7)])
  {
    hide Gtp.Text, Gtp.Taught;
    var ies, e := AttachIes(flags), EndpointOf(flags);
    assert ies[1..] == [ies[1]] && ies[1..][1..] == [];
    assert Gtp.AllLeaves(ies[1..]) == [e] + [];
    assert Gtp.AllLeaves(ies) == [SUBSCRIBER, e];
    TextIs12();
    TaughtTwo(Gtp.Learned("", []), SUBSCRIBER, e);
  }

  lemma {:induction false} TextIs12()
    ensures Gtp.Text([1, 2]) == "12"
  {
    assert Gtp.Digit(1) == '1' && Gtp.Digit(2) == '2';
    assert Gtp.Text([1, 2])[0] == '1' && Gtp.Text([1, 2])[1] == '2';
    assert Gtp.Text([1, 2]) == ['1', '2'];
  }

  lemma {:induction false} TaughtTwo(l: Gtp.Learned, a: Gtp.Leaf, b: Gtp.Leaf)
    ensures Gtp.Taught(l, [a, b]) == Gtp.TaughtBy(Gtp.TaughtBy(l, a), b)
  {
    hide Gtp.TaughtBy;
    var xs := [a, b];
    assert xs[1..] == [b] && xs[1..][1..] == [];
    assert Gtp.Taught(l, xs) == Gtp.Taught(Gtp.TaughtBy(l, a), xs[1..]);
    assert Gtp.Taught(Gtp.TaughtBy(l, a), xs[1..]) == Gtp.Taught(Gtp.TaughtBy(Gtp.TaughtBy(l, a), b), xs[1..][1..]);
  }

  function AttachPacket(flags: byte, body: Octets): Packet {
    Packet(IP_AND_UDP[..20], IP_AND_UDP[20..], 0x20, 33, 0, body, [])
  }

  lemma {:induction false} ResponseIsBuilt(flags: byte)
    ensures var p := AttachPacket(flags, BODY_START + ContextOctets(flags));
      IsControl(p, AttachIes(flags)) && p.Octets() == Response(flags)
  {
    hide Gtp.Message;
    AttachMessage(flags);
    SmallNumbers();
  }

  lemma {:induction false} SmallNumbers()
    ensures ToBE(1, 2) == [0, 1] && ToBE(9, 2) == [0, 9] && ToBE(13, 2) == [0, 13] && ToBE(22, 2) == [0, 22]
    ensures ToBE(3, 2) == [0, 3] && ToBE(7, 4) == [0, 0, 0, 7] && ToBE(0, 4) == [0, 0, 0, 0]
  {
    OneNumber(1);
    OneNumber(9);
    OneNumber(13);
    OneNumber(22);
    OneNumber(3);
    OneNumber(7);
    OneNumber(0);
  }

  lemma {:induction false} OneNumber(n: byte)
    ensures ToBE(n, 2) == [0, n] && ToBE(n, 4) == [0, 0, 0, n]
  {
    assert ToBE(0, 0) == [];
    assert ToBE(0, 1) == [0];
    assert ToBE(0, 2) == [0, 0];
    assert ToBE(0, 3) == [0, 0, 0];
  }

  lemma {:induction false} UserIsBuilt()
    ensures var p := Packet(IP_AND_UDP[..20], IP_AND_UDP[20..], 0x30, 255, 7, [1, 2, 3], []);
      IsUser(p) && p.Octets() == USER
  {
    SmallNumbers();
  }

  lemma {:induction false} PacketsMean(flags: byte)
    ensures EventOf(Response(flags)) == Attach("12", [Gtp.Fteid(flags % 16, 7)]) && EventOf(USER) == Count(7, 3)
  {
    hide EventOf, IsControl, IsUser, Carried, Response, AttachPacket, AttachIes;
    ResponseIsBuilt(flags);
    AttachCarries(flags);
    UserIsBuilt();
    KindIs33(flags);
    ControlMeans(AttachPacket(flags, BODY_START + ContextOctets(flags)), AttachIes(flags));
    UserMeans(Packet(IP_AND_UDP[..20], IP_AND_UDP[20..], 0x30, 255, 7, [1, 2, 3], []));
  }

  lemma {:induction false} ThreeCounted(iface: nat)
    ensures var t := Step(Step(EMPTY, Attach("12", [Gtp.Fteid(iface, 7)])), Count(7, 3));
      && CountersOf(t.byImsi, "12") ==
           (if iface in {0, 5} then Counters(3, 0) else if iface in {1, 6} then Counters(0, 3) else Counters(0, 0))
      && t.unknown == if iface in {0, 1, 5, 6} then 0 else 3
  {
    hide Bound;
    OneType(iface);
    BoundByType(map[], "12", [Gtp.Fteid(iface, 7)], 7);
  }

  /** Seen one after the other, the two packets count three octets up for types 0 and 5, and three down for 1 and 6. */
  lemma {:induction false} ThreeOctets(flags: byte)
    ensures var t := AccountantRuns.After([AccountantRuns.See(Response(flags)), AccountantRuns.See(USER)]);
      && (flags % 16 in {0, 5} ==> CountersOf(t.byImsi, "12") == Counters(3, 0) && t.unknown == 0)
      && (flags % 16 in {1, 6} ==> CountersOf(t.byImsi, "12") == Counters(0, 3) && t.unknown == 0)
      && (flags % 16 !in {0, 1, 5, 6} ==> CountersOf(t.byImsi, "12") == Counters(0, 0) && t.unknown == 3)
  {
    hide EventOf, Step, Response;
    PacketsMean(flags);
    TwoSeen(Response(flags), USER);
    ThreeCounted(flags % 16);
  }

  lemma {:induction false} KindIs33(flags: byte)
    ensures AttachPacket(flags, BODY_START + ContextOctets(flags)).kind == 33
  {
  }

  lemma {:induction false} TwoSeen(a: Octets, b: Octets)
    ensures AccountantRuns.After([AccountantRuns.See(a), AccountantRuns.See(b)])
         == Step(Step(EMPTY, EventOf(a)), EventOf(b))
  {
    hide EventOf, Step;
    var h := [AccountantRuns.See(a), AccountantRuns.See(b)];
    assert h[..1] == [h[0]] && h[..1][..0] == [];
    assert AccountantRuns.After(h[..1]) == Step(EMPTY, EventOf(a));
  }

  lemma {:induction false} OneType(iface: nat)
    ensures LastType([Gtp.Fteid(iface, 7)], 7) == if iface in {0, 1, 5, 6} then Some(iface) else None
  {
    assert [Gtp.Fteid(iface, 7)][..0] == [];
  }
}
