/**
 The tunnel accountant (core/fairwave-control/internal/collector/upf.go): it learns which subscriber
 owns a tunnel endpoint and credits every user-plane octet.  Counters do not wrap.
 */
module Accountant {
  import opened Bytes
  import opened Wrappers
  import Gtp

  datatype Direction = Up | Down

  datatype Owner = Owner(imsi: string, direction: Direction)

  datatype Counters = Counters(up: nat, dn: nat)

  const NO_BYTES: Counters := Counters(0, 0)

  datatype State = State(byTeid: map<uint32, Owner>, byImsi: map<string, Counters>, unknown: nat)

  const EMPTY: State := State(map[], map[], 0)

  function DirectionOf(t: Gtp.Fteid): Option<Direction> {
    if t.iface in {0, 5} then Some(Up) else if t.iface in {1, 6} then Some(Down) else None
  }

  /** What an observed packet means to the accountant. */
  datatype Event =
    | Count(teid: uint32, bytes: nat)
    | Attach(imsi: string, teids: seq<Gtp.Fteid>)
    | Detach(imsi: string)
    | Nothing

  const CREATE_REQUEST: byte := 32
  const MODIFY_RESPONSE: byte := 35
  const DELETE_REQUEST: byte := 36
  const DELETE_RESPONSE: byte := 37

  function EventOf(pkt: Octets): Event {
    match Gtp.ParseUDPGTP(pkt)
    case None => Nothing
    case Some(f) =>
      if f.version == 1 && f.msgType == Gtp.GPDU then Count(f.teid, |f.payload|)
      else if f.version == 2 then
        var l := Gtp.Learn(f);
        if l.imsi == "" then Nothing
        else if CREATE_REQUEST <= f.msgType <= MODIFY_RESPONSE then Attach(l.imsi, l.teids)
        else if f.msgType in {DELETE_REQUEST, DELETE_RESPONSE} then Detach(l.imsi)
        else Nothing
      else Nothing
  }

  /** A user-plane packet counts its payload on its tunnel. */
  lemma UserPacketCounts(ip: Octets, udp: Octets, first: byte, teid: uint32, payload: Octets, after: Octets)
    requires Gtp.UdpHeaderBefore(ip) && |udp| == 8 && first / 16 == 3 && |payload| < 0x1_0000
    ensures EventOf(ip + (udp + (Gtp.GtpOctets(first, Gtp.GPDU, teid, payload) + after))) == Count(teid, |payload|)
  {
    hide Gtp.ParseUDPGTP, Gtp.Learn;
    Gtp.PacketReadsBack(ip, udp, first, Gtp.GPDU, teid, payload, after);
  }

  // ---- what each call does ----

  function CountersOf(m: map<string, Counters>, imsi: string): Counters {
    if imsi in m then m[imsi] else NO_BYTES
  }

  function Credit(c: Counters, d: Direction, bytes: nat): Counters {
    match d case Up => c.(up := c.up + bytes) case Down => c.(dn := c.dn + bytes)
  }

  function CountIn(s: State, teid: uint32, bytes: nat): State {
    if bytes == 0 then s
    else if teid !in s.byTeid then s.(unknown := s.unknown + bytes)
    else
      var o := s.byTeid[teid];
      s.(byImsi := s.byImsi[o.imsi := Credit(CountersOf(s.byImsi, o.imsi), o.direction, bytes)])
  }

  function Bound(m: map<uint32, Owner>, imsi: string, teids: seq<Gtp.Fteid>): map<uint32, Owner> {
    if teids == [] then m
    else
      var before := Bound(m, imsi, teids[..|teids| - 1]);
      var t := teids[|teids| - 1];
      match DirectionOf(t) case None => before case Some(d) => before[t.teid := Owner(imsi, d)]
  }

  function Step(s: State, e: Event): State {
    match e
    case Count(teid, bytes) => CountIn(s, teid, bytes)
    case Attach(imsi, teids) =>
      s.(byImsi := s.byImsi[imsi := CountersOf(s.byImsi, imsi)], byTeid := Bound(s.byTeid, imsi, teids))
    case Detach(imsi) => s.(byTeid := map t | t in s.byTeid && s.byTeid[t].imsi != imsi :: s.byTeid[t])
    case Nothing => s
  }

  /** A subscriber is listed while it owns a tunnel, and for good once it has any octets. */
  ghost predicate Listed(s: State, imsi: string) {
    imsi in s.byImsi && (s.byImsi[imsi] != NO_BYTES || exists t <- s.byTeid :: s.byTeid[t].imsi == imsi)
  }

  ghost function Sessions(s: State): map<string, Counters> {
    map imsi | imsi in s.byImsi && Listed(s, imsi) :: s.byImsi[imsi]
  }

  /** A snapshot forgets those it does not list. */
  ghost function SnapshotIn(s: State): State {
    s.(byImsi := Sessions(s))
  }

  class UpfAccountant {
    var byTeid: map<uint32, Owner>
    var byImsi: map<string, Counters>
    var unknown: nat

    function Model(): State
      reads this
    {
      State(byTeid, byImsi, unknown)
    }

    constructor ()
      ensures Model() == EMPTY
    {
      byTeid, byImsi, unknown := map[], map[], 0;
    }

    method Observe(pkt: Octets)
      modifies this
      ensures Model() == Step(old(Model()), EventOf(pkt))
    {
      hide Gtp.Learn;
      var f := Gtp.ParseUDPGTP(pkt);
      if f.None? {
        return;
      }
      if f.value.version == 1 && f.value.msgType == Gtp.GPDU {
        CountBytes(f.value.teid, |f.value.payload|);
      } else if f.value.version == 2 {
        LearnFrom(f.value);
      }
    }

    method CountBytes(teid: uint32, n: nat)
      modifies this
      ensures Model() == CountIn(old(Model()), teid, n)
    {
      if n == 0 {
        return;
      }
      if teid !in byTeid {
        unknown := unknown + n;
        return;
      }
      var info := byTeid[teid];
      if info.imsi !in byImsi {
        byImsi := byImsi[info.imsi := NO_BYTES];
      }
      var c := byImsi[info.imsi];
      if info.direction == Up {
        byImsi := byImsi[info.imsi := c.(up := c.up + n)];
      } else {
        byImsi := byImsi[info.imsi := c.(dn := c.dn + n)];
      }
    }

    method LearnFrom(f: Gtp.Frame)
      requires f.version == 2
      modifies this
      ensures var l := Gtp.Learn(f);
        Model() == Step(old(Model()),
          if l.imsi == "" then Nothing
          else if CREATE_REQUEST <= f.msgType <= MODIFY_RESPONSE then Attach(l.imsi, l.teids)
          else if f.msgType in {DELETE_REQUEST, DELETE_RESPONSE} then Detach(l.imsi)
          else Nothing)
    {
      var l := Gtp.Walk(f.payload, false, Gtp.Learned("", []));
      if l.imsi == "" {
        return;
      }
      if CREATE_REQUEST <= f.msgType <= MODIFY_RESPONSE {
        if l.imsi !in byImsi {
          byImsi := byImsi[l.imsi := NO_BYTES];
        }
        BindAll(l.imsi, l.teids);
      } else if f.msgType == DELETE_REQUEST || f.msgType == DELETE_RESPONSE {
        Unbind(l.imsi);
      }
    }

    method BindAll(imsi: string, teids: seq<Gtp.Fteid>)
      modifies this`byTeid
      ensures byTeid == Bound(old(byTeid), imsi, teids)
    {
      for k := 0 to |teids|
        invariant byTeid == Bound(old(byTeid), imsi, teids[..k])
      {
        assert teids[..k + 1][..k] == teids[..k];
        var d := DirectionOf(teids[k]);
        if d.None? {
          continue;
        }
        byTeid := byTeid[teids[k].teid := Owner(imsi, d.value)];
      }
      assert teids[..|teids|] == teids;
    }

    /** Deleting while ranging over the table, in no particular order. */
    method Unbind(imsi: string)
      modifies this`byTeid
      ensures byTeid == map t | t in old(byTeid) && old(byTeid)[t].imsi != imsi :: old(byTeid)[t]
    {
      var rest := byTeid.Keys;
      while rest != {}
        invariant rest <= byTeid.Keys <= old(byTeid).Keys
        invariant forall t <- byTeid :: byTeid[t] == old(byTeid)[t]
        invariant forall t <- old(byTeid) :: t in rest || (t in byTeid <==> old(byTeid)[t].imsi != imsi)
        decreases rest
      {
        var teid :| teid in rest;
        if byTeid[teid].imsi == imsi {
          byTeid := byTeid - {teid};
        }
        rest := rest - {teid};
      }
    }

    method TakeSnapshot() returns (sessions: map<string, Counters>, unknownBytes: nat)
      modifies this`byImsi
      ensures sessions == Sessions(old(Model())) && unknownBytes == unknown
      ensures Model() == SnapshotIn(old(Model()))
    {
      var live := set t | t in byTeid :: byTeid[t].imsi;
      sessions := map[];
      var rest := byImsi.Keys;
      while rest != {}
        invariant rest <= byImsi.Keys <= old(byImsi).Keys
        invariant forall i <- byImsi :: byImsi[i] == old(byImsi)[i]
        invariant forall i <- old(byImsi) :: i in rest || (i in byImsi <==> i in sessions)
        invariant sessions.Keys <= byImsi.Keys && rest !! sessions.Keys
        invariant forall i <- sessions :: sessions[i] == old(byImsi)[i]
        invariant forall i <- old(byImsi) :: i in rest || (i in sessions <==> Listed(old(Model()), i))
        decreases rest
      {
        var imsi :| imsi in rest;
        var ib := byImsi[imsi];
        assert imsi in live <==> exists t <- byTeid :: byTeid[t].imsi == imsi;
        if ib.up == 0 && ib.dn == 0 && imsi !in live {
          byImsi := byImsi - {imsi};
        } else {
          sessions := sessions[imsi := ib];
        }
        rest := rest - {imsi};
      }
      unknownBytes := unknown;
    }
  }
}
