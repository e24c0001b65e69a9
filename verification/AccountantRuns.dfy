/** Whole runs of the tunnel accountant: who is credited with what, over every sequence of packets and snapshots. */
module AccountantRuns {
  import opened Bytes
  import opened Wrappers
  import opened Accountant
  import Gtp

  datatype Action = See(packet: Octets) | Snapshot

  ghost function Act(s: State, a: Action): State {
    match a case See(packet) => Step(s, EventOf(packet)) case Snapshot => SnapshotIn(s)
  }

  ghost function After(h: seq<Action>): State {
    if h == [] then EMPTY else Act(After(h[..|h| - 1]), h[|h| - 1])
  }

  function EventIn(a: Action): Event {
    match a case See(packet) => EventOf(packet) case Snapshot => Nothing
  }

  // ---- ownership, read off the history ----

  /** The last binding of `teid` in one message, if it has any. */
  function LastBinding(imsi: string, teids: seq<Gtp.Fteid>, teid: uint32): Option<Owner> {
    if teids == [] then None
    else
      var t := teids[|teids| - 1];
      if t.teid == teid && DirectionOf(t).Some? then Some(Owner(imsi, DirectionOf(t).value))
      else LastBinding(imsi, teids[..|teids| - 1], teid)
  }

  function BindingIn(a: Action, teid: uint32): Option<Owner> {
    match EventIn(a) case Attach(imsi, teids) => LastBinding(imsi, teids, teid) case _ => None
  }

  predicate Releases(a: Action, imsi: string) {
    EventIn(a) == Detach(imsi)
  }

  /** Step `i` bound `teid`; since then nothing bound it again and its subscriber was not detached. */
  ghost predicate BoundAt(h: seq<Action>, teid: uint32, i: nat) {
    && i < |h| && BindingIn(h[i], teid).Some?
    && forall j :: i < j < |h| ==> BindingIn(h[j], teid).None? && !Releases(h[j], BindingIn(h[i], teid).value.imsi)
  }

  /** The owner by the most recent binding that was not deleted since. */
  ghost function OwnerIn(h: seq<Action>, teid: uint32): Option<Owner> {
    if exists i: nat :: BoundAt(h, teid, i) then
      var i: nat :| BoundAt(h, teid, i);
      BindingIn(h[i], teid)
    else None
  }

  lemma BoundOnce(h: seq<Action>, teid: uint32, i: nat, j: nat)
    requires BoundAt(h, teid, i) && BoundAt(h, teid, j)
    ensures i == j
  {
  }

  lemma OwnerIsBinding(h: seq<Action>, teid: uint32, i: nat)
    requires BoundAt(h, teid, i)
    ensures OwnerIn(h, teid) == BindingIn(h[i], teid)
  {
    forall j: nat | BoundAt(h, teid, j) ensures j == i { BoundOnce(h, teid, i, j); }
  }

  lemma StillBound(h: seq<Action>, teid: uint32, i: nat)
    requires h != [] && BindingIn(h[|h| - 1], teid).None? && i < |h| - 1
    ensures var init, last := h[..|h| - 1], h[|h| - 1];
      BoundAt(h, teid, i) <==> BoundAt(init, teid, i) && !Releases(last, BindingIn(h[i], teid).value.imsi)
  {
    hide BindingIn, Releases;
    var init := h[..|h| - 1];
    assert forall j :: 0 <= j < |init| ==> init[j] == h[j];
    if BoundAt(init, teid, i) && !Releases(h[|h| - 1], BindingIn(h[i], teid).value.imsi) {
      forall j | i < j < |h| ensures BindingIn(h[j], teid).None? && !Releases(h[j], BindingIn(h[i], teid).value.imsi) {
        if j < |init| { assert BindingIn(init[j], teid).None?; }
      }
    }
  }

  lemma NoOwner(h: seq<Action>, teid: uint32)
    requires forall i: nat :: !BoundAt(h, teid, i)
    ensures OwnerIn(h, teid) == None
  {
  }

  lemma OwnerNext(h: seq<Action>, teid: uint32)
    requires h != []
    ensures var init, last := h[..|h| - 1], h[|h| - 1];
      OwnerIn(h, teid) ==
        if BindingIn(last, teid).Some? then BindingIn(last, teid)
        else if OwnerIn(init, teid).Some? && Releases(last, OwnerIn(init, teid).value.imsi) then None
        else OwnerIn(init, teid)
  {
    hide BindingIn, Releases, OwnerIn;
    var init, last := h[..|h| - 1], h[|h| - 1];
    if BindingIn(last, teid).Some? {
      assert BoundAt(h, teid, |init|);
      OwnerIsBinding(h, teid, |init|);
    } else {
      forall i: nat | i < |init| ensures
        BoundAt(h, teid, i) <==> BoundAt(init, teid, i) && !Releases(last, BindingIn(h[i], teid).value.imsi)
      {
        StillBound(h, teid, i);
      }
      if i: nat :| BoundAt(init, teid, i) {
        OwnerIsBinding(init, teid, i);
        if BoundAt(h, teid, i) {
          OwnerIsBinding(h, teid, i);
        } else {
          forall j: nat ensures !BoundAt(h, teid, j) {
            if BoundAt(h, teid, j) && j < |init| { BoundOnce(init, teid, i, j); }
          }
          NoOwner(h, teid);
        }
      } else {
        forall j: nat ensures !BoundAt(h, teid, j) {
          assert j < |init| ==> !BoundAt(init, teid, j);
        }
        NoOwner(h, teid);
        NoOwner(init, teid);
      }
    }
  }

  lemma {:induction false} BoundIsLastBinding(m: map<uint32, Owner>, imsi: string, teids: seq<Gtp.Fteid>, teid: uint32)
    ensures var b := Bound(m, imsi, teids); var last := LastBinding(imsi, teids, teid);
      && (teid in b <==> last.Some? || teid in m)
      && (teid in b ==> b[teid] == if last.Some? then last.value else m[teid])
  {
    if teids != [] { BoundIsLastBinding(m, imsi, teids[..|teids| - 1], teid); }
  }

  /**
   The accountant's table is the history's: a tunnel is owned exactly by its most recent binding, in
   whatever message or session that was, unless the subscriber has been detached since.
   */
  lemma {:induction false} TableIsLatestBindings(h: seq<Action>, teid: uint32)
    ensures var table := After(h).byTeid;
      OwnerIn(h, teid) == if teid in table then Some(table[teid]) else None
  {
    hide OwnerIn, EventOf, SnapshotIn;
    if h == [] {
      NoOwnerYet(teid);
    } else {
      var init, last := h[..|h| - 1], h[|h| - 1];
      TableIsLatestBindings(init, teid);
      OwnerNext(h, teid);
      SnapshotKeepsTable(After(init));
      match EventIn(last)
      case Attach(imsi, teids) => BoundIsLastBinding(After(init).byTeid, imsi, teids, teid);
      case _ =>
    }
  }

  lemma NoOwnerYet(teid: uint32)
    ensures OwnerIn([], teid) == None
  {
  }

  lemma SnapshotKeepsTable(s: State)
    ensures SnapshotIn(s).byTeid == s.byTeid && SnapshotIn(s).unknown == s.unknown
    ensures forall imsi: string :: CountersOf(SnapshotIn(s).byImsi, imsi) == CountersOf(s.byImsi, imsi)
  {
  }

  // ---- credit ----

  /** What the history owes a subscriber: each counted octet goes to the owner its tunnel had then. */
  ghost function CreditTo(h: seq<Action>, imsi: string): Counters {
    if h == [] then NO_BYTES
    else
      var init := h[..|h| - 1];
      match EventIn(h[|h| - 1])
      case Count(teid, bytes) =>
        var owner := OwnerIn(init, teid);
        if owner.Some? && owner.value.imsi == imsi then Credit(CreditTo(init, imsi), owner.value.direction, bytes)
        else CreditTo(init, imsi)
      case _ => CreditTo(init, imsi)
  }

  /** The octets counted on tunnels that had no owner at the time. */
  ghost function Unowned(h: seq<Action>): nat {
    if h == [] then 0
    else
      var init := h[..|h| - 1];
      match EventIn(h[|h| - 1])
      case Count(teid, bytes) => Unowned(init) + (if OwnerIn(init, teid).None? then bytes else 0)
      case _ => Unowned(init)
  }

  /** All octets counted. */
  function Counted(h: seq<Action>): nat {
    if h == [] then 0
    else
      Counted(h[..|h| - 1]) + (match EventIn(h[|h| - 1]) case Count(_, bytes) => bytes case _ => 0)
  }

  /** Every counter is what the history owes its subscriber, whatever snapshots were taken. */
  lemma {:induction false} CountersAreCredits(h: seq<Action>, imsi: string)
    ensures CountersOf(After(h).byImsi, imsi) == CreditTo(h, imsi)
    ensures After(h).unknown == Unowned(h)
  {
    hide OwnerIn, EventOf, SnapshotIn, Bound;
    if h != [] {
      var init, last := h[..|h| - 1], h[|h| - 1];
      CountersAreCredits(init, imsi);
      SnapshotKeepsTable(After(init));
      match EventIn(last)
      case Count(teid, bytes) => TableIsLatestBindings(init, teid);
      case _ =>
    }
  }

  // ---- conservation ----

  function Sum(c: Counters): nat { c.up + c.dn }

  ghost function Total(m: map<string, Counters>): nat
    decreases |m|
  {
    if m == map[] then 0
    else
      assert m.Keys != {};
      var imsi :| imsi in m;
      assert (m - {imsi}).Keys == m.Keys - {imsi};
      Sum(m[imsi]) + Total(m - {imsi})
  }

  lemma {:induction false} TotalSplit(m: map<string, Counters>, imsi: string)
    requires imsi in m
    ensures Total(m) == Sum(m[imsi]) + Total(m - {imsi})
    decreases |m|
  {
    assert m.Keys != {};
    var first :| first in m && Total(m) == Sum(m[first]) + Total(m - {first});
    assert (m - {imsi}).Keys == m.Keys - {imsi};
    assert (m - {first}).Keys == m.Keys - {first};
    if first != imsi {
      TotalSplit(m - {first}, imsi);
      TotalSplit(m - {imsi}, first);
      assert m - {first} - {imsi} == m - {imsi} - {first};
    }
  }

  lemma TotalUpdate(m: map<string, Counters>, imsi: string, c: Counters)
    ensures Total(m[imsi := c]) + Sum(CountersOf(m, imsi)) == Total(m) + Sum(c)
  {
    TotalSplit(m[imsi := c], imsi);
    assert m[imsi := c] - {imsi} == m - {imsi};
    if imsi in m {
      TotalSplit(m, imsi);
    } else {
      assert m - {imsi} == m;
    }
  }

  lemma {:induction false} TotalWithoutZeros(m: map<string, Counters>, gone: set<string>)
    requires gone <= m.Keys && forall imsi <- gone :: m[imsi] == NO_BYTES
    ensures Total(m - gone) == Total(m)
    decreases gone
  {
    hide Total;
    if gone == {} {
      assert m - gone == m;
    } else {
      var imsi :| imsi in gone;
      TotalSplit(m, imsi);
      var rest := gone - {imsi};
      TotalWithoutZeros(m - {imsi}, rest);
      assert m - {imsi} - rest == m - gone;
    }
  }

  lemma CountConserves(s: State, teid: uint32, bytes: nat)
    ensures var t := CountIn(s, teid, bytes);
      Total(t.byImsi) + t.unknown == Total(s.byImsi) + s.unknown + bytes
  {
    hide Total;
    if bytes != 0 && teid in s.byTeid {
      var o := s.byTeid[teid];
      TotalUpdate(s.byImsi, o.imsi, Credit(CountersOf(s.byImsi, o.imsi), o.direction, bytes));
    }
  }

  lemma StepConserves(s: State, e: Event)
    ensures var t := Step(s, e);
      Total(t.byImsi) + t.unknown == Total(s.byImsi) + s.unknown + (match e case Count(_, bytes) => bytes case _ => 0)
  {
    hide Total, Bound, CountIn;
    match e
    case Count(teid, bytes) => CountConserves(s, teid, bytes);
    case Attach(imsi, _) => TotalUpdate(s.byImsi, imsi, CountersOf(s.byImsi, imsi));
    case _ =>
  }

  /**
   Conservation.  Over every sequence of packets and snapshots, the payload octets of all user
   packets are exactly those credited to subscribers and those counted as unknown.
   */
  lemma {:induction false} BytesAreConserved(h: seq<Action>)
    ensures Total(After(h).byImsi) + After(h).unknown == Counted(h)
  {
    hide Total, Step, EventOf;
    if h == [] {
      NoTotal();
    } else {
      var init, last := h[..|h| - 1], h[|h| - 1];
      BytesAreConserved(init);
      match last
      case See(packet) => StepConserves(After(init), EventOf(packet));
      case Snapshot =>
        var m := After(init).byImsi;
        var gone := set imsi | imsi in m && !Listed(After(init), imsi);
        TotalWithoutZeros(m, gone);
        assert m - gone == Sessions(After(init));
    }
  }

  lemma NoTotal()
    ensures Total(map[]) == 0
  {
  }

  // ---- nothing is forgotten ----

  predicate AtMost(a: Counters, b: Counters) { a.up <= b.up && a.dn <= b.dn }

  lemma {:induction false} CreditOnlyGrows(h: seq<Action>, more: seq<Action>, imsi: string)
    ensures AtMost(CreditTo(h, imsi), CreditTo(h + more, imsi))
    decreases |more|
  {
    hide OwnerIn;
    if more == [] {
      assert h + more == h;
    } else {
      CreditOnlyGrows(h, more[..|more| - 1], imsi);
      assert (h + more)[..|h + more| - 1] == h + more[..|more| - 1];
    }
  }

  /**
   No counter ever decreases, and a subscriber with any octets is in every later snapshot, with what
   the history owes it by then.
   */
  lemma BytesStayListed(h: seq<Action>, more: seq<Action>, imsi: string)
    ensures AtMost(CountersOf(After(h).byImsi, imsi), CountersOf(After(h + more).byImsi, imsi))
    ensures CountersOf(After(h).byImsi, imsi) != NO_BYTES ==>
      var sessions := Sessions(After(h + more)); imsi in sessions && sessions[imsi] == CreditTo(h + more, imsi)
  {
    hide CreditTo, After;
    CountersAreCredits(h, imsi);
    CountersAreCredits(h + more, imsi);
    CreditOnlyGrows(h, more, imsi);
  }

  /** An owner of a tunnel is known to the table of counters. */
  lemma {:induction false} OwnersAreKnown(h: seq<Action>)
    ensures forall teid <- After(h).byTeid :: After(h).byTeid[teid].imsi in After(h).byImsi
  {
    hide EventOf;
    if h != [] {
      var init, last := h[..|h| - 1], h[|h| - 1];
      OwnersAreKnown(init);
      var s := After(init);
      match EventIn(last)
      case Attach(imsi, teids) =>
        forall teid | teid in Bound(s.byTeid, imsi, teids)
          ensures Bound(s.byTeid, imsi, teids)[teid].imsi in s.byImsi[imsi := CountersOf(s.byImsi, imsi)]
        {
          BoundIsLastBinding(s.byTeid, imsi, teids, teid);
          BindsItsOwn(imsi, teids, teid);
        }
      case _ =>
    }
  }

  lemma {:induction false} BindsItsOwn(imsi: string, teids: seq<Gtp.Fteid>, teid: uint32)
    ensures LastBinding(imsi, teids, teid).Some? ==> LastBinding(imsi, teids, teid).value.imsi == imsi
  {
    if teids != [] { BindsItsOwn(imsi, teids[..|teids| - 1], teid); }
  }

  /** A snapshot lists a subscriber, with what it is owed, exactly when that is something or it owns a tunnel. */
  lemma {:induction false} ListedIff(h: seq<Action>, imsi: string)
    ensures var sessions := Sessions(After(h));
      && (imsi in sessions <==> CreditTo(h, imsi) != NO_BYTES || exists teid: uint32 :: Owns(h, imsi, teid))
      && (imsi in sessions ==> sessions[imsi] == CreditTo(h, imsi))
  {
    hide After, CreditTo, OwnerIn;
    CountersAreCredits(h, imsi);
    OwnersAreKnown(h);
    forall teid: uint32
      ensures Owns(h, imsi, teid) <==> teid in After(h).byTeid && After(h).byTeid[teid].imsi == imsi
    {
      TableIsLatestBindings(h, teid);
    }
  }

  ghost predicate Owns(h: seq<Action>, imsi: string, teid: uint32) {
    OwnerIn(h, teid).Some? && OwnerIn(h, teid).value.imsi == imsi
  }
}
