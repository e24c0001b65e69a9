/**
 Usage accounting and quotas (core/fairwave-control/internal/api/server.go): cumulative session
 counters are folded into stored usage per SIM, and a SIM that has used up its quota is suspended.

 The subscriber hash is a parameter.  Counters do not wrap, and the store's writes succeed.
 */
module Usage {
  import opened Wrappers

  datatype Point = Point(up: nat, dn: nat)

  const ZERO: Point := Point(0, 0)

  datatype Session = Session(imsiHash: string, up: nat, dn: nat)

  datatype Status = Issued | Active | Suspended | Other(name: string)

  datatype Sim = Sim(status: Status, quota: nat)

  datatype SimUsage = SimUsage(bytes: Point, quota: nat)

  datatype State = State(
    sessions: seq<Session>, sims: map<string, Sim>,
    lastUsage: map<string, Point>, usage: map<string, SimUsage>)

  type Hash = string -> string

  ghost predicate Injective(hash: Hash) {
    forall a: string, b: string :: hash(a) == hash(b) ==> a == b
  }

  // ---- one fold ----

  function PointOf(m: map<string, Point>, h: string): Point {
    if h in m then m[h] else ZERO
  }

  function Plus(a: Point, b: Point): Point { Point(a.up + b.up, a.dn + b.dn) }

  /** The reading of each hash: its sessions added up. */
  function Readings(sessions: seq<Session>): map<string, Point> {
    if sessions == [] then map[]
    else
      var before, s := Readings(sessions[..|sessions| - 1]), sessions[|sessions| - 1];
      before[s.imsiHash := Plus(PointOf(before, s.imsiHash), Point(s.up, s.dn))]
  }

  function Increase(before: nat, now: nat): nat { if now > before then now - before else 0 }

  function Delta(before: Point, now: Point): Point { Point(Increase(before.up, now.up), Increase(before.dn, now.dn)) }

  function BytesOf(s: State, imsi: string): Point {
    if imsi in s.usage then s.usage[imsi].bytes else ZERO
  }

  /** What this fold adds to a SIM. */
  function Growth(s: State, hash: Hash, imsi: string): Point {
    var readings := Readings(s.sessions);
    if imsi in s.sims && imsi != "" && hash(imsi) in readings then
      Delta(PointOf(s.lastUsage, hash(imsi)), readings[hash(imsi)])
    else ZERO
  }

  function GrownUsage(s: State, hash: Hash, imsi: string): SimUsage
    requires imsi in s.sims
  {
    SimUsage(Plus(BytesOf(s, imsi), Growth(s, hash, imsi)), s.sims[imsi].quota)
  }

  predicate Usable(status: Status) { status == Active || status == Issued }

  /** A usable SIM that has met a quota is suspended. */
  function Enforced(sim: Sim, u: SimUsage): Sim {
    if u.quota != 0 && u.bytes.up + u.bytes.dn >= u.quota && Usable(sim.status) then sim.(status := Suspended) else sim
  }

  function Accumulated(s: State, hash: Hash, fairUse: bool): State {
    s.(lastUsage := s.lastUsage + Readings(s.sessions),
       usage := s.usage + (map imsi | imsi in s.sims && Growth(s, hash, imsi) != ZERO :: GrownUsage(s, hash, imsi)),
       sims := map imsi | imsi in s.sims ::
         if fairUse && Growth(s, hash, imsi) != ZERO then Enforced(s.sims[imsi], GrownUsage(s, hash, imsi))
             else s.sims[imsi])
  }

  /** The SIM a hash belongs to, or nothing. */
  ghost function OwnerOf(sims: map<string, Sim>, hash: Hash, h: string): (imsi: string)
    ensures imsi != "" ==> imsi in sims && hash(imsi) == h
    ensures imsi == "" ==> forall x <- sims :: hash(x) == h ==> x == ""
  {
    if exists x :: x in sims && x != "" && hash(x) == h then
      var x :| x in sims && x != "" && hash(x) == h;
      x
    else ""
  }

  function Booked(s: State, imsi: string, d: Point): SimUsage
    requires imsi in s.sims
  {
    SimUsage(Plus(BytesOf(s, imsi), d), s.sims[imsi].quota)
  }

  /** One reading `c` of hash `h` is folded in. */
  ghost function FoldedIn(s: State, hash: Hash, fairUse: bool, h: string, c: Point): State {
    var t := s.(lastUsage := s.lastUsage[h := c]);
    var d := Delta(PointOf(s.lastUsage, h), c);
    var imsi := OwnerOf(s.sims, hash, h);
    if d == ZERO || imsi == "" then t
    else
      var u := Booked(s, imsi, d);
      t.(usage := s.usage[imsi := u],
         sims := if fairUse then s.sims[imsi := Enforced(s.sims[imsi], u)] else s.sims)
  }

  /** A poll replaces the session table; an issued SIM that shows up in it becomes active. */
  function Collected(s: State, hash: Hash, sessions: seq<Session>): State {
    s.(sessions := sessions,
       sims := map imsi | imsi in s.sims ::
         if s.sims[imsi].status == Issued && hash(imsi) != ""
            && exists k :: 0 <= k < |sessions| && sessions[k].imsiHash == hash(imsi)
         then s.sims[imsi].(status := Active) else s.sims[imsi])
  }

  class Server {
    const hash: Hash
    const fairUse: bool
    var sessions: seq<Session>
    var sims: map<string, Sim>
    var lastUsage: map<string, Point>
    var usage: map<string, SimUsage>

    function Model(): State
      reads this
    {
      State(sessions, sims, lastUsage, usage)
    }

    constructor (hash: Hash, fairUse: bool)
      ensures Model() == State([], map[], map[], map[]) && this.hash == hash && this.fairUse == fairUse
    {
      this.hash, this.fairUse := hash, fairUse;
      sessions, sims, lastUsage, usage := [], map[], map[], map[];
    }

    method CurrentReadings() returns (cur: map<string, Point>)
      ensures cur == Readings(sessions)
    {
      cur := map[];
      for k := 0 to |sessions|
        invariant cur == Readings(sessions[..k])
      {
        assert sessions[..k + 1][..k] == sessions[..k];
        var p := if sessions[k].imsiHash in cur then cur[sessions[k].imsiHash] else ZERO;
        p := Point(p.up + sessions[k].up, p.dn + sessions[k].dn);
        cur := cur[sessions[k].imsiHash := p];
      }
      assert sessions[..|sessions|] == sessions;
    }

    /** The SIM with a given hash, looked for in no particular order. */
    method FindSim(h: string) returns (imsi: string)
      requires Injective(hash)
      ensures imsi == OwnerOf(sims, hash, h)
    {
      var rest := sims.Keys;
      while rest != {}
        invariant rest <= sims.Keys
        invariant forall x <- sims :: x in rest || hash(x) != h
        decreases rest
      {
        var x :| x in rest;
        if hash(x) == h {
          return x;
        }
        rest := rest - {x};
      }
      imsi := "";
    }

    method EnforceQuota(imsi: string, u: SimUsage)
      modifies this`sims
      ensures sims == if imsi in old(sims) then old(sims)[imsi := Enforced(old(sims)[imsi], u)] else old(sims)
    {
      if u.quota == 0 {
        return;
      }
      var total := u.bytes.up + u.bytes.dn;
      if imsi !in sims || (sims[imsi].status != Active && sims[imsi].status != Issued) {
        return;
      }
      if total < u.quota {
        return;
      }
      sims := sims[imsi := sims[imsi].(status := Suspended)];
    }

    method FoldOne(h: string, c: Point)
      requires Injective(hash)
      modifies this
      ensures Model() == FoldedIn(old(Model()), hash, fairUse, h, c)
    {
      hide Enforced, OwnerOf;
      var prev := if h in lastUsage then lastUsage[h] else ZERO;
      var dUp, dDn := 0, 0;
      if c.up > prev.up {
        dUp := c.up - prev.up;
      }
      if c.dn > prev.dn {
        dDn := c.dn - prev.dn;
      }
      assert Point(dUp, dDn) == Delta(prev, c);
      lastUsage := lastUsage[h := c];
      if dUp == 0 && dDn == 0 {
        return;
      }
      var imsi := FindSim(h);
      if imsi == "" {
        return;
      }
      var u := if imsi in usage then usage[imsi] else SimUsage(ZERO, 0);
      u := SimUsage(Point(u.bytes.up + dUp, u.bytes.dn + dDn), sims[imsi].quota);
      assert u == Booked(old(Model()), imsi, Delta(prev, c));
      usage := usage[imsi := u];
      if fairUse {
        EnforceQuota(imsi, u);
      }
    }

    ghost predicate SameUsage(s: State, t: State, imsi: string) {
      (imsi in t.usage <==> imsi in s.usage) && (imsi in t.usage ==> t.usage[imsi] == s.usage[imsi])
    }

    lemma FoldTouchesOne(s: State, h: string, c: Point, imsi: string)
      requires Injective(hash)
      ensures var t := FoldedIn(s, hash, fairUse, h, c);
        && t.sims.Keys == s.sims.Keys
        && (imsi in s.sims ==>
              if hash(imsi) == h && imsi != "" then Folded(s, t, imsi, Delta(PointOf(s.lastUsage, h), c))
                  else Same(s, t, imsi))
        && (imsi !in s.sims ==> SameUsage(s, t, imsi))
    {
      hide Enforced, Delta;
    }

    /** What one reading does to the SIM it belongs to. */
    ghost predicate Folded(s: State, t: State, imsi: string, d: Point)
      requires imsi in s.sims && imsi in t.sims
    {
      if d == ZERO then Same(s, t, imsi)
      else
        var u := Booked(s, imsi, d);
        imsi in t.usage && t.usage[imsi] == u
            && t.sims[imsi] == if fairUse then Enforced(s.sims[imsi], u) else s.sims[imsi]
    }

    ghost predicate Same(s: State, t: State, imsi: string)
      requires imsi in s.sims && imsi in t.sims
    {
      t.sims[imsi] == s.sims[imsi] && SameUsage(s, t, imsi)
    }

    /** The fold of the whole session table, one hash after the other in no particular order. */
    method AccumulateUsage()
      requires Injective(hash)
      modifies this
      ensures Model() == Accumulated(old(Model()), hash, fairUse)
    {
      ghost var s := Model();
      if |sessions| == 0 {
        NothingToFold(s);
        return;
      }
      var cur := CurrentReadings();
      var rest := cur.Keys;
      while rest != {}
        invariant rest <= cur.Keys && sessions == s.sessions
        invariant Partly(s, Model(), cur.Keys - rest)
        decreases rest
      {
        var h :| h in rest;
        ghost var before := Model();
        FoldOne(h, cur[h]);
        PartlyNext(s, before, cur[h], cur.Keys - rest, h);
        assert cur.Keys - rest + {h} == cur.Keys - (rest - {h});
        rest := rest - {h};
      }
      assert cur.Keys - rest == cur.Keys;
      PartlyIsAll(s, Model());
    }

    /** `t` is `s` with the readings of the hashes in `done` folded in. */
    ghost predicate Partly(s: State, t: State, done: set<string>) {
      && t.sessions == s.sessions && t.sims.Keys == s.sims.Keys
      && (forall h: string :: PointOf(t.lastUsage, h) == if h in done then PointOf(Readings(s.sessions), h)
          else PointOf(s.lastUsage, h))
      && t.lastUsage.Keys == s.lastUsage.Keys + done
      && (forall imsi <- s.sims ::
            if hash(imsi) in done && imsi != "" then Folded(s, t, imsi, Growth(s, hash, imsi)) else Same(s, t, imsi))
      && (forall imsi: string :: imsi !in s.sims ==> SameUsage(s, t, imsi))
    }

    lemma PartlyNext(s: State, t: State, c: Point, done: set<string>, h: string)
      requires Injective(hash) && Partly(s, t, done) && h !in done
      requires h in Readings(s.sessions) && Readings(s.sessions)[h] == c
      ensures Partly(s, FoldedIn(t, hash, fairUse, h, c), done + {h})
    {
      hide Readings, Enforced, Delta, Growth, Folded, Same, SameUsage;
      var u := FoldedIn(t, hash, fairUse, h, c);
      PartlyReadings(s, t, c, done, h);
      forall imsi | imsi in s.sims
        ensures imsi in u.sims
        ensures if hash(imsi) in done + {h} && imsi != "" then Folded(s, u, imsi, Growth(s, hash, imsi))
                else Same(s, u, imsi)
      {
        OneNext(s, t, c, done, h, imsi);
      }
      forall imsi: string | imsi !in s.sims ensures SameUsage(s, u, imsi) {
        OtherNext(s, t, c, h, imsi);
      }
    }

    lemma PartlyReadings(s: State, t: State, c: Point, done: set<string>, h: string)
      requires Injective(hash) && Partly(s, t, done) && h !in done
      requires h in Readings(s.sessions) && Readings(s.sessions)[h] == c
      ensures var u := FoldedIn(t, hash, fairUse, h, c);
        && u.sessions == s.sessions && u.sims.Keys == s.sims.Keys
        && u.lastUsage.Keys == s.lastUsage.Keys + (done + {h})
        && forall k: string :: PointOf(u.lastUsage, k) == if k in done + {h} then PointOf(Readings(s.sessions), k)
            else PointOf(s.lastUsage, k)
    {
      hide Readings, Enforced, Delta, Growth, Folded, Same, SameUsage;
    }

    lemma OneNext(s: State, t: State, c: Point, done: set<string>, h: string, imsi: string)
      requires Injective(hash) && Partly(s, t, done) && h !in done && imsi in s.sims
      requires h in Readings(s.sessions) && Readings(s.sessions)[h] == c
      ensures imsi in FoldedIn(t, hash, fairUse, h, c).sims
      ensures var u := FoldedIn(t, hash, fairUse, h, c);
        if hash(imsi) in done + {h} && imsi != "" then Folded(s, u, imsi, Growth(s, hash, imsi)) else Same(s, u, imsi)
    {
      hide Readings, Enforced, Delta, FoldedIn, Folded, Same, SameUsage;
      var u := FoldedIn(t, hash, fairUse, h, c);
      FoldTouchesOne(t, h, c, imsi);
      assert imsi in t.sims && imsi in u.sims;
      if hash(imsi) == h && imsi != "" {
        assert PointOf(t.lastUsage, h) == PointOf(s.lastUsage, h);
        FoldedAfterSame(s, t, u, imsi, Growth(s, hash, imsi));
      } else {
        SameAfter(s, t, u, imsi, Growth(s, hash, imsi));
      }
    }

    lemma OtherNext(s: State, t: State, c: Point, h: string, imsi: string)
      requires Injective(hash) && imsi !in s.sims && imsi !in t.sims && SameUsage(s, t, imsi)
      ensures SameUsage(s, FoldedIn(t, hash, fairUse, h, c), imsi)
    {
      hide Enforced, Delta;
      FoldTouchesOne(t, h, c, imsi);
    }

    lemma FoldedAfterSame(s: State, t: State, u: State, imsi: string, d: Point)
      requires imsi in s.sims && imsi in t.sims && imsi in u.sims
      requires Same(s, t, imsi) && Folded(t, u, imsi, d)
      ensures Folded(s, u, imsi, d)
    {
      hide Enforced;
    }

    lemma SameAfter(s: State, t: State, u: State, imsi: string, d: Point)
      requires imsi in s.sims && imsi in t.sims && imsi in u.sims && Same(t, u, imsi)
      ensures Same(s, t, imsi) ==> Same(s, u, imsi)
      ensures Folded(s, t, imsi, d) ==> Folded(s, u, imsi, d)
    {
      hide Enforced;
    }

    lemma NothingToFold(s: State)
      requires s.sessions == []
      ensures Accumulated(s, hash, fairUse) == s
    {
      assert Readings(s.sessions) == map[];
      assert s.lastUsage + map[] == s.lastUsage;
      assert Accumulated(s, hash, fairUse).usage == s.usage;
      assert Accumulated(s, hash, fairUse).sims == s.sims;
    }

    lemma SameMap(m: map<string, Point>, n: map<string, Point>)
      requires m.Keys == n.Keys && forall h: string :: PointOf(m, h) == PointOf(n, h)
      ensures m == n
    {
      forall h | h in m ensures m[h] == n[h] {
        assert PointOf(m, h) == PointOf(n, h);
      }
    }

    lemma SameTable(m: map<string, SimUsage>, n: map<string, SimUsage>)
      requires forall imsi: string :: (imsi in m <==> imsi in n) && (imsi in m ==> m[imsi] == n[imsi])
      ensures m == n
    {
    }

    lemma PartlyIsAll(s: State, t: State)
      requires Partly(s, t, Readings(s.sessions).Keys)
      ensures t == Accumulated(s, hash, fairUse)
    {
      hide Readings, Enforced, Delta, Growth, Folded, Same;
      var a := Accumulated(s, hash, fairUse);
      SameMap(t.lastUsage, a.lastUsage);
      forall imsi: string
        ensures imsi in s.sims ==> t.sims[imsi] == a.sims[imsi]
        ensures SameUsage(t, a, imsi)
      {
        if imsi in s.sims { AllOfOne(s, t, imsi); } else { assert SameUsage(s, t, imsi); }
      }
      SameTable(t.usage, a.usage);
      assert t.sims == a.sims;
    }

    lemma AllOfOne(s: State, t: State, imsi: string)
      requires imsi in s.sims && imsi in t.sims
      requires if hash(imsi) in Readings(s.sessions) && imsi != "" then Folded(s, t, imsi, Growth(s, hash, imsi))
               else Same(s, t, imsi)
      ensures var a := Accumulated(s, hash, fairUse); t.sims[imsi] == a.sims[imsi] && SameUsage(t, a, imsi)
    {
      hide Readings, Enforced, Delta;
    }

    /** A poll that fails keeps the table. */
    method CollectOnce(poll: Option<seq<Session>>) returns (ok: bool)
      modifies this
      ensures ok == poll.Some?
      ensures Model() == if poll.Some? then Collected(old(Model()), hash, poll.value) else old(Model())
    {
      if poll.None? {
        return false;
      }
      var polled := poll.value;
      sessions := polled;
      var active: set<string> := {};
      for k := 0 to |polled|
        invariant active == set i | 0 <= i < k && polled[i].imsiHash != "" :: polled[i].imsiHash
      {
        if polled[k].imsiHash != "" {
          active := active + {polled[k].imsiHash};
        }
      }
      ghost var before := sims;
      sims := map imsi | imsi in sims ::
        if sims[imsi].status == Issued && hash(imsi) in active then sims[imsi].(status := Active) else sims[imsi];
      assert sims == Collected(old(Model()), hash, polled).sims by {
        forall imsi | imsi in before
          ensures hash(imsi) in active
            <==> exists k :: 0 <= k < |polled| && polled[k].imsiHash == hash(imsi) && hash(imsi) != ""
        {
        }
      }
      ok := true;
    }
  }
}
