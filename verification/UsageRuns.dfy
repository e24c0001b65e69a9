/** Series of folds: what a SIM's stored usage adds up to, and what its quota guarantees. */
module UsageRuns {
  import opened Usage

  /** Before each fold the session table and the SIMs may have become anything else. */
  datatype Tick = Tick(sessions: seq<Session>, sims: map<string, Sim>)

  function After(s: State, hash: Hash, fairUse: bool, ticks: seq<Tick>): State {
    if ticks == [] then s
    else
      var t, last := After(s, hash, fairUse, ticks[..|ticks| - 1]), ticks[|ticks| - 1];
      Accumulated(t.(sessions := last.sessions, sims := last.sims), hash, fairUse)
  }

  /** What the folds read for one hash; a fold whose table lacks it reads nothing. */
  function ReadingsOf(ticks: seq<Tick>, h: string): seq<Point> {
    if ticks == [] then []
    else
      var last := Readings(ticks[|ticks| - 1].sessions);
      ReadingsOf(ticks[..|ticks| - 1], h) + (if h in last then [last[h]] else [])
  }

  function Last(rs: seq<Point>): Point { if rs == [] then ZERO else rs[|rs| - 1] }

  /** The positive increments of a series of readings that starts from zero. */
  function Increments(rs: seq<Point>): Point {
    if rs == [] then ZERO
    else
      var init := rs[..|rs| - 1];
      Plus(Increments(init), Delta(Last(init), rs[|rs| - 1]))
  }

  /** What a series of readings lost at its resets. */
  function Drops(rs: seq<Point>): Point {
    if rs == [] then ZERO
    else
      var init := rs[..|rs| - 1];
      Plus(Drops(init), Delta(rs[|rs| - 1], Last(init)))
  }

  ghost predicate Unseen(s: State, hash: Hash, imsi: string) {
    hash(imsi) !in s.lastUsage && imsi !in s.usage
  }

  /**
   The fold telescopes: for a SIM that is in the store at every fold, stored usage is the sum of the
   positive increments of its readings, and the last reading is what the next is compared with.
   */
  lemma {:induction false} StoredIsIncrements(s: State, hash: Hash, fairUse: bool, ticks: seq<Tick>, imsi: string)
    requires Unseen(s, hash, imsi) && imsi != "" && forall t <- ticks :: imsi in t.sims
    ensures var t := After(s, hash, fairUse, ticks); var rs := ReadingsOf(ticks, hash(imsi));
      && BytesOf(t, imsi) == Increments(rs)
      && PointOf(t.lastUsage, hash(imsi)) == Last(rs)
  {
    if ticks == [] {
    } else {
      hide Readings, Delta, Accumulated, Plus, ReadingsOf, Increments;
      var init, last, h := ticks[..|ticks| - 1], ticks[|ticks| - 1], hash(imsi);
      assert last in ticks && forall t <- init :: t in ticks;
      StoredIsIncrements(s, hash, fairUse, init, imsi);
      OneFold(After(s, hash, fairUse, init).(sessions := last.sessions, sims := last.sims), hash, fairUse, imsi);
      AnotherReading(ticks, h);
    }
  }

  lemma AnotherReading(ticks: seq<Tick>, h: string)
    requires ticks != []
    ensures var rs, now := ReadingsOf(ticks[..|ticks| - 1], h), Readings(ticks[|ticks| - 1].sessions);
      && Increments(ReadingsOf(ticks, h))
          == (if h in now then Plus(Increments(rs), Delta(Last(rs), now[h])) else Increments(rs))
      && Last(ReadingsOf(ticks, h)) == (if h in now then now[h] else Last(rs))
  {
    hide Readings, Delta, Plus;
    var rs, now := ReadingsOf(ticks[..|ticks| - 1], h), Readings(ticks[|ticks| - 1].sessions);
    if h in now {
      assert ReadingsOf(ticks, h) == rs + [now[h]] && (rs + [now[h]])[..|rs|] == rs;
    } else {
      assert ReadingsOf(ticks, h) == rs;
    }
  }

  lemma OneFold(s: State, hash: Hash, fairUse: bool, imsi: string)
    requires imsi in s.sims && imsi != ""
    ensures var t := Accumulated(s, hash, fairUse); var h := hash(imsi);
      && BytesOf(t, imsi) == (if h in Readings(s.sessions)
            then Plus(BytesOf(s, imsi), Delta(PointOf(s.lastUsage, h), Readings(s.sessions)[h])) else BytesOf(s, imsi))
      && PointOf(t.lastUsage, h) == PointOf(if h in Readings(s.sessions) then Readings(s.sessions) else s.lastUsage, h)
  {
    hide Readings, Delta, Plus, Enforced, Growth;
    var t, h := Accumulated(s, hash, fairUse), hash(imsi);
    assert t.lastUsage == s.lastUsage + Readings(s.sessions);
    PlusZero(BytesOf(s, imsi));
    GrowthOf(s, hash, imsi);
    if Growth(s, hash, imsi) != ZERO {
      assert t.usage[imsi] == GrownUsage(s, hash, imsi);
    } else {
      assert imsi in t.usage <==> imsi in s.usage;
    }
  }

  lemma GrowthOf(s: State, hash: Hash, imsi: string)
    requires imsi in s.sims && imsi != ""
    ensures Growth(s, hash, imsi) == if hash(imsi) in Readings(s.sessions)
              then Delta(PointOf(s.lastUsage, hash(imsi)), Readings(s.sessions)[hash(imsi)]) else ZERO
  {
    hide Readings, Delta;
  }

  predicate AtMost(a: Point, b: Point) { a.up <= b.up && a.dn <= b.dn }

  ghost predicate Monotone(rs: seq<Point>) {
    forall i, j :: 0 <= i < j < |rs| ==> AtMost(rs[i], rs[j])
  }

  lemma DeltaBalance(a: Point, b: Point)
    ensures Plus(a, Delta(a, b)) == Plus(b, Delta(b, a))
  {
  }

  lemma PlusSwap(a: Point, b: Point, c: Point)
    ensures Plus(Plus(a, b), c) == Plus(Plus(a, c), b)
  {
  }

  lemma {:induction false} IncrementsAreLastAndDrops(rs: seq<Point>)
    ensures Increments(rs) == Plus(Last(rs), Drops(rs))
  {
    hide Plus, Delta;
    if rs == [] {
      PlusZero(ZERO);
    } else {
      var init, last := rs[..|rs| - 1], rs[|rs| - 1];
      IncrementsAreLastAndDrops(init);
      PlusSwap(Last(init), Drops(init), Delta(Last(init), last));
      DeltaBalance(Last(init), last);
      PlusSwap(last, Delta(last, Last(init)), Drops(init));
      PlusAssociates(last, Drops(init), Delta(last, Last(init)));
    }
  }

  lemma PlusZero(a: Point)
    ensures Plus(a, ZERO) == a
  {
  }

  lemma PlusNothingIff(a: Point, b: Point)
    ensures Plus(a, b) == a <==> b == ZERO
  {
    assert b == Point(b.up, b.dn);
  }

  lemma PlusAssociates(a: Point, b: Point, c: Point)
    ensures Plus(Plus(a, b), c) == Plus(a, Plus(b, c))
  {
  }

  lemma {:induction false} IncrementsCoverReadings(rs: seq<Point>, i: nat)
    requires i < |rs|
    ensures AtMost(rs[i], Increments(rs))
  {
    IncrementsAreLastAndDrops(rs);
    if i < |rs| - 1 { IncrementsCoverReadings(rs[..|rs| - 1], i); }
  }

  lemma {:induction false} NoDropsIffMonotone(rs: seq<Point>)
    ensures Drops(rs) == ZERO <==> Monotone(rs)
  {
    hide Delta, Plus, AtMost, Monotone;
    if rs == [] {
      MonotoneSoFar(rs);
    } else {
      var init, last := rs[..|rs| - 1], rs[|rs| - 1];
      NoDropsIffMonotone(init);
      NothingLostIff(Drops(init), Last(init), last);
      MonotoneSoFar(rs);
    }
  }

  lemma NothingLostIff(drops: Point, before: Point, now: Point)
    ensures Plus(drops, Delta(now, before)) == ZERO <==> drops == ZERO && AtMost(before, now)
  {
    CountLostIff(drops.up, before.up, now.up);
    CountLostIff(drops.dn, before.dn, now.dn);
    hide Increase;
    var up, dn := drops.up + Increase(now.up, before.up), drops.dn + Increase(now.dn, before.dn);
    assert Plus(drops, Delta(now, before)) == Point(up, dn);
    assert drops == Point(drops.up, drops.dn);
  }

  lemma CountLostIff(drops: nat, before: nat, now: nat)
    ensures drops + Increase(now, before) == 0 <==> drops == 0 && before <= now
  {
  }

  lemma MonotoneSoFar(rs: seq<Point>)
    ensures Monotone(rs) <==> rs == [] || (Monotone(rs[..|rs| - 1]) && AtMost(Last(rs[..|rs| - 1]), rs[|rs| - 1]))
  {
    if rs != [] {
      var init, last := rs[..|rs| - 1], rs[|rs| - 1];
      if Monotone(rs) {
        assert forall i, j :: 0 <= i < j < |init| ==> AtMost(rs[i], rs[j]) && init[i] == rs[i] && init[j] == rs[j];
      }
      if Monotone(init) && AtMost(Last(init), last) {
        forall i, j | 0 <= i < j < |rs| ensures AtMost(rs[i], rs[j]) {
          if j < |init| {
            assert AtMost(init[i], init[j]);
          } else if i < |init| - 1 {
            assert AtMost(init[i], init[|init| - 1]);
          }
        }
      }
    }
  }

  /**
   Stored usage is at least every reading.  It exceeds the last reading by exactly what the readings
   lost at resets, and so equals it if and only if the readings never went down.
   */
  lemma StoredAgainstReadings(s: State, hash: Hash, fairUse: bool, ticks: seq<Tick>, imsi: string)
    requires Unseen(s, hash, imsi) && imsi != "" && forall t <- ticks :: imsi in t.sims
    ensures var stored := BytesOf(After(s, hash, fairUse, ticks), imsi); var rs := ReadingsOf(ticks, hash(imsi));
      && (forall i :: 0 <= i < |rs| ==> AtMost(rs[i], stored))
      && stored == Plus(Last(rs), Drops(rs))
      && (stored == Last(rs) <==> Monotone(rs))
  {
    hide After, ReadingsOf, Increments, Drops, Readings, Plus, AtMost, Monotone, BytesOf, Last, Unseen;
    StoredIsIncrements(s, hash, fairUse, ticks, imsi);
    var rs := ReadingsOf(ticks, hash(imsi));
    IncrementsAreLastAndDrops(rs);
    NoDropsIffMonotone(rs);
    PlusNothingIff(Last(rs), Drops(rs));
    forall i | 0 <= i < |rs| ensures AtMost(rs[i], Increments(rs)) { IncrementsCoverReadings(rs, i); }
  }

  function ResetTicks(h: string, sims: map<string, Sim>): seq<Tick> {
    [Tick([Session(h, 10, 0)], sims), Tick([Session(h, 3, 0)], sims), Tick([Session(h, 8, 0)], sims)]
  }

  /** One reset: readings of 10, 3 and 8 are stored as 15. */
  lemma {:induction false} ResetIsCountedAgain(s: State, hash: Hash, fairUse: bool, sims: map<string, Sim>,
      imsi: string)
    requires Unseen(s, hash, imsi) && imsi != "" && imsi in sims
    ensures var ticks := ResetTicks(hash(imsi), sims);
      && ReadingsOf(ticks, hash(imsi)) == [Point(10, 0), Point(3, 0), Point(8, 0)]
      && BytesOf(After(s, hash, fairUse, ticks), imsi) == Point(15, 0)
  {
    hide After, Unseen, BytesOf, ReadingsOf, Increments;
    StoredIsIncrements(s, hash, fairUse, ResetTicks(hash(imsi), sims), imsi);
    ResetReadings(hash(imsi), sims);
    ResetIncrements();
  }

  lemma {:induction false} ResetReadings(h: string, sims: map<string, Sim>)
    ensures ReadingsOf(ResetTicks(h, sims), h) == [Point(10, 0), Point(3, 0), Point(8, 0)]
  {
    hide ReadingsOf, Readings;
    var a, b, c := Session(h, 10, 0), Session(h, 3, 0), Session(h, 8, 0);
    NothingRead(h);
    OneMoreReading([], a, sims);
    OneMoreReading([] + [Tick([a], sims)], b, sims);
    OneMoreReading([] + [Tick([a], sims)] + [Tick([b], sims)], c, sims);
    assert ResetTicks(h, sims) == [] + [Tick([a], sims)] + [Tick([b], sims)] + [Tick([c], sims)];
  }

  lemma {:induction false} ResetIncrements()
    ensures Increments([Point(10, 0), Point(3, 0), Point(8, 0)]) == Point(15, 0)
  {
    hide Increments;
    NothingRead("");
    OneMoreIncrement([], Point(10, 0));
    OneMoreIncrement([] + [Point(10, 0)], Point(3, 0));
    OneMoreIncrement([] + [Point(10, 0)] + [Point(3, 0)], Point(8, 0));
    assert [Point(10, 0), Point(3, 0), Point(8, 0)] == [] + [Point(10, 0)] + [Point(3, 0)] + [Point(8, 0)];
  }

  lemma NothingRead(h: string)
    ensures ReadingsOf([], h) == [] && Increments([]) == ZERO
  {
  }

  lemma OneMoreReading(ticks: seq<Tick>, session: Session, sims: map<string, Sim>)
    ensures ReadingsOf(ticks + [Tick([session], sims)], session.imsiHash)
         == ReadingsOf(ticks, session.imsiHash) + [Point(session.up, session.dn)]
  {
    OneReading(session);
    assert (ticks + [Tick([session], sims)])[..|ticks|] == ticks;
  }

  lemma OneMoreIncrement(rs: seq<Point>, p: Point)
    ensures Increments(rs + [p]) == Plus(Increments(rs), Delta(Last(rs), p))
  {
    assert (rs + [p])[..|rs|] == rs;
  }

  lemma {:induction false} OneReading(session: Session)
    ensures Readings([session]) == map[session.imsiHash := Point(session.up, session.dn)]
  {
    assert [session][..0] == [];
  }

  /** What the sessions of one hash report together. */
  function SumUp(sessions: seq<Session>, h: string): nat {
    if sessions == [] then 0 else (if sessions[0].imsiHash == h then sessions[0].up else 0) + SumUp(sessions[1..], h)
  }

  function SumDn(sessions: seq<Session>, h: string): nat {
    if sessions == [] then 0 else (if sessions[0].imsiHash == h then sessions[0].dn else 0) + SumDn(sessions[1..], h)
  }

  lemma {:induction false} SumsAppend(a: seq<Session>, b: seq<Session>, h: string)
    ensures SumUp(a + b, h) == SumUp(a, h) + SumUp(b, h) && SumDn(a + b, h) == SumDn(a, h) + SumDn(b, h)
  {
    if a == [] {
      assert a + b == b;
    } else {
      assert (a + b)[1..] == a[1..] + b;
      SumsAppend(a[1..], b, h);
    }
  }

  /** A hash is read exactly if some session reports it, and its reading is the sum over those that do. */
  lemma {:induction false} ReadingIsSum(sessions: seq<Session>, h: string)
    ensures h in Readings(sessions) <==> exists k :: 0 <= k < |sessions| && sessions[k].imsiHash == h
    ensures PointOf(Readings(sessions), h) == Point(SumUp(sessions, h), SumDn(sessions, h))
  {
    if sessions != [] {
      var init, last := sessions[..|sessions| - 1], sessions[|sessions| - 1];
      ReadingIsSum(init, h);
      assert forall k :: 0 <= k < |init| ==> init[k] == sessions[k];
      assert last == sessions[|init|];
      assert sessions == init + [last];
      SumsAppend(init, [last], h);
      assert [last][1..] == [];
    }
  }

  // ---- quotas ----

  /** No usable SIM has met its quota. */
  ghost predicate QuotasHold(s: State) {
    forall imsi <- s.sims :: WithinQuota(s, imsi)
  }

  predicate WithinQuota(s: State, imsi: string)
    requires imsi in s.sims
  {
    var q, b := s.sims[imsi].quota, BytesOf(s, imsi);
    q != 0 && b.up + b.dn >= q ==> !Usable(s.sims[imsi].status)
  }

  /** With fair use on, a SIM whose usage grew to its quota or beyond leaves the fold unusable. */
  lemma GrownPastQuotaIsUnusable(s: State, hash: Hash, imsi: string)
    requires imsi in s.sims && Growth(s, hash, imsi) != ZERO
    ensures var t := Accumulated(s, hash, true);
      imsi in t.sims && t.sims[imsi].quota == s.sims[imsi].quota && WithinQuota(t, imsi)
  {
    hide Growth;
  }

  datatype Action = Poll(sessions: seq<Session>) | Fold

  function Act(s: State, hash: Hash, a: Action): State {
    match a case Poll(sessions) => Collected(s, hash, sessions) case Fold => Accumulated(s, hash, true)
  }

  function AfterActions(s: State, hash: Hash, actions: seq<Action>): State {
    if actions == [] then s
    else Act(AfterActions(s, hash, actions[..|actions| - 1]), hash, actions[|actions| - 1])
  }

  lemma FoldKeepsQuotas(s: State, hash: Hash)
    requires QuotasHold(s)
    ensures QuotasHold(Accumulated(s, hash, true))
  {
    hide Growth;
    var t := Accumulated(s, hash, true);
    forall imsi | imsi in t.sims ensures WithinQuota(t, imsi) {
      if Growth(s, hash, imsi) != ZERO {
        GrownPastQuotaIsUnusable(s, hash, imsi);
      } else {
        assert WithinQuota(s, imsi) && BytesOf(t, imsi) == BytesOf(s, imsi);
      }
    }
  }

  lemma PollKeepsQuotas(s: State, hash: Hash, sessions: seq<Session>)
    requires QuotasHold(s)
    ensures QuotasHold(Collected(s, hash, sessions))
  {
    var t := Collected(s, hash, sessions);
    forall imsi | imsi in t.sims ensures WithinQuota(t, imsi) {
      assert WithinQuota(s, imsi) && BytesOf(t, imsi) == BytesOf(s, imsi);
    }
  }

  /**
   Fair use over whole runs: from a store in which no usable SIM has met its quota, no series of
   polls and folds ever leads to one, and a SIM once suspended stays suspended.
   */
  lemma {:induction false} NoUsableSimPastQuota(s: State, hash: Hash, actions: seq<Action>)
    requires QuotasHold(s)
    ensures var t := AfterActions(s, hash, actions);
      && QuotasHold(t) && t.sims.Keys == s.sims.Keys
      && (forall imsi <- s.sims :: s.sims[imsi].status == Suspended ==> t.sims[imsi].status == Suspended)
  {
    hide QuotasHold, Growth;
    if actions != [] {
      var init := actions[..|actions| - 1];
      NoUsableSimPastQuota(s, hash, init);
      match actions[|actions| - 1]
      case Poll(sessions) => PollKeepsQuotas(AfterActions(s, hash, init), hash, sessions);
      case Fold => FoldKeepsQuotas(AfterActions(s, hash, init), hash);
    }
  }
}
