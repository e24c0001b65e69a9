/** What a single push does to a reorder window, whichever branch it takes. */
module ReorderSteps {
  import opened Wrappers
  import opened Reorder

  /** Holds of every window between two calls. */
  ghost predicate Inv(s: State) {
    && 0 < s.window
    && (forall k <- s.slots :: s.next <= k < s.next + s.window)
    && s.stats.maxDepth <= s.window
    && s.staleRun < RESYNC_AFTER
    && (s.gapSince.Some? ==> s.slots != map[] && s.next !in s.slots)
  }

  function Ledger(s: State): nat {
    s.stats.delivered + s.stats.duplicates + s.stats.tooFar + |s.slots|
  }

  lemma {:induction false} IntervalSize(keys: set<nat>, lo: nat, width: nat)
    requires forall k <- keys :: lo <= k < lo + width
    ensures |keys| <= width
  {
    if width == 0 {
      if k :| k in keys { assert false; }
    } else {
      var top := lo + width - 1;
      IntervalSize(keys - {top}, lo, width - 1);
      assert keys <= (keys - {top}) + {top};
    }
  }

  lemma DepthBounded(s: State)
    requires Inv(s)
    ensures |s.slots| <= s.window
  {
    IntervalSize(s.slots.Keys, s.next, s.window);
  }

  lemma {:induction false} WithoutSize(slots: map<nat, Payload>, next: nat, end: nat)
    requires next <= end && forall k :: next <= k < end ==> k in slots
    ensures |Without(slots, next, end)| == |slots| - (end - next)
    decreases end - next
  {
    if next == end {
      assert Without(slots, next, end) == slots;
    } else {
      assert next in slots;
      assert (slots - {next}).Keys == slots.Keys - {next};
      WithoutSize(slots - {next}, next + 1, end);
      assert Without(slots - {next}, next + 1, end) == Without(slots, next, end);
    }
  }

  // ---- the gap timer ----

  /**
   The gap timer is sound: when it fires there is something buffered and the expected number is
   missing, so the skip is strictly positive and lands exactly on the lowest buffered packet.
   */
  lemma GapSkipLandsOnBuffered(s: State, now: int)
    requires Inv(s)
    ensures var r := Recover(s, now);
      && r.gapSince.None? == (s.gapSince.None? || GapExpired(s, now))
      && (GapExpired(s, now) ==>
            && s.next < r.next && r.next in s.slots
            && (forall k <- s.slots :: r.next <= k)
            && r.stats == s.stats.(skipped := s.stats.skipped + (r.next - s.next)))
      && (!GapExpired(s, now) ==> r == s)
  {
    if GapExpired(s, now) {
      assert s.slots.Keys != {};
      var lowest := Least(s.slots.Keys);
      assert lowest in s.slots && lowest != s.next;
    }
  }

  lemma RecoverFacts(s: State, now: int)
    requires Inv(s)
    ensures var r := Recover(s, now);
      && Inv(r) && r.slots == s.slots && r.window == s.window && r.staleRun == s.staleRun
      && s.next <= r.next && r.next - s.next == r.stats.skipped - s.stats.skipped
      && (s.slots == map[] ==> r == s)
      && r.stats == s.stats.(skipped := r.stats.skipped)
  {
    GapSkipLandsOnBuffered(s, now);
    if GapExpired(s, now) {
      assert Least(s.slots.Keys) in s.slots;
    }
  }

  // ---- insertion and release ----

  /** The batch is what the window holds from `first` on. */
  ghost predicate Carries(held: map<nat, Payload>, first: nat, batch: seq<Payload>) {
    forall i :: 0 <= i < |batch| ==> first + i in held && batch[i] == held[first + i]
  }

  lemma DrainFacts(s: State)
    requires 0 < s.window && s.slots != map[]
    requires forall k <- s.slots :: s.next <= k < s.next + s.window
    requires s.stats.maxDepth <= s.window && s.staleRun < RESYNC_AFTER
    ensures var o := Drain(s);
      && Inv(o.state) && o.state.window == s.window
      && o.first == s.next && o.state.next == s.next + |o.batch|
      && Ledger(o.state) == Ledger(s)
      && o.state.stats == s.stats.(delivered := s.stats.delivered + |o.batch|)
      && (o.batch == [] <==> s.next !in s.slots)
      && (o.batch == [] ==> o.state == s)
      && Carries(s.slots, s.next, o.batch)
      && o.state.slots == Without(s.slots, s.next, o.state.next)
  {
    var end := RunEnd(s.slots, s.next);
    if end != s.next {
      assert s.next in s.slots;
      WithoutSize(s.slots, s.next, end);
    } else {
      assert Without(s.slots, s.next, end) == s.slots;
    }
  }

  lemma InsertFacts(s: State, a: Arrival)
    requires Inv(s)
    requires s.next <= a.number < s.next + s.window && a.number !in s.slots
    ensures var t := Insert(s, a);
      && t.slots == s.slots[a.number := a.payload] && t.slots != map[]
      && t.next == s.next && t.window == s.window
      && (forall k <- t.slots :: s.next <= k < s.next + s.window)
      && t.stats.maxDepth <= s.window && t.staleRun < RESYNC_AFTER
      && Ledger(t) == Ledger(s) + 1
      && t.stats.received == s.stats.received && t.stats.delivered == s.stats.delivered
      && t.stats.skipped == s.stats.skipped && t.stats.resyncs == s.stats.resyncs
      && t.stats.tooFar == s.stats.tooFar && t.stats.duplicates == s.stats.duplicates
  {
    var t := Insert(s, a);
    assert a.number in t.slots;
    IntervalSize(t.slots.Keys, s.next, s.window);
  }

  /** How far a push moved `next` back. */
  ghost function Rewind(s: State, a: Arrival): nat {
    var met := Recover(Count(s), a.checkedAt);
    if Judge(met, a.number) == Resync then met.next - a.number else 0
  }

  ghost predicate Resyncs(s: State, a: Arrival) {
    Judge(Recover(Count(s), a.checkedAt), a.number) == Resync
  }

  /** Everything later arguments need to know about one push. */
  ghost predicate Facts(s: State, a: Arrival, o: Outcome) {
    var t := o.state;
    var met := Recover(Count(s), a.checkedAt);
    && Inv(t) && t.window == s.window && t.gapTimeout == s.gapTimeout
    && t.stats.received == s.stats.received + 1
    && Ledger(t) == Ledger(s) + 1
    && t.stats.delivered == s.stats.delivered + |o.batch|
    && s.stats.skipped <= t.stats.skipped && s.stats.duplicates <= t.stats.duplicates
    && t.next + Rewind(s, a) == s.next + |o.batch| + (t.stats.skipped - s.stats.skipped)
    && o.first + |o.batch| == t.next
    && t.stats.resyncs == s.stats.resyncs + (if Resyncs(s, a) then 1 else 0)
    && (Resyncs(s, a) ==> s.slots == map[] && o.first == a.number < s.next && o.batch != [])
    && (!Resyncs(s, a) ==> s.next <= o.first == met.next)
    && (o.batch == [] && t.slots == map[] ==> s.slots == map[] && t.next == s.next)
    && t.stats.tooFar == s.stats.tooFar + (if Judge(met, a.number) == TooFar then 1 else 0)
    && (Judge(met, a.number) in {Accept, Resync} ==>
          && a.number !in s.slots
          && t.slots == Without(s.slots[a.number := a.payload], o.first, t.next)
          && Carries(s.slots[a.number := a.payload], o.first, o.batch)
          && t.next !in t.slots
          && (met.next in met.slots || a.number == met.next || Resyncs(s, a) ==> o.batch != []))
    && (Judge(met, a.number) !in {Accept, Resync} ==>
          o.batch == [] && t.slots == s.slots && t.next == met.next && t.gapSince == met.gapSince)
  }

  ghost predicate RejectFacts(met: State, a: Arrival, o: Outcome) {
    var t := o.state;
    && Inv(t) && t == met.(staleRun := t.staleRun, stats := t.stats)
    && t.stats == met.stats.(duplicates := t.stats.duplicates, tooFar := t.stats.tooFar)
    && met.stats.duplicates <= t.stats.duplicates
    && Ledger(t) == Ledger(met) + 1
    && t.stats.tooFar == met.stats.tooFar + (if Judge(met, a.number) == TooFar then 1 else 0)
    && o.first == t.next && o.batch == []
  }

  lemma Rejected(met: State, a: Arrival)
    requires Inv(met) && Judge(met, a.number) !in {Accept, Resync}
    ensures RejectFacts(met, a, Settle(met, a))
  {
  }

  /** What inserting into an aligned window `at` and draining it does. */
  ghost predicate AcceptFacts(at: State, a: Arrival, o: Outcome) {
    var t := o.state;
    var held := at.slots[a.number := a.payload];
    && Inv(t) && t.window == at.window && t.gapTimeout == at.gapTimeout
    && Ledger(t) == Ledger(at) + 1
    && t.stats.received == at.stats.received && t.stats.duplicates == at.stats.duplicates
    && t.stats.delivered == at.stats.delivered + |o.batch|
    && t.stats.skipped == at.stats.skipped
    && t.stats.resyncs == at.stats.resyncs
    && t.stats.tooFar == at.stats.tooFar
    && o.first == at.next && t.next == at.next + |o.batch|
    && a.number !in at.slots
    && t.slots == Without(held, o.first, t.next)
    && Carries(held, o.first, o.batch)
    && t.next !in t.slots
    && (o.batch == [] <==> at.next !in held)
    && (o.batch == [] ==> t.slots != map[])
  }

  lemma Accepted(at: State, a: Arrival)
    requires Inv(at) && at.next <= a.number < at.next + at.window && a.number !in at.slots
    ensures AcceptFacts(at, a, Drain(Insert(at, a)))
  {
    InsertFacts(at, a);
    DrainFacts(Insert(at, a));
  }

  lemma StepFacts(s: State, a: Arrival)
    requires Inv(s)
    ensures Facts(s, a, Step(s, a))
  {
    var counted := Count(s);
    assert Inv(counted) && counted.slots == s.slots;
    RecoverFacts(counted, a.checkedAt);
    var met := Recover(counted, a.checkedAt);
    var o := Step(s, a);
    assert met.gapTimeout == s.gapTimeout;
    match Judge(met, a.number) {
      case Stale => Rejected(met, a); FactsOfReject(s, a, o);
      case TooFar => Rejected(met, a); FactsOfReject(s, a, o);
      case Duplicate => Rejected(met, a); FactsOfReject(s, a, o);
      case Resync =>
        assert s.slots == map[] && met == counted;
        Accepted(Align(met, a.number), a);
        FactsOfAccept(s, a, Align(met, a.number), o);
      case Accept =>
        Accepted(met, a);
        FactsOfAccept(s, a, met, o);
    }
  }

  lemma FactsOfReject(s: State, a: Arrival, o: Outcome)
    requires Inv(s)
    requires var met := Recover(Count(s), a.checkedAt);
      Judge(met, a.number) !in {Accept, Resync} && RejectFacts(met, a, o)
    ensures Facts(s, a, o)
  {
    RecoverFacts(Count(s), a.checkedAt);
  }

  lemma FactsOfAccept(s: State, a: Arrival, at: State, o: Outcome)
    requires Inv(s)
    requires var met := Recover(Count(s), a.checkedAt);
      && Judge(met, a.number) in {Accept, Resync}
      && at == (if Resyncs(s, a) then Align(met, a.number) else met)
      && AcceptFacts(at, a, o)
    ensures Facts(s, a, o)
  {
    RecoverFacts(Count(s), a.checkedAt);
    assert at.slots == s.slots;
    var held := s.slots[a.number := a.payload];
    assert at.slots[a.number := a.payload] == held;
  }
}
