/**
 When a reorder window gets going again (core/hydra/reorder/reorder.go): after a gap the timer gave up,
 and after the sender restarted from low numbers.
 */
module ReorderLiveness {
  import opened Wrappers
  import opened Reorder
  import opened ReorderSteps
  import opened ReorderRuns
  import opened ReorderRefinement

  lemma {:induction false} LogOnlyGrows(r: Run, events: seq<Event>)
    ensures |r.log| <= |Continue(r, events).log|
    ensures Continue(r, events).log[..|r.log|] == r.log
  {
    hide Step;
    if events != [] {
      var mid := Continue(r, events[..|events| - 1]);
      LogOnlyGrows(r, events[..|events| - 1]);
      assert Continue(r, events).log[..|mid.log|] == mid.log;
    }
  }

  // ---- a gap that is given up ----

  /** The push on which the timer fires delivers iff its packet is new and within a window of the lowest one. */
  lemma {:induction false} FiringPushIff(s: State, a: Arrival)
    requires Inv(s) && GapExpired(s, a.checkedAt)
    ensures var o, lowest := Step(s, a), Least(s.slots.Keys);
      o.batch != [] <==> lowest < a.number < lowest + s.window && a.number !in s.slots
  {
    GapSkipLandsOnBuffered(Count(s), a.checkedAt);
    GapSkipReadiesHead(s, a);
    StepFacts(s, a);
  }

  /**
   A stream that arrives in ascending order resumes after a loss if and only if the packet on which the
   timer fires is within a window of the lowest buffered one.  Otherwise that packet is dropped, the timer
   is not set again, and nothing is ever delivered any more.
   */
  lemma {:induction false} AscendingStreamResumesIff(r: Run, a: Arrival, events: seq<Event>)
    requires Inv(r.state) && GapExpired(r.state, a.checkedAt)
    requires forall k <- r.state.slots :: k < a.number
    requires forall e <- events :: e.Arrive? ==> a.number <= e.arrival.number
    ensures var t := Continue(Advance(r, Arrive(a)), events);
      t.log != r.log <==> a.number < Least(r.state.slots.Keys) + r.state.window
  {
    hide Recover, Settle;
    var s, o, lowest := r.state, Step(r.state, a), Least(r.state.slots.Keys);
    var mid := Advance(r, Arrive(a));
    assert lowest in s.slots;
    FiringPushIff(s, a);
    GapSkipReadiesHead(s, a);
    StepFacts(s, a);
    if o.batch != [] {
      LogOnlyGrows(mid, events);
    } else {
      assert mid.log == r.log;
      HeadIsReleasedFirst(mid, events);
      assert forall e <- events :: !Admits(mid.state, e);
    }
  }

  /** A window of two with packet 1 lost: packets 2, 3 and 4, and then whatever comes above them. */
  function LossyStart(payload: Payload): seq<Event> {
    [SetTimeout(10), Arrive(Arrival(2, payload, 0, 0)), Arrive(Arrival(3, payload, 5, 5))]
  }

  lemma {:induction false} Starting(payload: Payload)
    ensures var r := Execute(2, 1, LossyStart(payload));
      && r.log == [] && r.state.slots == map[2 := payload] && r.state.next == 1 && r.state.window == 2
      && r.state.gapTimeout == 10 && r.state.gapSince == Some(0) && Inv(r.state)
  {
    var e := LossyStart(payload);
    assert e[..1][..0] == [] && e[..2][..1] == e[..1] && e[..3][..2] == e[..2] && e[..3] == e;
    var r0 := Begin(2, 1);
    var r1 := Advance(r0, e[0]);
    var r2 := Advance(r1, e[1]);
    var r3 := Advance(r2, e[2]);
    assert Continue(r0, e[..0]) == r0;
    assert Continue(r0, e[..1]) == r1;
    assert Continue(r0, e[..2]) == r2;
    assert Continue(r0, e) == r3;
    var held := Insert(Count(r1.state), e[1].arrival);
    RunEndUnique(held.slots, 1, 1);
    assert Step(r1.state, e[1].arrival) == Outcome(held, 1, []);
    assert r2.log == [] + Numbered(1, []) == [];
    assert r3.log == [] + Numbered(1, []) == [];
    ContinueGood(r0, e, 1);
  }

  /** One packet lost, and the stream stalls forever. */
  lemma {:induction false} OneLossStallsForever(payload: Payload, events: seq<Event>)
    requires forall e <- events :: e.Arrive? ==> 4 <= e.arrival.number
    ensures Continue(Execute(2, 1, LossyStart(payload) + [Arrive(Arrival(4, payload, 20, 20))]), events).log == []
  {
    hide Continue, Step;
    var start, a := LossyStart(payload), Arrival(4, payload, 20, 20);
    Starting(payload);
    var r := Execute(2, 1, start);
    OneMore(Begin(2, 1), start, Arrive(a));
    AscendingStreamResumesIff(r, a, events);
  }

  lemma {:induction false} OneMore(r: Run, events: seq<Event>, e: Event)
    ensures Continue(r, events + [e]) == Advance(Continue(r, events), e)
  {
    hide Step;
    assert (events + [e])[..|events|] == events;
  }

  // ---- a sender that starts over ----

  function Arrivals(events: seq<Event>): nat {
    if events == [] then 0 else Arrivals(events[..|events| - 1]) + if events[|events| - 1].Arrive? then 1 else 0
  }

  /** `n` stale packets after `r` nothing was delivered, and if nothing is buffered they were counted. */
  ghost predicate Waits(r: Run, t: Run, n: nat) {
    && Inv(t.state) && t.log == r.log && t.state.slots == r.state.slots && r.state.next <= t.state.next
    && (r.state.slots == map[] ==> t.state.staleRun == r.state.staleRun + n && t.state.next == r.state.next)
  }

  lemma {:induction false} StalePush(s: State, a: Arrival)
    requires Inv(s) && a.number < s.next
    ensures var o := Step(s, a);
      if s.slots == map[] && s.staleRun + 1 >= RESYNC_AFTER then o.batch == [a.payload] && o.first == a.number
      else
        && o.batch == [] && o.state.slots == s.slots && s.next <= o.state.next
        && (s.slots == map[] ==> o.state.staleRun == s.staleRun + 1 && o.state.next == s.next)
  {
    StepFacts(s, a);
    if s.slots == map[] && s.staleRun + 1 >= RESYNC_AFTER {
      var held := Insert(Align(Count(s), a.number), a);
      RunEndUnique(held.slots, a.number, a.number + 1);
      assert Step(s, a) == Drain(held);
    }
  }

  lemma {:induction false} WaitsOn(r: Run, t: Run, n: nat, e: Event)
    requires Waits(r, t, n) && (e.Arrive? ==> e.arrival.number < r.state.next)
    ensures var u := Advance(t, e);
      if e.Arrive? && r.state.slots == map[] && r.state.staleRun + n + 1 >= RESYNC_AFTER then
        u.log == r.log + [Delivery(e.arrival.number, e.arrival.payload)]
      else Waits(r, u, if e.Arrive? then n + 1 else n)
  {
    if e.Arrive? {
      StalePush(t.state, e.arrival);
      StepFacts(t.state, e.arrival);
      var o := Step(t.state, e.arrival);
      if o.batch == [] {
        assert Advance(t, e).log == t.log;
      } else {
        assert Numbered(o.first, o.batch) == [Delivery(e.arrival.number, e.arrival.payload)];
      }
    }
  }

  lemma {:induction false} StaleRun(r: Run, events: seq<Event>)
    requires Inv(r.state) && forall e <- events :: e.Arrive? ==> e.arrival.number < r.state.next
    ensures var t := Continue(r, events);
      if r.state.slots == map[] && r.state.staleRun + Arrivals(events) >= RESYNC_AFTER then |t.log| > |r.log|
      else Waits(r, t, Arrivals(events))
  {
    hide Step, Waits;
    if events == [] {
      assert Waits(r, r, 0) by { WaitsAtFirst(r); }
    } else {
      var init, e := events[..|events| - 1], events[|events| - 1];
      assert e in events && forall x <- init :: x in events;
      StaleRun(r, init);
      if r.state.slots == map[] && r.state.staleRun + Arrivals(init) >= RESYNC_AFTER {
        LogOnlyGrows(Continue(r, init), [e]);
        OneMore(Continue(r, init), [], e);
      } else {
        WaitsOn(r, Continue(r, init), Arrivals(init), e);
      }
    }
  }

  lemma {:induction false} WaitsAtFirst(r: Run)
    requires Inv(r.state)
    ensures Waits(r, r, 0)
  {
  }

  /**
   A sender that starts over below the expected number is heard again if and only if nothing is buffered
   and its packets fill the stale run up to the limit; with anything buffered, however many arrive and
   whatever the timer does, none is ever delivered.
   */
  lemma {:induction false} RestartRecoversIff(r: Run, events: seq<Event>)
    requires Inv(r.state) && forall e <- events :: e.Arrive? ==> e.arrival.number < r.state.next
    ensures Continue(r, events).log != r.log
      <==> r.state.slots == map[] && r.state.staleRun + Arrivals(events) >= RESYNC_AFTER
  {
    hide Continue;
    StaleRun(r, events);
  }

  /** The packet that fills the run is itself the first to be delivered. */
  lemma {:induction false} RestartDelivers(r: Run, events: seq<Event>, a: Arrival)
    requires Inv(r.state) && r.state.slots == map[] && a.number < r.state.next
    requires forall e <- events :: e.Arrive? ==> e.arrival.number < r.state.next
    requires r.state.staleRun + Arrivals(events) + 1 == RESYNC_AFTER
    ensures Continue(r, events + [Arrive(a)]).log == r.log + [Delivery(a.number, a.payload)]
  {
    hide Continue, Step;
    StaleRun(r, events);
    OneMore(r, events, Arrive(a));
    WaitsOn(r, Continue(r, events), Arrivals(events), Arrive(a));
  }
}
