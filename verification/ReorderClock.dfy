/**
 The gap clock of a reorder window (core/hydra/reorder/reorder.go), read off the history: since when the
 window has been waiting for a missing number, and when it gives up.
 */
module ReorderClock {
  import opened Wrappers
  import opened Reorder
  import opened ReorderSteps
  import opened ReorderRuns

  /** The timeout set last; there is none at first. */
  function TimeoutSet(events: seq<Event>): int {
    if events == [] then 0
    else match events[|events| - 1] case SetTimeout(d) => d case Arrive(_) => TimeoutSet(events[..|events| - 1])
  }

  /** The push released something. */
  ghost predicate Releases(window: nat, start: nat, events: seq<Event>)
    requires events != []
  {
    |Execute(window, start, events).log| > |Execute(window, start, events[..|events| - 1]).log|
  }

  /** The push gave up a gap: numbers were skipped. */
  ghost predicate GivesUp(window: nat, start: nat, events: seq<Event>)
    requires events != []
  {
    Execute(window, start, events).state.stats.skipped
    > Execute(window, start, events[..|events| - 1]).state.stats.skipped
  }

  /** The push left its packet in the buffer, where it was not before. */
  ghost predicate Keeps(window: nat, start: nat, events: seq<Event>, number: nat)
    requires events != []
  {
    && number in Execute(window, start, events).state.slots
    && number !in Execute(window, start, events[..|events| - 1]).state.slots
  }

  /** When the first packet was kept since the last release, the last gap given up, or the start. */
  ghost function GapBegan(window: nat, start: nat, events: seq<Event>): Option<int> {
    if events == [] then None
    else
      var before := GapBegan(window, start, events[..|events| - 1]);
      match events[|events| - 1]
      case SetTimeout(_) => before
      case Arrive(a) =>
        if Releases(window, start, events) then None
        else
          var still := if GivesUp(window, start, events) then None else before;
          if Keeps(window, start, events, a.number) && still.None? then Some(a.stampedAt) else still
  }

  /** What one push does to the clock. */
  lemma {:induction false} ClockStep(s: State, a: Arrival)
    requires Inv(s)
    ensures var o := Step(s, a);
      var fired := o.state.stats.skipped > s.stats.skipped;
      var still := if fired then None else s.gapSince;
      && (fired <==> GapExpired(s, a.checkedAt))
      && o.state.gapSince ==
           if o.batch != [] then None
           else if a.number in o.state.slots && a.number !in s.slots && still.None? then Some(a.stampedAt)
           else still
  {
    GapSkipLandsOnBuffered(Count(s), a.checkedAt);
    StepFacts(s, a);
    var met := Recover(Count(s), a.checkedAt);
    assert Step(s, a).state.stats.skipped == met.stats.skipped;
  }

  /** In every run the clock shows when the open gap began, and the timeout is the one set last. */
  lemma {:induction false} ClockIsHistory(window: nat, start: nat, events: seq<Event>)
    ensures var s := Execute(window, start, events).state;
      s.gapSince == GapBegan(window, start, events) && s.gapTimeout == TimeoutSet(events)
  {
    hide Step;
    if events != [] {
      var init, e := events[..|events| - 1], events[|events| - 1];
      ClockIsHistory(window, start, init);
      ContinueGood(Begin(window, start), init, start);
      if e.Arrive? {
        ClockStep(Execute(window, start, init).state, e.arrival);
        StepFacts(Execute(window, start, init).state, e.arrival);
      }
    }
  }

  /**
   In every run a push gives up the open gap if and only if a timeout is set, something is buffered, and
   more than the timeout has passed since the gap began.
   */
  lemma {:induction false} GivesUpIff(window: nat, start: nat, events: seq<Event>, a: Arrival)
    ensures var s := Execute(window, start, events).state;
      var began := GapBegan(window, start, events);
      GivesUp(window, start, events + [Arrive(a)]) <==>
        && TimeoutSet(events) > 0 && s.slots != map[]
        && began.Some? && a.checkedAt - began.value > TimeoutSet(events)
  {
    hide Step;
    var all := events + [Arrive(a)];
    assert all[..|events|] == events;
    ClockIsHistory(window, start, events);
    ContinueGood(Begin(window, start), events, start);
    ClockStep(Execute(window, start, events).state, a);
  }

  // ---- what a push counts ----

  /** The position a push is judged at: the lowest buffered number if it gives up the gap, else the expected one. */
  ghost function JudgedAt(s: State, a: Arrival): nat {
    var t := Step(s, a).state;
    if t.stats.skipped > s.stats.skipped then s.next + (t.stats.skipped - s.stats.skipped) else s.next
  }

  /** Kept is what lies in the window and is new, and the 64th stale packet in a row with nothing buffered. */
  ghost predicate IsKept(s: State, a: Arrival) {
    var base := JudgedAt(s, a);
    (base <= a.number < base + s.window && a.number !in s.slots)
    || (a.number < base && s.slots == map[] && s.staleRun == 63)
  }

  /** Every push counts once: as kept, too far or duplicate; and the depth is taken before anything is released. */
  lemma {:induction false} PushCounts(s: State, a: Arrival)
    requires Inv(s)
    ensures var before, after, base := s.stats, Step(s, a).state.stats, JudgedAt(s, a);
      && after.received == before.received + 1
      && after.tooFar == before.tooFar + (if a.number >= base + s.window then 1 else 0)
      && after.duplicates == before.duplicates + (if !IsKept(s, a) && a.number < base + s.window then 1 else 0)
      && after.resyncs == before.resyncs + (if IsKept(s, a) && a.number < base then 1 else 0)
      && after.reordered == before.reordered + (if IsKept(s, a) && a.number > base then 1 else 0)
      && after.maxDepth == (if IsKept(s, a) && |s.slots| + 1 > before.maxDepth then |s.slots| + 1 else before.maxDepth)
  {
    GapSkipLandsOnBuffered(Count(s), a.checkedAt);
    var met := Recover(Count(s), a.checkedAt);
    assert Step(s, a).state.stats.skipped == met.stats.skipped && JudgedAt(s, a) == met.next;
    hide Recover;
    CountsAt(met, a);
  }

  lemma {:induction false} CountsAt(met: State, a: Arrival)
    requires met.staleRun < 64
    ensures var after := Settle(met, a).state.stats;
      var kept := (met.next <= a.number < met.next + met.window && a.number !in met.slots)
        || (a.number < met.next && met.slots == map[] && met.staleRun == 63);
      && after.received == met.stats.received && after.skipped == met.stats.skipped
      && after.tooFar == met.stats.tooFar + (if a.number >= met.next + met.window then 1 else 0)
      && after.duplicates == met.stats.duplicates + (if !kept && a.number < met.next + met.window then 1 else 0)
      && after.resyncs == met.stats.resyncs + (if kept && a.number < met.next then 1 else 0)
      && after.reordered == met.stats.reordered + (if kept && a.number > met.next then 1 else 0)
      && after.maxDepth == if kept && |met.slots| + 1 > met.stats.maxDepth then |met.slots| + 1 else met.stats.maxDepth
  {
  }

  // ---- two runs ----

  lemma {:induction false} OneMore(window: nat, start: nat, events: seq<Event>, e: Event)
    ensures Execute(window, start, events + [e]) == Advance(Execute(window, start, events), e)
  {
    hide Step;
    assert (events + [e])[..|events|] == events;
  }

  /** An early packet is kept, and the clock runs from the first. */
  lemma {:induction false} KeptEarly(s: State, a: Arrival)
    requires Inv(s) && !GapExpired(s, a.checkedAt) && s.next !in s.slots
    requires s.next < a.number < s.next + s.window && a.number !in s.slots
    ensures var o := Step(s, a);
      && o.batch == [] && o.first == s.next && o.state.next == s.next && o.state.window == s.window
      && o.state.slots == s.slots[a.number := a.payload] && o.state.gapTimeout == s.gapTimeout
      && o.state.gapSince == if s.gapSince.None? then Some(a.stampedAt) else s.gapSince
  {
    var held := Insert(Count(s), a);
    RunEndUnique(held.slots, s.next, s.next);
    assert Step(s, a) == Outcome(held, s.next, []);
  }

  /** Packets 2, 3 and 4 arrive with packet 1 lost, the last of them 16 after the first. */
  function LossRun(p: seq<Payload>): seq<Event>
    requires |p| == 3
  {
    [SetTimeout(10), Arrive(Arrival(2, p[0], 0, 0)), Arrive(Arrival(3, p[1], 8, 8)), Arrive(Arrival(4, p[2], 16, 16))]
  }

  lemma {:induction false} LossRunStart(p: seq<Payload>)
    requires |p| == 3
    ensures var r := Execute(4096, 1, LossRun(p)[..3]);
      && r.log == [] && r.state.next == 1 && r.state.window == 4096 && r.state.gapTimeout == 10
      && r.state.gapSince == Some(0) && r.state.slots == map[2 := p[0], 3 := p[1]] && Inv(r.state)
  {
    hide Step;
    var e := LossRun(p);
    OneMore(4096, 1, [], e[0]);
    OneMore(4096, 1, [e[0]], e[1]);
    OneMore(4096, 1, [e[0], e[1]], e[2]);
    assert [] + [e[0]] == [e[0]] && [e[0]] + [e[1]] == [e[0], e[1]] && [e[0], e[1]] + [e[2]] == e[..3];
    ContinueGood(Begin(4096, 1), [e[0]], 1);
    ContinueGood(Begin(4096, 1), [e[0], e[1]], 1);
    ContinueGood(Begin(4096, 1), e[..3], 1);
    KeptEarly(Execute(4096, 1, [e[0]]).state, e[1].arrival);
    KeptEarly(Execute(4096, 1, [e[0], e[1]]).state, e[2].arrival);
  }

  /** The clock counts from the first early packet, so the third is released with the others. */
  lemma {:induction false} ClockKeepsFirst(p: seq<Payload>)
    requires |p| == 3
    ensures Execute(4096, 1, LossRun(p)).log == [Delivery(2, p[0]), Delivery(3, p[1]), Delivery(4, p[2])]
  {
    hide Step;
    var e := LossRun(p);
    LossRunStart(p);
    OneMore(4096, 1, e[..3], e[3]);
    assert e[..3] + [e[3]] == e;
    Fires(Execute(4096, 1, e[..3]).state, e[3].arrival, p);
  }

  lemma {:induction false} Fires(s: State, a: Arrival, p: seq<Payload>)
    requires Inv(s) && |p| == 3 && s.next == 1 && s.window == 4096 && s.gapTimeout == 10 && s.gapSince == Some(0)
    requires s.slots == map[2 := p[0], 3 := p[1]] && a == Arrival(4, p[2], 16, 16)
    ensures Step(s, a).first == 2 && Step(s, a).batch == p
  {
    hide Settle, Inv;
    var met := Recover(Count(s), a.checkedAt);
    LeastOfTwo(s, p);
    assert met.next == 2 && met.slots == s.slots && met.window == 4096;
    hide Recover;
    Drains(met, a, p);
  }

  lemma {:induction false} LeastOfTwo(s: State, p: seq<Payload>)
    requires |p| == 3 && s.slots == map[2 := p[0], 3 := p[1]]
    ensures s.slots.Keys != {} && Least(s.slots.Keys) == 2
  {
    assert s.slots.Keys == {2, 3};
  }

  lemma {:induction false} Drains(s: State, a: Arrival, p: seq<Payload>)
    requires |p| == 3 && s.next == 2 && s.window == 4096
    requires s.slots == map[2 := p[0], 3 := p[1]] && a == Arrival(4, p[2], 16, 16)
    ensures Settle(s, a).first == 2 && Settle(s, a).batch == p
  {
    var held := Insert(s, a);
    RunEndUnique(held.slots, 2, 5);
    assert Settle(s, a) == Drain(held);
    assert Released(held.slots, 2, 5) == p;
  }

  /** Packet 3 waits for 2 from time 0 on; 1 is released at time 1. */
  function SecondGap(p: seq<Payload>): seq<Event>
    requires |p| == 3
  {
    [SetTimeout(10), Arrive(Arrival(3, p[0], 0, 0)), Arrive(Arrival(1, p[1], 1, 1)), Arrive(Arrival(4, p[2], 100, 100))]
  }

  /** A release stops the clock although packet 2 is still missing: 99 later it has only begun to be waited for. */
  lemma {:induction false} ReleaseStopsClock(p: seq<Payload>)
    requires |p| == 3
    ensures var r := Execute(4096, 1, SecondGap(p));
      && r.log == [Delivery(1, p[1])] && r.state.slots == map[3 := p[0], 4 := p[2]] && r.state.next == 2
      && GapBegan(4096, 1, SecondGap(p)) == Some(100)
  {
    hide Step, Inv, GapBegan;
    var e := SecondGap(p);
    SecondGapStart(p);
    OneMore(4096, 1, e[..3], e[3]);
    assert e[..3] + [e[3]] == e;
    KeptEarly(Execute(4096, 1, e[..3]).state, e[3].arrival);
    ClockIsHistory(4096, 1, e);
  }

  lemma {:induction false} SecondGapStart(p: seq<Payload>)
    requires |p| == 3
    ensures var r := Execute(4096, 1, SecondGap(p)[..3]);
      && r.log == [Delivery(1, p[1])] && r.state.slots == map[3 := p[0]] && r.state.next == 2
      && r.state.gapSince == None && r.state.window == 4096 && r.state.gapTimeout == 10 && Inv(r.state)
  {
    hide Step, Inv, GapBegan;
    var e := SecondGap(p);
    BeginGood();
    OneMore(4096, 1, [], e[0]);
    OneMore(4096, 1, [e[0]], e[1]);
    OneMore(4096, 1, [e[0], e[1]], e[2]);
    assert [] + [e[0]] == [e[0]] && [e[0]] + [e[1]] == [e[0], e[1]] && [e[0], e[1]] + [e[2]] == e[..3];
    ContinueGood(Begin(4096, 1), [e[0]], 1);
    ContinueGood(Begin(4096, 1), [e[0], e[1]], 1);
    ContinueGood(Begin(4096, 1), e[..3], 1);
    KeptEarly(Execute(4096, 1, [e[0]]).state, e[1].arrival);
    FillsFirst(Execute(4096, 1, [e[0], e[1]]).state, e[2].arrival, p[0]);
    assert Numbered(1, [p[1]]) == [Delivery(1, p[1])];
  }

  lemma {:induction false} BeginGood()
    ensures Good(Begin(4096, 1), 1)
  {
  }

  lemma {:induction false} FillsFirst(s: State, a: Arrival, p: Payload)
    requires Inv(s) && s.next == 1 && s.window == 4096 && s.gapTimeout == 10 && s.gapSince == Some(0)
    requires s.slots == map[3 := p] && a.number == 1 && a.checkedAt == 1
    ensures var o := Step(s, a);
      && o.batch == [a.payload] && o.first == 1 && o.state.slots == map[3 := p] && o.state.next == 2
      && o.state.gapSince == None && o.state.window == 4096 && o.state.gapTimeout == 10
  {
    var held := Insert(Count(s), a);
    RunEndUnique(held.slots, 1, 2);
    assert Step(s, a) == Drain(held);
    assert Without(held.slots, 1, 2) == map[3 := p];
  }
}
