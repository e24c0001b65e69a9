/**
 The reorder window against the simple object it stands for: the least number not yet received.
 Also what happens after the gap timer has fired.
 */
module ReorderRefinement {
  import opened Wrappers
  import opened Reorder
  import opened ReorderSteps
  import opened ReorderRuns

  // ---- the reference object ----

  /** For every number from `start` on that has arrived, the payload it first arrived with. */
  function FirstArrivals(events: seq<Event>, start: nat): map<nat, Payload> {
    if events == [] then map[]
    else
      var before := FirstArrivals(events[..|events| - 1], start);
      match events[|events| - 1]
      case SetTimeout(_) => before
      case Arrive(a) =>
        if a.number < start || a.number in before then before else before[a.number := a.payload]
  }

  ghost predicate IsLeastMissing(next: nat, start: nat, received: map<nat, Payload>) {
    start <= next && next !in received && forall k :: start <= k < next ==> k in received
  }

  function From(received: map<nat, Payload>, next: nat): map<nat, Payload> {
    map k | k in received && next <= k :: received[k]
  }

  function InOrder(received: map<nat, Payload>, start: nat, next: nat): (log: seq<Delivery>)
    requires start <= next && forall k :: start <= k < next ==> k in received
  {
    seq(next - start, i requires 0 <= i < next - start => Delivery(start + i, received[start + i]))
  }

  /** Between these two readings of the counters: no gap skip, no resync and no too-far drop. */
  predicate Undisturbed(before: Stats, after: Stats) {
    before.skipped == after.skipped && before.resyncs == after.resyncs && before.tooFar == after.tooFar
  }

  /** The run took neither the gap skip nor the resync nor the too-far branch. */
  predicate Clean(r: Run) {
    Undisturbed(NO_STATS, r.state.stats)
  }

  ghost predicate Refines(r: Run, start: nat, received: map<nat, Payload>) {
    && (forall k <- received :: start <= k)
    && IsLeastMissing(r.state.next, start, received)
    && r.state.slots == From(received, r.state.next)
    && r.log == InOrder(received, start, r.state.next)
  }

  lemma LogInOrder(received: map<nat, Payload>, start: nat, next: nat, batch: seq<Payload>, log: seq<Delivery>)
    requires start <= next && forall k :: start <= k < next + |batch| ==> k in received
    requires forall i :: 0 <= i < |batch| ==> batch[i] == received[next + i]
    requires log == InOrder(received, start, next)
    ensures log + Numbered(next, batch) == InOrder(received, start, next + |batch|)
  {
    var all := log + Numbered(next, batch);
    forall i | 0 <= i < |all| ensures all[i] == Delivery(start + i, received[start + i]) {
      if |log| <= i {
        var j := i - |log|;
        assert all[i] == Delivery(next + j, batch[j]);
      }
    }
  }

  lemma InsertedRefines(r: Run, start: nat, received: map<nat, Payload>, a: Arrival, t: Run, o: Outcome)
    requires Refines(r, start, received)
    requires a.number !in received && r.state.next <= a.number && o.first == r.state.next
    requires o.first + |o.batch| == t.state.next
    requires t.state.next !in t.state.slots
    requires t.log == r.log + Numbered(o.first, o.batch)
    requires var held := r.state.slots[a.number := a.payload];
      Carries(held, o.first, o.batch) && t.state.slots == Without(held, o.first, t.state.next)
    ensures Refines(t, start, received[a.number := a.payload])
  {
    var now := received[a.number := a.payload];
    assert r.state.slots[a.number := a.payload] == From(now, r.state.next);
    var held := r.state.slots[a.number := a.payload];
    assert Carries(held, o.first, o.batch);
    forall i | 0 <= i < |o.batch| ensures o.first + i in now && o.batch[i] == now[o.first + i] {
      var p := o.batch[i];
      assert o.first + i in held;
    }
    forall k | start <= k < t.state.next ensures k in now {
      if r.state.next <= k {
        var p := o.batch[k - o.first];
      }
    }
    assert t.state.slots == From(now, t.state.next);
    assert r.log == InOrder(now, start, r.state.next);
    LogInOrder(now, start, r.state.next, o.batch, r.log);
  }

  lemma ArrivalRefines(r: Run, start: nat, received: map<nat, Payload>, a: Arrival)
    requires Inv(r.state) && Refines(r, start, received)
    requires Undisturbed(r.state.stats, Advance(r, Arrive(a)).state.stats)
    ensures Refines(Advance(r, Arrive(a)), start,
                    if a.number < start || a.number in received then received
                    else received[a.number := a.payload])
  {
    StepFacts(r.state, a);
    RecoverFacts(Count(r.state), a.checkedAt);
    var o := Step(r.state, a);
    var t := Advance(r, Arrive(a));
    var met := Recover(Count(r.state), a.checkedAt);
    assert met.next == r.state.next && met.slots == r.state.slots;
    if Judge(met, a.number) == Accept {
      InsertedRefines(r, start, received, a, t, o);
    } else {
      assert t.log == r.log;
    }
  }

  ghost predicate CountersAtLeast(before: Stats, after: Stats) {
    before.skipped <= after.skipped && before.resyncs <= after.resyncs && before.tooFar <= after.tooFar
  }

  lemma {:induction false} CountersOnlyGrow(r: Run, events: seq<Event>)
    requires Inv(r.state)
    ensures Inv(Continue(r, events).state) && Continue(r, events).state.window == r.state.window
    ensures CountersAtLeast(r.state.stats, Continue(r, events).state.stats)
  {
    if events != [] {
      var init, last := events[..|events| - 1], events[|events| - 1];
      CountersOnlyGrow(r, init);
      match last
      case SetTimeout(_) => assert Continue(r, events).state.slots == Continue(r, init).state.slots;
      case Arrive(a) => StepFacts(Continue(r, init).state, a);
    }
  }

  /**
   Refinement, from any window with nothing buffered.  As long as no gap is skipped, nothing resyncs
   and nothing is dropped as too far, `next` is the least number from where it stood that has not
   arrived since, exactly the first-arrived payloads above it are buffered, and what was delivered
   is the payloads in between, in order.
   */
  lemma {:induction false} RefinesFrom(s: State, events: seq<Event>)
    requires Inv(s) && s.slots == map[]
    requires Undisturbed(s.stats, Continue(Run(s, [], 0), events).state.stats)
    ensures Refines(Continue(Run(s, [], 0), events), s.next, FirstArrivals(events, s.next))
  {
    if events != [] {
      var r := Run(s, [], 0);
      var init, last := events[..|events| - 1], events[|events| - 1];
      var mid := Continue(r, init);
      CountersOnlyGrow(r, init);
      CountersOnlyGrow(mid, [last]);
      assert [last][..0] == [] && Continue(mid, [last]) == Advance(mid, last) == Continue(r, events);
      RefinesFrom(s, init);
      if last.Arrive? {
        ArrivalRefines(mid, s.next, FirstArrivals(init, s.next), last.arrival);
      }
    }
  }

  /** Refinement for a whole run of a new window. */
  lemma RefinesLeastMissing(window: nat, start: nat, events: seq<Event>)
    requires Clean(Execute(window, start, events))
    ensures Refines(Execute(window, start, events), start, FirstArrivals(events, start))
  {
    RefinesFrom(Initial(window, start), events);
  }

  predicate HasNumber(events: seq<Event>, number: nat) {
    events != [] &&
    var last := events[|events| - 1];
    (last.Arrive? && last.arrival.number == number) || HasNumber(events[..|events| - 1], number)
  }

  lemma {:induction false} FirstArrivalsKeys(events: seq<Event>, start: nat)
    ensures forall k: nat :: k in FirstArrivals(events, start) <==> start <= k && HasNumber(events, k)
  {
    if events != [] {
      FirstArrivalsKeys(events[..|events| - 1], start);
    }
  }

  lemma {:induction false} FirstArrivalsOfSender(events: seq<Event>, start: nat, sent: map<nat, Payload>)
    requires forall e <- events :: e.Arrive? ==> e.arrival.number in sent && e.arrival.payload == sent[e.arrival.number]
    ensures forall k: nat :: k in FirstArrivals(events, start) <==> start <= k && HasNumber(events, k)
    ensures forall k <- FirstArrivals(events, start) :: k in sent && FirstArrivals(events, start)[k] == sent[k]
  {
    FirstArrivalsKeys(events, start);
    if events != [] {
      FirstArrivalsOfSender(events[..|events| - 1], start, sent);
      assert events[|events| - 1] in events;
    }
  }

  /**
   Delivery does not depend on arrival order, timing or duplication: two clean runs in which the
   same numbers of one sender arrive, however often and in whatever order, deliver the same.
   */
  lemma ArrivalOrderIrrelevant(window1: nat, window2: nat, start: nat,
                               events1: seq<Event>, events2: seq<Event>, sent: map<nat, Payload>)
    requires forall e <- events1 + events2 :: e.Arrive? ==>
      e.arrival.number in sent && e.arrival.payload == sent[e.arrival.number]
    requires forall k: nat :: start <= k ==> (HasNumber(events1, k) <==> HasNumber(events2, k))
    requires Clean(Execute(window1, start, events1)) && Clean(Execute(window2, start, events2))
    ensures Execute(window1, start, events1).log == Execute(window2, start, events2).log
    ensures Execute(window1, start, events1).state.next == Execute(window2, start, events2).state.next
  {
    assert forall e <- events1 :: e in events1 + events2;
    assert forall e <- events2 :: e in events1 + events2;
    FirstArrivalsOfSender(events1, start, sent);
    FirstArrivalsOfSender(events2, start, sent);
    assert FirstArrivals(events1, start) == FirstArrivals(events2, start);
    RefinesLeastMissing(window1, start, events1);
    RefinesLeastMissing(window2, start, events2);
    var n1 := Execute(window1, start, events1).state.next;
    var n2 := Execute(window2, start, events2).state.next;
    assert !(n1 < n2) && !(n2 < n1);
  }

  // ---- after a gap skip ----

  /** A buffered packet stands at `next`, waiting for the next accepted push to release it. */
  predicate HeadReady(s: State) {
    s.next in s.slots && s.gapSince.None?
  }

  /** After the timer has fired, the abandoned gap is closed on a buffered packet or released. */
  lemma GapSkipReadiesHead(s: State, a: Arrival)
    requires Inv(s) && GapExpired(s, a.checkedAt)
    ensures var o := Step(s, a); var lowest := Least(s.slots.Keys);
      && s.next < lowest && o.first == lowest
      && o.state.stats.skipped == s.stats.skipped + (lowest - s.next)
      && (if o.batch == [] then HeadReady(o.state) && o.state.slots == s.slots && o.state.next == lowest
          else o.batch[0] == s.slots[lowest])
  {
    GapSkipLandsOnBuffered(Count(s), a.checkedAt);
    StepFacts(s, a);
    assert Least(s.slots.Keys) in s.slots;
  }

  lemma HeadStep(s: State, a: Arrival)
    requires Inv(s) && HeadReady(s)
    ensures var o := Step(s, a);
      && (o.batch != [] <==> s.next < a.number < s.next + s.window && a.number !in s.slots)
      && (o.batch != [] ==> o.first == s.next && o.batch[0] == s.slots[s.next])
      && (o.batch == [] ==>
            HeadReady(o.state) && o.state.next == s.next && o.state.slots == s.slots && o.state.window == s.window)
      && Inv(o.state)
  {
    StepFacts(s, a);
  }

  predicate Admits(s: State, e: Event) {
    e.Arrive? && s.next < e.arrival.number < s.next + s.window && e.arrival.number !in s.slots
  }

  /** From `r` on nothing was admitted: position, buffer and log stand still. */
  ghost predicate StoodStill(r: Run, t: Run) {
    && t.log == r.log && HeadReady(t.state)
    && t.state.next == r.state.next && t.state.slots == r.state.slots && t.state.window == r.state.window
  }

  /** What `t` delivered beyond `r` begins with the packet that stood ready in `r`. */
  ghost predicate HeadReleased(r: Run, t: Run)
    requires HeadReady(r.state)
  {
    && |r.log| < |t.log| && t.log[..|r.log|] == r.log
    && t.log[|r.log|] == Delivery(r.state.next, r.state.slots[r.state.next])
  }

  lemma HeadAdvance(r: Run, mid: Run, e: Event)
    requires Inv(mid.state) && HeadReady(r.state)
    requires StoodStill(r, mid) || HeadReleased(r, mid)
    ensures var t := Advance(mid, e);
      && Inv(t.state)
      && (HeadReleased(r, mid) ==> HeadReleased(r, t))
      && (StoodStill(r, mid) ==> if Admits(r.state, e) then HeadReleased(r, t) else StoodStill(r, t))
  {
    var t := Advance(mid, e);
    match e
    case SetTimeout(d) => assert t.state.slots == mid.state.slots;
    case Arrive(a) =>
      StepFacts(mid.state, a);
      var o := Step(mid.state, a);
      assert t.log == mid.log + Numbered(o.first, o.batch);
      if HeadReleased(r, mid) {
        assert t.log[..|r.log|] == mid.log[..|r.log|];
      } else {
        HeadStep(mid.state, a);
        if o.batch == [] { assert t.log == mid.log; }
        else { assert t.log[|r.log|] == Numbered(o.first, o.batch)[0]; }
      }
  }

  /**
   Progress: once a packet stands ready at `next`, pushes that are rejected change neither the
   position nor the buffer, and the first push that is admitted releases a batch that begins with
   that packet.
   */
  lemma {:induction false} HeadIsReleasedFirst(r: Run, events: seq<Event>)
    requires Inv(r.state) && HeadReady(r.state)
    ensures Inv(Continue(r, events).state)
    ensures if exists e <- events :: Admits(r.state, e) then HeadReleased(r, Continue(r, events))
            else StoodStill(r, Continue(r, events))
  {
    if events != [] {
      var init, last := events[..|events| - 1], events[|events| - 1];
      HeadIsReleasedFirst(r, init);
      HeadAdvance(r, Continue(r, init), last);
      assert events == init + [last];
      assert last in events && forall e <- init :: e in events;
    }
  }
}
