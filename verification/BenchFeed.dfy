/**
 The feed of a bench run (core/hydra/fabric/fabric.go, `Bench`): `n` consecutive packets reach the
 reorder window in a deliberately bad order, first those at even and then those at odd positions.
 */
module BenchFeed {
  import opened Wrappers
  import opened Reorder
  import opened ReorderSteps
  import opened ReorderRuns
  import opened ReorderRefinement
  import Fabric

  function Evens(n: nat): nat { (n + 1) / 2 }

  /** The position fed in the `k`-th place. */
  function OrderAt(n: nat, k: nat): (x: nat)
    requires k < n
    ensures x < n
  {
    if k < Evens(n) then 2 * k else 2 * (k - Evens(n)) + 1
  }

  /** The place at which position `x` is fed. */
  function PlaceOf(n: nat, x: nat): (k: nat)
    requires x < n
    ensures k < n && OrderAt(n, k) == x
    ensures forall j :: 0 <= j < n && OrderAt(n, j) == x ==> j == k
  {
    if x % 2 == 0 then x / 2 else Evens(n) + x / 2
  }

  function LastEven(n: nat): nat
    requires n > 0
  {
    2 * ((n - 1) / 2)
  }

  /** The packets, and the clock readings at which they are pushed. */
  datatype Feed = Feed(first: nat, payloads: seq<Payload>, readings: seq<Fabric.Reading>)
  {
    ghost predicate Valid() { 0 < |payloads| <= |readings| }

    function At(k: nat): Arrival
      requires k < |payloads| <= |readings|
    {
      var x := OrderAt(|payloads|, k);
      Fabric.ToArrival(first + x, payloads[x], readings[k])
    }

    /** The first `k` packets fed. */
    function Events(k: nat): (events: seq<Event>)
      requires k <= |payloads| <= |readings|
      ensures |events| == k
    {
      seq(k, i requires 0 <= i < k => Arrive(At(i)))
    }

    /** No reading comes more than the timeout after any earlier one, so the gap timer cannot fire. */
    ghost predicate Punctual(timeout: int) {
      timeout <= 0 || forall i, j ::
        0 <= i < j < |readings| ==> readings[j].checkedAt - readings[i].stampedAt <= timeout
    }
  }

  lemma EventsNext(f: Feed, k: nat)
    requires f.Valid() && k < |f.payloads|
    ensures f.Events(k + 1)[..k] == f.Events(k) && f.Events(k + 1)[k] == Arrive(f.At(k))
  {
  }

  lemma {:induction false} WhatHasArrived(f: Feed, k: nat)
    requires f.Valid() && k <= |f.payloads|
    ensures forall x: nat ::
              x < |f.payloads| ==> (HasNumber(f.Events(k), f.first + x) <==> PlaceOf(|f.payloads|, x) < k)
    ensures forall m: nat :: HasNumber(f.Events(k), m) ==> f.first <= m < f.first + |f.payloads|
  {
    if k > 0 {
      EventsNext(f, k - 1);
      WhatHasArrived(f, k - 1);
    }
  }

  lemma QuietAccept(s: State, a: Arrival)
    requires Inv(s) && !GapExpired(s, a.checkedAt)
    requires s.next <= a.number < s.next + s.window && a.number !in s.slots
    ensures var t := Step(s, a).state;
      && Inv(t) && t.window == s.window && t.gapTimeout == s.gapTimeout
      && Undisturbed(s.stats, t.stats)
      && (t.gapSince == s.gapSince || t.gapSince == None || t.gapSince == Some(a.stampedAt))
  {
    StepFacts(s, a);
  }

  /** The run over the first `k` packets from window `s`. */
  ghost function Fed(s: State, f: Feed, k: nat): Run
    requires f.Valid() && k <= |f.payloads|
  {
    if k == 0 then Run(s, [], 0) else Advance(Fed(s, f, k - 1), Arrive(f.At(k - 1)))
  }

  lemma {:induction false} FedIsRun(s: State, f: Feed, k: nat)
    requires f.Valid() && k <= |f.payloads|
    ensures Fed(s, f, k) == Continue(Run(s, [], 0), f.Events(k))
  {
    if k > 0 {
      FedIsRun(s, f, k - 1);
      EventsNext(f, k - 1);
    }
  }

  ghost predicate Ready(s: State, f: Feed) {
    Inv(s) && s.slots == map[] && s.next == f.first && f.Valid() && f.Punctual(s.gapTimeout)
  }

  /** Every even position before place `k` lies within the window of its moment. */
  predicate Fits(n: nat, window: nat, k: nat)
    requires n > 0
  {
    if k <= Evens(n) then k == 0 || 2 * (k - 1) <= window else LastEven(n) <= window
  }

  /** `t` has kept the configuration and the counters of `s`, and its gap, if any, opened at an earlier push. */
  ghost predicate CalmState(s: State, f: Feed, t: State, k: nat)
    requires f.Valid() && k <= |f.payloads|
  {
    && Inv(t) && t.window == s.window && t.gapTimeout == s.gapTimeout
    && Undisturbed(s.stats, t.stats)
    && (t.gapSince.Some? ==> exists i :: 0 <= i < k && f.readings[i].stampedAt == t.gapSince.value)
  }

  ghost predicate Calm(s: State, f: Feed, k: nat)
    requires f.Valid() && k <= |f.payloads|
  {
    CalmState(s, f, Fed(s, f, k).state, k)
  }

  /** Where window `t` stands after `k` packets: at the first position not yet fed. */
  ghost predicate Stands(t: State, first: nat, n: nat, k: nat) {
    && first <= t.next <= first + n
    && (forall x: nat :: x < n && first + x < t.next ==> PlaceOf(n, x) < k)
    && (t.next < first + n ==> k <= PlaceOf(n, t.next - first))
    && (forall m <- t.slots :: first <= m < first + n && PlaceOf(n, m - first) < k)
  }

  lemma LeastMissingStands(t: State, f: Feed, k: nat, received: map<nat, Payload>)
    requires f.Valid() && k <= |f.payloads|
    requires IsLeastMissing(t.next, f.first, received) && t.slots == From(received, t.next)
    requires forall m: nat :: m in received <==> f.first <= m && HasNumber(f.Events(k), m)
    ensures Stands(t, f.first, |f.payloads|, k)
  {
    WhatHasArrived(f, k);
    assert f.first < t.next ==> t.next - 1 in received;
    forall x: nat | x < |f.payloads| && f.first + x < t.next ensures PlaceOf(|f.payloads|, x) < k {
      assert f.first + x in received;
    }
    forall m | m in t.slots ensures f.first <= m < f.first + |f.payloads| && PlaceOf(|f.payloads|, m - f.first) < k {
      assert HasNumber(f.Events(k), f.first + (m - f.first));
    }
    if t.next < f.first + |f.payloads| {
      assert !HasNumber(f.Events(k), f.first + (t.next - f.first));
    }
  }

  lemma CalmStands(s: State, f: Feed, k: nat)
    requires Ready(s, f) && k <= |f.payloads| && Calm(s, f, k)
    ensures Stands(Fed(s, f, k).state, f.first, |f.payloads|, k)
  {
    FedIsRun(s, f, k);
    RefinesFrom(s, f.Events(k));
    FirstArrivalsKeys(f.Events(k), f.first);
    LeastMissingStands(Fed(s, f, k).state, f, k, FirstArrivals(f.Events(k), f.first));
  }

  lemma EarlierPositionsFed(n: nat, k: nat)
    requires Evens(n) <= k < n
    ensures forall y: nat :: y < OrderAt(n, k) ==> PlaceOf(n, y) < k
  {
  }

  lemma FitsEarlier(n: nat, window: nat, k: nat)
    requires 0 < k <= n && Fits(n, window, k)
    ensures Fits(n, window, k - 1)
  {
  }

  lemma FirstMisfit(n: nat, window: nat)
    requires 0 < n && window < LastEven(n)
    ensures var k := window / 2 + 1;
      0 < k < Evens(n) && k < n && Fits(n, window, k) && OrderAt(n, k) > window
  {
  }

  /** The packet fed next is new and not behind the window, which has just begun to wait or is level. */
  lemma PositionBefore(t: State, first: nat, n: nat, k: nat)
    requires k < n && Stands(t, first, n, k)
    ensures var number := first + OrderAt(n, k);
      && number !in t.slots && t.next <= number
      && (if k == 0 then t.next == first
          else if k < Evens(n) then t.next == first + 1
          else t.next == number)
  {
    var x := OrderAt(n, k);
    assert PlaceOf(n, x) == k;
    assert PlaceOf(n, 0) == 0;
    if k == 0 {
      assert !(first < t.next);
    } else if k < Evens(n) {
      assert PlaceOf(n, 1) == Evens(n);
      assert t.next != first;
      assert !(first + 1 < t.next);
    } else {
      assert !(first + x < t.next);
      EarlierPositionsFed(n, k);
      assert !(t.next < first + x);
    }
  }

  lemma NotExpired(s: State, f: Feed, t: State, k: nat)
    requires f.Valid() && f.Punctual(s.gapTimeout) && k < |f.payloads| && CalmState(s, f, t, k)
    ensures !GapExpired(t, f.At(k).checkedAt)
  {
  }

  lemma CalmPush(s: State, f: Feed, t: State, k: nat)
    requires f.Valid() && f.Punctual(s.gapTimeout) && k < |f.payloads| && CalmState(s, f, t, k)
    requires Stands(t, f.first, |f.payloads|, k) && Fits(|f.payloads|, s.window, k + 1)
    ensures CalmState(s, f, Step(t, f.At(k)).state, k + 1)
  {
    PositionBefore(t, f.first, |f.payloads|, k);
    NotExpired(s, f, t, k);
    InsideWindow(|f.payloads|, s.window, k);
    QuietAccept(t, f.At(k));
    StampedNow(s, f, t, k, Step(t, f.At(k)).state);
  }

  lemma InsideWindow(n: nat, window: nat, k: nat)
    requires k < n && Fits(n, window, k + 1)
    ensures k < Evens(n) ==> OrderAt(n, k) <= window
  {
  }

  lemma StampedNow(s: State, f: Feed, t: State, k: nat, u: State)
    requires f.Valid() && k < |f.payloads| && CalmState(s, f, t, k)
    requires Inv(u) && u.window == t.window && u.gapTimeout == t.gapTimeout && Undisturbed(t.stats, u.stats)
    requires u.gapSince == t.gapSince || u.gapSince == None || u.gapSince == Some(f.At(k).stampedAt)
    ensures CalmState(s, f, u, k + 1)
  {
    assert f.At(k).stampedAt == f.readings[k].stampedAt;
  }

  lemma CalmNext(s: State, f: Feed, k: nat)
    requires Ready(s, f) && 0 < k <= |f.payloads| && Calm(s, f, k - 1) && Fits(|f.payloads|, s.window, k)
    ensures Calm(s, f, k)
  {
    hide Step;
    CalmStands(s, f, k - 1);
    CalmPush(s, f, Fed(s, f, k - 1).state, k - 1);
  }

  lemma CalmAtFirst(s: State, f: Feed)
    requires Ready(s, f)
    ensures Calm(s, f, 0)
  {
  }

  lemma {:induction false} StaysCalm(s: State, f: Feed, k: nat)
    requires Ready(s, f) && k <= |f.payloads| && Fits(|f.payloads|, s.window, k)
    ensures Calm(s, f, k)
  {
    hide Calm, Ready, Fits, f.Valid;
    if k == 0 {
      CalmAtFirst(s, f);
    } else {
      FitsEarlier(|f.payloads|, s.window, k);
      StaysCalm(s, f, k - 1);
      CalmNext(s, f, k);
    }
  }

  /** How many packets the whole feed releases. */
  ghost function DeliveredBy(s: State, f: Feed): nat
    requires f.Valid()
  {
    |Fed(s, f, |f.payloads|).log|
  }

  lemma {:induction false} RunAccounts(r: Run, events: seq<Event>)
    requires Inv(r.state) && forall e <- events :: e.Arrive?
    ensures var t := Continue(r, events);
      && Inv(t.state)
      && Ledger(t.state) == Ledger(r.state) + |events|
      && |t.log| - |r.log| == t.state.stats.delivered - r.state.stats.delivered
      && r.state.stats.duplicates <= t.state.stats.duplicates
  {
    if events != [] {
      var init, last := events[..|events| - 1], events[|events| - 1];
      RunAccounts(r, init);
      assert last in events;
      StepFacts(Continue(r, init).state, last.arrival);
    }
  }

  lemma WholeFeedArrives(s: State, f: Feed)
    requires Ready(s, f) && LastEven(|f.payloads|) <= s.window
    ensures var t := Fed(s, f, |f.payloads|);
      && DeliveredBy(s, f) == |f.payloads|
      && t.state.slots == map[] && t.state.next == f.first + |f.payloads|
      && forall i :: 0 <= i < |f.payloads| ==> t.log[i].number == f.first + i
  {
    var n := |f.payloads|;
    StaysCalm(s, f, n);
    CalmStands(s, f, n);
    FedIsRun(s, f, n);
    RefinesFrom(s, f.Events(n));
    var t := Fed(s, f, n).state;
    assert t.next == f.first + n;
    assert forall m :: m !in t.slots;
  }

  lemma TooFarStep(s: State, a: Arrival)
    requires Inv(s) && !GapExpired(s, a.checkedAt) && a.number >= s.next + s.window
    ensures Inv(Step(s, a).state) && Step(s, a).state.stats.tooFar == s.stats.tooFar + 1
  {
    StepFacts(s, a);
  }

  lemma WideFeedDrops(s: State, f: Feed)
    requires Ready(s, f) && LastEven(|f.payloads|) > s.window
    ensures var k := s.window / 2 + 2;
      k <= |f.payloads| && Inv(Fed(s, f, k).state) && s.stats.tooFar < Fed(s, f, k).state.stats.tooFar
  {
    var k := s.window / 2 + 1;
    FirstMisfit(|f.payloads|, s.window);
    DropAt(s, f, k);
  }

  lemma DropAt(s: State, f: Feed, k: nat)
    requires Ready(s, f) && 0 < k < Evens(|f.payloads|) && k < |f.payloads|
    requires Fits(|f.payloads|, s.window, k) && OrderAt(|f.payloads|, k) > s.window
    ensures Inv(Fed(s, f, k + 1).state)
    ensures s.stats.tooFar < Fed(s, f, k + 1).state.stats.tooFar
  {
    StaysCalm(s, f, k);
    CalmStands(s, f, k);
    PositionBefore(Fed(s, f, k).state, f.first, |f.payloads|, k);
    NotExpired(s, f, Fed(s, f, k).state, k);
    TooFarStep(Fed(s, f, k).state, f.At(k));
  }

  lemma WideFeedLosesOne(s: State, f: Feed)
    requires Ready(s, f) && LastEven(|f.payloads|) > s.window
    ensures DeliveredBy(s, f) < |f.payloads|
  {
    WideFeedDrops(s, f);
    var n, k := |f.payloads|, s.window / 2 + 2;
    SplitFeed(s, f, k);
    CountersOnlyGrow(Fed(s, f, k), f.Events(n)[k..]);
    FedIsRun(s, f, n);
    RunAccounts(Run(s, [], 0), f.Events(n));
  }

  lemma {:induction false} ContinueSplit(r: Run, events: seq<Event>, more: seq<Event>)
    ensures Continue(r, events + more) == Continue(Continue(r, events), more)
  {
    if more == [] {
      assert events + more == events;
    } else {
      ContinueSplit(r, events, more[..|more| - 1]);
      assert (events + more)[..|events + more| - 1] == events + more[..|more| - 1];
    }
  }

  lemma EventsPrefix(f: Feed, k: nat)
    requires f.Valid() && k <= |f.payloads|
    ensures f.Events(k) + f.Events(|f.payloads|)[k..] == f.Events(|f.payloads|)
  {
  }

  lemma SplitFeed(s: State, f: Feed, k: nat)
    requires f.Valid() && k <= |f.payloads|
    ensures Fed(s, f, |f.payloads|) == Continue(Fed(s, f, k), f.Events(|f.payloads|)[k..])
  {
    var all := f.Events(|f.payloads|);
    FedIsRun(s, f, k);
    FedIsRun(s, f, |f.payloads|);
    EventsPrefix(f, k);
    ContinueSplit(Run(s, [], 0), f.Events(k), all[k..]);
  }

  /**
   The bench order delivers every packet if and only if the last even position is no further out
   than the window is wide; every number of packets up to the window and one more is covered.  It
   then leaves the window empty and positioned after the last packet.
   */
  lemma FeedDeliversAllIff(s: State, f: Feed)
    requires Ready(s, f)
    ensures DeliveredBy(s, f) == |f.payloads| <==> LastEven(|f.payloads|) <= s.window
    ensures |f.payloads| <= s.window + 1 ==> LastEven(|f.payloads|) <= s.window
    ensures LastEven(|f.payloads|) <= s.window ==>
      var t := Fed(s, f, |f.payloads|).state; t.slots == map[] && t.next == f.first + |f.payloads|
  {
    if LastEven(|f.payloads|) <= s.window {
      WholeFeedArrives(s, f);
    } else {
      WideFeedLosesOne(s, f);
    }
  }
}
