/** Whole runs of a reorder window: what every sequence of calls keeps, and what it delivers. */
module ReorderRuns {
  import opened Wrappers
  import opened Reorder
  import opened ReorderSteps

  datatype Event = Arrive(arrival: Arrival) | SetTimeout(timeout: int)

  datatype Delivery = Delivery(number: nat, payload: Payload)

  /** `log` is everything released so far; `rewound` is the total distance of all resyncs. */
  datatype Run = Run(state: State, log: seq<Delivery>, rewound: nat)

  function Numbered(first: nat, batch: seq<Payload>): (log: seq<Delivery>)
    ensures |log| == |batch|
    ensures forall i :: 0 <= i < |log| ==> log[i] == Delivery(first + i, batch[i])
  {
    seq(|batch|, i requires 0 <= i < |batch| => Delivery(first + i, batch[i]))
  }

  function Begin(window: nat, start: nat): Run {
    Run(Initial(window, start), [], 0)
  }

  ghost function Advance(r: Run, e: Event): Run {
    match e
    case SetTimeout(d) => r.(state := r.state.(gapTimeout := d))
    case Arrive(a) =>
      var o := Step(r.state, a);
      Run(o.state, r.log + Numbered(o.first, o.batch), r.rewound + Rewind(r.state, a))
  }

  ghost function Continue(r: Run, events: seq<Event>): Run {
    if events == [] then r
    else Advance(Continue(r, events[..|events| - 1]), events[|events| - 1])
  }

  ghost function Execute(window: nat, start: nat, events: seq<Event>): Run {
    Continue(Begin(window, start), events)
  }

  // ---- bookkeeping that every run keeps ----

  function Descents(log: seq<Delivery>): nat {
    if |log| < 2 then 0
    else Descents(log[..|log| - 1]) + (if log[|log| - 1].number <= log[|log| - 2].number then 1 else 0)
  }

  ghost predicate Ascending(log: seq<Delivery>) {
    forall i, j :: 0 <= i < j < |log| ==> log[i].number < log[j].number
  }

  lemma {:induction false} DescentsAppend(log: seq<Delivery>, first: nat, batch: seq<Payload>)
    requires batch != []
    ensures Descents(log + Numbered(first, batch))
         == Descents(log) + (if log != [] && first <= log[|log| - 1].number then 1 else 0)
    decreases |batch|
  {
    var all := log + Numbered(first, batch);
    var less := batch[..|batch| - 1];
    assert all[..|all| - 1] == log + Numbered(first, less);
    if less == [] {
      assert log + Numbered(first, less) == log;
    } else {
      DescentsAppend(log, first, less);
    }
  }

  lemma {:induction false} NoDescentMeansAscending(log: seq<Delivery>)
    requires Descents(log) == 0
    ensures Ascending(log)
  {
    if 2 <= |log| {
      var init := log[..|log| - 1];
      NoDescentMeansAscending(init);
      forall i, j | 0 <= i < j < |log| ensures log[i].number < log[j].number {
        assert log[i] == init[i];
        if j < |init| { assert log[j] == init[j]; }
        else if i < |init| - 1 { assert init[i].number < init[|init| - 1].number; }
      }
    }
  }

  ghost predicate Good(r: Run, start: nat) {
    var s := r.state;
    && Inv(s)
    && s.stats.received == Ledger(s)
    && s.next + r.rewound == start + s.stats.delivered + s.stats.skipped
    && |r.log| == s.stats.delivered
    && LogFits(r.log, start, s.next, s.stats.resyncs, s.slots == map[])
  }

  /** The first delivery was numbered below the starting position, as only a resync can make it. */
  predicate BeganBelow(log: seq<Delivery>, start: nat) { log != [] && log[0].number < start }

  /** The log against the positions, the resyncs so far and whether the buffer is empty. */
  ghost predicate LogFits(log: seq<Delivery>, start: nat, next: nat, resyncs: nat, empty: bool) {
    && resyncs == Descents(log) + (if BeganBelow(log, start) then 1 else 0)
    && (log == [] ==> resyncs == 0 && start <= next && (empty ==> next == start))
    && (log != [] ==> log[|log| - 1].number < next)
    && (log != [] && empty ==> log[|log| - 1].number + 1 == next)
  }

  lemma LogStillFits(log: seq<Delivery>, start: nat, next: nat, resyncs: nat, empty: bool,
                     first: nat, batch: seq<Payload>, resync: bool, emptyNow: bool)
    requires LogFits(log, start, next, resyncs, empty)
    requires if resync then empty && first < next && batch != [] else next <= first
    requires batch == [] && emptyNow ==> empty && first == next
    ensures LogFits(log + Numbered(first, batch), start, first + |batch|,
                    resyncs + (if resync then 1 else 0), emptyNow)
  {
    var all := log + Numbered(first, batch);
    if batch == [] {
      assert all == log;
    } else {
      DescentsAppend(log, first, batch);
      assert all[|log| + |batch| - 1] == Delivery(first + |batch| - 1, batch[|batch| - 1]);
      assert all[0] == if log == [] then Delivery(first, batch[0]) else log[0];
    }
  }

  lemma AdvanceGood(r: Run, e: Event, start: nat)
    requires Good(r, start)
    ensures Good(Advance(r, e), start)
    ensures Advance(r, e).state.window == r.state.window
  {
    match e
    case SetTimeout(d) => assert Advance(r, e).state.slots == r.state.slots;
    case Arrive(a) =>
      StepFacts(r.state, a);
      var s, o := r.state, Step(r.state, a);
      LogStillFits(r.log, start, s.next, s.stats.resyncs, s.slots == map[],
                   o.first, o.batch, Resyncs(s, a), o.state.slots == map[]);
  }

  lemma {:induction false} ContinueGood(r: Run, events: seq<Event>, start: nat)
    requires Good(r, start)
    ensures Good(Continue(r, events), start)
    ensures Continue(r, events).state.window == r.state.window
  {
    if events != [] {
      ContinueGood(r, events[..|events| - 1], start);
      AdvanceGood(Continue(r, events[..|events| - 1]), events[|events| - 1], start);
    }
  }

  /**
   Every run, whatever arrives and whenever: the buffer stays inside its window, every packet
   received is delivered, counted as a duplicate, dropped as too far or still buffered, and the
   position is explained by what was delivered, skipped and rewound.
   */
  lemma EveryRunBalances(window: nat, start: nat, events: seq<Event>)
    ensures var r := Execute(window, start, events); var s := r.state;
      && s.window == (if window == 0 then DEFAULT_WINDOW else window)
      && (forall k <- s.slots :: s.next <= k < s.next + s.window)
      && |s.slots| <= s.window && s.stats.maxDepth <= s.window && s.staleRun < RESYNC_AFTER
      && (s.gapSince.Some? ==> s.slots != map[] && s.next !in s.slots)
      && s.stats.received == s.stats.delivered + s.stats.duplicates + s.stats.tooFar + |s.slots|
      && |r.log| == s.stats.delivered
      && s.next + r.rewound == start + s.stats.delivered + s.stats.skipped
  {
    ContinueGood(Begin(window, start), events, start);
    DepthBounded(Execute(window, start, events).state);
  }

  /**
   Delivery goes backwards (or repeats) only at a resync, and at every resync but one that comes
   before anything was delivered, which shows as a first delivery below the starting position.
   Without a resync the numbers strictly ascend, so nothing is delivered twice.
   */
  lemma DescentsAreResyncs(window: nat, start: nat, events: seq<Event>)
    ensures var r := Execute(window, start, events);
      && r.state.stats.resyncs == Descents(r.log) + (if BeganBelow(r.log, start) then 1 else 0)
      && (r.state.stats.resyncs == 0 ==> Ascending(r.log))
  {
    ContinueGood(Begin(window, start), events, start);
    var r := Execute(window, start, events);
    if r.state.stats.resyncs == 0 {
      NoDescentMeansAscending(r.log);
    }
  }

  /** The branch counters never go down. */
  lemma {:induction false} CountersGrow(r: Run, events: seq<Event>, start: nat)
    requires Good(r, start)
    ensures var t := Continue(r, events).state.stats; var s := r.state.stats;
      s.skipped <= t.skipped && s.resyncs <= t.resyncs && s.tooFar <= t.tooFar && s.delivered <= t.delivered
  {
    if events != [] {
      var mid := Continue(r, events[..|events| - 1]);
      CountersGrow(r, events[..|events| - 1], start);
      ContinueGood(r, events[..|events| - 1], start);
      match events[|events| - 1]
      case SetTimeout(_) =>
      case Arrive(a) => StepFacts(mid.state, a);
    }
  }

  /** What `t` delivered beyond `r`, in order and inside the stretch between their positions. */
  ghost predicate Epoch(r: Run, t: Run) {
    && |r.log| <= |t.log| && t.log[..|r.log|] == r.log
    && r.state.next <= t.state.next
    && Ascending(t.log[|r.log|..])
    && forall i :: |r.log| <= i < |t.log| ==> r.state.next <= t.log[i].number < t.state.next
  }

  lemma StepMovesForward(s: State, a: Arrival)
    requires Inv(s)
    ensures var o := Step(s, a);
      && o.first + |o.batch| == o.state.next
      && s.stats.resyncs <= o.state.stats.resyncs
      && (s.stats.resyncs == o.state.stats.resyncs ==> s.next <= o.first)
  {
    StepFacts(s, a);
  }

  lemma EpochGrows(r: Run, mid: Run, first: nat, batch: seq<Payload>, t: Run)
    requires Epoch(r, mid) && mid.state.next <= first && first + |batch| == t.state.next
    requires t.log == mid.log + Numbered(first, batch)
    ensures Epoch(r, t)
  {
    assert t.log[..|r.log|] == mid.log[..|r.log|];
    var newer := t.log[|r.log|..];
    var early := mid.log[|r.log|..];
    forall i, j | 0 <= i < j < |newer| ensures newer[i].number < newer[j].number {
      if j < |early| {
        assert newer[i] == early[i] && newer[j] == early[j];
      } else if i < |early| {
        assert newer[i] == mid.log[|r.log| + i] && newer[j].number >= first;
      }
    }
  }

  /**
   An epoch, that is a stretch of any run in which no resync happens: everything it delivers is
   numbered from the position it started at, in strictly ascending order.
   */
  lemma {:induction false} EpochAscends(r: Run, events: seq<Event>, start: nat)
    requires Good(r, start)
    requires Continue(r, events).state.stats.resyncs == r.state.stats.resyncs
    ensures Epoch(r, Continue(r, events))
  {
    if events != [] {
      var init := events[..|events| - 1];
      var mid := Continue(r, init);
      ContinueGood(r, init, start);
      CountersGrow(r, init, start);
      match events[|events| - 1]
      case SetTimeout(_) => EpochAscends(r, init, start);
      case Arrive(a) =>
        StepMovesForward(mid.state, a);
        EpochAscends(r, init, start);
        EpochGrows(r, mid, Step(mid.state, a).first, Step(mid.state, a).batch, Continue(r, events));
    }
  }

  // ---- nothing is invented ----

  /** Some packet with this number and this payload is among the arrivals. */
  predicate Arrived(events: seq<Event>, number: nat, payload: Payload) {
    events != [] &&
    var last := events[|events| - 1];
    (last.Arrive? && last.arrival.number == number && last.arrival.payload == payload)
    || Arrived(events[..|events| - 1], number, payload)
  }

  ghost predicate AllArrived(events: seq<Event>, r: Run) {
    && (forall i :: 0 <= i < |r.log| ==> Arrived(events, r.log[i].number, r.log[i].payload))
    && (forall k <- r.state.slots :: Arrived(events, k, r.state.slots[k]))
  }

  lemma StepSources(s: State, a: Arrival)
    requires Inv(s)
    ensures var o := Step(s, a); var held := s.slots[a.number := a.payload];
      && Carries(held, o.first, o.batch)
      && (forall k <- o.state.slots ::
            k in held && (o.state.slots[k] == held[k] || (k in s.slots && o.state.slots[k] == s.slots[k])))
  {
    StepFacts(s, a);
  }

  lemma LogKeepsSources(events: seq<Event>, log: seq<Delivery>, held: map<nat, Payload>, first: nat,
      batch: seq<Payload>)
    requires forall i :: 0 <= i < |log| ==> Arrived(events, log[i].number, log[i].payload)
    requires forall k <- held :: Arrived(events, k, held[k])
    requires Carries(held, first, batch)
    ensures var all := log + Numbered(first, batch);
      forall i :: 0 <= i < |all| ==> Arrived(events, all[i].number, all[i].payload)
  {
    var all := log + Numbered(first, batch);
    forall i | 0 <= i < |all| ensures Arrived(events, all[i].number, all[i].payload) {
      if |log| <= i {
        var j := i - |log|;
        assert all[i] == Delivery(first + j, batch[j]) && batch[j] == held[first + j];
      }
    }
  }

  lemma ArrivalKeepsSources(events: seq<Event>, mid: Run, a: Arrival)
    requires Inv(mid.state) && AllArrived(events, mid) && Arrived(events, a.number, a.payload)
    ensures AllArrived(events, Advance(mid, Arrive(a)))
  {
    StepSources(mid.state, a);
    var o := Step(mid.state, a);
    var held := mid.state.slots[a.number := a.payload];
    LogKeepsSources(events, mid.log, held, o.first, o.batch);
  }

  /** Every payload delivered, or still buffered, under a number arrived under that number. */
  lemma {:induction false} NothingInvented(window: nat, start: nat, events: seq<Event>)
    ensures AllArrived(events, Execute(window, start, events))
  {
    if events != [] {
      var init, last := events[..|events| - 1], events[|events| - 1];
      NothingInvented(window, start, init);
      ContinueGood(Begin(window, start), init, start);
      var mid := Execute(window, start, init);
      assert AllArrived(events, mid);
      if last.Arrive? {
        ArrivalKeepsSources(events, mid, last.arrival);
      }
    }
  }
}
