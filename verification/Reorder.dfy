/**
 The bounded reorder window of one weave (core/hydra/reorder/reorder.go).

 `State` is the abstract value of a `Buffer`, and `Step` is what one push does to it.  A push may
 read the clock twice, so every arrival carries two readings in nanoseconds: `checkedAt`, used by
 the gap check, and `stampedAt`, recorded when a gap opens.  Sequence numbers are not wrapped.
 */
module Reorder {
  import opened Bytes
  import opened Wrappers

  type Payload = Octets

  const DEFAULT_WINDOW: nat := 4096
  const DEFAULT_GAP_TIMEOUT: int := 1_000_000_000
  const RESYNC_AFTER: nat := 64

  datatype Stats = Stats(
    received: nat, delivered: nat, duplicates: nat, tooFar: nat,
    skipped: nat, resyncs: nat, reordered: nat, maxDepth: nat)

  const NO_STATS: Stats := Stats(0, 0, 0, 0, 0, 0, 0, 0)

  datatype State = State(
    window: nat, next: nat, gapTimeout: int, gapSince: Option<int>,
    staleRun: nat, slots: map<nat, Payload>, stats: Stats)

  function Initial(window: nat, start: nat): State {
    State(if window == 0 then DEFAULT_WINDOW else window, start, 0, None, 0, map[], NO_STATS)
  }

  datatype Arrival = Arrival(number: nat, payload: Payload, checkedAt: int, stampedAt: int)

  /** What one push leaves behind: the payloads released are numbered `first`, `first + 1`, ... */
  datatype Outcome = Outcome(state: State, first: nat, batch: seq<Payload>)

  // ---- the least buffered number ----

  ghost predicate IsLeast(least: nat, keys: set<nat>) {
    least in keys && forall k :: k in keys ==> least <= k
  }

  ghost function Least(keys: set<nat>): (least: nat)
    requires keys != {}
    ensures IsLeast(least, keys)
  {
    var k :| k in keys;
    var others := keys - {k};
    assert keys == others + {k};
    if others == {} then k
    else
      var rest := Least(others);
      if k < rest then k else rest
  }

  // ---- draining ----

  /** The first number from `next` on that is not buffered. */
  function RunEnd(slots: map<nat, Payload>, next: nat): (end: nat)
    ensures next <= end && end !in slots
    ensures forall k :: next <= k < end ==> k in slots
    decreases slots.Keys
  {
    if next in slots then
      assert (slots - {next}).Keys == slots.Keys - {next};
      RunEnd(slots - {next}, next + 1)
    else next
  }

  /** Buffered payloads without the numbers in `[next, end)`. */
  function Without(slots: map<nat, Payload>, next: nat, end: nat): (rest: map<nat, Payload>)
  {
    map k | k in slots && !(next <= k < end) :: slots[k]
  }

  function Released(slots: map<nat, Payload>, next: nat, end: nat): (batch: seq<Payload>)
    requires next <= end && forall k :: next <= k < end ==> k in slots
    ensures |batch| == end - next
    ensures forall i :: 0 <= i < |batch| ==> batch[i] == slots[next + i]
  {
    seq(end - next, i requires 0 <= i < end - next => slots[next + i])
  }

  lemma RunEndUnique(slots: map<nat, Payload>, next: nat, end: nat)
    requires next <= end && end !in slots && forall k :: next <= k < end ==> k in slots
    ensures RunEnd(slots, next) == end
  {
    assert !(RunEnd(slots, next) < end) && !(end < RunEnd(slots, next));
  }

  // ---- one push ----

  predicate GapExpired(s: State, now: int) {
    s.gapTimeout > 0 && s.slots != map[] && s.gapSince.Some? && now - s.gapSince.value > s.gapTimeout
  }

  /** Gap recovery: abandon the missing numbers when the timer has run out. */
  ghost function Recover(s: State, now: int): State {
    if !GapExpired(s, now) then s
    else
      assert s.slots.Keys != {};
      var lowest := Least(s.slots.Keys);
      if lowest > s.next then
        s.(next := lowest, gapSince := None,
           stats := s.stats.(skipped := s.stats.skipped + (lowest - s.next)))
      else s.(gapSince := None)
  }

  datatype Verdict = Stale | Resync | TooFar | Duplicate | Accept

  /** What happens to a packet that meets window `s`. */
  function Judge(s: State, number: nat): Verdict {
    if number < s.next then
      if s.slots == map[] && s.staleRun + 1 >= RESYNC_AFTER then Resync else Stale
    else if number >= s.next + s.window then TooFar
    else if number in s.slots then Duplicate
    else Accept
  }

  function Align(s: State, number: nat): State {
    s.(next := number, staleRun := 0, stats := s.stats.(resyncs := s.stats.resyncs + 1))
  }

  function Max(x: nat, y: nat): nat { if x < y then y else x }

  /** Buffer a packet that is neither stale, too far nor already buffered. */
  function Insert(s: State, a: Arrival): State {
    var early := a.number > s.next;
    var slots := s.slots[a.number := a.payload];
    s.(slots := slots,
       staleRun := if early then 0 else s.staleRun,
       gapSince := if early && s.gapSince == None then Some(a.stampedAt) else s.gapSince,
       stats := s.stats.(reordered := s.stats.reordered + (if early then 1 else 0),
                         maxDepth := Max(s.stats.maxDepth, |slots|)))
  }

  /** Release every contiguous payload. */
  function Drain(s: State): Outcome {
    var end := RunEnd(s.slots, s.next);
    if end == s.next then Outcome(s, s.next, [])
    else
      Outcome(s.(next := end, slots := Without(s.slots, s.next, end), gapSince := None, staleRun := 0,
                 stats := s.stats.(delivered := s.stats.delivered + (end - s.next))),
              s.next, Released(s.slots, s.next, end))
  }

  function Reject(s: State, stats: Stats): Outcome {
    Outcome(s.(stats := stats), s.next, [])
  }

  function Settle(s: State, a: Arrival): Outcome {
    match Judge(s, a.number)
    case Stale =>
      var run := if s.slots == map[] then s.staleRun + 1 else s.staleRun;
      Reject(s.(staleRun := run), s.stats.(duplicates := s.stats.duplicates + 1))
    case TooFar => Reject(s, s.stats.(tooFar := s.stats.tooFar + 1))
    case Duplicate => Reject(s, s.stats.(duplicates := s.stats.duplicates + 1))
    case Resync => Drain(Insert(Align(s, a.number), a))
    case Accept => Drain(Insert(s, a))
  }

  function Count(s: State): State {
    s.(stats := s.stats.(received := s.stats.received + 1))
  }

  ghost function Step(s: State, a: Arrival): Outcome {
    Settle(Recover(Count(s), a.checkedAt), a)
  }

  // ---- the object ----

  class Buffer {
    var window: nat
    var next: nat
    var gapTimeout: int
    var gapSince: Option<int>
    var staleRun: nat
    var slots: map<nat, Payload>
    var stats: Stats

    function Model(): State
      reads this
    {
      State(window, next, gapTimeout, gapSince, staleRun, slots, stats)
    }

    constructor NewAt(window: nat, start: nat)
      ensures Model() == Initial(window, start)
    {
      this.window := if window == 0 then DEFAULT_WINDOW else window;
      next := start;
      gapTimeout := 0;
      gapSince := None;
      staleRun := 0;
      slots := map[];
      stats := NO_STATS;
    }

    method SetGapTimeout(d: int)
      modifies this
      ensures Model() == old(Model()).(gapTimeout := d)
    {
      gapTimeout := d;
    }

    /** The lowest buffered number, found by a scan in no particular order. */
    method MinBuffered() returns (lowest: nat)
      requires slots != map[]
      ensures IsLeast(lowest, slots.Keys)
    {
      lowest := 0;
      var first := true;
      var rest := slots.Keys;
      while rest != {}
        invariant rest <= slots.Keys
        invariant first ==> rest == slots.Keys
        invariant !first ==> IsLeast(lowest, slots.Keys - rest)
        decreases rest
      {
        var number :| number in rest;
        if first || number < lowest {
          lowest := number;
          first := false;
        }
        assert slots.Keys - (rest - {number}) == slots.Keys - rest + {number};
        rest := rest - {number};
      }
      assert slots.Keys != {};
      assert slots.Keys - rest == slots.Keys;
    }

    method Push(a: Arrival) returns (out: seq<Payload>)
      modifies this
      ensures Model() == Step(old(Model()), a).state
      ensures out == Step(old(Model()), a).batch
    {
      stats := stats.(received := stats.received + 1);
      assert Model() == Count(old(Model()));
      SkipGap(a.checkedAt);
      ghost var met := Model();
      assert met == Recover(Count(old(Model())), a.checkedAt);
      out := Place(a);
      assert Model() == Settle(met, a).state && out == Settle(met, a).batch;
    }

    method Place(a: Arrival) returns (out: seq<Payload>)
      modifies this
      ensures Model() == Settle(old(Model()), a).state
      ensures out == Settle(old(Model()), a).batch
    {
      ghost var met := Model();
      if a.number < next {
        if slots == map[] && staleRun + 1 >= RESYNC_AFTER {
          stats := stats.(resyncs := stats.resyncs + 1);
          next := a.number;
          staleRun := 0;
          assert Model() == Align(met, a.number);
        } else {
          if slots == map[] {
            staleRun := staleRun + 1;
          }
          stats := stats.(duplicates := stats.duplicates + 1);
          return [];
        }
      } else if a.number >= next + window {
        stats := stats.(tooFar := stats.tooFar + 1);
        return [];
      }
      if a.number in slots {
        stats := stats.(duplicates := stats.duplicates + 1);
        return [];
      }
      assert Model() == if a.number < met.next then Align(met, a.number) else met;
      Hold(a);
      out := DrainInto();
    }

    /** Abandon a gap that has been open for longer than the timeout. */
    method SkipGap(now: int)
      modifies this
      ensures Model() == Recover(old(Model()), now)
    {
      if gapTimeout > 0 && slots != map[] && gapSince.Some? && now - gapSince.value > gapTimeout {
        var lowest := MinBuffered();
        if lowest > next {
          stats := stats.(skipped := stats.skipped + (lowest - next));
          next := lowest;
        }
        gapSince := None;
      }
    }

    /** Copy a packet into its slot. */
    method Hold(a: Arrival)
      modifies this
      ensures Model() == Insert(old(Model()), a)
    {
      if a.number > next {
        stats := stats.(reordered := stats.reordered + 1);
        staleRun := 0;
        if gapSince == None {
          gapSince := Some(a.stampedAt);
        }
      }
      slots := slots[a.number := a.payload];
      if |slots| > stats.maxDepth {
        stats := stats.(maxDepth := |slots|);
      }
    }

    /** The release loop of a push. */
    method DrainInto() returns (out: seq<Payload>)
      modifies this
      ensures Model() == Drain(old(Model())).state
      ensures out == Drain(old(Model())).batch
    {
      ghost var held, from := slots, next;
      out := [];
      while next in slots
        invariant from <= next && forall k :: from <= k < next ==> k in held
        invariant slots == Without(held, from, next)
        invariant out == Released(held, from, next)
        invariant stats == old(stats).(delivered := old(stats).delivered + (next - from))
        invariant window == old(window) && gapTimeout == old(gapTimeout)
        invariant gapSince == old(gapSince) && staleRun == old(staleRun)
        decreases slots.Keys
      {
        var p := slots[next];
        ghost var before := slots;
        slots := slots - {next};
        assert slots.Keys == before.Keys - {next};
        out := out + [p];
        stats := stats.(delivered := stats.delivered + 1);
        next := next + 1;
      }
      RunEndUnique(held, from, next);
      if |out| > 0 {
        gapSince := None;
        staleRun := 0;
      }
    }
  }
}
