/**
 The token bucket that paces a link (core/hydra/transport/transport.go).  Rates, tokens and times
 are exact reals: octets per second, octets and seconds.  Each pass of the waiting loop is atomic;
 its clock reading is an input.
 */
module Transport {

  datatype Bucket = Bucket(rate: real, tokens: real, last: real, closed: bool)

  datatype Verdict = Granted | Sleep(seconds: real) | Closed

  function RateOf(mbps: real): real {
    if mbps <= 0.0 then 0.0 else mbps * 1_000_000.0 / 8.0
  }

  function Dialled(mbps: real, now: real): Bucket {
    Bucket(RateOf(mbps), 0.0, now, false)
  }

  const LEAST_SLEEP: real := 0.001

  /** What a link earns between two instants. */
  function Earned(rate: real, from: real, to: real): real {
    (to - from) * rate
  }

  function Refilled(b: Bucket, now: real): Bucket {
    var tokens := b.tokens + Earned(b.rate, b.last, now);
    b.(tokens := if tokens > b.rate then b.rate else tokens, last := now)
  }

  function Need(b: Bucket, n: nat): real
    requires b.rate > 0.0
  {
    (n as real - b.tokens) / b.rate
  }

  /** One pass of a waiter for `n` octets. */
  function Attempt(b: Bucket, n: nat, now: real): (Bucket, Verdict) {
    if b.closed then (b, Closed)
    else if b.rate <= 0.0 then (b, Granted)
    else
      var r := Refilled(b, now);
      if r.tokens >= n as real then (r.(tokens := r.tokens - n as real), Granted)
      else
        var need := Need(r, n);
        (r, Sleep(if need < LEAST_SLEEP then LEAST_SLEEP else need))
  }

  class Endpoint {
    var rateBps: real
    var tokens: real
    var last: real
    var closed: bool

    function Model(): Bucket
      reads this
    {
      Bucket(rateBps, tokens, last, closed)
    }

    constructor Dial(mbps: real, now: real)
      ensures Model() == Dialled(mbps, now)
    {
      tokens, last, closed := 0.0, now, false;
      rateBps := if mbps <= 0.0 then 0.0 else mbps * 1_000_000.0 / 8.0;
    }

    method SetRate(mbps: real)
      modifies this
      ensures Model() == old(Model()).(rate := RateOf(mbps))
    {
      if mbps <= 0.0 {
        rateBps := 0.0;
        return;
      }
      rateBps := mbps * 1_000_000.0 / 8.0;
    }

    method Close()
      modifies this
      ensures Model() == old(Model()).(closed := true)
    {
      closed := true;
    }

    method TryTake(n: nat, now: real) returns (v: Verdict)
      modifies this
      ensures (Model(), v) == Attempt(old(Model()), n, now)
    {
      if closed {
        return Closed;
      }
      var rate := rateBps;
      if rate <= 0.0 {
        return Granted;
      }
      tokens := tokens + (now - last) * rate;
      last := now;
      if tokens > rate {
        tokens := rate;
      }
      if tokens >= n as real {
        tokens := tokens - n as real;
        return Granted;
      }
      var need := (n as real - tokens) / rate;
      if need < LEAST_SLEEP {
        need := LEAST_SLEEP;
      }
      v := Sleep(need);
    }

    /** The waiting loop of an undisturbed waiter that wakes at the given times. */
    method Wait(n: nat, wakeups: seq<real>) returns (v: Verdict)
      requires wakeups != []
      modifies this
      ensures (Model(), v) == Waited(old(Model()), n, wakeups)
    {
      ghost var start := Model();
      v := TryTake(n, wakeups[0]);
      var k := 1;
      while v.Sleep? && k < |wakeups|
        invariant 1 <= k <= |wakeups|
        invariant Waited(start, n, wakeups) ==
          if v.Sleep? && k < |wakeups| then Waited(Model(), n, wakeups[k..]) else (Model(), v)
      {
        v := TryTake(n, wakeups[k]);
        k := k + 1;
      }
    }
  }

  function Waited(b: Bucket, n: nat, wakeups: seq<real>): (Bucket, Verdict)
    requires wakeups != []
    decreases |wakeups|
  {
    var (t, v) := Attempt(b, n, wakeups[0]);
    if v.Sleep? && |wakeups| > 1 then Waited(t, n, wakeups[1..]) else (t, v)
  }

  // ---- whole runs at a fixed rate ----

  /** Passes of any number of waiters, as the lock lets them through. */
  datatype Pass = Pass(n: nat, now: real)

  function After(b: Bucket, passes: seq<Pass>): Bucket {
    if passes == [] then b
    else
      var last := passes[|passes| - 1];
      Attempt(After(b, passes[..|passes| - 1]), last.n, last.now).0
  }

  /** The octets granted. */
  function GrantedBy(b: Bucket, passes: seq<Pass>): nat {
    if passes == [] then 0
    else
      var init, last := passes[..|passes| - 1], passes[|passes| - 1];
      GrantedBy(b, init) + (if Attempt(After(b, init), last.n, last.now).1.Granted? then last.n else 0)
  }

  ghost predicate Timely(b: Bucket, passes: seq<Pass>) {
    && (passes != [] ==> b.last <= passes[0].now)
    && forall i, j :: 0 <= i < j < |passes| ==> passes[i].now <= passes[j].now
  }

  ghost predicate Level(b: Bucket) {
    !b.closed && b.rate > 0.0 && 0.0 <= b.tokens <= b.rate
  }

  function LastTime(b: Bucket, passes: seq<Pass>): real {
    if passes == [] then b.last else passes[|passes| - 1].now
  }

  lemma EarnedAdds(rate: real, t0: real, t1: real, t2: real)
    ensures Earned(rate, t0, t1) + Earned(rate, t1, t2) == Earned(rate, t0, t2)
  {
  }

  lemma EarnedNothing(rate: real, t: real)
    ensures Earned(rate, t, t) == 0.0
  {
  }

  lemma RefillGrows(b: Bucket, now: real)
    requires Level(b) && b.last <= now
    ensures var r := Refilled(b, now);
      Level(r) && r.rate == b.rate && r.last == now && r.tokens <= b.tokens + Earned(b.rate, b.last, now)
  {
    assert (now - b.last) * b.rate >= 0.0;
  }

  lemma AttemptAccounts(b: Bucket, n: nat, now: real)
    requires Level(b) && b.last <= now
    ensures var (t, v) := Attempt(b, n, now);
      && Level(t) && t.rate == b.rate && t.last == now && v != Closed
      && t.tokens + (if v.Granted? then n as real else 0.0) <= b.tokens + Earned(b.rate, b.last, now)
  {
    hide Refilled, Earned, Need;
    RefillGrows(b, now);
  }

  /** Tokens and grants together are paid for by what was there and by the time that has passed. */
  lemma {:induction false} GrantsArePaidFor(b: Bucket, passes: seq<Pass>)
    requires Level(b) && Timely(b, passes)
    ensures var t := After(b, passes);
      && Level(t) && t.rate == b.rate && t.last == LastTime(b, passes)
      && t.tokens + GrantedBy(b, passes) as real <= b.tokens + Earned(b.rate, b.last, LastTime(b, passes))
  {
    hide Attempt, Earned;
    if passes == [] {
      EarnedNothing(b.rate, b.last);
    } else {
      var init, last := passes[..|passes| - 1], passes[|passes| - 1];
      GrantsArePaidFor(b, init);
      AttemptAccounts(After(b, init), last.n, last.now);
      EarnedAdds(b.rate, b.last, LastTime(b, init), last.now);
    }
  }

  lemma TimelySplits(b: Bucket, before: seq<Pass>, passes: seq<Pass>)
    requires passes != [] && Timely(b, before + passes)
    ensures Timely(b, before) && LastTime(b, before) <= passes[0].now
    ensures forall i, j :: 0 <= i < j < |passes| ==> passes[i].now <= passes[j].now
  {
    var all := before + passes;
    assert forall i :: 0 <= i < |before| ==> all[i] == before[i];
    assert forall i :: 0 <= i < |passes| ==> passes[i] == all[|before| + i];
  }

  /**
   Rate bound.  At a fixed rate, however waiters interleave: the bucket stays between empty and one
   second's worth; since the link was dialled no more has been granted than the rate times the time;
   and between the first and the last of any passes, whatever went before, no more than that and one
   second's worth.
   */
  lemma RateBound(mbps: real, dialled: real, before: seq<Pass>, passes: seq<Pass>)
    requires mbps > 0.0 && passes != []
    requires Timely(Dialled(mbps, dialled), before + passes)
    ensures var b := Dialled(mbps, dialled); var m := After(b, before); var end := passes[|passes| - 1].now;
      && 0.0 <= After(m, passes).tokens <= b.rate
      && (GrantedBy(b, before) + GrantedBy(m, passes)) as real <= Earned(b.rate, dialled, end)
      && GrantedBy(m, passes) as real <= Earned(b.rate, passes[0].now, end) + b.rate
  {
    hide Attempt, Earned, After, GrantedBy;
    var b := Dialled(mbps, dialled);
    TimelySplits(b, before, passes);
    GrantsArePaidFor(b, before);
    var m := After(b, before);
    GrantsArePaidFor(m, passes);
    EarnedAdds(b.rate, dialled, m.last, LastTime(m, passes));
    FirstPassRefills(m, passes);
  }

  /** The first pass can only fill the bucket, so the time before it does not count. */
  lemma FirstPassRefills(m: Bucket, passes: seq<Pass>)
    requires Level(m) && passes != [] && Timely(m, passes)
    ensures GrantedBy(m, passes) as real <= Earned(m.rate, passes[0].now, passes[|passes| - 1].now) + m.rate
  {
    hide Refilled, Earned, After, GrantedBy;
    var full := Refilled(m, passes[0].now);
    RefillGrows(m, passes[0].now);
    SameAfterRefill(m, full, passes);
    GrantsArePaidFor(full, passes);
  }

  lemma RefillTwice(m: Bucket, now: real)
    requires Level(m) && m.last <= now
    ensures Refilled(Refilled(m, now), now) == Refilled(m, now)
  {
    RefillGrows(m, now);
    EarnedNothing(m.rate, now);
  }

  lemma {:induction false} SameAfterRefill(m: Bucket, full: Bucket, passes: seq<Pass>)
    requires Level(m) && passes != [] && m.last <= passes[0].now && full == Refilled(m, passes[0].now)
    ensures After(m, passes) == After(full, passes) && GrantedBy(m, passes) == GrantedBy(full, passes)
  {
    var init := passes[..|passes| - 1];
    if init == [] {
      RefillTwice(m, passes[0].now);
    } else {
      SameAfterRefill(m, full, init);
    }
  }

  // ---- a single waiter ----

  lemma NeedSuffices(b: Bucket, n: nat, now: real, later: real)
    requires Level(b) && b.last == now && b.tokens < n as real <= b.rate
    requires later >= now + Need(b, n)
    ensures Refilled(b, later).tokens >= n as real
  {
    var need := Need(b, n);
    assert need * b.rate == n as real - b.tokens;
    assert (later - now) * b.rate >= need * b.rate;
  }

  /**
   An undisturbed waiter for at most one second's worth of octets that sleeps for as long as it was
   told is granted on its first or its second pass.
   */
  lemma GrantedAfterOneSleep(b: Bucket, n: nat, now: real, later: real)
    requires Level(b) && b.last <= now && n as real <= b.rate
    ensures var (t, v) := Attempt(b, n, now);
      v.Granted? || (v.Sleep? && (later >= now + v.seconds ==> Attempt(t, n, later).1.Granted?))
  {
    AttemptAccounts(b, n, now);
    var (t, v) := Attempt(b, n, now);
    if v.Sleep? && later >= now + v.seconds {
      NeedSuffices(t, n, now, later);
    }
  }

  /** A waiter for more than one second's worth is never granted, however long it waits. */
  lemma {:induction false} NeverGrantedAboveRate(b: Bucket, n: nat, wakeups: seq<real>)
    requires Level(b) && n as real > b.rate && wakeups != []
    requires b.last <= wakeups[0] && forall i, j :: 0 <= i < j < |wakeups| ==> wakeups[i] <= wakeups[j]
    ensures Waited(b, n, wakeups).1.Sleep?
    decreases |wakeups|
  {
    AttemptAccounts(b, n, wakeups[0]);
    RefillGrows(b, wakeups[0]);
    if |wakeups| > 1 {
      NeverGrantedAboveRate(Attempt(b, n, wakeups[0]).0, n, wakeups[1..]);
    }
  }

  /** So the waiting loop ends for an undisturbed waiter exactly when it asks for no more than the rate. */
  lemma WaitEndsIff(b: Bucket, n: nat, now: real)
    requires Level(b) && b.last <= now
    ensures n as real <= b.rate <==>
      exists later :: now <= later && Waited(b, n, [now, later]).1.Granted?
  {
    if n as real <= b.rate {
      var (t, v) := Attempt(b, n, now);
      var later := if v.Sleep? then now + v.seconds else now;
      GrantedAfterOneSleep(b, n, now, later);
      AttemptAccounts(b, n, now);
      assert [now, later][1..] == [later];
      assert Waited(b, n, [now, later]).1.Granted?;
    } else {
      forall later | now <= later ensures !Waited(b, n, [now, later]).1.Granted? {
        NeverGrantedAboveRate(b, n, [now, later]);
      }
    }
  }
}
