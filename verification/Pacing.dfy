/**
 The pacing of a link in the units of its declaration (core/hydra/transport/transport.go): bits, megabits a
 second and seconds.
 */
module Pacing {
  import opened Transport

  function Bits(octets: real): real { 8.0 * octets }

  /** What `mbps` megabits a second carry in some seconds. */
  function Carried(mbps: real, seconds: real): real { 1_000_000.0 * mbps * seconds }

  /** A link set to `mbps` megabits a second, which is more than none. */
  ghost predicate PacedAt(b: Bucket, mbps: real) {
    mbps > 0.0 && !b.closed && Bits(b.rate) == Carried(mbps, 1.0)
  }

  /** Dialling and setting a rate pace the link at that many megabits a second, and at no rate it is not paced. */
  lemma {:induction false} RateIsMegabits(mbps: real, now: real, b: Bucket)
    requires !b.closed
    ensures mbps > 0.0 ==> PacedAt(Dialled(mbps, now), mbps) && PacedAt(b.(rate := RateOf(mbps)), mbps)
    ensures mbps <= 0.0 ==> Dialled(mbps, now).rate == 0.0 && RateOf(mbps) == 0.0
  {
  }

  lemma {:induction false} EarnedInBits(b: Bucket, mbps: real, from: real, to: real)
    requires PacedAt(b, mbps)
    ensures Bits(Earned(b.rate, from, to)) == Carried(mbps, to - from)
  {
    assert 8.0 * ((to - from) * b.rate) == (to - from) * (8.0 * b.rate);
    assert 1_000_000.0 * mbps * (to - from) == (to - from) * (1_000_000.0 * mbps);
  }

  /** Since it was dialled a link has carried no more than its megabits a second for that long. */
  lemma {:induction false} NeverFasterThanDeclared(mbps: real, dialled: real, passes: seq<Pass>)
    requires mbps > 0.0 && passes != [] && Timely(Dialled(mbps, dialled), passes)
    ensures Bits(GrantedBy(Dialled(mbps, dialled), passes) as real) <= Carried(mbps, passes[|passes| - 1].now - dialled)
  {
    var b, end := Dialled(mbps, dialled), passes[|passes| - 1].now;
    RateIsMegabits(mbps, dialled, b);
    assert Level(b) && b.tokens == 0.0 && b.last == dialled && LastTime(b, passes) == end;
    hide Earned, GrantedBy, Carried, After, Timely, Dialled;
    GrantsArePaidFor(b, passes);
    EarnedInBits(b, mbps, dialled, end);
  }

  /** What is in the bucket at a later time: what was there and what was earned, up to one second's worth. */
  function Filled(mbps: real, bits: real, seconds: real): real {
    if bits + Carried(mbps, seconds) > Carried(mbps, 1.0) then Carried(mbps, 1.0) else bits + Carried(mbps, seconds)
  }

  /**
   A pass on a paced link is granted if and only if its bits are in the bucket by then; they are then
   taken out, and nothing else changes the amount.
   */
  lemma {:induction false} GrantedIff(b: Bucket, mbps: real, n: nat, now: real)
    requires PacedAt(b, mbps)
    ensures var (t, v) := Attempt(b, n, now); var there := Filled(mbps, Bits(b.tokens), now - b.last);
      && (v.Granted? <==> Bits(n as real) <= there)
      && Bits(t.tokens) == (if v.Granted? then there - Bits(n as real) else there)
      && t.last == now && t.rate == b.rate && !t.closed
  {
    hide Earned, Carried, Need;
    EarnedInBits(b, mbps, b.last, now);
    PacedIsPositive(b, mbps);
  }

  lemma {:induction false} PacedIsPositive(b: Bucket, mbps: real)
    requires PacedAt(b, mbps)
    ensures b.rate > 0.0 && Carried(mbps, 1.0) > 0.0
  {
  }

  /**
   On a link dialled at `mbps` an undisturbed pass within the first second is granted if and only if the link
   could have carried its bits since; and at any later time if and only if it could in one second.
   */
  lemma {:induction false} DialledGrantsIff(mbps: real, dialled: real, n: nat, now: real)
    requires mbps > 0.0 && dialled <= now
    ensures Attempt(Dialled(mbps, dialled), n, now).1.Granted? <==>
      Bits(n as real) <= Carried(mbps, if now - dialled <= 1.0 then now - dialled else 1.0)
  {
    hide Attempt, Carried;
    var b := Dialled(mbps, dialled);
    RateIsMegabits(mbps, dialled, b);
    GrantedIff(b, mbps, n, now);
    CarriedGrows(mbps, now - dialled);
  }

  lemma {:induction false} CarriedGrows(mbps: real, seconds: real)
    requires mbps > 0.0
    ensures Carried(mbps, seconds) > Carried(mbps, 1.0) <==> seconds > 1.0
  {
    var m := 1_000_000.0 * mbps;
    assert m * seconds - m * 1.0 == m * (seconds - 1.0);
    assert seconds > 1.0 ==> m * (seconds - 1.0) > 0.0;
    assert seconds <= 1.0 ==> m * (seconds - 1.0) <= 0.0;
  }

  /** So some undisturbed pass on it is granted if and only if a second carries the bits. */
  lemma {:induction false} DialledCanGrantIff(mbps: real, dialled: real, n: nat)
    requires mbps > 0.0
    ensures (exists now :: dialled <= now && Attempt(Dialled(mbps, dialled), n, now).1.Granted?)
      <==> Bits(n as real) <= Carried(mbps, 1.0)
  {
    hide Attempt, Carried;
    DialledGrantsIff(mbps, dialled, n, dialled + 1.0);
    forall now | dialled <= now
      ensures Attempt(Dialled(mbps, dialled), n, now).1.Granted? ==> Bits(n as real) <= Carried(mbps, 1.0)
    {
      DialledGrantsIff(mbps, dialled, n, now);
      CarriedGrows(mbps, now - dialled);
    }
  }

  /** Setting a rate keeps what is in the bucket, and from then on paces at the new rate. */
  lemma {:induction false} ResetGrantsIff(b: Bucket, mbps: real, n: nat, now: real)
    requires !b.closed && mbps > 0.0
    ensures Attempt(b.(rate := RateOf(mbps)), n, now).1.Granted?
      <==> Bits(n as real) <= Filled(mbps, Bits(b.tokens), now - b.last)
  {
    hide Attempt, Filled;
    RateIsMegabits(mbps, now, b);
    GrantedIff(b.(rate := RateOf(mbps)), mbps, n, now);
  }

  /** Without a positive rate every pass on an open link is granted at once, and nothing is taken. */
  lemma {:induction false} UnpacedGrantsAll(b: Bucket, mbps: real, n: nat, now: real)
    requires !b.closed && mbps <= 0.0
    ensures Attempt(b.(rate := RateOf(mbps)), n, now) == (b.(rate := RateOf(mbps)), Granted)
    ensures Attempt(Dialled(mbps, now), n, now).1 == Granted
  {
  }

  /** A closed link grants nothing. */
  lemma {:induction false} ClosedGrantsNothing(b: Bucket, n: nat, now: real)
    requires b.closed
    ensures Attempt(b, n, now) == (b, Closed)
  {
  }

  /** A waiter is told to sleep until its bits are there and no longer, but at least a millisecond. */
  lemma {:induction false} SleepIsNeeded(b: Bucket, mbps: real, n: nat, now: real, later: real)
    requires PacedAt(b, mbps) && Bits(n as real) <= Carried(mbps, 1.0) && later >= now
    ensures var (t, v) := Attempt(b, n, now);
      v.Sleep? ==>
        && v.seconds >= 0.001
        && (later >= now + v.seconds ==> Attempt(t, n, later).1.Granted?)
        && (later < now + v.seconds && v.seconds > 0.001 ==> !Attempt(t, n, later).1.Granted?)
  {
    hide Carried, Refilled, Filled, Earned;
    GrantedIff(b, mbps, n, now);
    var (t, v) := Attempt(b, n, now);
    if v.Sleep? {
      PacedIsPositive(b, mbps);
      assert PacedAt(t, mbps);
      GrantedIff(t, mbps, n, later);
      NeededFor(t, mbps, n, now, later);
      assert v.seconds == if Need(t, n) < 0.001 then 0.001 else Need(t, n) by { SleepIs(b, n, now); }
    }
  }

  lemma {:induction false} SleepIs(b: Bucket, n: nat, now: real)
    requires Attempt(b, n, now).1.Sleep? && b.rate > 0.0
    ensures var (t, v) := Attempt(b, n, now);
      t.rate == b.rate && v.seconds == if Need(t, n) < 0.001 then 0.001 else Need(t, n)
  {
  }

  lemma {:induction false} NeededFor(t: Bucket, mbps: real, n: nat, now: real, later: real)
    requires PacedAt(t, mbps) && t.rate > 0.0 && t.last == now && later >= now
    requires Bits(n as real) <= Carried(mbps, 1.0)
    ensures Bits(n as real) <= Filled(mbps, Bits(t.tokens), later - now) <==> later - now >= Need(t, n)
  {
    hide Need;
    var need := Need(t, n);
    NeedTimesRate(t, n);
    EarnedInBits(t, mbps, now, later);
    EarnedInBits(t, mbps, 0.0, need);
    hide Carried;
    assert Earned(t.rate, 0.0, need) == n as real - t.tokens;
    EarnedOrder(t.rate, need, later - now);
  }

  lemma {:induction false} NeedTimesRate(t: Bucket, n: nat)
    requires t.rate > 0.0
    ensures Need(t, n) * t.rate == n as real - t.tokens
  {
  }

  lemma {:induction false} EarnedOrder(rate: real, a: real, b: real)
    requires rate > 0.0
    ensures Earned(rate, 0.0, a) <= Earned(rate, 0.0, b) <==> a <= b
  {
    assert (b - a) * rate == b * rate - a * rate;
  }

  /** At 8 megabits a second 1500 octets are not there after half a millisecond, and are after one and a half. */
  lemma {:induction false} EightMegabits()
    ensures !Attempt(Dialled(8.0, 0.0), 1500, 0.0005).1.Granted?
    ensures Attempt(Dialled(8.0, 0.0), 1500, 0.0015).1.Granted?
  {
    hide Attempt;
    DialledGrantsIff(8.0, 0.0, 1500, 0.0005);
    DialledGrantsIff(8.0, 0.0, 1500, 0.0015);
  }
}
