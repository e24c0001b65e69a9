/**
 The delay-inflation scheduler (core/hydra/sched/sched.go).  Rates, delays and loss are exact reals;
 a link without capacity has an infinite projected time.
 */
module Sched {
  import opened Wrappers
  import opened Strings

  datatype Thread = Thread(id: string, mbps: real, rttMs: real, lossPct: real, queueBytes: nat)

  datatype Time = Finite(seconds: real) | Infinite

  predicate Earlier(a: Time, b: Time) {
    a.Finite? && (b.Infinite? || a.seconds < b.seconds)
  }

  function Loss(lossPct: real): real {
    var loss := lossPct / 100.0;
    if loss < 0.0 then 0.0 else if loss > 0.99 then 0.99 else loss
  }

  function Projected(t: Thread, pktBytes: nat): Time {
    if t.mbps <= 0.0 then Infinite
    else
      var rate := t.mbps * 1_000_000.0 / 8.0;
      Finite((t.queueBytes + pktBytes) as real / rate / (1.0 - Loss(t.lossPct)) + t.rttMs / 2000.0)
  }

  /** `a` is preferred to `b`: it finishes earlier, or at the same time with a lower id. */
  predicate Before(a: Thread, b: Thread, pktBytes: nat) {
    var ta, tb := Projected(a, pktBytes), Projected(b, pktBytes);
    Earlier(ta, tb) || (ta == tb && LexLess(a.id, b.id))
  }

  /** The scan of `Pick`, front to back: a later candidate replaces the best one only if preferred. */
  function Best(threads: seq<Thread>, pktBytes: nat): Thread
    requires threads != []
  {
    var last := threads[|threads| - 1];
    if |threads| == 1 then last
    else
      var best := Best(threads[..|threads| - 1], pktBytes);
      if Before(last, best, pktBytes) then last else best
  }

  function PickFrom(threads: seq<Thread>, pktBytes: nat): Option<Thread> {
    if threads == [] || Projected(Best(threads, pktBytes), pktBytes).Infinite? then None
    else Some(Best(threads, pktBytes))
  }

  method Pick(threads: seq<Thread>, pktBytes: nat) returns (r: Option<Thread>)
    ensures r == PickFrom(threads, pktBytes)
  {
    if |threads| == 0 {
      return None;
    }
    var best := threads[0];
    var bestT := Projected(best, pktBytes);
    assert threads[..1] == [best];
    for k := 1 to |threads|
      invariant best == Best(threads[..k], pktBytes) && bestT == Projected(best, pktBytes)
    {
      var t := threads[k];
      assert threads[..k + 1][..k] == threads[..k];
      var pt := Projected(t, pktBytes);
      if Earlier(pt, bestT) || (pt == bestT && LexLess(t.id, best.id)) {
        best, bestT := t, pt;
      }
    }
    assert threads[..|threads|] == threads;
    if bestT.Infinite? {
      return None;
    }
    r := Some(best);
  }

  // ---- the preference is a strict order ----

  lemma BeforeTransitive(a: Thread, b: Thread, c: Thread, pktBytes: nat)
    requires !Before(b, a, pktBytes) && !Before(c, b, pktBytes)
    ensures !Before(c, a, pktBytes)
  {
    LexTotal(a.id, b.id);
    LexTotal(b.id, c.id);
    LexIrreflexive(a.id);
    if LexLess(c.id, a.id) {
      if LexLess(a.id, b.id) { LexTransitive(c.id, a.id, b.id); }
      if LexLess(b.id, c.id) { LexTransitive(b.id, c.id, a.id); }
    }
  }

  /** The chosen candidate is one of those offered, and no other is preferred to it. */
  lemma {:induction false} BestIsEarliest(threads: seq<Thread>, pktBytes: nat)
    requires threads != []
    ensures Best(threads, pktBytes) in threads
    ensures forall t <- threads :: !Before(t, Best(threads, pktBytes), pktBytes)
  {
    var init, last := threads[..|threads| - 1], threads[|threads| - 1];
    var best := Best(threads, pktBytes);
    assert threads == init + [last];
    LexIrreflexive(last.id);
    if init != [] {
      BestIsEarliest(init, pktBytes);
      var prior := Best(init, pktBytes);
      if best == last {
        assert !Before(prior, last, pktBytes) by {
          LexIrreflexive(prior.id);
          if LexLess(last.id, prior.id) && LexLess(prior.id, last.id) { LexTransitive(last.id, prior.id, last.id); }
        }
        forall t | t in init ensures !Before(t, last, pktBytes) {
          BeforeTransitive(last, prior, t, pktBytes);
        }
      }
    }
  }

  /**
   `Pick` succeeds exactly when some candidate has capacity, and then returns one that finishes no
   later than any other candidate.
   */
  lemma PickFinishesFirst(threads: seq<Thread>, pktBytes: nat)
    ensures PickFrom(threads, pktBytes).Some? <==> exists t <- threads :: t.mbps > 0.0
    ensures PickFrom(threads, pktBytes).Some? ==>
      var best := PickFrom(threads, pktBytes).value;
      && best in threads && best.mbps > 0.0
      && forall t <- threads :: t.mbps > 0.0 ==> Projected(best, pktBytes).seconds <= Projected(t, pktBytes).seconds
  {
    if threads != [] {
      BestIsEarliest(threads, pktBytes);
    }
  }

  predicate DistinctIds(threads: seq<Thread>) {
    forall i, j :: 0 <= i < j < |threads| ==> threads[i].id != threads[j].id
  }

  /** With distinct ids the choice depends on which candidates there are, not on their order. */
  lemma PickIgnoresOrder(threads: seq<Thread>, others: seq<Thread>, pktBytes: nat)
    requires DistinctIds(threads)
    requires forall t :: t in threads <==> t in others
    ensures PickFrom(threads, pktBytes) == PickFrom(others, pktBytes)
  {
    assert others != [] ==> others[0] in others;
    if threads != [] {
      assert threads[0] in others;
      BestIsEarliest(threads, pktBytes);
      BestIsEarliest(others, pktBytes);
      var a, b := Best(threads, pktBytes), Best(others, pktBytes);
      LexTotal(a.id, b.id);
      assert a.id == b.id;
      var i :| 0 <= i < |threads| && threads[i] == a;
      var j :| 0 <= j < |threads| && threads[j] == b;
    }
  }

  /** Any listing of the candidates in which none is preferred to an earlier one. */
  ghost predicate RankedBy(ranked: seq<Thread>, threads: seq<Thread>, pktBytes: nat) {
    && multiset(ranked) == multiset(threads)
    && forall i, j :: 0 <= i < j < |ranked| ==> !Before(ranked[j], ranked[i], pktBytes)
  }

  /** The head of the ranking is what `Pick` returns. */
  lemma RankHeadIsPick(ranked: seq<Thread>, threads: seq<Thread>, pktBytes: nat)
    requires RankedBy(ranked, threads, pktBytes) && DistinctIds(threads)
    ensures PickFrom(threads, pktBytes) ==
      if ranked == [] || Projected(ranked[0], pktBytes).Infinite? then None else Some(ranked[0])
  {
    assert |ranked| == |multiset(ranked)| == |multiset(threads)| == |threads|;
    forall t ensures t in threads <==> t in ranked {
      assert t in threads <==> t in multiset(threads);
      assert t in ranked <==> t in multiset(ranked);
    }
    if ranked != [] {
      var best := Best(threads, pktBytes);
      BestIsEarliest(threads, pktBytes);
      var k :| 0 <= k < |ranked| && ranked[k] == best;
      LexTotal(best.id, ranked[0].id);
      LexIrreflexive(best.id);
      assert ranked[0] in ranked;
      assert !Before(best, ranked[0], pktBytes) && !Before(ranked[0], best, pktBytes);
      assert best.id == ranked[0].id;
      var i :| 0 <= i < |threads| && threads[i] == best;
      var j :| 0 <= j < |threads| && threads[j] == ranked[0];
    }
  }

  /** With distinct ids there is only one ranking, in whatever order the candidates were given. */
  lemma RankingIsUnique(a: seq<Thread>, b: seq<Thread>, threads: seq<Thread>, pktBytes: nat)
    requires RankedBy(a, threads, pktBytes) && RankedBy(b, threads, pktBytes) && DistinctIds(threads)
    ensures a == b
  {
    hide Before;
    forall x, y | x in a && y in a && x.id == y.id ensures x == y {
      assert x in multiset(a) && y in multiset(a);
      assert x in multiset(threads) && y in multiset(threads);
      var i :| 0 <= i < |threads| && threads[i] == x;
      var j :| 0 <= j < |threads| && threads[j] == y;
      assert !(i < j) && !(j < i);
    }
    SameOrder(a, b, pktBytes);
  }

  lemma {:induction false} SameOrder(a: seq<Thread>, b: seq<Thread>, pktBytes: nat)
    requires multiset(a) == multiset(b)
    requires forall x, y :: x in a && y in a && x.id == y.id ==> x == y
    requires forall i, j :: 0 <= i < j < |a| ==> !Before(a[j], a[i], pktBytes)
    requires forall i, j :: 0 <= i < j < |b| ==> !Before(b[j], b[i], pktBytes)
    ensures a == b
  {
    hide Before;
    assert |a| == |multiset(a)| == |multiset(b)| == |b|;
    if a != [] {
      assert a[0] in multiset(b) && b[0] in multiset(a);
      var i :| 0 <= i < |a| && a[i] == b[0];
      var j :| 0 <= j < |b| && b[j] == a[0];
      assert i > 0 ==> !Before(a[i], a[0], pktBytes);
      assert j > 0 ==> !Before(b[j], b[0], pktBytes);
      BeforeTotal(a[0], b[0], pktBytes);
      assert a[0] == b[0];
      TailsAgree(a, b);
      SameOrder(a[1..], b[1..], pktBytes);
    }
  }

  lemma TailsAgree(a: seq<Thread>, b: seq<Thread>)
    requires a != [] && b != [] && a[0] == b[0] && multiset(a) == multiset(b)
    ensures multiset(a[1..]) == multiset(b[1..]) && a == [a[0]] + a[1..] && b == [b[0]] + b[1..]
  {
    assert a == [a[0]] + a[1..] && b == [b[0]] + b[1..];
    assert multiset(a[1..]) == multiset(a) - multiset{a[0]};
    assert multiset(b[1..]) == multiset(b) - multiset{b[0]};
  }

  lemma BeforeTotal(a: Thread, b: Thread, pktBytes: nat)
    ensures a.id != b.id ==> Before(a, b, pktBytes) || Before(b, a, pktBytes)
  {
    LexTotal(a.id, b.id);
  }

  // ---- the projection in its own units ----

  /** What share of its capacity a link keeps under some per cent of loss; a hundredth is always left. */
  function Kept(lossPct: real): real {
    if lossPct <= 0.0 then 1.0 else if lossPct >= 99.0 then 0.01 else (100.0 - lossPct) / 100.0
  }

  /**
   The projected time is when a link that loses nothing of `Kept` of its megabits has carried the bits that
   wait and the packet's, plus half a round trip.
   */
  lemma {:induction false} ProjectedCarries(t: Thread, pktBytes: nat)
    ensures t.mbps <= 0.0 <==> Projected(t, pktBytes).Infinite?
    ensures t.mbps > 0.0 ==>
      var waited := Projected(t, pktBytes).seconds - t.rttMs / 1000.0 / 2.0;
      Carries(1_000_000.0 * t.mbps * Kept(t.lossPct), waited, 8.0 * (t.queueBytes + pktBytes) as real)
  {
    if t.mbps > 0.0 {
      KeptIsRest(t.lossPct);
      var bytes, rate, kept := (t.queueBytes + pktBytes) as real, t.mbps * 1_000_000.0 / 8.0, Kept(t.lossPct);
      assert rate > 0.0 && kept > 0.0;
      DivideTwice(bytes, rate, kept);
    }
  }

  ghost predicate Carries(bitsPerSecond: real, seconds: real, bits: real) { bitsPerSecond * seconds == bits }

  lemma {:induction false} KeptIsRest(lossPct: real)
    ensures 1.0 - Loss(lossPct) == Kept(lossPct) && Kept(lossPct) > 0.0
  {
  }

  lemma {:induction false} DivideTwice(bytes: real, rate: real, kept: real)
    requires rate > 0.0 && kept > 0.0
    ensures (8.0 * rate * kept) * (bytes / rate / kept) == 8.0 * bytes
  {
    var q := bytes / rate;
    assert q * rate == bytes;
    assert q / kept * kept == q;
    assert (8.0 * rate * kept) * (q / kept) == 8.0 * rate * (q / kept * kept);
  }
}
