/**
 How well striping balances the links.  Payloads are striped over a fixed set of links that are not
 drained meanwhile (core/hydra/fabric/fabric.go, `Strip`, which sizes the choice by the payload and
 charges the frame, 24 octets more).
 */
module LoadBound {
  import opened Wrappers
  import opened Bearer
  import Sched
  import Shim

  function Chosen(links: Links, ids: seq<string>, len: nat): (id: Option<string>) {
    match Sched.PickFrom(CandidatesOf(links, ids), len)
    case None => None
    case Some(t) => Some(t.id)
  }

  /** The queues after one payload of `len` octets. */
  function Striped(links: Links, ids: seq<string>, len: nat): Links {
    match Chosen(links, ids, len)
    case None => links
    case Some(id) => Charged(links, id, Shim.HEADER_LEN + len)
  }

  function StripedAll(links: Links, ids: seq<string>, lens: seq<nat>): Links {
    if lens == [] then links
    else Striped(StripedAll(links, ids, lens[..|lens| - 1]), ids, lens[|lens| - 1])
  }

  /** Some payload was assigned to `id`. */
  predicate Used(links: Links, ids: seq<string>, lens: seq<nat>, id: string) {
    lens != [] &&
    (Chosen(StripedAll(links, ids, lens[..|lens| - 1]), ids, lens[|lens| - 1]) == Some(id)
     || Used(links, ids, lens[..|lens| - 1], id))
  }

  /** Octets per second that get through, retransmissions included. */
  function Rate(t: Thread): (r: real)
    ensures t.mbps > 0.0 <==> r > 0.0
  {
    t.mbps * 1_000_000.0 / 8.0 * (1.0 - Sched.Loss(t.lossPct))
  }

  function Delay(t: Thread): real { t.rttMs / 2000.0 }

  /** When `extra` further octets would have arrived over a link, after all that is queued there. */
  function FinishAfter(t: Thread, extra: nat): real
    requires t.mbps > 0.0
  {
    (t.queueBytes + extra) as real / Rate(t) + Delay(t)
  }

  /** When the last octet now queued on a link arrives. */
  function Finish(t: Thread): real
    requires t.mbps > 0.0
  {
    FinishAfter(t, 0)
  }

  /** The time one header takes. */
  function HeaderTime(t: Thread): real
    requires t.mbps > 0.0
  {
    Shim.HEADER_LEN as real / Rate(t)
  }

  lemma DivTwice(x: real, a: real, b: real)
    requires a > 0.0 && b > 0.0
    ensures a * b > 0.0 && x / a / b == x / (a * b)
  {
    var y := x / a / b;
    assert y * b == x / a;
    assert y * (a * b) == y * b * a == x;
  }

  lemma DivMonotone(x: real, y: real, r: real)
    requires r > 0.0 && x <= y
    ensures x / r <= y / r
  {
  }

  lemma FinishGrows(before: Thread, after: Thread, less: nat, more: nat)
    requires before.mbps > 0.0 && after == before.(queueBytes := after.queueBytes)
    requires before.queueBytes + less <= after.queueBytes + more
    ensures FinishAfter(before, less) <= FinishAfter(after, more)
  {
    DivMonotone((before.queueBytes + less) as real, (after.queueBytes + more) as real, Rate(before));
  }

  lemma FinishWithHeader(before: Thread, len: nat)
    requires before.mbps > 0.0
    ensures var after := before.(queueBytes := before.queueBytes + (Shim.HEADER_LEN + len));
      Finish(after) == FinishAfter(before, len) + HeaderTime(after)
  {
    var x, h, r := (before.queueBytes + len) as real, Shim.HEADER_LEN as real, Rate(before);
    assert (x + h) / r == x / r + h / r;
  }

  lemma ProjectedIs(t: Thread, len: nat)
    requires t.mbps > 0.0
    ensures Sched.Projected(t.Candidate(), len) == Sched.Finite(FinishAfter(t, len))
  {
    DivTwice((t.queueBytes + len) as real, t.mbps * 1_000_000.0 / 8.0, 1.0 - Sched.Loss(t.lossPct));
  }

  /** Striping changes nothing but queue lengths, and those only grow. */
  ghost predicate OnlyQueuesGrew(before: Links, after: Links) {
    && after.Keys == before.Keys
    && forall id <- before ::
         before[id].queueBytes <= after[id].queueBytes &&
         after[id] == before[id].(queueBytes := after[id].queueBytes)
  }

  lemma {:induction false} StripedAllOnlyGrows(links: Links, ids: seq<string>, lens: seq<nat>)
    ensures OnlyQueuesGrew(links, StripedAll(links, ids, lens))
  {
    if lens != [] {
      StripedAllOnlyGrows(links, ids, lens[..|lens| - 1]);
    }
  }

  /** The link a payload goes to is a live one of the weave that finishes it no later than any other. */
  lemma ChosenFinishesFirst(links: Links, ids: seq<string>, len: nat, j: string)
    requires Keyed(links) && j in ids && Live(links, j) && links[j].mbps > 0.0
    ensures Chosen(links, ids, len).Some?
    ensures var i := Chosen(links, ids, len).value;
      && i in ids && Live(links, i) && links[i].mbps > 0.0
      && FinishAfter(links[i], len) <= FinishAfter(links[j], len)
  {
    var cands := CandidatesOf(links, ids);
    CandidatesAre(links, ids, links[j].Candidate());
    Sched.PickFinishesFirst(cands, len);
    var best := Sched.PickFrom(cands, len).value;
    CandidatesAre(links, ids, best);
    ProjectedIs(links[best.id], len);
    ProjectedIs(links[j], len);
  }

  /**
   Load bound.  After any number of payloads of at most `most` octets, a link that was used is never
   ahead of another live link by more than one payload there and one header here.
   */
  lemma {:induction false} UsedLinksStayLevel(links: Links, ids: seq<string>, lens: seq<nat>, most: nat, i: string,
      j: string)
    requires Keyed(links) && j in ids && Live(links, j) && links[j].mbps > 0.0
    requires forall k :: 0 <= k < |lens| ==> lens[k] <= most
    requires Used(links, ids, lens, i)
    ensures var q := StripedAll(links, ids, lens);
      && i in q && i in ids && Live(q, i) && q[i].mbps > 0.0 && j in q && q[j].mbps > 0.0
      && Finish(q[i]) <= FinishAfter(q[j], most) + HeaderTime(q[i])
  {
    var init, len := lens[..|lens| - 1], lens[|lens| - 1];
    var p := StripedAll(links, ids, init);
    var q := StripedAll(links, ids, lens);
    StripedAllOnlyGrows(links, ids, init);
    StripedAllOnlyGrows(links, ids, lens);
    ChosenFinishesFirst(p, ids, len, j);
    FinishGrows(p[j], q[j], len, most);
    if Chosen(p, ids, len) == Some(i) {
      FinishWithHeader(p[i], len);
    } else {
      UsedLinksStayLevel(links, ids, init, most, i, j);
      FinishGrows(p[j], q[j], most, most);
      assert q[i] == p[i];
    }
  }

  // ---- the makespan ----

  function Sum(xs: seq<real>): real {
    if xs == [] then 0.0 else Sum(xs[..|xs| - 1]) + xs[|xs| - 1]
  }

  function Rates(links: Links, live: seq<string>): (xs: seq<real>)
    requires forall id <- live :: id in links
  {
    seq(|live|, k requires 0 <= k < |live| => Rate(links[live[k]]))
  }

  /** What a link carries, one payload more, and what is in flight during its own delay. */
  function Load(t: Thread, most: nat): real {
    (t.queueBytes + most) as real + Rate(t) * Delay(t)
  }

  function Loads(links: Links, live: seq<string>, most: nat): (xs: seq<real>)
    requires forall id <- live :: id in links
  {
    seq(|live|, k requires 0 <= k < |live| => Load(links[live[k]], most))
  }

  /** Working at `rate`, the time `t` is no more than `load` needs, up to a constant time `c`. */
  predicate Within(t: real, rate: real, load: real, c: real) {
    t * rate <= load + c * rate
  }

  lemma ScaledBound(link: Thread, most: nat, t: real, c: real)
    requires link.mbps > 0.0 && t <= FinishAfter(link, most) + c
    ensures Within(t, Rate(link), Load(link, most), c)
  {
    var q, r, d := (link.queueBytes + most) as real, Rate(link), Delay(link);
    assert q / r * r == q;
    assert (q / r + d + c) * r == q / r * r + r * d + c * r;
    assert t * r <= (q / r + d + c) * r;
  }

  lemma AddBounds(t: real, c: real, r1: real, r2: real, a1: real, a2: real)
    requires Within(t, r1, a1, c) && Within(t, r2, a2, c)
    ensures Within(t, r1 + r2, a1 + a2, c)
  {
  }

  lemma {:induction false} SumBounds(t: real, rates: seq<real>, loads: seq<real>, c: real)
    requires |rates| == |loads| && forall k :: 0 <= k < |rates| ==> Within(t, rates[k], loads[k], c)
    ensures Within(t, Sum(rates), Sum(loads), c)
  {
    if rates != [] {
      var n := |rates| - 1;
      SumBounds(t, rates[..n], loads[..n], c);
      AddBounds(t, c, Sum(rates[..n]), rates[n], Sum(loads[..n]), loads[n]);
    }
  }

  ghost predicate WithinAggregate(q: Links, i: string, live: seq<string>, most: nat)
    requires forall id <- live :: id in q
  {
    && i in q && q[i].mbps > 0.0
    && Within(Finish(q[i]), Sum(Rates(q, live)), Sum(Loads(q, live, most)), HeaderTime(q[i]))
  }

  /**
   Makespan.  The weave works at the summed rate of its links: the time at which any used link
   finishes is no more than that aggregate needs for what the links carry, one payload per link and
   what is in flight during their delays, up to one header on the used link.
   */
  lemma FinishWithinAggregate(links: Links, ids: seq<string>, lens: seq<nat>, most: nat, i: string, live: seq<string>)
    requires Keyed(links)
    requires live != [] && forall id <- live :: id in ids && Live(links, id) && links[id].mbps > 0.0
    requires forall k :: 0 <= k < |lens| ==> lens[k] <= most
    requires Used(links, ids, lens, i)
    ensures var q := StripedAll(links, ids, lens);
      (forall id <- live :: id in q) && WithinAggregate(q, i, live, most)
  {
    var q := StripedAll(links, ids, lens);
    UsedLinksStayLevel(links, ids, lens, most, i, live[0]);
    StripedAllOnlyGrows(links, ids, lens);
    var rates, loads := Rates(q, live), Loads(q, live, most);
    forall k | 0 <= k < |live|
      ensures Within(Finish(q[i]), rates[k], loads[k], HeaderTime(q[i]))
    {
      UsedLinksStayLevel(links, ids, lens, most, i, live[k]);
      ScaledBound(q[live[k]], most, Finish(q[i]), HeaderTime(q[i]));
    }
    SumBounds(Finish(q[i]), rates, loads, HeaderTime(q[i]));
  }

  // ---- what the queues add up to ----

  function TotalQueue(links: Links, live: seq<string>): nat
    requires forall id <- live :: id in links
  {
    if live == [] then 0
    else TotalQueue(links, live[..|live| - 1]) + links[live[|live| - 1]].queueBytes
  }

  /** All octets framed by `lens`. */
  function Framed(lens: seq<nat>): nat {
    if lens == [] then 0 else Framed(lens[..|lens| - 1]) + Shim.HEADER_LEN + lens[|lens| - 1]
  }

  predicate NoRepeats(live: seq<string>) {
    forall a, b :: 0 <= a < b < |live| ==> live[a] != live[b]
  }

  lemma {:induction false} ChargeOneLink(links: Links, live: seq<string>, id: string, bytes: nat)
    requires NoRepeats(live) && (forall x <- live :: x in links) && id in links
    ensures forall x <- live :: x in Charged(links, id, bytes)
    ensures TotalQueue(Charged(links, id, bytes), live) == TotalQueue(links, live) + (if id in live then bytes else 0)
  {
    if live != [] {
      ChargeOneLink(links, live[..|live| - 1], id, bytes);
      assert live == live[..|live| - 1] + [live[|live| - 1]];
    }
  }

  /** Nothing is lost on the way to the queues: they hold exactly every frame striped. */
  lemma {:induction false} QueuesHoldEveryFrame(links: Links, ids: seq<string>, lens: seq<nat>, live: seq<string>)
    requires Keyed(links) && NoRepeats(live) && live != []
    requires forall id: string :: id in live <==> id in ids && Live(links, id)
    requires (forall id <- live :: id in links) && exists id <- live :: links[id].mbps > 0.0
    ensures forall id <- live :: id in StripedAll(links, ids, lens)
    ensures TotalQueue(StripedAll(links, ids, lens), live) == TotalQueue(links, live) + Framed(lens)
  {
    if lens != [] {
      var init, len := lens[..|lens| - 1], lens[|lens| - 1];
      QueuesHoldEveryFrame(links, ids, init, live);
      StripedAllOnlyGrows(links, ids, init);
      var p := StripedAll(links, ids, init);
      var j :| j in live && links[j].mbps > 0.0;
      ChosenFinishesFirst(p, ids, len, j);
      ChargeOneLink(p, live, Chosen(p, ids, len).value, Shim.HEADER_LEN + len);
    }
  }

  // ---- against any other assignment ----

  function Overhead(t: Thread, most: nat): real { most as real + Rate(t) * Delay(t) }

  function Overheads(links: Links, live: seq<string>, most: nat): (xs: seq<real>)
    requires forall id <- live :: id in links
  {
    seq(|live|, k requires 0 <= k < |live| => Overhead(links[live[k]], most))
  }

  lemma {:induction false} LoadsSplit(links: Links, live: seq<string>, most: nat)
    requires forall id <- live :: id in links
    ensures Sum(Loads(links, live, most)) == TotalQueue(links, live) as real + Sum(Overheads(links, live, most))
  {
    if live != [] {
      var init := live[..|live| - 1];
      LoadsSplit(links, init, most);
      assert Loads(links, live, most)[..|init|] == Loads(links, init, most);
      assert Overheads(links, live, most)[..|init|] == Overheads(links, init, most);
    }
  }

  lemma QueueWithin(link: Thread, t: real)
    requires link.mbps > 0.0 && link.rttMs >= 0.0 && Finish(link) <= t
    ensures Within(0.0, Rate(link), t * Rate(link) - link.queueBytes as real, 0.0)
  {
    var q, r := link.queueBytes as real, Rate(link);
    assert q / r <= t;
    assert q / r * r == q;
    assert q / r * r <= t * r;
  }

  predicate Covers(queue: nat, t: real, rate: real) {
    queue as real <= t * rate
  }

  /** Everything queued on these links has arrived by time `t`. */
  ghost predicate DoneBy(links: Links, live: seq<string>, t: real) {
    forall id <- live :: id in links && links[id].mbps > 0.0 && links[id].rttMs >= 0.0 && Finish(links[id]) <= t
  }

  /** However the octets are spread, they need the aggregate rate for that long. */
  lemma {:induction false} AnyAssignmentNeeds(links: Links, live: seq<string>, t: real)
    requires DoneBy(links, live, t)
    ensures Covers(TotalQueue(links, live), t, Sum(Rates(links, live)))
  {
    if live != [] {
      var init, link := live[..|live| - 1], links[live[|live| - 1]];
      AnyAssignmentNeeds(links, init, t);
      QueueWithin(link, t);
      assert Rates(links, live)[..|init|] == Rates(links, init);
      TimesSum(t, Sum(Rates(links, init)), Rate(link));
    }
  }

  lemma TimesSum(t: real, a: real, b: real)
    ensures t * (a + b) == t * a + t * b
  {
  }

  /** The links of `live` with the same properties and other queues. */
  ghost predicate Rearranged(links: Links, other: Links, live: seq<string>) {
    forall id <- live :: id in links && id in other && other[id] == links[id].(queueBytes := other[id].queueBytes)
  }

  lemma SameRates(links: Links, other: Links, live: seq<string>)
    requires Rearranged(links, other, live)
    ensures Rates(other, live) == Rates(links, live)
  {
    forall k | 0 <= k < |live| ensures Rates(other, live)[k] == Rates(links, live)[k] {
      assert live[k] in live;
    }
  }

  /**
   Near-optimality.  Let `other` be any assignment of the same number of octets to the same links
   that has everything delivered by time `t`.  Then the scheduler's last link exceeds `t` by no more
   than the aggregate needs for one payload per link and the links' delays, and one header.
   */
  lemma NearlyAsFastAsAny(links: Links, ids: seq<string>, lens: seq<nat>, most: nat, i: string,
                          live: seq<string>, q: Links, other: Links, t: real)
    requires Keyed(links)
    requires live != [] && forall id <- live :: id in ids && Live(links, id) && links[id].mbps > 0.0
    requires forall k :: 0 <= k < |lens| ==> lens[k] <= most
    requires Used(links, ids, lens, i)
    requires q == StripedAll(links, ids, lens) && Rearranged(q, other, live)
    requires DoneBy(other, live, t) && TotalQueue(other, live) == TotalQueue(q, live)
    ensures i in q && q[i].mbps > 0.0
    ensures Within(Finish(q[i]) - t, Sum(Rates(q, live)), Sum(Overheads(q, live, most)), HeaderTime(q[i]))
  {
    assert WithinAggregate(q, i, live, most) by {
      FinishWithinAggregate(links, ids, lens, most, i, live);
    }
    NearOptimalQueues(q, other, live, most, i, t);
  }

  lemma NearOptimalQueues(q: Links, other: Links, live: seq<string>, most: nat, i: string, t: real)
    requires Rearranged(q, other, live) && WithinAggregate(q, i, live, most)
    requires DoneBy(other, live, t) && TotalQueue(other, live) == TotalQueue(q, live)
    ensures Within(Finish(q[i]) - t, Sum(Rates(q, live)), Sum(Overheads(q, live, most)), HeaderTime(q[i]))
  {
    LoadsSplit(q, live, most);
    AnyAssignmentNeeds(other, live, t);
    SameRates(q, other, live);
    Shifted(Finish(q[i]), t, Sum(Rates(q, live)), TotalQueue(q, live), Sum(Overheads(q, live, most)), HeaderTime(q[i]));
  }

  lemma Shifted(f: real, t: real, rate: real, queue: nat, overhead: real, c: real)
    requires Within(f, rate, queue as real + overhead, c) && Covers(queue, t, rate)
    ensures Within(f - t, rate, overhead, c)
  {
    assert (f - t) * rate == f * rate - t * rate;
  }
}
