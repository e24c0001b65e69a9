/**
 A weave from end to end: one engine stripes, one engine reassembles, and in between is a channel
 that loses, repeats and reorders frames as it likes.
 */
module Weave {
  import opened Bytes
  import opened Wrappers
  import opened Fabric
  import Bearer
  import Reorder
  import opened ReorderRuns
  import ReorderRefinement
  import Shim

  /**
   Something happens: the edge is handed a payload, the channel delivers the `frame`-th frame ever
   sent (again, perhaps), or the edge's links change, by draining, measurement or operator.
   */
  datatype Action =
    | Send(payload: Payload, tsNanos: int64)
    | Receive(frame: nat, at: Reading)
    | Relink(links: Bearer.Links)

  datatype Sent = Sent(number: nat, payload: Payload, tsNanos: int64, frame: Octets)

  datatype Wire = Wire(edge: State, anchor: State, sent: seq<Sent>)

  datatype Setup = Setup(id: string, hash: uint32, edge: State, anchor: State)
  {
    /** Both ends have just created the weave and nothing has left the anchor. */
    predicate Fresh() {
      && id in edge.weaves && edge.weaves[id].number == 0 && edge.weaves[id].framesSent == 0
      && id in anchor.weaves && anchor.weaves[id].window == NewWindow() && anchor.egress == []
    }
  }

  ghost function Act(u: Setup, w: Wire, action: Action): Wire {
    match action
    case Send(payload, ts) =>
      var (edge, r) := StripIn(w.edge, u.hash, u.id, payload, ts);
      w.(edge := edge, sent := if r.Ok? then w.sent + [Sent(r.value.number, payload, ts, r.value.frame)] else w.sent)
    case Receive(k, at) =>
      if k < |w.sent| then w.(anchor := IngestIn(w.anchor, u.hash, u.id, w.sent[k].frame, at).0) else w
    case Relink(links) => w.(edge := w.edge.(links := links))
  }

  ghost function After(u: Setup, actions: seq<Action>): Wire {
    if actions == [] then Wire(u.edge, u.anchor, [])
    else Act(u, After(u, actions[..|actions| - 1]), actions[|actions| - 1])
  }

  function Payloads(sent: seq<Sent>): (ps: seq<Payload>)
    ensures |ps| == |sent|
  {
    seq(|sent|, i requires 0 <= i < |sent| => sent[i].payload)
  }

  function Released(log: seq<Delivery>): (ps: seq<Payload>)
    ensures |ps| == |log|
  {
    seq(|log|, i requires 0 <= i < |log| => log[i].payload)
  }

  // ---- what the anchor's window goes through ----

  ghost function ArrivalsOf(u: Setup, actions: seq<Action>): seq<Event> {
    if actions == [] then [SetTimeout(Reorder.DEFAULT_GAP_TIMEOUT)]
    else
      var init := actions[..|actions| - 1];
      var sent := After(u, init).sent;
      match actions[|actions| - 1]
      case Receive(k, at) =>
        if k < |sent| then ArrivalsOf(u, init) + [Arrive(ToArrival(sent[k].number, sent[k].payload, at))]
        else ArrivalsOf(u, init)
      case _ => ArrivalsOf(u, init)
  }

  ghost predicate SentGood(u: Setup, sent: seq<Sent>, number: nat) {
    && (forall k :: 0 <= k < |sent| ==> 1 <= sent[k].number <= number)
    && (forall j, k :: 0 <= j < k < |sent| ==> sent[j].number < sent[k].number)
    && (forall k :: 0 <= k < |sent| ==> Readable(u, sent[k]))
  }

  /** The receiver reads the sender's header and payload back from the frame. */
  ghost predicate Readable(u: Setup, s: Sent) {
    s.number < 0x1_0000_0000_0000_0000
    && Shim.Decode(s.frame) == Ok((Shim.New(u.hash, s.number, s.tsNanos), s.payload))
  }

  ghost predicate WindowGood(u: Setup, anchor: State, events: seq<Event>) {
    && u.id in anchor.weaves
    && anchor.weaves[u.id].window == Execute(0, 1, events).state
    && anchor.egress == Released(Execute(0, 1, events).log)
  }

  ghost predicate FromSender(e: Event, sent: seq<Sent>) {
    e.Arrive? ==> SentAs(sent, e.arrival.number, e.arrival.payload)
  }

  /** The edge sent this payload under this number. */
  ghost predicate SentAs(sent: seq<Sent>, number: nat, payload: Payload) {
    exists k :: 0 <= k < |sent| && sent[k].number == number && sent[k].payload == payload
  }

  ghost predicate EdgeGood(u: Setup, w: Wire, steps: nat) {
    && u.id in w.edge.weaves
    && w.edge.weaves[u.id].framesSent == |w.sent| <= w.edge.weaves[u.id].number <= steps
    && SentGood(u, w.sent, w.edge.weaves[u.id].number)
  }

  /** What striping does to the counters, and the frame it builds. */
  lemma StripFacts(u: Setup, s: State, payload: Payload, ts: int64)
    requires u.id in s.weaves && s.weaves[u.id].number + 1 < 0x1_0000_0000_0000_0000
    ensures var (t, r) := StripIn(s, u.hash, u.id, payload, ts);
      && u.id in t.weaves
      && (if r.Ok? then
            && r.value.number == t.weaves[u.id].number == s.weaves[u.id].number + 1
            && t.weaves[u.id].framesSent == s.weaves[u.id].framesSent + 1
            && r.value.frame == Shim.Frame(Shim.New(u.hash, s.weaves[u.id].number + 1, ts), payload)
          else
            && s.weaves[u.id].number <= t.weaves[u.id].number <= s.weaves[u.id].number + 1
            && t.weaves[u.id].framesSent == s.weaves[u.id].framesSent)
  {
    assert WireNumber(s.weaves[u.id].number + 1) == s.weaves[u.id].number + 1;
  }

  lemma SentGrows(u: Setup, sent: seq<Sent>, number: nat, next: Sent)
    requires SentGood(u, sent, number) && number < next.number && Readable(u, next)
    ensures SentGood(u, sent + [next], next.number)
  {
    var t := sent + [next];
    forall k | 0 <= k < |t| ensures 1 <= t[k].number <= next.number && Readable(u, t[k]) {
      if k < |sent| { assert t[k] == sent[k]; }
    }
  }

  lemma SendKeepsEdge(u: Setup, w: Wire, steps: nat, payload: Payload, ts: int64)
    requires EdgeGood(u, w, steps) && steps + 1 < 0x1_0000_0000_0000_0000
    ensures var t := Act(u, w, Send(payload, ts));
      EdgeGood(u, t, steps + 1) && t.anchor == w.anchor && w.sent <= t.sent
  {
    var (edge, r) := StripIn(w.edge, u.hash, u.id, payload, ts);
    StripFacts(u, w.edge, payload, ts);
    if r.Ok? {
      Shim.DecodeFrame(Shim.New(u.hash, r.value.number, ts), payload);
      SentGrows(u, w.sent, w.edge.weaves[u.id].number, Sent(r.value.number, payload, ts, r.value.frame));
    }
  }

  lemma ExecuteNext(events: seq<Event>, e: Event)
    ensures Execute(0, 1, events + [e]) == Advance(Execute(0, 1, events), e)
  {
    assert (events + [e])[..|events|] == events;
  }

  lemma IngestPushes(u: Setup, anchor: State, s: Sent, at: Reading)
    requires u.id in anchor.weaves && Readable(u, s)
    ensures var (t, batch) := PushedInto(anchor, u.id, ToArrival(s.number, s.payload, at));
      IngestIn(anchor, u.hash, u.id, s.frame, at).0 == t.(egress := t.egress + batch)
  {
  }

  lemma PushKeepsWindow(u: Setup, anchor: State, events: seq<Event>, a: Reorder.Arrival)
    requires WindowGood(u, anchor, events)
    ensures var (t, batch) := PushedInto(anchor, u.id, a);
      WindowGood(u, t.(egress := t.egress + batch), events + [Arrive(a)])
  {
    ExecuteNext(events, Arrive(a));
    var r := Execute(0, 1, events);
    var o := Reorder.Step(r.state, a);
    ReleasedAppend(r.log, o.first, o.batch);
  }

  lemma ReleasedAppend(log: seq<Delivery>, first: nat, batch: seq<Payload>)
    ensures Released(log + Numbered(first, batch)) == Released(log) + batch
  {
  }

  ghost predicate WireGood(u: Setup, w: Wire, events: seq<Event>, steps: nat) {
    && EdgeGood(u, w, steps)
    && WindowGood(u, w.anchor, events)
    && forall e <- events :: FromSender(e, w.sent)
  }

  lemma StillFromSender(events: seq<Event>, sent: seq<Sent>, more: seq<Sent>)
    requires sent <= more && forall e <- events :: FromSender(e, sent)
    ensures forall e <- events :: FromSender(e, more)
  {
    forall e | e in events ensures FromSender(e, more) {
      if e.Arrive? {
        var k :| 0 <= k < |sent| && sent[k].number == e.arrival.number && sent[k].payload == e.arrival.payload;
        assert more[k] == sent[k];
      }
    }
  }

  lemma StartIsGood(u: Setup)
    requires u.Fresh()
    ensures WireGood(u, Wire(u.edge, u.anchor, []), [SetTimeout(Reorder.DEFAULT_GAP_TIMEOUT)], 0)
  {
    var start := SetTimeout(Reorder.DEFAULT_GAP_TIMEOUT);
    ExecuteNext([], start);
    assert [] + [start] == [start];
  }

  lemma SendIsGood(u: Setup, w: Wire, events: seq<Event>, steps: nat, payload: Payload, ts: int64)
    requires WireGood(u, w, events, steps) && steps + 1 < 0x1_0000_0000_0000_0000
    ensures WireGood(u, Act(u, w, Send(payload, ts)), events, steps + 1)
  {
    hide Act, EdgeGood, WindowGood, FromSender;
    SendKeepsEdge(u, w, steps, payload, ts);
    StillFromSender(events, w.sent, Act(u, w, Send(payload, ts)).sent);
  }

  lemma ReceiveIsGood(u: Setup, w: Wire, events: seq<Event>, steps: nat, k: nat, at: Reading)
    requires WireGood(u, w, events, steps) && k < |w.sent|
    ensures WireGood(u, Act(u, w, Receive(k, at)),
                     events + [Arrive(ToArrival(w.sent[k].number, w.sent[k].payload, at))], steps)
  {
    hide SentGood, WindowGood, PushedInto, IngestIn;
    var a := ToArrival(w.sent[k].number, w.sent[k].payload, at);
    SentIsReadable(u, w, steps, k);
    assert u.id in w.anchor.weaves by { WindowHasWeave(u, w.anchor, events); }
    IngestPushes(u, w.anchor, w.sent[k], at);
    PushKeepsWindow(u, w.anchor, events, a);
    assert FromSender(Arrive(a), w.sent);
  }

  lemma SentIsReadable(u: Setup, w: Wire, steps: nat, k: nat)
    requires EdgeGood(u, w, steps) && k < |w.sent|
    ensures Readable(u, w.sent[k])
  {
    hide Readable;
  }

  lemma WindowHasWeave(u: Setup, anchor: State, events: seq<Event>)
    requires WindowGood(u, anchor, events)
    ensures u.id in anchor.weaves
  {
  }

  lemma LaterIsGood(u: Setup, w: Wire, events: seq<Event>, steps: nat)
    requires WireGood(u, w, events, steps)
    ensures WireGood(u, w, events, steps + 1)
    ensures forall links :: WireGood(u, Act(u, w, Relink(links)), events, steps + 1)
  {
    hide SentGood, FromSender;
  }

  lemma {:induction false} EveryRunIsGood(u: Setup, actions: seq<Action>)
    requires u.Fresh() && |actions| < 0x1_0000_0000_0000_0000
    ensures WireGood(u, After(u, actions), ArrivalsOf(u, actions), |actions|)
  {
    hide WireGood;
    if actions == [] {
      StartIsGood(u);
    } else {
      var init := actions[..|actions| - 1];
      EveryRunIsGood(u, init);
      var w, events := After(u, init), ArrivalsOf(u, init);
      match actions[|actions| - 1]
      case Send(payload, ts) =>
        SendIsGood(u, w, events, |init|, payload, ts);
      case Receive(k, at) =>
        if k < |w.sent| { ReceiveIsGood(u, w, events, |init|, k, at); }
        LaterIsGood(u, After(u, actions), ArrivalsOf(u, actions), |init|);
      case Relink(links) =>
        LaterIsGood(u, w, events, |init|);
    }
  }

  // ---- safety ----

  /** `out` is `sent` with some payloads left out: same order, nothing repeated, nothing added. */
  ghost predicate Subsequence(out: seq<Payload>, sent: seq<Payload>) {
    exists at: seq<nat> :: Selects(at, out, sent)
  }

  ghost predicate Selects(at: seq<nat>, out: seq<Payload>, sent: seq<Payload>) {
    && |at| == |out|
    && (forall i :: 0 <= i < |at| ==> at[i] < |sent| && out[i] == sent[at[i]])
    && (forall i, j :: 0 <= i < j < |at| ==> at[i] < at[j])
  }

  ghost function Position(sent: seq<Sent>, d: Delivery): (k: nat)
    requires SentAs(sent, d.number, d.payload)
    ensures k < |sent| && sent[k].number == d.number && sent[k].payload == d.payload
  {
    var k :| 0 <= k < |sent| && sent[k].number == d.number && sent[k].payload == d.payload;
    k
  }

  lemma {:induction false} ArrivedWasSent(events: seq<Event>, sent: seq<Sent>, d: Delivery)
    requires forall e <- events :: FromSender(e, sent)
    requires Arrived(events, d.number, d.payload)
    ensures SentAs(sent, d.number, d.payload)
  {
    var last := events[|events| - 1];
    assert last in events;
    if !(last.Arrive? && last.arrival.number == d.number && last.arrival.payload == d.payload) {
      ArrivedWasSent(events[..|events| - 1], sent, d);
    }
  }

  lemma AscendingLogSelects(log: seq<Delivery>, sent: seq<Sent>)
    requires Ascending(log)
    requires forall j, k :: 0 <= j < k < |sent| ==> sent[j].number < sent[k].number
    requires forall i :: 0 <= i < |log| ==> SentAs(sent, log[i].number, log[i].payload)
    ensures Subsequence(Released(log), Payloads(sent))
  {
    var at := seq(|log|, i requires 0 <= i < |log| => Position(sent, log[i]));
    forall i, j | 0 <= i < j < |at| ensures at[i] < at[j] {
      assert sent[at[i]].number == log[i].number < log[j].number == sent[at[j]].number;
      assert !(at[j] < at[i]);
    }
    assert Selects(at, Released(log), Payloads(sent));
  }

  lemma GoodWireIsSafe(u: Setup, w: Wire, events: seq<Event>, steps: nat)
    requires WireGood(u, w, events, steps) && w.anchor.weaves[u.id].window.stats.resyncs == 0
    ensures Subsequence(w.anchor.egress, Payloads(w.sent))
  {
    var r := Execute(0, 1, events);
    DescentsAreResyncs(0, 1, events);
    NothingInvented(0, 1, events);
    forall i | 0 <= i < |r.log|
      ensures SentAs(w.sent, r.log[i].number, r.log[i].payload)
    {
      ArrivedWasSent(events, w.sent, r.log[i]);
    }
    AscendingLogSelects(r.log, w.sent);
  }

  /**
   Safety.  Whatever the channel does, in every run in which the anchor's window never resyncs, what
   leaves the anchor is an in-order, repeat-free selection of the payloads the edge striped.
   */
  lemma EgressIsSubsequence(u: Setup, actions: seq<Action>)
    requires u.Fresh() && |actions| < 0x1_0000_0000_0000_0000
    ensures u.id in After(u, actions).anchor.weaves
    ensures var w := After(u, actions);
      w.anchor.weaves[u.id].window.stats.resyncs == 0 ==> Subsequence(w.anchor.egress, Payloads(w.sent))
  {
    EveryRunIsGood(u, actions);
    if After(u, actions).anchor.weaves[u.id].window.stats.resyncs == 0 {
      GoodWireIsSafe(u, After(u, actions), ArrivalsOf(u, actions), |actions|);
    }
  }

  // ---- completeness ----

  /** The channel delivered the `k`-th frame at some point. */
  ghost predicate Delivered(u: Setup, actions: seq<Action>, k: nat) {
    actions != [] &&
    var init, last := actions[..|actions| - 1], actions[|actions| - 1];
    (last.Receive? && last.frame == k < |After(u, init).sent|) || Delivered(u, init, k)
  }

  lemma EarlierNumbersOnly(events: seq<Event>, sent: seq<Sent>, number: nat)
    requires forall e <- events :: FromSender(e, sent)
    requires forall j :: 0 <= j < |sent| ==> sent[j].number < number
    ensures !ReorderRefinement.HasNumber(events, number)
  {
    forall e | e in events && e.Arrive? ensures e.arrival.number != number {
      assert FromSender(e, sent);
    }
    NoSuchNumber(events, number);
  }

  lemma {:induction false} DeliveredIsArrival(u: Setup, actions: seq<Action>, k: nat)
    requires u.Fresh() && |actions| < 0x1_0000_0000_0000_0000
    requires k < |After(u, actions).sent|
    ensures Delivered(u, actions, k)
        <==> ReorderRefinement.HasNumber(ArrivalsOf(u, actions), After(u, actions).sent[k].number)
  {
    if actions != [] {
      var init, last := actions[..|actions| - 1], actions[|actions| - 1];
      EveryRunIsGood(u, init);
      EveryRunIsGood(u, actions);
      var w, t := After(u, init), After(u, actions);
      assert w.sent <= t.sent;
      if k < |w.sent| {
        DeliveredIsArrival(u, init, k);
        if last.Receive? && last.frame < |w.sent| {
          assert ArrivalsOf(u, actions)[..|ArrivalsOf(u, init)|] == ArrivalsOf(u, init);
          assert last.frame != k ==> w.sent[last.frame].number != w.sent[k].number;
        }
      } else {
        NotYetSent(u, init, k);
        assert ArrivalsOf(u, actions) == ArrivalsOf(u, init);
        forall j | 0 <= j < |w.sent| ensures w.sent[j].number < t.sent[k].number {
          assert w.sent[j] == t.sent[j];
        }
        EarlierNumbersOnly(ArrivalsOf(u, init), w.sent, t.sent[k].number);
      }
    }
  }

  lemma {:induction false} NoSuchNumber(events: seq<Event>, number: nat)
    requires forall e <- events :: e.Arrive? ==> e.arrival.number != number
    ensures !ReorderRefinement.HasNumber(events, number)
  {
    if events != [] {
      assert events[|events| - 1] in events;
      NoSuchNumber(events[..|events| - 1], number);
    }
  }

  lemma {:induction false} NotYetSent(u: Setup, actions: seq<Action>, k: nat)
    requires |After(u, actions).sent| <= k
    ensures !Delivered(u, actions, k)
  {
    if actions != [] {
      NotYetSent(u, actions[..|actions| - 1], k);
    }
  }

  lemma {:induction false} NumbersAreDense(sent: seq<Sent>, k: nat)
    requires forall i :: 0 <= i < |sent| ==> 1 <= sent[i].number <= |sent|
    requires forall i, j :: 0 <= i < j < |sent| ==> sent[i].number < sent[j].number
    requires k < |sent|
    ensures sent[k].number == k + 1
  {
    Climbs(sent, 0, k);
    Climbs(sent, k, |sent| - 1);
  }

  lemma {:induction false} Climbs(sent: seq<Sent>, j: nat, k: nat)
    requires forall i, j :: 0 <= i < j < |sent| ==> sent[i].number < sent[j].number
    requires j <= k < |sent|
    ensures sent[k].number >= sent[j].number + (k - j)
    decreases k - j
  {
    if j < k { Climbs(sent, j, k - 1); }
  }

  /** The number of frames at the front of `sent` that all arrived. */
  ghost predicate ArrivedFront(u: Setup, actions: seq<Action>, m: nat) {
    var n := |After(u, actions).sent|;
    && m <= n
    && (forall k :: 0 <= k < m ==> Delivered(u, actions, k))
    && (m < n ==> !Delivered(u, actions, m))
  }

  /** The payload sent under each number, when none was burned. */
  function SentMap(sent: seq<Sent>): (m: map<nat, Payload>)
    ensures forall k: nat :: k in m <==> 1 <= k <= |sent|
    ensures forall k: nat :: k in m ==> m[k] == sent[k - 1].payload
  {
    if sent == [] then map[]
    else SentMap(sent[..|sent| - 1])[|sent| := sent[|sent| - 1].payload]
  }

  /** The edge burned no number, and the anchor took none of its exceptional branches. */
  ghost predicate NothingLost(u: Setup, w: Wire) {
    && u.id in w.edge.weaves && w.edge.weaves[u.id].number == w.edge.weaves[u.id].framesSent
    && u.id in w.anchor.weaves
    && var stats := w.anchor.weaves[u.id].window.stats;
       stats.skipped == 0 && stats.resyncs == 0 && stats.tooFar == 0
  }

  ghost predicate AsSent(received: map<nat, Payload>, sent: seq<Sent>) {
    forall k: nat :: k in received ==> 1 <= k <= |sent| && received[k] == sent[k - 1].payload
  }

  /** With no number burned, what arrived at the anchor is what was sent, numbered 1, 2, ... */
  lemma ReceivedFromSender(sent: seq<Sent>, events: seq<Event>)
    requires forall k :: 0 <= k < |sent| ==> sent[k].number == k + 1
    requires forall e <- events :: FromSender(e, sent)
    ensures var received := ReorderRefinement.FirstArrivals(events, 1);
      && (forall k: nat :: k in received <==> 1 <= k && ReorderRefinement.HasNumber(events, k))
      && AsSent(received, sent)
  {
    var sentMap := SentMap(sent);
    forall e | e in events && e.Arrive?
      ensures e.arrival.number in sentMap && e.arrival.payload == sentMap[e.arrival.number]
    {
      assert FromSender(e, sent);
    }
    ReorderRefinement.FirstArrivalsOfSender(events, 1, sentMap);
  }

  lemma LogIsFront(log: seq<Delivery>, sent: seq<Sent>, received: map<nat, Payload>, next: nat)
    requires ReorderRefinement.IsLeastMissing(next, 1, received) && log == ReorderRefinement.InOrder(received, 1, next)
    requires AsSent(received, sent)
    ensures |log| == next - 1 <= |sent|
    ensures Released(log) == Payloads(sent)[..|log|]
  {
    assert next - 1 in received || next == 1;
    forall i | 0 <= i < |log| ensures log[i].payload == sent[i].payload {
      assert log[i] == Delivery(1 + i, received[1 + i]);
    }
  }

  /** `released` is the front of `sent`, up to the first number that has not arrived. */
  ghost predicate IsFront(released: seq<Payload>, sent: seq<Sent>, events: seq<Event>) {
    var m := |released|;
    && m <= |sent| && released == Payloads(sent)[..m]
    && (forall k :: 1 <= k <= m ==> ReorderRefinement.HasNumber(events, k))
    && (m < |sent| ==> !ReorderRefinement.HasNumber(events, m + 1))
  }

  lemma RunDeliversFront(sent: seq<Sent>, events: seq<Event>)
    requires forall k :: 0 <= k < |sent| ==> sent[k].number == k + 1
    requires forall e <- events :: FromSender(e, sent)
    requires ReorderRefinement.Clean(Execute(0, 1, events))
    ensures IsFront(Released(Execute(0, 1, events).log), sent, events)
  {
    hide Execute, FromSender;
    ReceivedFromSender(sent, events);
    ReorderRefinement.RefinesLeastMissing(0, 1, events);
    var r := Execute(0, 1, events);
    LogIsFront(r.log, sent, ReorderRefinement.FirstArrivals(events, 1), r.state.next);
  }

  lemma SentIsDense(u: Setup, w: Wire, steps: nat)
    requires EdgeGood(u, w, steps) && w.edge.weaves[u.id].number == w.edge.weaves[u.id].framesSent
    ensures forall k :: 0 <= k < |w.sent| ==> w.sent[k].number == k + 1
  {
    forall k | 0 <= k < |w.sent| ensures w.sent[k].number == k + 1 { NumbersAreDense(w.sent, k); }
  }

  /**
   Completeness.  In a run in which the edge burned no number and the anchor skipped no gap, dropped
   nothing as too far and did not resync, exactly the payloads before the first frame the channel
   has not delivered have left the anchor: all of them if and only if every frame was delivered.
   */
  lemma EgressIsArrivedFront(u: Setup, actions: seq<Action>)
    requires u.Fresh() && |actions| < 0x1_0000_0000_0000_0000
    requires NothingLost(u, After(u, actions))
    ensures var w := After(u, actions); var m := |w.anchor.egress|;
      && ArrivedFront(u, actions, m)
      && w.anchor.egress == Payloads(w.sent)[..m]
      && (w.anchor.egress == Payloads(w.sent) <==> forall k :: 0 <= k < |w.sent| ==> Delivered(u, actions, k))
  {
    EveryRunIsGood(u, actions);
    var w, events := After(u, actions), ArrivalsOf(u, actions);
    SentIsDense(u, w, |actions|);
    RunDeliversFront(w.sent, events);
    DeliveriesAreArrivals(u, actions);
    FrontIsArrivedFront(u, actions, w, events);
  }

  ghost predicate DeliveredAsNumbered(u: Setup, actions: seq<Action>, sent: seq<Sent>, events: seq<Event>) {
    forall k :: 0 <= k < |sent| ==> (Delivered(u, actions, k) <==> ReorderRefinement.HasNumber(events, sent[k].number))
  }

  lemma DeliveriesAreArrivals(u: Setup, actions: seq<Action>)
    requires u.Fresh() && |actions| < 0x1_0000_0000_0000_0000
    ensures DeliveredAsNumbered(u, actions, After(u, actions).sent, ArrivalsOf(u, actions))
  {
    forall k | 0 <= k < |After(u, actions).sent|
      ensures Delivered(u, actions, k)
          <==> ReorderRefinement.HasNumber(ArrivalsOf(u, actions), After(u, actions).sent[k].number)
    {
      DeliveredIsArrival(u, actions, k);
    }
  }

  lemma FrontIsArrivedFront(u: Setup, actions: seq<Action>, w: Wire, events: seq<Event>)
    requires w == After(u, actions) && IsFront(w.anchor.egress, w.sent, events)
    requires forall k :: 0 <= k < |w.sent| ==> w.sent[k].number == k + 1
    requires DeliveredAsNumbered(u, actions, w.sent, events)
    ensures ArrivedFront(u, actions, |w.anchor.egress|)
    ensures w.anchor.egress == Payloads(w.sent) <==> forall k :: 0 <= k < |w.sent| ==> Delivered(u, actions, k)
  {
    var m := |w.anchor.egress|;
    if m == |w.sent| {
      assert Payloads(w.sent)[..m] == Payloads(w.sent);
    } else {
      assert !Delivered(u, actions, m);
    }
  }
}
