/** A lab bench run over a weave (core/hydra/fabric/fabric.go, `Bench`). */
module Bench {
  import opened Bytes
  import opened Wrappers
  import opened Fabric
  import Bearer
  import BenchFeed
  import Reorder
  import ReorderSteps
  import ReorderRuns
  import Shim

  datatype Failure = BadSize | Engine(error: Error)

  datatype Report = Report(packets: nat, bytes: nat, delivered: nat, stats: Reorder.Stats)

  /** Packet `i` of a bench run: `size` octets, all the low octet of `i`. */
  function Packet(i: nat, size: nat): (p: Payload)
    ensures |p| == size
  {
    seq(size, _ => (i % 256) as byte)
  }

  function TotalBytes(frames: seq<StripResult>): nat {
    if frames == [] then 0 else TotalBytes(frames[..|frames| - 1]) + |frames[|frames| - 1].frame|
  }

  /** Striping the first `n` packets; the first failure stops it. */
  function StripMany(s: State, hash: uint32, id: string, n: nat, size: nat, stamps: seq<int64>)
    : (State, Result<seq<StripResult>, Error>)
    requires n <= |stamps|
  {
    if n == 0 then (s, Ok([]))
    else
      var (t, frames) := StripMany(s, hash, id, n - 1, size, stamps);
      match frames
      case Err(e) => (t, Err(e))
      case Ok(done) =>
        var (u, r) := StripIn(t, hash, id, Packet(n - 1, size), stamps[n - 1]);
        match r
        case Err(e) => (u, Err(e))
        case Ok(next) => (u, Ok(done + [next]))
  }

  /** One frame of a bench run goes into the window under the number it was sent with. */
  ghost function FeedStep(s: State, id: string, r: StripResult, at: Reading): (o: (State, nat))
    requires id in s.weaves
    ensures id in o.0.weaves
  {
    match Shim.Decode(r.frame)
    case Err(_) => (s, 0)
    case Ok((_, payload)) =>
      var (t, batch) := PushedInto(s, id, ToArrival(r.number, payload, at));
      (t, |batch|)
  }

  /** What has come out of the window after the first `k` frames of the bench order. */
  ghost function FeedMany(s: State, id: string, frames: seq<StripResult>, readings: seq<Reading>, k: nat): (State, nat)
    requires id in s.weaves && k <= |frames| <= |readings|
    ensures id in FeedMany(s, id, frames, readings, k).0.weaves
  {
    if k == 0 then (s, 0)
    else
      var (t, delivered) := FeedMany(s, id, frames, readings, k - 1);
      var (u, count) := FeedStep(t, id, frames[BenchFeed.OrderAt(|frames|, k - 1)], readings[k - 1]);
      (u, delivered + count)
  }

  ghost function BenchIn(s: State, hash: uint32, id: string, packets: int, size: int,
                         stamps: seq<int64>, readings: seq<Reading>): (State, Result<Report, Failure>)
    requires packets <= |stamps| && packets <= |readings|
  {
    if packets <= 0 || size <= 0 then (s, Err(BadSize))
    else if id !in s.weaves then (s, Err(Engine(NoWeave)))
    else if Bearer.CandidatesOf(s.links, s.weaves[id].threads) == [] then (s, Err(Engine(NoThreads)))
    else
      var (t, frames) := StripMany(s, hash, id, packets, size, stamps);
      StripManyFrames(s, hash, id, packets, size, stamps);
      match frames
      case Err(e) => (t, Err(Engine(e)))
      case Ok(sent) =>
        var (u, delivered) := FeedMany(t, id, sent, readings, packets);
        var v := CountedIn(u, id, delivered);
        (v, Ok(Report(packets, TotalBytes(sent), delivered, v.weaves[id].window.stats)))
  }

  // ---- striping the packets ----

  /** What `StripMany` hands out: consecutive numbers, and frames that carry their packets. */
  ghost predicate FramesFrom(frames: seq<StripResult>, first: nat, size: nat) {
    forall i :: 0 <= i < |frames| ==> frames[i].number == first + i && Carries(frames[i].frame, Packet(i, size))
  }

  ghost predicate Carries(frame: Octets, payload: Payload) {
    Shim.Decode(frame).Ok? && Shim.Decode(frame).value.1 == payload
  }

  lemma StripOnce(s: State, hash: uint32, id: string, payload: Payload, ts: int64)
    requires id in s.weaves
    ensures var (t, r) := StripIn(s, hash, id, payload, ts);
      && id in t.weaves && t.weaves[id].window == s.weaves[id].window && t.egress == s.egress
      && (r.Ok? ==>
            && r.value.number == t.weaves[id].number == s.weaves[id].number + 1
            && r.value.frame == Shim.Frame(Shim.New(hash, WireNumber(s.weaves[id].number + 1), ts), payload))
  {
  }

  lemma {:induction false} StripManyFrames(s: State, hash: uint32, id: string, n: nat, size: nat, stamps: seq<int64>)
    requires n <= |stamps| && id in s.weaves
    ensures var (t, r) := StripMany(s, hash, id, n, size, stamps);
      && id in t.weaves && t.weaves[id].window == s.weaves[id].window && t.egress == s.egress
      && (r.Ok? ==>
            && |r.value| == n && t.weaves[id].number == s.weaves[id].number + n
            && FramesFrom(r.value, s.weaves[id].number + 1, size))
  {
    hide StripIn, Shim.Decode, Shim.Frame;
    if n > 0 {
      StripManyFrames(s, hash, id, n - 1, size, stamps);
      var (t, _) := StripMany(s, hash, id, n - 1, size, stamps);
      StripOnce(t, hash, id, Packet(n - 1, size), stamps[n - 1]);
      Shim.DecodeFrame(Shim.New(hash, WireNumber(t.weaves[id].number + 1), stamps[n - 1]), Packet(n - 1, size));
    }
  }

  // ---- the feed is a run of the window ----

  function FeedOf(frames: seq<StripResult>, first: nat, size: nat, readings: seq<Reading>): BenchFeed.Feed {
    BenchFeed.Feed(first, seq(|frames|, i requires 0 <= i < |frames| => Packet(i, size)), readings)
  }

  lemma {:induction false} FeedIsRun(s: State, id: string, frames: seq<StripResult>, first: nat, size: nat,
                                     readings: seq<Reading>, k: nat)
    requires id in s.weaves && k <= |frames| <= |readings| && frames != []
    requires FramesFrom(frames, first, size)
    ensures var (t, delivered) := FeedMany(s, id, frames, readings, k);
      var r := BenchFeed.Fed(s.weaves[id].window, FeedOf(frames, first, size, readings), k);
      t.weaves[id] == s.weaves[id].(window := r.state) && delivered == |r.log|
  {
    hide Reorder.Step, Shim.Decode;
    if k > 0 {
      FeedIsRun(s, id, frames, first, size, readings, k - 1);
      var x := BenchFeed.OrderAt(|frames|, k - 1);
      assert frames[x].number == first + x && Carries(frames[x].frame, Packet(x, size));
    }
  }

  /** The window can take a bench run: nothing buffered, in step with the sender, timer at rest. */
  ghost predicate InLockstep(w: Weave) {
    ReorderSteps.Inv(w.window) && w.window.slots == map[] && w.window.next == w.number + 1
  }

  ghost predicate Unhurried(timeout: int, readings: seq<Reading>) {
    timeout <= 0 || forall i, j :: 0 <= i < j < |readings| ==> readings[j].checkedAt - readings[i].stampedAt <= timeout
  }

  /**
   A bench run that starts in lockstep, has every packet striped and is not overtaken by the gap
   timer reports every packet delivered if and only if the last even position fits the window, and
   then ends in lockstep again.  That covers every size up to the window and one more.
   */
  lemma BenchDeliversAllIff(s: State, hash: uint32, id: string, packets: int, size: int,
                            stamps: seq<int64>, readings: seq<Reading>)
    requires packets <= |stamps| && packets <= |readings|
    requires id in s.weaves && InLockstep(s.weaves[id]) && Unhurried(s.weaves[id].window.gapTimeout, readings)
    requires BenchIn(s, hash, id, packets, size, stamps, readings).1.Ok?
    ensures var (t, r) := BenchIn(s, hash, id, packets, size, stamps, readings); var w := s.weaves[id];
      && packets > 0 && id in t.weaves && r.value.packets == packets && t.egress == s.egress
      && (r.value.delivered == packets <==> BenchFeed.LastEven(packets) <= w.window.window)
      && (packets <= w.window.window + 1 ==> r.value.delivered == packets)
      && (r.value.delivered == packets ==> InLockstep(t.weaves[id]) && t.weaves[id].number == w.number + packets)
      && t.weaves[id].benchDelivered == w.benchDelivered + r.value.delivered
  {
    hide StripIn, Shim.Decode, Reorder.Step;
    StripManyFrames(s, hash, id, packets, size, stamps);
    var (t, sent) := StripMany(s, hash, id, packets, size, stamps);
    var w := t.weaves[id].window;
    var f := FeedOf(sent.value, s.weaves[id].number + 1, size, readings);
    FeedIsRun(t, id, sent.value, f.first, size, readings, packets);
    BenchFeed.FeedDeliversAllIff(w, f);
    FeedKeepsInv(w, f);
    FeedKeepsEgress(t, id, sent.value, readings, packets);
    StripManyKeepsBench(s, hash, id, packets, size, stamps);
  }

  lemma FeedKeepsInv(w: Reorder.State, f: BenchFeed.Feed)
    requires ReorderSteps.Inv(w) && f.Valid()
    ensures ReorderSteps.Inv(BenchFeed.Fed(w, f, |f.payloads|).state)
  {
    BenchFeed.FedIsRun(w, f, |f.payloads|);
    BenchFeed.RunAccounts(ReorderRuns.Run(w, [], 0), f.Events(|f.payloads|));
  }

  lemma {:induction false} FeedKeepsEgress(s: State, id: string, frames: seq<StripResult>, readings: seq<Reading>,
      k: nat)
    requires id in s.weaves && k <= |frames| <= |readings|
    ensures FeedMany(s, id, frames, readings, k).0.egress == s.egress
  {
    hide Reorder.Step, Shim.Decode;
    if k > 0 { FeedKeepsEgress(s, id, frames, readings, k - 1); }
  }

  lemma {:induction false} StripManyKeepsBench(s: State, hash: uint32, id: string, n: nat, size: nat,
      stamps: seq<int64>)
    requires n <= |stamps| && id in s.weaves
    ensures var t := StripMany(s, hash, id, n, size, stamps).0;
      id in t.weaves && t.weaves[id].benchDelivered == s.weaves[id].benchDelivered
  {
    hide Shim.Frame;
    if n > 0 { StripManyKeepsBench(s, hash, id, n - 1, size, stamps); }
  }

  // ---- the method ----

  method FeedOne(e: Engine, id: string, r: StripResult, at: Reading) returns (count: nat)
    requires e.Valid() && id in e.weaves && Shim.Decode(r.frame).Ok?
    modifies e.weaves[id].window
    ensures e.Valid()
    ensures (e.Model(), count) == FeedStep(old(e.Model()), id, r, at)
  {
    var (_, payload) := Shim.Decode(r.frame).value;
    var out := e.PushInto(id, ToArrival(r.number, payload, at));
    count := |out|;
  }

  method StripAll(e: Engine, id: string, packets: nat, size: nat, stamps: seq<int64>)
    returns (r: Result<seq<StripResult>, Error>, bytes: nat)
    requires e.Valid() && packets <= |stamps|
    modifies e.reg, if id in e.weaves then {e.weaves[id]} else {}
    ensures e.Valid()
    ensures (e.Model(), r) == StripMany(old(e.Model()), e.weaveHash(id), id, packets, size, stamps)
    ensures r.Ok? ==> bytes == TotalBytes(r.value)
  {
    hide StripIn, Packet;
    ghost var start := e.Model();
    var results: seq<StripResult> := [];
    bytes := 0;
    for i := 0 to packets
      invariant e.Valid() && bytes == TotalBytes(results)
      invariant (e.Model(), Ok(results)) == StripMany(start, e.weaveHash(id), id, i, size, stamps)
    {
      var one := e.Strip(id, Packet(i, size), stamps[i]);
      if one.Err? {
        assert (e.Model(), Err(one.error)) == StripMany(start, e.weaveHash(id), id, i + 1, size, stamps);
        StripManyStops(start, e.weaveHash(id), id, i + 1, packets, size, stamps);
        return Err(one.error), bytes;
      }
      results := results + [one.value];
      bytes := bytes + |one.value.frame|;
    }
    r := Ok(results);
  }

  lemma {:induction false} StripManyStops(s: State, hash: uint32, id: string, k: nat, n: nat, size: nat,
      stamps: seq<int64>)
    requires k <= n <= |stamps| && StripMany(s, hash, id, k, size, stamps).1.Err?
    ensures StripMany(s, hash, id, n, size, stamps) == StripMany(s, hash, id, k, size, stamps)
    decreases n - k
  {
    hide StripIn;
    if k < n { StripManyStops(s, hash, id, k, n - 1, size, stamps); }
  }

  lemma FeedNone(s: State, id: string, frames: seq<StripResult>, readings: seq<Reading>)
    requires id in s.weaves && |frames| <= |readings|
    ensures FeedMany(s, id, frames, readings, 0) == (s, 0)
  {
  }

  lemma FeedNext(s: State, id: string, frames: seq<StripResult>, readings: seq<Reading>, k: nat)
    requires id in s.weaves && k < |frames| <= |readings|
    ensures var (t, delivered) := FeedMany(s, id, frames, readings, k);
      var (u, count) := FeedStep(t, id, frames[BenchFeed.OrderAt(|frames|, k)], readings[k]);
      FeedMany(s, id, frames, readings, k + 1) == (u, delivered + count)
  {
    hide FeedStep;
  }

  method FeedEvens(e: Engine, id: string, results: seq<StripResult>, readings: seq<Reading>) returns (delivered: nat)
    requires e.Valid() && id in e.weaves && |results| <= |readings|
    requires forall r <- results :: Shim.Decode(r.frame).Ok?
    modifies e.weaves[id].window
    ensures e.Valid()
    ensures (e.Model(), delivered) == FeedMany(old(e.Model()), id, results, readings, BenchFeed.Evens(|results|))
  {
    hide Shim.Decode, FeedStep, TotalBytes, StripMany, FeedMany;
    ghost var s := e.Model();
    delivered := 0;
    ghost var k := 0;
    FeedNone(s, id, results, readings);
    var i := 0;
    while i < |results|
      invariant i == 2 * k && k <= BenchFeed.Evens(|results|)
      invariant e.Valid() && (e.Model(), delivered) == FeedMany(old(e.Model()), id, results, readings, k)
      decreases |results| - i
    {
      var count := FeedOne(e, id, results[i], readings[i / 2]);
      FeedNext(s, id, results, readings, k);
      delivered := delivered + count;
      i, k := i + 2, k + 1;
    }
  }

  method FeedOdds(e: Engine, id: string, results: seq<StripResult>, readings: seq<Reading>, before: nat,
      ghost start: State)
    returns (delivered: nat)
    requires e.Valid() && id in e.weaves && |results| <= |readings| && id in start.weaves
    requires forall r <- results :: Shim.Decode(r.frame).Ok?
    requires (e.Model(), before) == FeedMany(start, id, results, readings, BenchFeed.Evens(|results|))
    modifies e.weaves[id].window
    ensures e.Valid()
    ensures (e.Model(), delivered) == FeedMany(start, id, results, readings, |results|)
  {
    hide Shim.Decode, FeedStep, TotalBytes, StripMany;
    delivered := before;
    var evens := BenchFeed.Evens(|results|);
    ghost var k := evens;
    var i := 1;
    while i < |results|
      invariant evens <= k <= |results| && i == 2 * (k - evens) + 1
      invariant e.Valid() && (e.Model(), delivered) == FeedMany(start, id, results, readings, k)
      decreases |results| - i
    {
      var count := FeedOne(e, id, results[i], readings[evens + i / 2]);
      delivered := delivered + count;
      i, k := i + 2, k + 1;
    }
  }

  method FeedAndCount(e: Engine, id: string, results: seq<StripResult>, readings: seq<Reading>) returns (delivered: nat)
    requires e.Valid() && id in e.weaves && |results| <= |readings|
    requires forall r <- results :: Shim.Decode(r.frame).Ok?
    modifies e.weaves[id], e.weaves[id].window
    ensures e.Valid()
    ensures var (u, count) := FeedMany(old(e.Model()), id, results, readings, |results|);
      e.Model() == CountedIn(u, id, count) && delivered == count
  {
    hide FeedMany, Shim.Decode, CountedIn;
    ghost var start := e.Model();
    delivered := FeedEvens(e, id, results, readings);
    delivered := FeedOdds(e, id, results, readings, delivered, start);
    e.CountBench(id, delivered);
  }

  method RunBench(e: Engine, id: string, packets: int, size: int, stamps: seq<int64>, readings: seq<Reading>)
    returns (r: Result<Report, Failure>)
    requires e.Valid() && packets <= |stamps| && packets <= |readings|
    modifies e.reg, if id in e.weaves then {e.weaves[id], e.weaves[id].window} else {}
    ensures e.Valid()
    ensures (e.Model(), r) == BenchIn(old(e.Model()), e.weaveHash(id), id, packets, size, stamps, readings)
  {
    hide StripMany, FeedMany, TotalBytes, Shim.Decode;
    ghost var start := e.Model();
    if packets <= 0 || size <= 0 {
      return Err(BadSize);
    }
    if id !in e.weaves {
      return Err(Engine(NoWeave));
    }
    var cands := e.reg.Candidates(e.weaves[id].threads);
    assert e.Model() == start;
    if |cands| == 0 {
      assert cands == [];
      return Err(Engine(NoThreads));
    }
    var frames, bytes := StripAll(e, id, packets, size, stamps);
    StripManyFrames(start, e.weaveHash(id), id, packets, size, stamps);
    if frames.Err? {
      return Err(Engine(frames.error));
    }
    AllCarry(frames.value, start.weaves[id].number + 1, size);
    var delivered := FeedAndCount(e, id, frames.value, readings);
    assert e.weaves[id].window.stats == e.Model().weaves[id].window.stats;
    r := Ok(Report(packets, bytes, delivered, e.weaves[id].window.stats));
  }

  lemma AllCarry(frames: seq<StripResult>, first: nat, size: nat)
    requires FramesFrom(frames, first, size)
    ensures forall r <- frames :: Shim.Decode(r.frame).Ok?
  {
    hide Shim.Decode;
    forall r | r in frames ensures Shim.Decode(r.frame).Ok? {
      var i :| 0 <= i < |frames| && frames[i] == r;
      assert Carries(frames[i].frame, Packet(i, size));
    }
  }
}
