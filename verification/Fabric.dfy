/**
 The weave engine (core/hydra/fabric/fabric.go): striping on the way out, reassembly on the way in.

 The 32-bit weave hash is a parameter, the clock is an input and the egress accepts every payload.
 A payload's number is kept unwrapped; the header carries it modulo 2^64.
 */
module Fabric {
  import opened Bytes
  import opened Wrappers
  import Bearer
  import LoadBound
  import Reorder
  import Sched
  import Shim

  type Payload = Octets

  datatype Error =
    | NoId | WeaveExists | UnknownThread | NoWeave | NoThreads | NoThread | WeaveMismatch
    | BadFrame(reason: Shim.Error)

  datatype Weave = Weave(
    threads: seq<string>, number: nat, framesSent: nat, bytesSent: nat,
    benchRuns: nat, benchDelivered: nat, window: Reorder.State)

  datatype State = State(links: Bearer.Links, weaves: map<string, Weave>, egress: seq<Payload>)

  datatype StripResult = StripResult(threadId: string, number: nat, frame: Octets)

  /** The two clock readings a push may take. */
  datatype Reading = Reading(checkedAt: int, stampedAt: int)

  function NewWindow(): Reorder.State {
    Reorder.Initial(0, 1).(gapTimeout := Reorder.DEFAULT_GAP_TIMEOUT)
  }

  function NewWeave(threads: seq<string>): Weave {
    Weave(threads, 0, 0, 0, 0, 0, NewWindow())
  }

  function WireNumber(number: nat): uint64 {
    number % 0x1_0000_0000_0000_0000
  }

  // ---- what each call does ----

  function CreateWeaveIn(s: State, id: string, threads: seq<string>): (State, Option<Error>) {
    if id == "" then (s, Some(NoId))
    else if id in s.weaves then (s, Some(WeaveExists))
    else if threads == [] then (s, Some(NoThreads))
    else if exists t <- threads :: t !in s.links then (s, Some(UnknownThread))
    else (s.(weaves := s.weaves[id := NewWeave(threads)]), None)
  }

  /** One payload out.  The number is consumed before a link is picked, so a failed pick burns it. */
  function StripIn(s: State, hash: uint32, id: string, payload: Payload, tsNanos: int64)
    : (State, Result<StripResult, Error>)
  {
    if id !in s.weaves then (s, Err(NoWeave))
    else
      var w := s.weaves[id];
      var cands := Bearer.CandidatesOf(s.links, w.threads);
      if cands == [] then (s, Err(NoThreads))
      else AssignIn(s, hash, id, cands, payload, tsNanos)
  }

  function AssignIn(s: State, hash: uint32, id: string, cands: seq<Sched.Thread>, payload: Payload, tsNanos: int64)
    : (State, Result<StripResult, Error>)
    requires id in s.weaves
  {
    var number := s.weaves[id].number + 1;
    var t := s.(weaves := s.weaves[id := s.weaves[id].(number := number)]);
    match Sched.PickFrom(cands, |payload|)
    case None => (t, Err(NoThread))
    case Some(link) =>
      var frame := Shim.Frame(Shim.New(hash, WireNumber(number), tsNanos), payload);
      (ChargeIn(t, id, link.id, |frame|), Ok(StripResult(link.id, number, frame)))
  }

  /** The accounts after a frame of `bytes` octets has been assigned to `link`. */
  function ChargeIn(s: State, id: string, link: string, bytes: nat): State
    requires id in s.weaves
  {
    var w := s.weaves[id];
    var w' := w.(framesSent := w.framesSent + 1, bytesSent := w.bytesSent + bytes);
    s.(links := Bearer.Charged(s.links, link, bytes), weaves := s.weaves[id := w'])
  }

  function ToArrival(number: nat, payload: Payload, at: Reading): Reorder.Arrival {
    Reorder.Arrival(number, payload, at.checkedAt, at.stampedAt)
  }

  ghost function PushedInto(s: State, id: string, a: Reorder.Arrival): (State, seq<Payload>)
    requires id in s.weaves
  {
    var w := s.weaves[id];
    var o := Reorder.Step(w.window, a);
    (s.(weaves := s.weaves[id := w.(window := o.state)]), o.batch)
  }

  /** One frame in: the checks, then the push.  Nothing is sent on. */
  ghost function ReassembleIn(s: State, hash: uint32, id: string, frame: Octets, at: Reading)
    : (State, Result<seq<Payload>, Error>)
  {
    match Shim.Decode(frame)
    case Err(reason) => (s, Err(BadFrame(reason)))
    case Ok((h, payload)) =>
      if h.weaveId != hash then (s, Err(WeaveMismatch))
      else if id !in s.weaves then (s, Err(NoWeave))
      else
        var (t, batch) := PushedInto(s, id, ToArrival(h.number, payload, at));
        (t, Ok(batch))
  }

  /** One frame in, with everything released sent to the egress. */
  ghost function IngestIn(s: State, hash: uint32, id: string, frame: Octets, at: Reading)
    : (State, Result<nat, Error>)
  {
    var (t, r) := ReassembleIn(s, hash, id, frame, at);
    match r
    case Err(e) => (t, Err(e))
    case Ok(batch) => (t.(egress := t.egress + batch), Ok(|batch|))
  }

  function CountedIn(s: State, id: string, delivered: nat): State
    requires id in s.weaves
  {
    var w := s.weaves[id];
    s.(weaves := s.weaves[id := w.(benchRuns := w.benchRuns + 1, benchDelivered := w.benchDelivered + delivered)])
  }

  // ---- the objects ----

  class WeaveState {
    const threads: seq<string>
    const window: Reorder.Buffer
    var number: nat
    var framesSent: nat
    var bytesSent: nat
    var benchRuns: nat
    var benchDelivered: nat

    function Model(): Weave
      reads this, window
    {
      Weave(threads, number, framesSent, bytesSent, benchRuns, benchDelivered, window.Model())
    }

    constructor (threads: seq<string>)
      ensures Model() == NewWeave(threads) && fresh(window)
    {
      this.threads := threads;
      var rb := new Reorder.Buffer.NewAt(0, 1);
      rb.SetGapTimeout(Reorder.DEFAULT_GAP_TIMEOUT);
      window := rb;
      number, framesSent, bytesSent, benchRuns, benchDelivered := 0, 0, 0, 0, 0;
    }

    method TakeNumber()
      modifies this
      ensures Model() == old(Model()).(number := old(number) + 1)
    {
      number := number + 1;
    }

    method CountFrame(bytes: nat)
      modifies this
      ensures Model() == old(Model()).(framesSent := old(framesSent) + 1, bytesSent := old(bytesSent) + bytes)
    {
      framesSent := framesSent + 1;
      bytesSent := bytesSent + bytes;
    }
  }

  class Engine {
    const weaveHash: string -> uint32
    const reg: Bearer.Registry
    var weaves: map<string, WeaveState>
    var egress: seq<Payload>

    ghost function Parts(): set<object>
      reads this
    {
      (set id | id in weaves :: weaves[id]) + (set id | id in weaves :: weaves[id].window)
    }

    /** No two weaves share state. */
    ghost predicate Valid()
      reads this
    {
      forall a, b :: a in weaves && b in weaves && a != b ==>
        weaves[a] != weaves[b] && weaves[a].window != weaves[b].window
    }

    ghost function Model(): State
      reads this, reg, Parts()
    {
      State(reg.links, map id | id in weaves :: weaves[id].Model(), egress)
    }

    /** Writing to the parts of one weave leaves every other weave as it was. */
    twostate lemma OneWeaveChanged(id: string)
      requires old(Valid()) && id in old(weaves) && weaves == old(weaves)
      requires forall x <- weaves :: x != id ==>
        unchanged(weaves[x]) && unchanged(weaves[x].window)
      ensures Valid() && Model().weaves == old(Model()).weaves[id := weaves[id].Model()]
    {
    }

    constructor (weaveHash: string -> uint32)
      ensures Valid() && fresh(reg) && this.weaveHash == weaveHash
      ensures Model() == State(map[], map[], [])
    {
      this.weaveHash := weaveHash;
      reg := new Bearer.Registry();
      weaves := map[];
      egress := [];
    }

    method CreateWeave(id: string, threads: seq<string>) returns (failure: Option<Error>)
      requires Valid()
      modifies this
      ensures Valid() && fresh(Parts() - old(Parts()))
      ensures (Model(), failure) == CreateWeaveIn(old(Model()), id, threads)
    {
      if id == "" {
        return Some(NoId);
      }
      if id in weaves {
        return Some(WeaveExists);
      }
      if |threads| == 0 {
        return Some(NoThreads);
      }
      var known := KnowsAll(threads);
      if !known {
        return Some(UnknownThread);
      }
      AddWeave(id, threads);
      failure := None;
    }

    method AddWeave(id: string, threads: seq<string>)
      requires Valid() && id !in weaves
      modifies this`weaves
      ensures Valid() && fresh(Parts() - old(Parts()))
      ensures Model() == old(Model()).(weaves := old(Model()).weaves[id := NewWeave(threads)])
    {
      var w := new WeaveState(threads);
      weaves := weaves[id := w];
      WeaveAdded(id);
    }

    /** Adding one weave that shares nothing leaves every other weave as it was. */
    twostate lemma WeaveAdded(id: string)
      requires old(Valid()) && id !in old(weaves) && id in weaves && weaves - {id} == old(weaves)
      requires forall x <- old(weaves) :: unchanged(old(weaves)[x]) && unchanged(old(weaves)[x].window)
      requires fresh(weaves[id]) && fresh(weaves[id].window)
      ensures Valid() && fresh(Parts() - old(Parts()))
      ensures Model().weaves == old(Model()).weaves[id := weaves[id].Model()]
    {
      assert forall x <- weaves :: x != id ==> x in old(weaves) && weaves[x] == old(weaves)[x];
    }

    method KnowsAll(threads: seq<string>) returns (known: bool)
      ensures known <==> forall t <- threads :: t in reg.links
    {
      for k := 0 to |threads|
        invariant forall j :: 0 <= j < k ==> threads[j] in reg.links
      {
        if threads[k] !in reg.links {
          return false;
        }
      }
      known := true;
    }

    method Complete(threadId: string, bytes: nat)
      requires Valid()
      modifies reg
      ensures Valid() && Model() == old(Model()).(links := Bearer.Drained(old(Model()).links, threadId, bytes))
    {
      reg.SubQueue(threadId, bytes);
      assert Model().weaves == old(Model()).weaves;
    }

    method SetThreadHealth(link: string, mbps: real, rttMs: real, lossPct: real, up: bool) returns (found: bool)
      requires Valid()
      modifies reg
      ensures Valid() && found == (link in old(Model()).links)
      ensures Model() == old(Model()).(links := Bearer.Measured(old(Model()).links, link, mbps, rttMs, lossPct, up))
    {
      found := reg.SetHealth(link, mbps, rttMs, lossPct, up);
      assert Model().weaves == old(Model()).weaves;
    }

    method Strip(id: string, payload: Payload, tsNanos: int64) returns (r: Result<StripResult, Error>)
      requires Valid()
      modifies reg, if id in weaves then {weaves[id]} else {}
      ensures Valid()
      ensures (Model(), r) == StripIn(old(Model()), weaveHash(id), id, payload, tsNanos)
    {
      if id !in weaves {
        return Err(NoWeave);
      }
      var w := weaves[id];
      var cands := reg.Candidates(w.threads);
      if |cands| == 0 {
        assert cands == [] && Model() == old(Model());
        return Err(NoThreads);
      }
      assert Model() == old(Model());
      r := Assign(id, cands, payload, tsNanos);
    }

    method Assign(id: string, cands: seq<Sched.Thread>, payload: Payload, tsNanos: int64)
      returns (r: Result<StripResult, Error>)
      requires Valid() && id in weaves
      modifies reg, weaves[id]
      ensures Valid()
      ensures (Model(), r) == AssignIn(old(Model()), weaveHash(id), id, cands, payload, tsNanos)
    {
      var w := weaves[id];
      ghost var before := w.Model();
      w.TakeNumber();
      var number := w.number;
      var pick := Sched.Pick(cands, |payload|);
      if pick.None? {
        OneWeaveChanged(id);
        return Err(NoThread);
      }
      var frame := Shim.Frame(Shim.New(weaveHash(id), WireNumber(number), tsNanos), payload);
      assert Model() == old(Model()).(weaves := old(Model()).weaves[id := before.(number := number)])
          by { OneWeaveChanged(id); }
      Charge(id, pick.value.id, |frame|);
      r := Ok(StripResult(pick.value.id, number, frame));
    }

    method Charge(id: string, link: string, bytes: nat)
      requires Valid() && id in weaves
      modifies reg, weaves[id]
      ensures Valid()
      ensures Model() == ChargeIn(old(Model()), id, link, bytes)
    {
      ghost var before := weaves[id].Model();
      reg.AddQueue(link, bytes);
      weaves[id].CountFrame(bytes);
      assert weaves[id].Model() == before.(framesSent := before.framesSent + 1, bytesSent := before.bytesSent + bytes);
      OneWeaveChanged(id);
    }

    method Reassemble(id: string, frame: Octets, at: Reading) returns (r: Result<seq<Payload>, Error>)
      requires Valid()
      modifies if id in weaves then {weaves[id].window} else {}
      ensures Valid()
      ensures (Model(), r) == ReassembleIn(old(Model()), weaveHash(id), id, frame, at)
    {
      var decoded := Shim.Decode(frame);
      if decoded.Err? {
        return Err(BadFrame(decoded.error));
      }
      var (h, payload) := decoded.value;
      if h.weaveId != weaveHash(id) {
        return Err(WeaveMismatch);
      }
      if id !in weaves {
        return Err(NoWeave);
      }
      var out := PushInto(id, ToArrival(h.number, payload, at));
      r := Ok(out);
    }

    method PushInto(id: string, a: Reorder.Arrival) returns (out: seq<Payload>)
      requires Valid() && id in weaves
      modifies weaves[id].window
      ensures Valid()
      ensures (Model(), out) == PushedInto(old(Model()), id, a)
    {
      ghost var before := weaves[id].Model();
      out := weaves[id].window.Push(a);
      assert weaves[id].Model() == before.(window := Reorder.Step(before.window, a).state);
      OneWeaveChanged(id);
    }

    method Ingest(id: string, frame: Octets, at: Reading) returns (r: Result<nat, Error>)
      requires Valid()
      modifies this`egress, if id in weaves then {weaves[id].window} else {}
      ensures Valid()
      ensures (Model(), r) == IngestIn(old(Model()), weaveHash(id), id, frame, at)
    {
      var batch := Reassemble(id, frame, at);
      if batch.Err? {
        return Err(batch.error);
      }
      SendAll(batch.value);
      r := Ok(|batch.value|);
    }

    method CountBench(id: string, delivered: nat)
      requires Valid() && id in weaves
      modifies weaves[id]
      ensures Valid()
      ensures Model() == CountedIn(old(Model()), id, delivered)
    {
      ghost var before := weaves[id].Model();
      weaves[id].benchRuns := weaves[id].benchRuns + 1;
      weaves[id].benchDelivered := weaves[id].benchDelivered + delivered;
      assert weaves[id].Model()
          == before.(benchRuns := before.benchRuns + 1, benchDelivered := before.benchDelivered + delivered);
      OneWeaveChanged(id);
    }

    method SendAll(batch: seq<Payload>)
      requires Valid()
      modifies this`egress
      ensures Valid() && Model() == old(Model()).(egress := old(egress) + batch)
    {
      for k := 0 to |batch|
        invariant egress == old(egress) + batch[..k]
      {
        egress := egress + [batch[k]];
      }
      assert batch[..|batch|] == batch;
      assert Model().weaves == old(Model()).weaves;
    }
  }

  // ---- striping and the links ----

  /** As far as the links are concerned, `Strip` is the scheduler's assignment of the payload. */
  lemma StripChargesChosenLink(s: State, hash: uint32, id: string, payload: Payload, tsNanos: int64)
    requires id in s.weaves
    ensures var (t, r) := StripIn(s, hash, id, payload, tsNanos);
      && t.links == LoadBound.Striped(s.links, s.weaves[id].threads, |payload|)
      && t.egress == s.egress && t.weaves.Keys == s.weaves.Keys
      && (match LoadBound.Chosen(s.links, s.weaves[id].threads, |payload|)
          case None => r.Err?
          case Some(link) => r.Ok? && r.value.threadId == link && |r.value.frame| == Shim.HEADER_LEN + |payload|)
  {
  }
}
