/**
 The data plane of a node as atomic steps (core/hydra/node/node.go): one ingress loop stripes and
 queues, one writer per link sends, and the queue accounts of the engine follow along.

 A queued frame is kept together with the number and link it was striped with.  Sockets, pacing and
 shutdown are inputs: a writer's send simply succeeds or fails.
 */
module Node {
  import opened Bytes
  import opened Wrappers
  import opened Fabric
  import Bearer
  import LoadBound
  import Sched
  import Shim

  /**
   `pending` is striped but not yet queued, `queues` are the writers' channels, and `sending` is what
   each writer has taken.  The rest is history: everything striped, everything each writer is done
   with in that order, and everything dropped at the tail of a full queue.
   */
  datatype NodeState = NodeState(
    engine: State, pending: Option<StripResult>,
    queues: map<string, seq<StripResult>>, sending: map<string, StripResult>,
    dropped: nat, striped: seq<StripResult>, written: map<string, seq<StripResult>>, tail: seq<StripResult>)

  datatype Setup = Setup(id: string, hash: uint32, capacity: nat)

  datatype Step =
    | Ingress(payload: Payload, tsNanos: int64)
    | Enqueue
    | Take(link: string)
    | Finish(link: string, ok: bool)
    | Measure(link: string, mbps: real, rttMs: real, lossPct: real, up: bool)

  function CompleteIn(s: State, link: string, bytes: nat): State {
    s.(links := Bearer.Drained(s.links, link, bytes))
  }

  function IngressIn(u: Setup, s: NodeState, payload: Payload, ts: int64): NodeState {
    if s.pending.Some? then s
    else
      var (engine, r) := StripIn(s.engine, u.hash, u.id, payload, ts);
      match r
      case Err(_) => s.(engine := engine, dropped := s.dropped + 1)
      case Ok(res) => s.(engine := engine, pending := Some(res), striped := s.striped + [res])
  }

  /** A full queue, or a link the node does not have, is a tail drop. */
  function EnqueueIn(u: Setup, s: NodeState): NodeState {
    match s.pending
    case None => s
    case Some(r) =>
      if r.threadId in s.queues && |s.queues[r.threadId]| < u.capacity then
        s.(pending := None, queues := s.queues[r.threadId := s.queues[r.threadId] + [r]])
      else
        s.(pending := None, engine := CompleteIn(s.engine, r.threadId, |r.frame|), dropped := s.dropped + 1,
            tail := s.tail + [r])
  }

  function TakeIn(s: NodeState, link: string): NodeState {
    if link !in s.queues || s.queues[link] == [] || link in s.sending then s
    else
      s.(queues := s.queues[link := s.queues[link][1..]], sending := s.sending[link := s.queues[link][0]])
  }

  function WrittenOn(s: NodeState, link: string): seq<StripResult> {
    if link in s.written then s.written[link] else []
  }

  function FinishIn(s: NodeState, link: string, ok: bool): NodeState {
    if link !in s.sending then s
    else
      var r := s.sending[link];
      var t := s.(sending := s.sending - {link}, written := s.written[link := WrittenOn(s, link) + [r]]);
      if ok then t.(engine := CompleteIn(s.engine, link, |r.frame|))
      else
        var down := s.engine.(links := Bearer.Measured(s.engine.links, link, 0.0, 0.0, 100.0, false));
        t.(engine := CompleteIn(down, link, |r.frame|), dropped := s.dropped + 1)
  }

  function Next(u: Setup, s: NodeState, step: Step): NodeState {
    match step
    case Ingress(payload, ts) => IngressIn(u, s, payload, ts)
    case Enqueue => EnqueueIn(u, s)
    case Take(link) => TakeIn(s, link)
    case Finish(link, ok) => FinishIn(s, link, ok)
    case Measure(link, mbps, rtt, loss, up) =>
      s.(engine := s.engine.(links := Bearer.Measured(s.engine.links, link, mbps, rtt, loss, up)))
  }

  function After(u: Setup, s: NodeState, steps: seq<Step>): NodeState {
    if steps == [] then s else Next(u, After(u, s, steps[..|steps| - 1]), steps[|steps| - 1])
  }

  // ---- the invariant ----

  function FrameBytes(frames: seq<StripResult>): nat {
    if frames == [] then 0 else |frames[0].frame| + FrameBytes(frames[1..])
  }

  function InHand(s: NodeState, link: string): seq<StripResult> {
    if link in s.sending then [s.sending[link]] else []
  }

  function Queued(s: NodeState, link: string): seq<StripResult> {
    if link in s.queues then s.queues[link] else []
  }

  function Waiting(s: NodeState, link: string): seq<StripResult> {
    if s.pending.Some? && s.pending.value.threadId == link then [s.pending.value] else []
  }

  /** The frames assigned to a link and not yet completed, oldest first. */
  function Outstanding(s: NodeState, link: string): seq<StripResult> {
    InHand(s, link) + Queued(s, link) + Waiting(s, link)
  }

  function On(frames: seq<StripResult>, link: string): seq<StripResult> {
    if frames == [] then []
    else
      var last := frames[|frames| - 1];
      On(frames[..|frames| - 1], link) + (if last.threadId == link then [last] else [])
  }

  ghost predicate InOrder(frames: seq<StripResult>) {
    forall i, j :: 0 <= i < j < |frames| ==> frames[i].number < frames[j].number
  }

  /** Everything that went or will go out over a link, oldest first. */
  function Path(s: NodeState, link: string): seq<StripResult> {
    WrittenOn(s, link) + Outstanding(s, link)
  }

  /**
   A link's path is in striping order and on the right link, and together with what was dropped at
   the tail it is everything striped to that link, each frame once.
   */
  ghost predicate PathGood(path: seq<StripResult>, striped: seq<StripResult>, tail: seq<StripResult>, link: string,
      number: nat) {
    && InOrder(path)
    && (forall i :: 0 <= i < |path| ==> path[i].threadId == link && path[i].number <= number)
    && multiset(striped) == multiset(path) + multiset(tail)
  }

  ghost predicate LinkGood(s: NodeState, link: string, number: nat) {
    PathGood(Path(s, link), On(s.striped, link), On(s.tail, link), link, number)
  }

  ghost predicate QueueBytesExact(s: NodeState) {
    forall link <- s.engine.links :: s.engine.links[link].queueBytes == FrameBytes(Outstanding(s, link))
  }

  ghost predicate Good(u: Setup, s: NodeState) {
    && Bearer.Keyed(s.engine.links)
    && u.id in s.engine.weaves
    && (forall link <- s.engine.weaves[u.id].threads :: link in s.queues)
    && (s.pending.Some? ==> s.pending.value.threadId in s.queues)
    && QueueBytesExact(s)
    && forall link: string :: LinkGood(s, link, s.engine.weaves[u.id].number)
  }

  function Started(engine: State, links: seq<string>): NodeState {
    NodeState(engine, None, map link | link in links :: [], map[], 0, [], map[], [])
  }

  /** A node that has just been built: nothing striped, nothing queued, all accounts at zero. */
  ghost predicate Fresh(u: Setup, s: NodeState) {
    && Bearer.Keyed(s.engine.links)
    && (forall link <- s.engine.links :: s.engine.links[link].queueBytes == 0)
    && u.id in s.engine.weaves && s.engine.weaves[u.id].number == 0
    && (forall link <- s.engine.weaves[u.id].threads :: link in s.queues)
    && (forall link <- s.queues :: s.queues[link] == [])
    && s.pending == None && s.sending == map[] && s.written == map[] && s.striped == [] && s.tail == []
  }

  lemma {:induction false} FrameBytesAppend(a: seq<StripResult>, b: seq<StripResult>)
    ensures FrameBytes(a + b) == FrameBytes(a) + FrameBytes(b)
  {
    if a == [] {
      assert a + b == b;
    } else {
      FrameBytesAppend(a[1..], b);
      assert (a + b)[1..] == a[1..] + b;
    }
  }

  lemma OnAppend(frames: seq<StripResult>, r: StripResult, link: string)
    ensures On(frames + [r], link) == On(frames, link) + (if r.threadId == link then [r] else [])
  {
    assert (frames + [r])[..|frames|] == frames;
  }

  // ---- what happens to one path ----

  lemma PathGrows(path: seq<StripResult>, striped: seq<StripResult>, tail: seq<StripResult>, link: string,
      number: nat, r: StripResult)
    requires PathGood(path, striped, tail, link, number) && r.number == number + 1 && r.threadId == link
    ensures PathGood(path + [r], striped + [r], tail, link, number + 1)
  {
  }

  lemma PathWaits(path: seq<StripResult>, striped: seq<StripResult>, tail: seq<StripResult>, link: string,
      number: nat, later: nat)
    requires PathGood(path, striped, tail, link, number) && number <= later
    ensures PathGood(path, striped, tail, link, later)
  {
  }

  lemma PathDrops(path: seq<StripResult>, striped: seq<StripResult>, tail: seq<StripResult>, link: string,
      number: nat, r: StripResult)
    requires PathGood(path + [r], striped, tail, link, number)
    ensures PathGood(path, striped, tail + [r], link, number)
  {
    assert forall i :: 0 <= i < |path| ==> (path + [r])[i] == path[i];
  }

  lemma PathFrames(path: seq<StripResult>, striped: seq<StripResult>, tail: seq<StripResult>, link: string,
      number: nat, r: StripResult)
    requires PathGood(path, striped, tail, link, number) && r in path
    ensures r.threadId == link
  {
  }

  // ---- each step keeps it ----

  function Only(r: StripResult, link: string): seq<StripResult> {
    if r.threadId == link then [r] else []
  }

  lemma StripAssigns(u: Setup, s: State, payload: Payload, ts: int64)
    requires u.id in s.weaves && Bearer.Keyed(s.links)
    ensures var (t, r) := StripIn(s, u.hash, u.id, payload, ts);
      && u.id in t.weaves && t.weaves[u.id].threads == s.weaves[u.id].threads
      && s.weaves[u.id].number <= t.weaves[u.id].number
      && (if r.Ok? then
            && r.value.threadId in s.weaves[u.id].threads
            && r.value.number == t.weaves[u.id].number == s.weaves[u.id].number + 1
            && t.links == Bearer.Charged(s.links, r.value.threadId, |r.value.frame|)
          else t.links == s.links)
  {
    hide Shim.Frame;
    StripChargesChosenLink(s, u.hash, u.id, payload, ts);
    PickIsCandidate(s.links, s.weaves[u.id].threads, |payload|);
  }

  lemma PickIsCandidate(links: Bearer.Links, ids: seq<string>, len: nat)
    requires Bearer.Keyed(links)
    ensures var id := LoadBound.Chosen(links, ids, len); id.Some? ==> id.value in ids
  {
    var cands := Bearer.CandidatesOf(links, ids);
    Sched.PickFinishesFirst(cands, len);
    if Sched.PickFrom(cands, len).Some? {
      Bearer.CandidatesAre(links, ids, Sched.PickFrom(cands, len).value);
    }
  }

  lemma IngressMoves(s: NodeState, t: NodeState, r: StripResult, link: string)
    requires s.pending.None?
    requires t == s.(engine := t.engine, pending := Some(r), striped := s.striped + [r])
    ensures Outstanding(t, link) == Outstanding(s, link) + Only(r, link)
    ensures Path(t, link) == Path(s, link) + Only(r, link)
  {
    assert WrittenOn(t, link) == WrittenOn(s, link);
    Reassociate(InHand(s, link) + Queued(s, link), Only(r, link));
    Associate(WrittenOn(s, link), Outstanding(s, link), Only(r, link));
  }

  lemma Reassociate(a: seq<StripResult>, b: seq<StripResult>)
    ensures a + [] + b == a + b
  {
  }

  lemma Associate(a: seq<StripResult>, b: seq<StripResult>, c: seq<StripResult>)
    ensures a + (b + c) == a + b + c
  {
  }

  lemma IngressLinks(s: NodeState, t: NodeState, r: StripResult, link: string, number: nat)
    requires LinkGood(s, link, number) && s.pending.None? && r.number == number + 1
    requires t == s.(engine := t.engine, pending := Some(r), striped := s.striped + [r])
    ensures LinkGood(t, link, number + 1)
    ensures Outstanding(t, link) == Outstanding(s, link) + Only(r, link)
  {
    hide PathGood, On, Outstanding, WrittenOn;
    OnAppend(s.striped, r, link);
    IngressMoves(s, t, r, link);
    if r.threadId == link {
      PathGrows(Path(s, link), On(s.striped, link), On(s.tail, link), link, number, r);
    } else {
      assert On(t.striped, link) == On(s.striped, link) && Path(t, link) == Path(s, link);
      PathWaits(Path(s, link), On(s.striped, link), On(s.tail, link), link, number, number + 1);
    }
  }

  lemma Burned(s: NodeState, t: NodeState, link: string, number: nat, later: nat)
    requires LinkGood(s, link, number) && number <= later && t == s.(engine := t.engine, dropped := t.dropped)
    ensures LinkGood(t, link, later) && Outstanding(t, link) == Outstanding(s, link)
  {
    hide PathGood, On;
    PathWaits(Path(s, link), On(s.striped, link), On(s.tail, link), link, number, later);
  }

  lemma IngressKeeps(u: Setup, s: NodeState, payload: Payload, ts: int64)
    requires Good(u, s)
    ensures Good(u, IngressIn(u, s, payload, ts))
  {
    hide LinkGood, StripIn, Outstanding, FrameBytes;
    if s.pending.None? {
      var (engine, r) := StripIn(s.engine, u.hash, u.id, payload, ts);
      StripAssigns(u, s.engine, payload, ts);
      var t := IngressIn(u, s, payload, ts);
      var number := s.engine.weaves[u.id].number;
      if r.Ok? {
        var after := number + 1;
        forall link: string
          ensures LinkGood(t, link, after) && Outstanding(t, link) == Outstanding(s, link) + Only(r.value, link)
        {
          IngressLinks(s, t, r.value, link, number);
        }
        ChargedExactly(s, t, r.value);
        assert t.engine.weaves[u.id].number == after;
      } else {
        forall link: string
          ensures LinkGood(t, link, engine.weaves[u.id].number) && Outstanding(t, link) == Outstanding(s, link)
        {
          Burned(s, t, link, number, engine.weaves[u.id].number);
        }
      }
    }
  }

  lemma BytesOfOne(r: StripResult)
    ensures FrameBytes([r]) == |r.frame|
  {
    assert [r][1..] == [];
  }

  lemma ChargedExactly(s: NodeState, t: NodeState, r: StripResult)
    requires QueueBytesExact(s) && t.engine.links == Bearer.Charged(s.engine.links, r.threadId, |r.frame|)
    requires forall link: string :: Outstanding(t, link) == Outstanding(s, link) + Only(r, link)
    ensures QueueBytesExact(t)
  {
    hide Outstanding, FrameBytes;
    BytesOfOne(r);
    forall link | link in t.engine.links ensures t.engine.links[link].queueBytes == FrameBytes(Outstanding(t, link)) {
      FrameBytesAppend(Outstanding(s, link), Only(r, link));
      NoBytes();
    }
  }

  lemma NoBytes()
    ensures FrameBytes([]) == 0
  {
  }

  lemma DrainedExactly(s: NodeState, t: NodeState, r: StripResult)
    requires QueueBytesExact(s) && t.engine.links == Bearer.Drained(s.engine.links, r.threadId, |r.frame|)
    requires forall link: string ::
      FrameBytes(Outstanding(s, link)) == FrameBytes(Outstanding(t, link))
          + (if r.threadId == link then |r.frame| else 0)
    ensures QueueBytesExact(t)
  {
    hide Outstanding, FrameBytes;
  }

  /** Moving a frame along its path changes nothing that matters. */
  lemma Moved(s: NodeState, t: NodeState, link: string, number: nat)
    requires LinkGood(s, link, number) && Path(t, link) == Path(s, link)
    requires t.striped == s.striped && t.tail == s.tail
    ensures LinkGood(t, link, number)
  {
    hide PathGood, On;
  }

  lemma EnqueueMoves(s: NodeState, t: NodeState, r: StripResult, link: string)
    requires s.pending == Some(r) && r.threadId in s.queues
    requires t == s.(pending := None, queues := s.queues[r.threadId := s.queues[r.threadId] + [r]])
    ensures Outstanding(t, link) == Outstanding(s, link)
  {
    if link == r.threadId {
      assert InHand(s, link) + (s.queues[link] + [r]) + [] == InHand(s, link) + s.queues[link] + [r];
    }
  }

  lemma DropLinks(s: NodeState, t: NodeState, r: StripResult, link: string, number: nat)
    requires LinkGood(s, link, number) && s.pending == Some(r)
    requires t == s.(engine := t.engine, pending := None, dropped := t.dropped, tail := s.tail + [r])
    ensures LinkGood(t, link, number)
    ensures Outstanding(s, link) == Outstanding(t, link) + Only(r, link)
  {
    hide PathGood, On;
    OnAppend(s.tail, r, link);
    Reassociate(InHand(s, link) + Queued(s, link), Only(r, link));
    Associate(WrittenOn(s, link), Outstanding(t, link), Only(r, link));
    assert WrittenOn(t, link) == WrittenOn(s, link);
    assert Path(s, link) == Path(t, link) + Only(r, link);
    if r.threadId == link {
      PathDrops(Path(t, link), On(s.striped, link), On(s.tail, link), link, number, r);
    } else {
      assert On(t.tail, link) == On(s.tail, link) && Path(t, link) == Path(s, link);
    }
  }

  lemma EnqueueKeeps(u: Setup, s: NodeState)
    requires Good(u, s)
    ensures Good(u, EnqueueIn(u, s))
  {
    hide LinkGood, Outstanding, FrameBytes;
    if s.pending.Some? {
      var r, t, number := s.pending.value, EnqueueIn(u, s), s.engine.weaves[u.id].number;
      if |s.queues[r.threadId]| < u.capacity {
        forall link: string ensures LinkGood(t, link, number) && Outstanding(t, link) == Outstanding(s, link) {
          EnqueueMoves(s, t, r, link);
          Moved(s, t, link, number);
        }
      } else {
        forall link: string
          ensures LinkGood(t, link, number)
          ensures FrameBytes(Outstanding(s, link)) == FrameBytes(Outstanding(t, link))
              + (if r.threadId == link then |r.frame| else 0)
        {
          DropLinks(s, t, r, link, number);
          FrameBytesAppend(Outstanding(t, link), Only(r, link));
          BytesOfOne(r);
          NoBytes();
        }
        DrainedExactly(s, t, r);
      }
    }
  }

  lemma TakeMoves(s: NodeState, link: string, x: string)
    ensures Outstanding(TakeIn(s, link), x) == Outstanding(s, x)
  {
    var t := TakeIn(s, link);
    if t != s && x == link {
      var q := s.queues[link];
      assert q == [q[0]] + q[1..];
      assert [q[0]] + q[1..] + Waiting(s, x) == [] + q + Waiting(s, x);
    }
  }

  lemma TakeKeeps(u: Setup, s: NodeState, link: string)
    requires Good(u, s)
    ensures Good(u, TakeIn(s, link))
  {
    hide LinkGood, Outstanding, FrameBytes;
    var t, number := TakeIn(s, link), s.engine.weaves[u.id].number;
    forall x: string ensures LinkGood(t, x, number) && Outstanding(t, x) == Outstanding(s, x) {
      TakeMoves(s, link, x);
      Moved(s, t, x, number);
    }
  }

  lemma FinishMoves(s: NodeState, t: NodeState, link: string, x: string)
    requires link in s.sending && t.pending == s.pending && t.queues == s.queues
    requires t.sending == s.sending - {link}
    requires t.written == s.written[link := WrittenOn(s, link) + [s.sending[link]]]
    ensures Path(t, x) == Path(s, x)
    ensures x == link ==> Outstanding(s, x) == [s.sending[link]] + Outstanding(t, x)
    ensures x != link ==> Outstanding(s, x) == Outstanding(t, x)
  {
    if x == link {
      var r := s.sending[link];
      assert Outstanding(s, x) == [r] + Outstanding(t, x);
      assert WrittenOn(s, x) + [r] + Outstanding(t, x) == WrittenOn(s, x) + ([r] + Outstanding(t, x));
    }
  }

  lemma SendingIsOnLink(s: NodeState, link: string, number: nat)
    requires link in s.sending && LinkGood(s, link, number)
    ensures s.sending[link].threadId == link
  {
    hide PathGood, On;
    var path := Path(s, link);
    assert path[|WrittenOn(s, link)|] == s.sending[link];
    PathFrames(path, On(s.striped, link), On(s.tail, link), link, number, s.sending[link]);
  }

  lemma FinishKeeps(u: Setup, s: NodeState, link: string, ok: bool)
    requires Good(u, s)
    ensures Good(u, FinishIn(s, link, ok))
  {
    hide LinkGood, Outstanding, FrameBytes, WrittenOn, Path;
    if link in s.sending {
      var r, t, number := s.sending[link], FinishIn(s, link, ok), s.engine.weaves[u.id].number;
      SendingIsOnLink(s, link, number);
      forall x: string
        ensures LinkGood(t, x, number)
        ensures FrameBytes(Outstanding(s, x)) == FrameBytes(Outstanding(t, x))
            + (if r.threadId == x then |r.frame| else 0)
      {
        FinishMoves(s, t, link, x);
        Moved(s, t, x, number);
        if x == link { FrameBytesAppend([r], Outstanding(t, x)); }
        BytesOfOne(r);
      }
      var down := s.(engine := s.engine.(links :=
        if ok then s.engine.links else Bearer.Measured(s.engine.links, link, 0.0, 0.0, 100.0, false)));
      SameOutstanding(s, down);
      DrainedExactly(down, t, r);
    }
  }

  lemma SameOutstanding(s: NodeState, t: NodeState)
    requires t == s.(engine := t.engine)
    ensures forall x: string :: Outstanding(t, x) == Outstanding(s, x) && Path(t, x) == Path(s, x)
  {
  }

  lemma NextKeeps(u: Setup, s: NodeState, step: Step)
    requires Good(u, s)
    ensures Good(u, Next(u, s, step))
  {
    hide LinkGood, Outstanding, FrameBytes, Path, IngressIn, EnqueueIn, TakeIn, FinishIn;
    match step
    case Ingress(payload, ts) => IngressKeeps(u, s, payload, ts);
    case Enqueue => EnqueueKeeps(u, s);
    case Take(link) => TakeKeeps(u, s, link);
    case Finish(link, ok) => FinishKeeps(u, s, link, ok);
    case Measure(link, mbps, rtt, loss, up) =>
      var t := Next(u, s, step);
      SameOutstanding(s, t);
      forall x: string ensures LinkGood(t, x, s.engine.weaves[u.id].number) {
        Moved(s, t, x, s.engine.weaves[u.id].number);
      }
  }

  lemma {:induction false} EveryInterleavingIsGood(u: Setup, s: NodeState, steps: seq<Step>)
    requires Fresh(u, s)
    ensures Good(u, After(u, s, steps))
  {
    hide Next;
    if steps == [] {
      forall link: string ensures LinkGood(s, link, 0) && Outstanding(s, link) == [] {
      }
    } else {
      EveryInterleavingIsGood(u, s, steps[..|steps| - 1]);
      NextKeeps(u, After(u, s, steps[..|steps| - 1]), steps[|steps| - 1]);
    }
  }

  // ---- what it says ----

  lemma {:induction false} PartOfBytes(frames: seq<StripResult>, r: StripResult)
    requires r in frames
    ensures |r.frame| <= FrameBytes(frames)
  {
    if r != frames[0] { PartOfBytes(frames[1..], r); }
  }

  /**
   Queue accounting.  In every interleaving a link's queue account is exactly the length of the
   frames assigned to it and not yet completed; no completion is ever larger than the account, so
   the floor at zero is never what is subtracted from; and the node always knows the link a frame
   was assigned to.
   */
  lemma QueueAccountsAreExact(u: Setup, s: NodeState, steps: seq<Step>)
    requires Fresh(u, s)
    ensures var t := After(u, s, steps);
      && (forall link <- t.engine.links :: t.engine.links[link].queueBytes == FrameBytes(Outstanding(t, link)))
      && (forall link: string, r <- Outstanding(t, link) ::
            r.threadId == link && (link in t.engine.links ==> |r.frame| <= t.engine.links[link].queueBytes))
      && (t.pending.Some? ==> t.pending.value.threadId in t.queues)
  {
    hide After, FrameBytes, LinkGood, Outstanding;
    EveryInterleavingIsGood(u, s, steps);
    var t := After(u, s, steps);
    forall link: string, r | r in Outstanding(t, link)
      ensures r.threadId == link && (link in t.engine.links ==> |r.frame| <= t.engine.links[link].queueBytes)
    {
      OutstandingIsOnLink(t, link, t.engine.weaves[u.id].number, r);
      PartOfBytes(Outstanding(t, link), r);
    }
  }

  lemma OutstandingIsOnLink(s: NodeState, link: string, number: nat, r: StripResult)
    requires LinkGood(s, link, number) && r in Outstanding(s, link)
    ensures r.threadId == link
  {
    hide PathGood, On;
    assert r in Path(s, link);
    PathFrames(Path(s, link), On(s.striped, link), On(s.tail, link), link, number, r);
  }

  /**
   Conservation and order.  Every frame striped to a link has been handled by its writer once, was
   dropped at the tail once, or is still outstanding, and never two of these; and the writer handles
   frames in the order of their numbers.
   */
  lemma EveryFrameOnceInOrder(u: Setup, s: NodeState, steps: seq<Step>, link: string)
    requires Fresh(u, s)
    ensures var t := After(u, s, steps);
      && multiset(On(t.striped, link)) == multiset(WrittenOn(t, link) + Outstanding(t, link))
          + multiset(On(t.tail, link))
      && InOrder(WrittenOn(t, link) + Outstanding(t, link))
      && forall r <- WrittenOn(t, link) + Outstanding(t, link) :: r.threadId == link
  {
    hide After, Outstanding, On;
    EveryInterleavingIsGood(u, s, steps);
    var t := After(u, s, steps);
    assert LinkGood(t, link, t.engine.weaves[u.id].number);
  }
}
