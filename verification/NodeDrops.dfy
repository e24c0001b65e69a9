/**
 What a node drops (core/hydra/node/node.go): over every interleaving, which frames are turned away at the
 tail of a queue, what the drop counter counts, and when a writer marks its link down.
 */
module NodeDrops {
  import opened Bytes
  import opened Wrappers
  import opened Fabric
  import opened Node
  import Bearer

  /** A frame that is to be queued finds no room: its link is unknown, or its queue holds all it can. */
  predicate NoRoom(u: Setup, s: NodeState) {
    match s.pending
    case None => false
    case Some(r) => r.threadId !in s.queues || |s.queues[r.threadId]| >= u.capacity
  }

  /** A pending frame is dropped exactly when there is no room, and otherwise becomes the last of its queue. */
  lemma {:induction false} QueuedUnlessNoRoom(u: Setup, s: NodeState)
    requires s.pending.Some?
    ensures var t, r := Next(u, s, Enqueue), s.pending.value;
      && t.pending == None && t.sending == s.sending && t.written == s.written && t.striped == s.striped
      && (if NoRoom(u, s) then
            t.tail == s.tail + [r] && t.queues == s.queues && t.dropped == s.dropped + 1
          else
            && t.tail == s.tail && t.dropped == s.dropped && t.engine == s.engine
            && t.queues == s.queues[r.threadId := s.queues[r.threadId] + [r]])
  {
  }

  /** The frames that found no room, in order. */
  function TurnedAway(u: Setup, s: NodeState, steps: seq<Step>): seq<StripResult> {
    if steps == [] then []
    else
      var init := steps[..|steps| - 1];
      var t := After(u, s, init);
      TurnedAway(u, s, init) + if steps[|steps| - 1].Enqueue? && NoRoom(u, t) then [t.pending.value] else []
  }

  /** Payloads that were taken in and not striped. */
  function FailedStrips(u: Setup, s: NodeState, steps: seq<Step>): nat {
    if steps == [] then 0
    else
      var init := steps[..|steps| - 1];
      var before, after := After(u, s, init), After(u, s, steps);
      FailedStrips(u, s, init)
      + if steps[|steps| - 1].Ingress? && before.pending.None? && after.striped == before.striped then 1 else 0
  }

  /** Frames a writer could not send. */
  function FailedWrites(u: Setup, s: NodeState, steps: seq<Step>): nat {
    if steps == [] then 0
    else
      var init, last := steps[..|steps| - 1], steps[|steps| - 1];
      FailedWrites(u, s, init)
      + if last.Finish? && !last.ok && last.link in After(u, s, init).sending then 1 else 0
  }

  lemma {:induction false} DropStep(u: Setup, s: NodeState, step: Step)
    ensures var t := Next(u, s, step);
      && t.tail == s.tail + (if step.Enqueue? && NoRoom(u, s) then [s.pending.value] else [])
      && t.dropped == s.dropped
           + (if step.Enqueue? && NoRoom(u, s) then 1 else 0)
           + (if step.Ingress? && s.pending.None? && t.striped == s.striped then 1 else 0)
           + (if step.Finish? && !step.ok && step.link in s.sending then 1 else 0)
  {
    hide StripIn, CompleteIn, Bearer.Measured;
    if step.Enqueue? && s.pending.Some? {
      QueuedUnlessNoRoom(u, s);
    }
  }

  /**
   In every interleaving the frames dropped at the tail are exactly those that found no room, and the
   counter counts them, the payloads that could not be striped and the frames that could not be sent.
   */
  lemma {:induction false} DropsAreAccounted(u: Setup, s: NodeState, steps: seq<Step>)
    ensures var t := After(u, s, steps);
      && t.tail == s.tail + TurnedAway(u, s, steps)
      && t.dropped == s.dropped + FailedStrips(u, s, steps) + |TurnedAway(u, s, steps)| + FailedWrites(u, s, steps)
  {
    hide Next, NoRoom;
    if steps == [] {
      assert s.tail + [] == s.tail;
    } else {
      var init := steps[..|steps| - 1];
      DropsAreAccounted(u, s, init);
      DropStep(u, After(u, s, init), steps[|steps| - 1]);
    }
  }

  /** No frame ever found its queue full or its link unknown. */
  predicate AlwaysRoom(u: Setup, s: NodeState, steps: seq<Step>) {
    steps == [] || (AlwaysRoom(u, s, steps[..|steps| - 1])
                    && !(steps[|steps| - 1].Enqueue? && NoRoom(u, After(u, s, steps[..|steps| - 1]))))
  }

  lemma {:induction false} NoneTurnedAway(u: Setup, s: NodeState, steps: seq<Step>)
    ensures AlwaysRoom(u, s, steps) <==> TurnedAway(u, s, steps) == []
  {
    hide NoRoom, After;
    if steps != [] { NoneTurnedAway(u, s, steps[..|steps| - 1]); }
  }

  /** With room throughout, every striped frame is written or still on its way, on its own link. */
  lemma {:induction false} NothingLostWithRoom(u: Setup, s: NodeState, steps: seq<Step>, link: string)
    requires Fresh(u, s) && AlwaysRoom(u, s, steps)
    ensures var t := After(u, s, steps);
      && t.tail == []
      && multiset(On(t.striped, link)) == multiset(WrittenOn(t, link) + Outstanding(t, link))
  {
    hide After, AlwaysRoom, TurnedAway, On, Outstanding, LinkGood;
    NoneTurnedAway(u, s, steps);
    DropsAreAccounted(u, s, steps);
    EveryFrameOnceInOrder(u, s, steps, link);
    var t := After(u, s, steps);
    NothingOn(link);
    assert t.tail == [];
    assert multiset(On(t.tail, link)) == multiset{};
  }

  lemma {:induction false} NothingOn(link: string)
    ensures On([], link) == []
  {
  }

  /** A writer marks its link down exactly when a send fails; else only the link's queue account changes. */
  lemma {:induction false} WriterMarksDownIff(s: NodeState, link: string, ok: bool)
    requires link in s.sending && link in s.engine.links && s.engine.links[link].mbps > 0.0
    ensures var before, after := s.engine.links[link], FinishIn(s, link, ok).engine.links;
      && link in after
      && (if ok then after[link] == before.(queueBytes := after[link].queueBytes)
          else
            after[link] == before.(queueBytes := after[link].queueBytes, rttMs := 0.0, lossPct := 100.0, up := false))
      && forall other <- s.engine.links :: other != link ==> other in after && after[other] == s.engine.links[other]
  {
  }

  // ---- writers make progress ----

  /** `n` frames of one link are taken and sent. */
  function Sends(link: string, n: nat): seq<Step> {
    if n == 0 then [] else Sends(link, n - 1) + [Take(link)] + [Finish(link, true)]
  }

  lemma {:induction false} AfterTwo(u: Setup, s: NodeState, steps: seq<Step>, a: Step, b: Step)
    ensures After(u, s, steps + [a] + [b]) == Next(u, Next(u, After(u, s, steps), a), b)
  {
    hide Next;
    assert (steps + [a] + [b])[..|steps| + 1] == steps + [a] && (steps + [a])[..|steps|] == steps;
  }

  /** A writer that is let run sends its whole queue, oldest first. */
  lemma {:induction false} QueueDrains(u: Setup, s: NodeState, link: string, n: nat)
    requires link in s.queues && n <= |s.queues[link]| && link !in s.sending
    ensures var t := After(u, s, Sends(link, n));
      && link in t.queues && t.queues[link] == s.queues[link][n..] && link !in t.sending
      && WrittenOn(t, link) == WrittenOn(s, link) + s.queues[link][..n]
      && t.pending == s.pending && t.tail == s.tail && t.dropped == s.dropped
  {
    hide CompleteIn, Next;
    if n == 0 {
      assert s.queues[link][0..] == s.queues[link];
    } else {
      QueueDrains(u, s, link, n - 1);
      var m := After(u, s, Sends(link, n - 1));
      AfterTwo(u, s, Sends(link, n - 1), Take(link), Finish(link, true));
      OneSent(u, m, link);
      assert s.queues[link][n - 1..][1..] == s.queues[link][n..];
      assert s.queues[link][..n - 1] + [s.queues[link][n - 1]] == s.queues[link][..n];
    }
  }

  lemma {:induction false} OneSent(u: Setup, s: NodeState, link: string)
    requires link in s.queues && s.queues[link] != [] && link !in s.sending
    ensures var t := Next(u, Next(u, s, Take(link)), Finish(link, true));
      && t.queues == s.queues[link := s.queues[link][1..]] && t.sending == s.sending
      && WrittenOn(t, link) == WrittenOn(s, link) + [s.queues[link][0]]
      && t.pending == s.pending && t.tail == s.tail && t.dropped == s.dropped
  {
    hide CompleteIn;
    assert s.sending[link := s.queues[link][0]] - {link} == s.sending;
  }
}
