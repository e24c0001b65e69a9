/**
 The loops of a running node (core/hydra/node/node.go), one method for each atomic step they take:
 `IngressOnce` and `EnqueuePending` for the ingress loop, `TakeFrame` and `FinishFrame` for a writer.
 */
module NodeLoops {
  import opened Bytes
  import opened Wrappers
  import opened Fabric
  import opened Node

  const DEFAULT_QUEUE_FRAMES: nat := 1024

  class DataPlane {
    const id: string
    const capacity: nat
    const engine: Engine
    var pending: Option<StripResult>
    var queues: map<string, seq<StripResult>>
    var sending: map<string, StripResult>
    var dropped: nat
    ghost var striped: seq<StripResult>
    ghost var written: map<string, seq<StripResult>>
    ghost var tail: seq<StripResult>

    constructor (id: string, capacity: int, engine: Engine, links: seq<string>)
      requires engine.Valid()
      ensures Valid() && this.id == id && this.engine == engine
      ensures this.capacity == if capacity <= 0 then DEFAULT_QUEUE_FRAMES else capacity
      ensures Model() == Started(engine.Model(), links)
    {
      this.id := id;
      this.capacity := if capacity <= 0 then DEFAULT_QUEUE_FRAMES else capacity;
      this.engine := engine;
      pending := None;
      queues := map link | link in links :: [];
      sending := map[];
      dropped := 0;
      striped := [];
      written := map[];
      tail := [];
    }

    ghost predicate Valid()
      reads this, engine
    {
      engine.Valid()
    }

    ghost function Config(): Setup
    {
      Setup(id, engine.weaveHash(id), capacity)
    }

    ghost function Model(): NodeState
      reads this, engine, engine.reg, engine.Parts()
    {
      NodeState(engine.Model(), pending, queues, sending, dropped, striped, written, tail)
    }

    /** The ingress loop reads one payload and stripes it. */
    method IngressOnce(payload: Payload, tsNanos: int64)
      requires Valid() && pending.None?
      modifies this, engine.reg, if id in engine.weaves then {engine.weaves[id]} else {}
      ensures Valid() && Model() == IngressIn(Config(), old(Model()), payload, tsNanos)
    {
      hide StripIn;
      var r := engine.Strip(id, payload, tsNanos);
      NoteStriped(r);
    }

    method NoteStriped(r: Result<StripResult, Error>)
      requires Valid()
      modifies this
      ensures Valid()
      ensures Model() == match r
        case Err(_) => old(Model()).(dropped := old(dropped) + 1)
        case Ok(res) => old(Model()).(pending := Some(res), striped := old(striped) + [res])
    {
      ghost var before := engine.Model();
      if r.Err? {
        dropped := dropped + 1;
      } else {
        pending, striped := Some(r.value), striped + [r.value];
      }
      assert engine.Model() == before;
    }

    /** The ingress loop hands the striped frame to its link's writer, or drops it. */
    method EnqueuePending()
      requires Valid() && pending.Some?
      modifies this, engine.reg
      ensures Valid() && Model() == EnqueueIn(Config(), old(Model()))
    {
      var r := pending.value;
      pending := None;
      if r.threadId in queues && |queues[r.threadId]| < capacity {
        queues := queues[r.threadId := queues[r.threadId] + [r]];
      } else {
        DropTail(r);
      }
    }

    method DropTail(r: StripResult)
      requires Valid()
      modifies this, engine.reg
      ensures Valid()
      ensures Model() == old(Model()).(engine := CompleteIn(old(engine.Model()), r.threadId, |r.frame|),
                                       dropped := old(dropped) + 1, tail := old(tail) + [r])
    {
      engine.Complete(r.threadId, |r.frame|);
      ghost var after := engine.Model();
      dropped, tail := dropped + 1, tail + [r];
      assert engine.Model() == after;
    }

    /** A writer takes the next frame of its queue. */
    method TakeFrame(link: string)
      requires link in queues && queues[link] != [] && link !in sending
      modifies this
      ensures Model() == TakeIn(old(Model()), link)
      ensures Valid() == old(Valid())
    {
      sending := sending[link := queues[link][0]];
      queues := queues[link := queues[link][1..]];
    }

    /** A writer is done with its frame: it was sent, or sending it failed and the link is marked down. */
    method FinishFrame(link: string, ok: bool)
      requires Valid() && link in sending
      modifies this, engine.reg
      ensures Valid() && Model() == FinishIn(old(Model()), link, ok)
    {
      ghost var before := engine.Model();
      var r := sending[link];
      sending, written := sending - {link}, written[link := (if link in written then written[link] else []) + [r]];
      assert engine.Model() == before;
      if !ok {
        dropped := dropped + 1;
        assert engine.Model() == before;
        var _ := engine.SetThreadHealth(link, 0.0, 0.0, 100.0, false);
      }
      engine.Complete(link, |r.frame|);
    }
  }
}
