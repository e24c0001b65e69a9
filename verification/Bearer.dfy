/** The registry of links a weave can stripe over (core/hydra/bearer/bearer.go). */
module Bearer {
  import Sched

  datatype Thread = Thread(id: string, mbps: real, rttMs: real, lossPct: real, queueBytes: nat, up: bool)
  {
    function Candidate(): Sched.Thread {
      Sched.Thread(id, mbps, rttMs, lossPct, queueBytes)
    }

    predicate Wellformed() {
      id != "" && mbps >= 0.0 && rttMs >= 0.0 && 0.0 <= lossPct <= 100.0
    }
  }

  type Links = map<string, Thread>

  /** Every link is stored under its own id. */
  ghost predicate Keyed(links: Links) {
    forall id <- links :: links[id].id == id
  }

  predicate Live(links: Links, id: string) {
    id in links && links[id].up
  }

  /** The candidates among `ids`, in that order, without unknown and down links. */
  function CandidatesOf(links: Links, ids: seq<string>): seq<Sched.Thread> {
    if ids == [] then []
    else
      var id := ids[|ids| - 1];
      CandidatesOf(links, ids[..|ids| - 1]) + (if Live(links, id) then [links[id].Candidate()] else [])
  }

  lemma {:induction false} CandidatesAre(links: Links, ids: seq<string>, t: Sched.Thread)
    requires Keyed(links)
    ensures t in CandidatesOf(links, ids) <==> t.id in ids && Live(links, t.id) && t == links[t.id].Candidate()
  {
    if ids != [] {
      CandidatesAre(links, ids[..|ids| - 1], t);
      assert ids == ids[..|ids| - 1] + [ids[|ids| - 1]];
    }
  }

  function Charged(links: Links, id: string, bytes: nat): Links {
    if id in links then links[id := links[id].(queueBytes := links[id].queueBytes + bytes)] else links
  }

  function Drained(links: Links, id: string, bytes: nat): Links {
    if id !in links then links
    else
      var q := links[id].queueBytes;
      links[id := links[id].(queueBytes := if bytes >= q then 0 else q - bytes)]
  }

  class Registry {
    var links: Links

    constructor ()
      ensures links == map[]
    {
      links := map[];
    }

    method Upsert(t: Thread) returns (ok: bool)
      modifies this
      ensures ok == (t.id != "" && t.mbps >= 0.0 && t.rttMs >= 0.0 && 0.0 <= t.lossPct <= 100.0)
      ensures links == if ok then old(links)[t.id := t] else old(links)
    {
      if t.id == "" || t.mbps < 0.0 || t.rttMs < 0.0 || t.lossPct < 0.0 || t.lossPct > 100.0 {
        return false;
      }
      links := links[t.id := t];
      ok := true;
    }

    method Remove(id: string) returns (found: bool)
      modifies this
      ensures found == (id in old(links)) && links == old(links) - {id}
    {
      if id !in links {
        return false;
      }
      links := links - {id};
      found := true;
    }

    method Candidates(ids: seq<string>) returns (out: seq<Sched.Thread>)
      ensures out == CandidatesOf(links, ids)
    {
      out := [];
      for k := 0 to |ids|
        invariant out == CandidatesOf(links, ids[..k])
      {
        var id := ids[k];
        assert ids[..k + 1][..k] == ids[..k];
        if id !in links || !links[id].up {
          continue;
        }
        out := out + [links[id].Candidate()];
      }
      assert ids[..|ids|] == ids;
    }

    method AddQueue(id: string, bytes: nat)
      modifies this
      ensures links == Charged(old(links), id, bytes)
    {
      if id in links {
        links := links[id := links[id].(queueBytes := links[id].queueBytes + bytes)];
      }
    }

    method SubQueue(id: string, bytes: nat)
      modifies this
      ensures links == Drained(old(links), id, bytes)
    {
      if id !in links {
        return;
      }
      if bytes >= links[id].queueBytes {
        links := links[id := links[id].(queueBytes := 0)];
        return;
      }
      links := links[id := links[id].(queueBytes := links[id].queueBytes - bytes)];
    }

    /** Live link health.  A capacity that is not positive leaves the declared one untouched. */
    method SetHealth(id: string, mbps: real, rttMs: real, lossPct: real, up: bool) returns (found: bool)
      modifies this
      ensures found == (id in old(links))
      ensures links == Measured(old(links), id, mbps, rttMs, lossPct, up)
    {
      if id !in links {
        return false;
      }
      var t := links[id];
      if mbps > 0.0 {
        t := t.(mbps := mbps);
      }
      links := links[id := t.(rttMs := rttMs, lossPct := lossPct, up := up)];
      found := true;
    }

    /** The capacity of every link that is up, summed in no particular order. */
    method AggregateMbps() returns (sum: real)
      ensures sum == Capacity(links)
    {
      sum := 0.0;
      var rest := links;
      while rest != map[]
        invariant sum + Capacity(rest) == Capacity(links)
        decreases |rest|
      {
        assert rest.Keys != {};
        var id :| id in rest;
        CapacitySplit(rest, id);
        if rest[id].up {
          sum := sum + rest[id].mbps;
        }
        assert (rest - {id}).Keys == rest.Keys - {id};
        rest := rest - {id};
      }
    }
  }

  function Measured(links: Links, id: string, mbps: real, rttMs: real, lossPct: real, up: bool): Links {
    if id !in links then links
    else
      var t := links[id];
      links[id := t.(mbps := if mbps > 0.0 then mbps else t.mbps, rttMs := rttMs, lossPct := lossPct, up := up)]
  }

  // ---- aggregate capacity ----

  function Share(t: Thread): real {
    if t.up then t.mbps else 0.0
  }

  ghost function Capacity(links: Links): real
    decreases |links|
  {
    if links == map[] then 0.0
    else
      assert links.Keys != {};
      var id :| id in links;
      assert (links - {id}).Keys == links.Keys - {id};
      Share(links[id]) + Capacity(links - {id})
  }

  /** The sum does not depend on the order in which links are visited. */
  lemma {:induction false} CapacitySplit(links: Links, id: string)
    requires id in links
    ensures Capacity(links) == Share(links[id]) + Capacity(links - {id})
    decreases |links|
  {
    assert links.Keys != {};
    var first :| first in links && Capacity(links) == Share(links[first]) + Capacity(links - {first});
    assert (links - {id}).Keys == links.Keys - {id};
    assert (links - {first}).Keys == links.Keys - {first};
    if first != id {
      CapacitySplit(links - {first}, id);
      CapacitySplit(links - {id}, first);
      assert links - {first} - {id} == links - {id} - {first};
    }
  }

  /** Measured health: a rate that is positive is taken over, the rest always, and no other link changes. */
  lemma {:induction false} HealthIs(links: Links, id: string, mbps: real, rttMs: real, lossPct: real, up: bool)
    ensures var after := Measured(links, id, mbps, rttMs, lossPct, up);
      && after.Keys == links.Keys
      && (forall other <- links :: other != id ==> after[other] == links[other])
      && (id in links ==>
            && after[id].rttMs == rttMs && after[id].lossPct == lossPct && after[id].up == up
            && after[id].id == links[id].id && after[id].queueBytes == links[id].queueBytes
            && (mbps > 0.0 ==> after[id].mbps == mbps) && (mbps <= 0.0 ==> after[id].mbps == links[id].mbps))
  {
  }
}
