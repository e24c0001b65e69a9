/**
 What the engine's calls do, on links, names and frames (core/hydra/fabric/fabric.go): when striping succeeds,
 what a new weave is like, and which frames are refused.
 */
module FabricFacts {
  import opened Bytes
  import opened Wrappers
  import opened Fabric
  import Bearer
  import LoadBound
  import Reorder
  import Sched
  import Shim
  import Weave

  /** Some link of the weave is registered and up; and some such link has capacity. */
  ghost predicate SomeUp(s: State, threads: seq<string>) {
    exists id :: id in threads && id in s.links && s.links[id].up
  }

  ghost predicate SomeUsable(s: State, threads: seq<string>) {
    exists id :: id in threads && id in s.links && s.links[id].up && s.links[id].mbps > 0.0
  }

  /**
   Striping succeeds if and only if the weave exists and some link of it is up and has capacity.  A number is
   used up if and only if some link of it is up; counters grow by one frame and its octets on success only.
   */
  lemma {:induction false} StripSucceedsIff(s: State, hash: uint32, id: string, payload: Payload, tsNanos: int64)
    requires Bearer.Keyed(s.links)
    ensures var (t, r) := StripIn(s, hash, id, payload, tsNanos);
      && (r.Ok? <==> id in s.weaves && SomeUsable(s, s.weaves[id].threads))
      && (r == Err(NoWeave) <==> id !in s.weaves)
      && (id in s.weaves ==>
            && id in t.weaves
            && (r == Err(NoThreads) <==> !SomeUp(s, s.weaves[id].threads))
            && t.weaves[id] == s.weaves[id].(
                 number := s.weaves[id].number + (if SomeUp(s, s.weaves[id].threads) then 1 else 0),
                 framesSent := s.weaves[id].framesSent + (if r.Ok? then 1 else 0),
                 bytesSent := s.weaves[id].bytesSent + (if r.Ok? then 24 + |payload| else 0)))
  {
    hide Shim.Frame, Bearer.CandidatesOf, Bearer.Charged;
    if id in s.weaves {
      var threads := s.weaves[id].threads;
      var cands := Bearer.CandidatesOf(s.links, threads);
      Candidates(s.links, threads);
      Sched.PickFinishesFirst(cands, |payload|);
      assert (exists t <- cands :: t.mbps > 0.0) <==> SomeUsable(s, threads);
      FrameLength(Shim.New(hash, WireNumber(s.weaves[id].number + 1), tsNanos), payload);
    }
  }

  lemma {:induction false} FrameLength(h: Shim.Header, payload: Payload)
    ensures |Shim.Frame(h, payload)| == 24 + |payload|
  {
  }

  lemma {:induction false} Candidates(links: Bearer.Links, threads: seq<string>)
    requires Bearer.Keyed(links)
    ensures var cands := Bearer.CandidatesOf(links, threads);
      && (forall c <- cands :: c.id in threads && c.id in links && links[c.id].up && c == links[c.id].Candidate())
      && (forall id :: id in threads && id in links && links[id].up ==> links[id].Candidate() in cands)
      && (cands == [] <==> !exists id :: id in threads && id in links && links[id].up)
  {
    var cands := Bearer.CandidatesOf(links, threads);
    forall c | c in cands ensures c.id in threads && c.id in links && links[c.id].up && c == links[c.id].Candidate() {
      Bearer.CandidatesAre(links, threads, c);
    }
    forall id | id in threads && id in links && links[id].up ensures links[id].Candidate() in cands {
      Bearer.CandidatesAre(links, threads, links[id].Candidate());
    }
    if cands != [] { assert cands[0] in cands; }
  }

  /** The frame of a successful strip carries the weave's hash, the next number and the payload it was given. */
  lemma {:induction false} StripFrames(s: State, hash: uint32, id: string, payload: Payload, tsNanos: int64)
    ensures var (_, r) := StripIn(s, hash, id, payload, tsNanos);
      r.Ok? ==>
        && r.value.number == s.weaves[id].number + 1
        && Shim.Decode(r.value.frame)
             == Ok((Shim.Header(1, 0, hash, r.value.number % 0x1_0000_0000_0000_0000, tsNanos), payload))
  {
    hide Shim.Decode, Shim.Frame;
    if id in s.weaves {
      Shim.DecodeFrame(Shim.New(hash, WireNumber(s.weaves[id].number + 1), tsNanos), payload);
    }
  }

  /**
   A weave is created exactly under a name that is not empty and not taken, over at least one link, all of
   them registered; it starts at number one with an empty window of 4096 and a gap timeout of one second.
   */
  lemma {:induction false} CreatedIff(s: State, id: string, threads: seq<string>)
    ensures var (t, error) := CreateWeaveIn(s, id, threads);
      && (error == None <==>
            && id != "" && id !in s.weaves && threads != []
            && forall k :: 0 <= k < |threads| ==> threads[k] in s.links)
      && (if error == None then
            && id in t.weaves && t.weaves[id].threads == threads
            && t.weaves[id].number == 0 && t.weaves[id].framesSent == 0 && t.weaves[id].bytesSent == 0
            && t.weaves[id].window.next == 1 && t.weaves[id].window.window == 4096
            && t.weaves[id].window.slots == map[] && t.weaves[id].window.gapTimeout == 1_000_000_000
            && t == s.(weaves := s.weaves[id := t.weaves[id]])
          else t == s)
  {
    var unknown := exists t <- threads :: t !in s.links;
    assert unknown <==> exists k :: 0 <= k < |threads| && threads[k] !in s.links;
  }

  /** Two engines that have just created the weave and sent nothing are where every end-to-end result begins. */
  lemma {:induction false} CreatedIsFresh(edge: State, anchor: State, id: string, hash: uint32,
      threads: seq<string>, others: seq<string>)
    requires CreateWeaveIn(edge, id, threads).1 == None && CreateWeaveIn(anchor, id, others).1 == None
    requires anchor.egress == []
    ensures Weave.Setup(id, hash, CreateWeaveIn(edge, id, threads).0, CreateWeaveIn(anchor, id, others).0).Fresh()
  {
  }

  /** A frame that does not decode, or is of another weave, or of none there is, is refused and changes nothing. */
  lemma {:induction false} RefusedIff(s: State, hash: uint32, id: string, frame: Octets, at: Reading)
    ensures var (t, r) := IngestIn(s, hash, id, frame, at);
      var known := Shim.Decode(frame).Ok? && Shim.Decode(frame).value.0.weaveId == hash && id in s.weaves;
      && (r.Ok? <==> known)
      && (r.Err? ==> t == s)
      && (Shim.Decode(frame).Ok? && Shim.Decode(frame).value.0.weaveId != hash ==> r == Err(WeaveMismatch))
      && ReassembleIn(s, hash, id, frame, at).1.Ok? == known
  {
    hide Shim.Decode, Reorder.Step;
  }

  /** Every other weave, and every link, is left alone by a frame. */
  lemma {:induction false} IngestTouchesOneWeave(s: State, hash: uint32, id: string, frame: Octets, at: Reading)
    ensures var (t, r) := IngestIn(s, hash, id, frame, at);
      && t.links == s.links && t.weaves.Keys == s.weaves.Keys
      && (forall other <- s.weaves :: other != id ==> t.weaves[other] == s.weaves[other])
      && s.egress <= t.egress && (r.Ok? ==> |t.egress| == |s.egress| + r.value)
  {
    hide Shim.Decode, Reorder.Step;
  }
}
