/**
 Several metering sources seen as one (core/fairwave-control/internal/collector/cdr.go): the session
 tables of all sources are merged into one record per subscriber hash.
 */
module Merge {
  datatype Session = Session(
    imsiHash: string, apn: string, ip: string, phase: string, up: nat, dn: nat, created: int)

  type Table = map<string, Session>

  function Larger(a: nat, b: nat): nat { if b > a then b else a }

  function FirstKnown(a: string, b: string): string { if a == "" then b else a }

  /** A phase that says nothing about a live session gives way to any later one. */
  predicate Weak(phase: string) { phase == "" || phase == "metered" }

  function Combined(a: Session, b: Session): Session {
    Session(a.imsiHash, FirstKnown(a.apn, b.apn), FirstKnown(a.ip, b.ip), if Weak(a.phase) then b.phase else a.phase,
            Larger(a.up, b.up), Larger(a.dn, b.dn), a.created)
  }

  function Put(t: Table, s: Session): Table {
    t[s.imsiHash := if s.imsiHash in t then Combined(t[s.imsiHash], s) else s]
  }

  function Merged(sessions: seq<Session>): Table {
    if sessions == [] then map[] else Put(Merged(sessions[..|sessions| - 1]), sessions[|sessions| - 1])
  }

  /** A table listed in some order, each record once. */
  ghost predicate Lists(out: seq<Session>, t: Table) {
    && |out| == |t|
    && (forall h <- t :: t[h] in out)
    && (forall i :: 0 <= i < |out| ==> out[i].imsiHash in t && t[out[i].imsiHash] == out[i])
    && (forall i, j :: 0 <= i < j < |out| ==> out[i].imsiHash != out[j].imsiHash)
  }

  method MergeSessions(sessions: seq<Session>) returns (out: seq<Session>)
    ensures Lists(out, Merged(sessions))
  {
    var byHash: Table := map[];
    for i := 0 to |sessions|
      invariant byHash == Merged(sessions[..i]) && Keyed(byHash)
    {
      assert sessions[..i + 1][..i] == sessions[..i];
      var s := sessions[i];
      if s.imsiHash !in byHash {
        byHash := byHash[s.imsiHash := s];
      } else {
        var cur := byHash[s.imsiHash];
        if s.up > cur.up {
          cur := cur.(up := s.up);
        }
        if s.dn > cur.dn {
          cur := cur.(dn := s.dn);
        }
        if cur.apn == "" {
          cur := cur.(apn := s.apn);
        }
        if cur.ip == "" {
          cur := cur.(ip := s.ip);
        }
        if cur.phase == "" || cur.phase == "metered" {
          cur := cur.(phase := s.phase);
        }
        byHash := byHash[s.imsiHash := cur];
      }
    }
    assert sessions[..|sessions|] == sessions;
    out := ListTable(byHash);
  }

  method ListTable(t: Table) returns (out: seq<Session>)
    requires Keyed(t)
    ensures Lists(out, t)
  {
    out := [];
    var rest := t.Keys;
    while rest != {}
      invariant rest <= t.Keys && |out| + |rest| == |t.Keys|
      invariant forall h <- t.Keys - rest :: t[h] in out
      invariant forall i :: 0 <= i < |out| ==> out[i].imsiHash in t.Keys - rest && t[out[i].imsiHash] == out[i]
      invariant forall i, j :: 0 <= i < j < |out| ==> out[i].imsiHash != out[j].imsiHash
      decreases rest
    {
      var h :| h in rest;
      out := out + [t[h]];
      rest := rest - {h};
    }
    assert |t.Keys| == |t|;
  }

  ghost predicate Keyed(t: Table) {
    forall h <- t :: t[h].imsiHash == h
  }

  // ---- what a merged record holds ----

  /** Some session of the hash, before the `n`-th, has at least these counts; the maximum is reached. */
  lemma {:induction false} BytesAreMaxima(sessions: seq<Session>, h: string)
    ensures h in Merged(sessions) <==> exists i :: 0 <= i < |sessions| && sessions[i].imsiHash == h
    ensures h in Merged(sessions) ==>
      && (forall i :: 0 <= i < |sessions| && sessions[i].imsiHash == h ==>
            sessions[i].up <= Merged(sessions)[h].up && sessions[i].dn <= Merged(sessions)[h].dn)
      && (exists i :: 0 <= i < |sessions| && sessions[i].imsiHash == h && sessions[i].up == Merged(sessions)[h].up)
      && (exists i :: 0 <= i < |sessions| && sessions[i].imsiHash == h && sessions[i].dn == Merged(sessions)[h].dn)
  {
    if sessions != [] {
      var init, last := sessions[..|sessions| - 1], sessions[|sessions| - 1];
      BytesAreMaxima(init, h);
      assert forall i :: 0 <= i < |init| ==> init[i] == sessions[i];
      assert last == sessions[|init|];
    }
  }

  // ---- merging in stages ----

  lemma CombinedAssociates(a: Session, b: Session, c: Session)
    ensures Combined(Combined(a, b), c) == Combined(a, Combined(b, c))
  {
  }

  /** Two tables, the left one taking precedence. */
  function Joined(a: Table, b: Table): Table {
    map h | h in a.Keys + b.Keys :: if h in a && h in b then Combined(a[h], b[h]) else if h in a then a[h] else b[h]
  }

  lemma JoinPut(a: Table, b: Table, s: Session)
    requires Keyed(a) && Keyed(b)
    ensures Put(Joined(a, b), s) == Joined(a, Put(b, s))
  {
    hide Combined;
    var h := s.imsiHash;
    if h in a && h in b { CombinedAssociates(a[h], b[h], s); }
  }

  lemma {:induction false} MergedIsKeyed(sessions: seq<Session>)
    ensures Keyed(Merged(sessions))
  {
    if sessions != [] { MergedIsKeyed(sessions[..|sessions| - 1]); }
  }

  lemma {:induction false} MergedOfAppend(a: seq<Session>, b: seq<Session>)
    ensures Merged(a + b) == Joined(Merged(a), Merged(b))
  {
    hide Put;
    MergedIsKeyed(a);
    if b == [] {
      assert a + b == a;
    } else {
      var init, last := b[..|b| - 1], b[|b| - 1];
      assert (a + b)[..|a + b| - 1] == a + init;
      MergedOfAppend(a, init);
      MergedIsKeyed(init);
      JoinPut(Merged(a), Merged(init), last);
    }
  }

  lemma {:induction false} MergedOfListing(out: seq<Session>, t: Table, n: nat)
    requires n <= |out| && Lists(out, t)
    ensures forall h :: h in Merged(out[..n]) <==> exists i :: 0 <= i < n && out[i].imsiHash == h
    ensures forall h <- Merged(out[..n]) :: h in t && Merged(out[..n])[h] == t[h]
  {
    if n > 0 {
      MergedOfListing(out, t, n - 1);
      assert out[..n][..n - 1] == out[..n - 1] && out[..n][n - 1] == out[n - 1];
      assert out[n - 1].imsiHash !in Merged(out[..n - 1]);
    }
  }

  /**
   Sources may be merged in stages: merging what was already merged changes nothing, in whatever order
   it is listed.
   */
  lemma MergingInStages(a: seq<Session>, b: seq<Session>, mergedA: seq<Session>, mergedB: seq<Session>)
    requires Lists(mergedA, Merged(a)) && Lists(mergedB, Merged(b))
    ensures Merged(mergedA + mergedB) == Merged(a + b)
  {
    MergedIsKeyed(a);
    MergedIsKeyed(b);
    ListingMerges(mergedA, Merged(a));
    ListingMerges(mergedB, Merged(b));
    MergedOfAppend(mergedA, mergedB);
    MergedOfAppend(a, b);
  }

  lemma ListingMerges(out: seq<Session>, t: Table)
    requires Lists(out, t) && Keyed(t)
    ensures Merged(out) == t
  {
    hide Merged;
    MergedOfListing(out, t, |out|);
    assert out[..|out|] == out;
    forall h | h in t ensures h in Merged(out) {
      assert t[h] in out;
      var i :| 0 <= i < |out| && out[i] == t[h];
      assert out[i].imsiHash in t && t[out[i].imsiHash] == out[i];
    }
  }

  // ---- names and phases ----

  /** The first name known among the records of a hash, in the order of the sources. */
  function FirstApn(sessions: seq<Session>, h: string): string {
    if sessions == [] then ""
    else if sessions[0].imsiHash == h && sessions[0].apn != "" then sessions[0].apn
    else FirstApn(sessions[1..], h)
  }

  function FirstIp(sessions: seq<Session>, h: string): string {
    if sessions == [] then ""
    else if sessions[0].imsiHash == h && sessions[0].ip != "" then sessions[0].ip
    else FirstIp(sessions[1..], h)
  }

  /** The first phase that tells of a live session, and else the last one. */
  function BestPhase(sessions: seq<Session>, h: string): string {
    if sessions == [] then ""
    else if sessions[0].imsiHash == h && !(sessions[0].phase in {"", "metered"}) then sessions[0].phase
    else
      var later := BestPhase(sessions[1..], h);
      if sessions[0].imsiHash == h && !(exists i :: 1 <= i < |sessions| && sessions[i].imsiHash == h)
      then sessions[0].phase else later
  }

  function FirstCreated(sessions: seq<Session>, h: string): int {
    if sessions == [] then 0
    else if sessions[0].imsiHash == h then sessions[0].created
    else FirstCreated(sessions[1..], h)
  }

  lemma {:induction false} MergedFront(sessions: seq<Session>)
    requires sessions != []
    ensures Merged(sessions) == Joined(map[sessions[0].imsiHash := sessions[0]], Merged(sessions[1..]))
    ensures Keyed(Merged(sessions[1..]))
  {
    var first := sessions[..1];
    assert first == [sessions[0]] && first[..0] == [] && first + sessions[1..] == sessions;
    MergedOfAppend(first, sessions[1..]);
    assert Merged(first) == map[sessions[0].imsiHash := sessions[0]];
    MergedIsKeyed(sessions[1..]);
  }

  /** A merged record has the first names known, the best phase, and the time of its first record. */
  lemma {:induction false} NamesAreFirst(sessions: seq<Session>, h: string)
    requires h in Merged(sessions)
    ensures var s := Merged(sessions)[h];
      && s.imsiHash == h && s.apn == FirstApn(sessions, h) && s.ip == FirstIp(sessions, h)
      && s.phase == BestPhase(sessions, h) && s.created == FirstCreated(sessions, h)
    decreases |sessions|
  {
    hide Merged;
    if sessions == [] {
      assert Merged(sessions) == map[] by { MergedNothing(); }
    } else {
      MergedFront(sessions);
      BytesAreMaxima(sessions[1..], h);
      assert forall i :: 0 <= i < |sessions[1..]| ==> sessions[1..][i] == sessions[i + 1];
      assert (exists i :: 1 <= i < |sessions| && sessions[i].imsiHash == h) <==> h in Merged(sessions[1..]) by {
        if i :| 1 <= i < |sessions| && sessions[i].imsiHash == h { assert sessions[1..][i - 1].imsiHash == h; }
      }
      if h in Merged(sessions[1..]) {
        NamesAreFirst(sessions[1..], h);
      } else {
        NoneOf(sessions[1..], h);
      }
    }
  }

  lemma MergedNothing()
    ensures Merged([]) == map[]
  {
  }

  lemma {:induction false} NoneOf(sessions: seq<Session>, h: string)
    requires forall i :: 0 <= i < |sessions| ==> sessions[i].imsiHash != h
    ensures FirstApn(sessions, h) == "" && FirstIp(sessions, h) == ""
  {
    if sessions != [] { NoneOf(sessions[1..], h); }
  }
}
