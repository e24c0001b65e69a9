/**
 What happens to a SIM's status (core/fairwave-control/internal/api/server.go), stated on stored usage,
 quota and status alone: over every run of polls and folds it is determined by what the SIM met on the way.
 */
module QuotaRuns {
  import opened Usage
  import opened UsageRuns

  function Octets(s: State, imsi: string): nat { BytesOf(s, imsi).up + BytesOf(s, imsi).dn }

  /** Between `s` and `t` the SIM's stored usage grew, and to its quota or beyond, if it has one. */
  predicate GrewToQuota(s: State, t: State, imsi: string)
    requires imsi in s.sims
  {
    BytesOf(t, imsi) != BytesOf(s, imsi) && s.sims[imsi].quota != 0 && Octets(t, imsi) >= s.sims[imsi].quota
  }

  lemma {:induction false} GrownIff(s: State, hash: Hash, fairUse: bool, imsi: string)
    requires imsi in s.sims
    ensures var t := Accumulated(s, hash, fairUse);
      && (BytesOf(t, imsi) != BytesOf(s, imsi) <==> Growth(s, hash, imsi) != ZERO)
      && BytesOf(t, imsi) == Plus(BytesOf(s, imsi), Growth(s, hash, imsi))
  {
    hide Growth, Plus, Enforced;
    var t := Accumulated(s, hash, fairUse);
    PlusNothingIff(BytesOf(s, imsi), Growth(s, hash, imsi));
    if Growth(s, hash, imsi) != ZERO {
      assert t.usage[imsi] == GrownUsage(s, hash, imsi);
    } else {
      assert imsi in t.usage <==> imsi in s.usage;
    }
  }

  /**
   A fold changes a SIM's status if and only if fair use is on, the SIM was active or issued, and its
   usage grew to a quota that is not zero; it is then suspended.  Its quota never changes, and usage that
   grew is stored with the quota of the SIM.
   */
  lemma {:induction false} FoldStatusIff(s: State, hash: Hash, fairUse: bool, imsi: string)
    requires imsi in s.sims
    ensures var t := Accumulated(s, hash, fairUse);
      && imsi in t.sims && t.sims[imsi].quota == s.sims[imsi].quota
      && (t.sims[imsi].status != s.sims[imsi].status <==>
            && fairUse && (s.sims[imsi].status == Active || s.sims[imsi].status == Issued)
            && GrewToQuota(s, t, imsi))
      && (t.sims[imsi].status == s.sims[imsi].status || t.sims[imsi].status == Suspended)
      && (BytesOf(t, imsi) != BytesOf(s, imsi) ==> imsi in t.usage && t.usage[imsi].quota == s.sims[imsi].quota)
  {
    hide Growth, Plus;
    GrownIff(s, hash, fairUse, imsi);
    var t := Accumulated(s, hash, fairUse);
    if Growth(s, hash, imsi) != ZERO {
      assert t.usage[imsi] == GrownUsage(s, hash, imsi);
    }
  }

  /** A session table names the SIM. */
  predicate Names(sessions: seq<Session>, h: string) {
    sessions != [] && h != "" && (sessions[|sessions| - 1].imsiHash == h || Names(sessions[..|sessions| - 1], h))
  }

  lemma {:induction false} NamesIff(sessions: seq<Session>, h: string)
    ensures Names(sessions, h) <==> h != "" && exists k :: 0 <= k < |sessions| && sessions[k].imsiHash == h
  {
    if sessions != [] {
      var init := sessions[..|sessions| - 1];
      NamesIff(init, h);
      assert forall k :: 0 <= k < |init| ==> init[k] == sessions[k];
    }
  }

  /** A poll makes an issued SIM that its table names active, and changes no other status, quota or usage. */
  lemma {:induction false} PollStatusIs(s: State, hash: Hash, sessions: seq<Session>, imsi: string)
    requires imsi in s.sims
    ensures var t := Collected(s, hash, sessions);
      && imsi in t.sims && t.sims[imsi].quota == s.sims[imsi].quota && BytesOf(t, imsi) == BytesOf(s, imsi)
      && t.sims[imsi].status
           == if s.sims[imsi].status == Issued && Names(sessions, hash(imsi)) then Active else s.sims[imsi].status
  {
    NamesIff(sessions, hash(imsi));
  }

  /** Some fold of the run grew the SIM to its quota. */
  predicate MetQuota(s: State, hash: Hash, actions: seq<Action>, imsi: string)
    requires imsi in s.sims
  {
    actions != [] &&
    var init := actions[..|actions| - 1];
    var before, after := AfterActions(s, hash, init), AfterActions(s, hash, actions);
    MetQuota(s, hash, init, imsi)
    || (actions[|actions| - 1].Fold? && imsi in before.sims && GrewToQuota(before, after, imsi))
  }

  /** Some poll of the run named the SIM. */
  predicate Seen(hash: Hash, actions: seq<Action>, imsi: string) {
    actions != [] &&
    (Seen(hash, actions[..|actions| - 1], imsi)
     || (actions[|actions| - 1].Poll? && Names(actions[|actions| - 1].sessions, hash(imsi))))
  }

  /**
   With fair use on, the status after any run of polls and folds is a matter of history: a SIM that started
   usable is suspended if and only if some fold grew it to its quota; otherwise an issued one is active if
   and only if some poll named it; and nothing happens to any other SIM.
   */
  lemma {:induction false} StatusIsHistory(s: State, hash: Hash, actions: seq<Action>, imsi: string)
    requires imsi in s.sims
    ensures var t, was := AfterActions(s, hash, actions), s.sims[imsi].status;
      && imsi in t.sims && t.sims[imsi].quota == s.sims[imsi].quota
      && t.sims[imsi].status ==
           if was != Active && was != Issued then was
           else if MetQuota(s, hash, actions, imsi) then Suspended
           else if was == Issued && Seen(hash, actions, imsi) then Active
           else was
  {
    hide Accumulated, Collected, GrewToQuota, Names;
    if actions != [] {
      var init := actions[..|actions| - 1];
      StatusIsHistory(s, hash, init, imsi);
      var before := AfterActions(s, hash, init);
      match actions[|actions| - 1]
      case Poll(sessions) => PollStatusIs(before, hash, sessions, imsi);
      case Fold => FoldStatusIff(before, hash, true, imsi);
    }
  }

  /** An active SIM with a quota of 1000 and 10 octets in its first reading stays active. */
  lemma {:induction false} BelowQuotaStaysActive(hash: Hash, imsi: string)
    requires imsi != ""
    ensures var s := State([Session(hash(imsi), 10, 0)], map[imsi := Sim(Active, 1000)], map[], map[]);
      var t := Accumulated(s, hash, true);
      BytesOf(t, imsi) == Point(10, 0) && t.sims[imsi] == Sim(Active, 1000)
  {
    hide Accumulated, Readings, Growth, Delta, Plus;
    var session := Session(hash(imsi), 10, 0);
    var s := State([session], map[imsi := Sim(Active, 1000)], map[], map[]);
    OneReading(session);
    FoldStatusIff(s, hash, true, imsi);
    GrowthOf(s, hash, imsi);
    FirstReading(10);
    GrownIff(s, hash, true, imsi);
  }

  lemma {:induction false} FirstReading(n: nat)
    ensures Delta(ZERO, Point(n, 0)) == Point(n, 0) && Plus(ZERO, Point(n, 0)) == Point(n, 0)
  {
  }
}
