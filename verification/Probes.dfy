/**
 The health of one link (core/hydra/node/node.go).  A probing pass, the handling of an echo and the
 link's writer run concurrently; each section under a lock is an atomic step, and its clock reading an
 input.  Times are nanoseconds.  `healthy` is the link's state in the registry.
 */
module Probes {
  type Time = int

  datatype Config = Config(timeout: nat, failures: nat)

  /** Where the probing pass is. */
  datatype Section = Idle | Judging(misses: nat, outstanding: nat) | Launching | Sending(number: nat)

  /** Where the handling of an echo is: it has taken its probe, or has recorded it and is to mark the link up. */
  datatype Reader = Quiet | Holding(sent: Time) | MarkingUp

  /** `echoed`, `expired` and `unsent` count how probes ended. */
  datatype State = State(
    probes: map<nat, Time>, misses: nat, probeSeq: nat, rtt: real, healthy: bool, at: Section, reader: Reader,
    echoed: nat, expired: nat, unsent: nat)

  const FRESH: State := State(map[], 0, 0, 0.0, true, Idle, Quiet, 0, 0, 0)

  /** The steps of a probing pass, of the handling of an echo, and a writer's failure to send a frame. */
  datatype Action =
    | Expire(now: Time) | Judge | Launch(now: Time) | Finish(sent: bool)
    | TakeEcho(number: nat) | ClearMisses(now: Time) | MarkUp
    | WriteFails

  function Overdue(probes: map<nat, Time>, c: Config, now: Time): set<nat> {
    set n | n in probes && now - probes[n] > c.timeout
  }

  function Reaped(s: State, c: Config, now: Time): State {
    var late := Overdue(s.probes, c, now);
    var left, misses := s.probes - late, s.misses + |late|;
    s.(probes := left, misses := misses, expired := s.expired + |late|, at := Judging(misses, |left|))
  }

  function Judged(s: State, c: Config): State
    requires s.at.Judging?
  {
    s.(healthy := s.healthy && s.at.misses < c.failures, at := if s.at.outstanding > 0 then Idle else Launching)
  }

  function Launched(s: State, now: Time): State {
    var n := s.probeSeq + 1;
    s.(probeSeq := n, probes := s.probes[n := now], at := Sending(n))
  }

  function Finished(s: State, sent: bool): State
    requires s.at.Sending?
  {
    if sent || s.at.number !in s.probes then s.(at := Idle)
    else s.(probes := s.probes - {s.at.number}, unsent := s.unsent + 1, at := Idle)
  }

  /** Milliseconds, from whole microseconds. */
  function Sample(sent: Time, now: Time): real { ((now - sent) / 1000) as real / 1000.0 }

  function Blended(rtt: real, sample: real): real { if rtt == 0.0 then sample else 0.8 * rtt + 0.2 * sample }

  /** Only the echo of a probe that is still waited for counts. */
  function Taken(s: State, number: nat): State {
    if number !in s.probes then s
    else s.(probes := s.probes - {number}, reader := Holding(s.probes[number]), echoed := s.echoed + 1)
  }

  function Cleared(s: State, now: Time): State
    requires s.reader.Holding?
  {
    s.(rtt := Blended(s.rtt, Sample(s.reader.sent, now)), misses := 0, reader := MarkingUp)
  }

  function MarkedUp(s: State): State { s.(healthy := true, reader := Quiet) }

  function WrittenOff(s: State): State { s.(healthy := false) }

  predicate Enabled(s: State, a: Action) {
    match a
    case Expire(_) => s.at.Idle?
    case Judge => s.at.Judging?
    case Launch(_) => s.at.Launching?
    case Finish(_) => s.at.Sending?
    case TakeEcho(_) => s.reader.Quiet?
    case ClearMisses(_) => s.reader.Holding?
    case MarkUp => s.reader.MarkingUp?
    case WriteFails => true
  }

  function Step(s: State, c: Config, a: Action): State {
    if !Enabled(s, a) then s
    else
      match a
      case Expire(now) => Reaped(s, c, now)
      case Judge => Judged(s, c)
      case Launch(now) => Launched(s, now)
      case Finish(sent) => Finished(s, sent)
      case TakeEcho(number) => Taken(s, number)
      case ClearMisses(now) => Cleared(s, now)
      case MarkUp => MarkedUp(s)
      case WriteFails => WrittenOff(s)
  }

  function After(s: State, c: Config, actions: seq<Action>): State {
    if actions == [] then s else Step(After(s, c, actions[..|actions| - 1]), c, actions[|actions| - 1])
  }

  lemma ReapOne(was: map<nat, Time>, late: set<nat>, rest: set<nat>, n: nat)
    requires rest <= was.Keys && n in rest
    ensures n in was - (late - rest) && (was - (late - rest))[n] == was[n]
    ensures was - (late - (rest - {n})) == if n in late then was - (late - rest) - {n} else was - (late - rest)
    ensures |late - (rest - {n})| == if n in late then |late - rest| + 1 else |late - rest|
  {
    if n in late {
      assert late - (rest - {n}) == late - rest + {n};
    } else {
      assert late - (rest - {n}) == late - rest;
    }
  }

  class Prober {
    const c: Config
    var probes: map<nat, Time>
    var misses: nat
    var probeSeq: nat
    var rtt: real
    var healthy: bool
    var at: Section
    var reader: Reader
    ghost var echoed: nat
    ghost var expired: nat
    ghost var unsent: nat

    ghost function Model(): State
      reads this
    {
      State(probes, misses, probeSeq, rtt, healthy, at, reader, echoed, expired, unsent)
    }

    constructor (timeout: nat, failures: int)
      ensures Model() == FRESH && c.timeout == timeout && c.failures == if failures <= 0 then 3 else failures
    {
      c := Config(timeout, if failures <= 0 then 3 else failures);
      probes, misses, probeSeq, rtt, healthy, at, reader := map[], 0, 0, 0.0, true, Idle, Quiet;
      echoed, expired, unsent := 0, 0, 0;
    }

    method DropOverdue(now: Time)
      modifies this`probes, this`misses
      ensures probes == old(probes) - Overdue(old(probes), c, now)
      ensures misses == old(misses) + |Overdue(old(probes), c, now)|
    {
      var rest := probes.Keys;
      ghost var was, late := probes, Overdue(probes, c, now);
      assert late - rest == {} && was - {} == was;
      while rest != {}
        invariant rest <= was.Keys && probes == was - (late - rest)
        invariant misses == old(misses) + |late - rest|
        decreases rest
      {
        var n :| n in rest;
        ReapOne(was, late, rest, n);
        if now - probes[n] > c.timeout {
          probes := probes - {n};
          misses := misses + 1;
        }
        rest := rest - {n};
      }
      assert late - rest == late;
    }

    method Reap(now: Time)
      modifies this
      ensures Model() == Reaped(old(Model()), c, now)
    {
      hide Overdue;
      ghost var s, late := Model(), Overdue(probes, c, now);
      DropOverdue(now);
      expired := expired + |late|;
      at := Judging(misses, |probes|);
      assert Model() == s.(probes := s.probes - late, misses := s.misses + |late|, expired := s.expired + |late|,
          at := at);
    }

    method Verdict()
      requires at.Judging?
      modifies this
      ensures Model() == Judged(old(Model()), c)
    {
      if at.misses >= c.failures {
        healthy := false;
      }
      at := if at.outstanding > 0 then Idle else Launching;
    }

    method LaunchProbe(now: Time) returns (number: nat)
      modifies this
      ensures Model() == Launched(old(Model()), now) && number == probeSeq
    {
      probeSeq := probeSeq + 1;
      number := probeSeq;
      probes := probes[number := now];
      at := Sending(number);
    }

    method FinishSend(sent: bool)
      requires at.Sending?
      modifies this
      ensures Model() == Finished(old(Model()), sent)
    {
      if !sent {
        if at.number in probes { unsent := unsent + 1; }
        probes := probes - {at.number};
      }
      at := Idle;
    }

    method TakeProbe(number: nat) returns (ok: bool)
      modifies this
      ensures Model() == Taken(old(Model()), number) && ok == (number in old(probes))
    {
      if number !in probes {
        return false;
      }
      reader := Holding(probes[number]);
      probes := probes - {number};
      echoed := echoed + 1;
      ok := true;
    }

    method RecordEcho(now: Time)
      requires reader.Holding?
      modifies this
      ensures Model() == Cleared(old(Model()), now)
    {
      var sample := Sample(reader.sent, now);
      rtt := if rtt == 0.0 then sample else 0.8 * rtt + 0.2 * sample;
      misses := 0;
      reader := MarkingUp;
    }

    method ReportUp()
      requires reader.MarkingUp?
      modifies this
      ensures Model() == MarkedUp(old(Model()))
    {
      healthy := true;
      reader := Quiet;
    }
  }

  // ---- every interleaving ----

  /** One probe at most, and every probe ever launched is in flight or ended in exactly one way. */
  ghost predicate Inv(s: State) {
    && |s.probes| <= 1
    && (forall n <- s.probes :: 0 < n <= s.probeSeq)
    && s.probeSeq == s.echoed + s.expired + s.unsent + |s.probes|
    && match s.at
       case Idle => true
       case Judging(_, outstanding) => |s.probes| <= outstanding <= 1
       case Launching => s.probes == map[]
       case Sending(n) => n == s.probeSeq && s.probes.Keys <= {n}
  }

  lemma ReapedCounts(s: State, c: Config, now: Time)
    ensures |Reaped(s, c, now).probes| + |Overdue(s.probes, c, now)| == |s.probes|
  {
    var late := Overdue(s.probes, c, now);
    var left := s.probes - late;
    assert left.Keys == s.probes.Keys - late;
    assert |left.Keys| == |left| && |s.probes.Keys| == |s.probes|;
  }

  lemma WithoutCounts(m: map<nat, Time>, n: nat)
    ensures |m - {n}| == if n in m then |m| - 1 else |m|
  {
    assert (m - {n}).Keys == m.Keys - {n};
    assert |(m - {n}).Keys| == |m - {n}| && |m.Keys| == |m|;
  }

  lemma StepKeepsInv(s: State, c: Config, a: Action)
    requires Inv(s)
    ensures Inv(Step(s, c, a))
  {
    hide Inv, Overdue, Reaped, Judged, Launched, Finished, Taken, Blended, Sample;
    if Enabled(s, a) {
      match a
      case Expire(now) => ReapKeepsInv(s, c, now);
      case Judge => JudgeKeepsInv(s, c);
      case Launch(now) => LaunchKeepsInv(s, now);
      case Finish(sent) => FinishKeepsInv(s, sent);
      case TakeEcho(n) => TakeKeepsInv(s, n);
      case ClearMisses(now) => ReaderKeepsInv(s, Cleared(s, now));
      case MarkUp => ReaderKeepsInv(s, MarkedUp(s));
      case WriteFails => ReaderKeepsInv(s, WrittenOff(s));
    }
  }

  lemma JudgeKeepsInv(s: State, c: Config)
    requires Inv(s) && s.at.Judging?
    ensures Inv(Judged(s, c))
  {
    if s.at.outstanding == 0 { assert s.probes == map[]; }
  }

  lemma LaunchKeepsInv(s: State, now: Time)
    requires Inv(s) && s.at.Launching?
    ensures Inv(Launched(s, now))
  {
    OneKey(s.probes, s.probeSeq + 1, now);
  }

  lemma FinishKeepsInv(s: State, sent: bool)
    requires Inv(s) && s.at.Sending?
    ensures Inv(Finished(s, sent))
  {
    WithoutCounts(s.probes, s.at.number);
  }

  lemma TakeKeepsInv(s: State, n: nat)
    requires Inv(s)
    ensures Inv(Taken(s, n))
  {
    WithoutCounts(s.probes, n);
  }

  lemma ReaderKeepsInv(s: State, t: State)
    requires Inv(s) && t == s.(rtt := t.rtt, misses := t.misses, healthy := t.healthy, reader := t.reader)
    ensures Inv(t)
  {
  }

  lemma ReapKeepsInv(s: State, c: Config, now: Time)
    requires Inv(s) && s.at.Idle?
    ensures Inv(Reaped(s, c, now))
  {
    hide Overdue;
    ReapedCounts(s, c, now);
  }

  lemma OneKey(m: map<nat, Time>, n: nat, now: Time)
    requires m == map[]
    ensures m[n := now].Keys == {n} && |m[n := now]| == 1
  {
    assert m[n := now].Keys == {n};
    assert |m[n := now].Keys| == |m[n := now]|;
  }

  /**
   In every interleaving of passes and echoes there is at most one probe in flight, and none is lost
   from the books.
   */
  lemma {:induction false} OneProbeInFlight(c: Config, actions: seq<Action>)
    ensures Inv(After(FRESH, c, actions))
  {
    hide Step, Inv;
    if actions == [] {
      FreshInv();
    } else {
      var init := actions[..|actions| - 1];
      OneProbeInFlight(c, init);
      StepKeepsInv(After(FRESH, c, init), c, actions[|actions| - 1]);
    }
  }

  lemma FreshInv()
    ensures Inv(FRESH)
  {
  }

  // ---- when a link is down ----

  /** A link that is down, and is not just being marked up, has missed `failures` probes in a row. */
  predicate Deserved(s: State, c: Config) { s.reader.MarkingUp? || (!s.healthy ==> s.misses >= c.failures) }

  predicate AlwaysDeserved(c: Config, actions: seq<Action>) {
    Deserved(After(FRESH, c, actions), c) && (actions == [] || AlwaysDeserved(c, actions[..|actions| - 1]))
  }

  /** The misses were cleared since the latest pass began. */
  predicate ClearedSince(c: Config, actions: seq<Action>) {
    actions != [] &&
    var init, a := actions[..|actions| - 1], actions[|actions| - 1];
    var s := After(FRESH, c, init);
    !(a.Expire? && s.at.Idle?) && ((a.ClearMisses? && s.reader.Holding?) || ClearedSince(c, init))
  }

  /** The step takes the link down on a count that an answer has cleared since it was read. */
  predicate Overrules(s: State, c: Config, a: Action, cleared: bool) {
    a.Judge? && s.at.Judging? && s.at.misses >= c.failures && cleared && !s.reader.MarkingUp?
  }

  /** A failed write takes the link down before it has missed enough probes. */
  predicate WritesOffEarly(s: State, c: Config, a: Action) {
    a.WriteFails? && s.misses < c.failures && !s.reader.MarkingUp?
  }

  /** No verdict is overruled by an earlier answer, and no write fails early. */
  predicate NoneUndeserved(c: Config, actions: seq<Action>) {
    actions == [] ||
    var init, a := actions[..|actions| - 1], actions[|actions| - 1];
    var s := After(FRESH, c, init);
    !Overrules(s, c, a, ClearedSince(c, init)) && !WritesOffEarly(s, c, a) && NoneUndeserved(c, init)
  }

  /** The count a verdict is based on is the current one, unless the misses were cleared in between. */
  ghost predicate CountCurrent(s: State, cleared: bool) {
    s.at.Judging? ==> s.misses == if cleared then 0 else s.at.misses
  }

  lemma {:induction false} CountIsCurrent(c: Config, actions: seq<Action>)
    ensures CountCurrent(After(FRESH, c, actions), ClearedSince(c, actions))
  {
    hide Step;
    if actions != [] {
      var init, a := actions[..|actions| - 1], actions[|actions| - 1];
      CountIsCurrent(c, init);
      CountStep(After(FRESH, c, init), c, a, ClearedSince(c, init));
    }
  }

  lemma CountStep(s: State, c: Config, a: Action, cleared: bool)
    requires CountCurrent(s, cleared)
    ensures CountCurrent(Step(s, c, a),
              !(a.Expire? && s.at.Idle?) && ((a.ClearMisses? && s.reader.Holding?) || cleared))
  {
    hide Overdue, Blended, Sample;
  }

  lemma DeservedStep(s: State, c: Config, a: Action, cleared: bool)
    requires c.failures > 0 && Deserved(s, c) && CountCurrent(s, cleared)
    ensures Deserved(Step(s, c, a), c) <==> !Overrules(s, c, a, cleared) && !WritesOffEarly(s, c, a)
  {
    hide Overdue, Blended, Sample;
  }

  /**
   In every interleaving of passes, echoes and failing writes, a link is down only while it has missed
   `failures` probes in a row, or is being marked up, if and only if no verdict on `failures` misses
   came after an answer in its own pass and no write failed before there were that many misses.
   */
  lemma {:induction false} DownDeservedIff(c: Config, actions: seq<Action>)
    requires c.failures > 0
    ensures AlwaysDeserved(c, actions) <==> NoneUndeserved(c, actions)
  {
    hide Step, Deserved;
    if actions == [] {
      assert Deserved(FRESH, c) by { FreshDeserved(c); }
    } else {
      var init, a := actions[..|actions| - 1], actions[|actions| - 1];
      DownDeservedIff(c, init);
      if AlwaysDeserved(c, init) {
        CountIsCurrent(c, init);
        DeservedStep(After(FRESH, c, init), c, a, ClearedSince(c, init));
      }
    }
  }

  lemma FreshDeserved(c: Config)
    ensures Deserved(FRESH, c)
  {
  }

  /** No misses are cleared between a pass's reaping and its verdict, and no write fails. */
  predicate Orderly(c: Config, actions: seq<Action>) {
    actions == [] ||
    (Orderly(c, actions[..|actions| - 1]) && !actions[|actions| - 1].WriteFails?
     && !(After(FRESH, c, actions[..|actions| - 1]).at.Judging? && actions[|actions| - 1].ClearMisses?))
  }

  lemma {:induction false} OrderlyIsDeserved(c: Config, actions: seq<Action>)
    requires Orderly(c, actions)
    ensures After(FRESH, c, actions).at.Judging? ==> !ClearedSince(c, actions)
    ensures NoneUndeserved(c, actions)
  {
    hide Overdue, Blended, Sample;
    if actions != [] { OrderlyIsDeserved(c, actions[..|actions| - 1]); }
  }

  /** So in an orderly run a link is down only while it has missed `failures` probes in a row. */
  lemma {:induction false} DownOnlyAfterMisses(c: Config, actions: seq<Action>)
    requires c.failures > 0 && Orderly(c, actions)
    ensures Deserved(After(FRESH, c, actions), c)
  {
    OrderlyIsDeserved(c, actions);
    DownDeservedIff(c, actions);
  }

  /** One failed write is enough to take a link down that has missed nothing. */
  lemma {:induction false} EarlyWriteOff(c: Config)
    requires c.failures > 0
    ensures var s := After(FRESH, c, [WriteFails]); !s.healthy && s.misses == 0 && s.reader.Quiet?
    ensures !AlwaysDeserved(c, [WriteFails])
  {
    EmptyRun(c);
    AfterOne(FRESH, c, [], WriteFails);
    assert [] + [WriteFails] == [WriteFails];
  }

  lemma AfterOne(s: State, c: Config, actions: seq<Action>, a: Action)
    ensures After(s, c, actions + [a]) == Step(After(s, c, actions), c, a)
  {
    assert (actions + [a])[..|actions|] == actions;
  }

  /** An echo in that window is overruled: the link is down with no miss on its record. */
  lemma StaleVerdict(c: Config) returns (actions: seq<Action>)
    requires c.failures > 0
    ensures var s := After(FRESH, c, actions); !s.healthy && s.misses == 0 && s.reader.Quiet?
    ensures forall i :: 0 <= i < |actions| ==> !actions[i].WriteFails?
  {
    hide After, Blended, Sample;
    var now;
    actions, now := Unanswered(c, c.failures);
    var s := After(FRESH, c, actions);
    AfterOne(FRESH, c, actions, Expire(now));
    actions := actions + [Expire(now)];
    assert Overdue(s.probes, c, now) == {};
    assert s.probes - {} == s.probes;
    AfterOne(FRESH, c, actions, TakeEcho(s.probeSeq));
    actions := actions + [TakeEcho(s.probeSeq)];
    AfterOne(FRESH, c, actions, ClearMisses(now));
    actions := actions + [ClearMisses(now)];
    AfterOne(FRESH, c, actions, MarkUp);
    actions := actions + [MarkUp];
    AfterOne(FRESH, c, actions, Judge);
    actions := actions + [Judge];
  }

  /** A run of passes that has just launched a probe after `n` misses. */
  lemma {:induction false} Unanswered(c: Config, n: nat) returns (actions: seq<Action>, now: Time)
    ensures var s := After(FRESH, c, actions);
      s.at.Idle? && s.misses == n && s.probes == map[s.probeSeq := now] && s.reader.Quiet?
    ensures forall i :: 0 <= i < |actions| ==> !actions[i].WriteFails?
  {
    hide After;
    if n == 0 {
      EmptyRun(c);
      assert Overdue(FRESH.probes, c, 0) == {};
      actions := FullPass(c, [], 0);
      now := 0;
    } else {
      var before, last := Unanswered(c, n - 1);
      now := last + c.timeout + 1;
      var s := After(FRESH, c, before);
      assert Overdue(s.probes, c, now) == s.probes.Keys;
      assert |s.probes| == 1;
      actions := FullPass(c, before, now);
    }
  }

  lemma EmptyRun(c: Config)
    ensures After(FRESH, c, []) == FRESH
  {
  }

  /** A run extended by a pass that finds its only probe late, or none. */
  lemma FullPass(c: Config, before: seq<Action>, now: Time) returns (actions: seq<Action>)
    requires var s := After(FRESH, c, before); s.at.Idle? && Overdue(s.probes, c, now) == s.probes.Keys
    ensures var s, t := After(FRESH, c, before), After(FRESH, c, actions);
      t == Reaped(s, c, now).(healthy := s.healthy && s.misses + |s.probes| < c.failures, probeSeq := s.probeSeq + 1,
                              probes := map[s.probeSeq + 1 := now], at := Idle)
    ensures (forall i :: 0 <= i < |before| ==> !before[i].WriteFails?)
      ==> forall i :: 0 <= i < |actions| ==> !actions[i].WriteFails?
  {
    hide After;
    var s := After(FRESH, c, before);
    assert s.probes - s.probes.Keys == map[];
    assert |s.probes.Keys| == |s.probes|;
    AfterOne(FRESH, c, before, Expire(now));
    AfterOne(FRESH, c, before + [Expire(now)], Judge);
    AfterOne(FRESH, c, before + [Expire(now)] + [Judge], Launch(now));
    AfterOne(FRESH, c, before + [Expire(now)] + [Judge] + [Launch(now)], Finish(true));
    actions := before + [Expire(now)] + [Judge] + [Launch(now)] + [Finish(true)];
  }

  // ---- a silent link ----

  ghost predicate Silent(actions: seq<Action>) {
    forall i :: 0 <= i < |actions| ==> !actions[i].TakeEcho?
  }

  predicate SomeWriteFails(actions: seq<Action>) {
    actions != [] && (actions[|actions| - 1].WriteFails? || SomeWriteFails(actions[..|actions| - 1]))
  }

  /** How many probes left the link. */
  function SendsMade(c: Config, actions: seq<Action>): nat {
    if actions == [] then 0
    else
      var init, a := actions[..|actions| - 1], actions[|actions| - 1];
      SendsMade(c, init) + if a.Finish? && a.sent && After(FRESH, c, init).at.Sending? then 1 else 0
  }

  ghost predicate SilentState(s: State, c: Config, sends: nat, writtenOff: bool) {
    && s.echoed == 0 && s.misses == s.expired && s.reader.Quiet?
    && (if s.at.Judging? then
          && s.at.misses == s.expired && (s.healthy ==> !writtenOff)
          && (!s.healthy ==> writtenOff || s.expired >= c.failures)
        else s.healthy <==> s.expired < c.failures && !writtenOff)
    && (s.at.Sending? ==> s.at.number in s.probes)
    && s.expired + |s.probes| == sends + if s.at.Sending? then 1 else 0
  }

  lemma SilentStep(s: State, c: Config, sends: nat, writtenOff: bool, a: Action)
    requires Inv(s) && SilentState(s, c, sends, writtenOff) && !a.TakeEcho?
    ensures SilentState(Step(s, c, a), c, sends + if a.Finish? && a.sent && s.at.Sending? then 1 else 0,
                        writtenOff || a.WriteFails?)
  {
    hide Inv, SilentState, Reaped, Judged, Launched, Finished, Cleared, MarkedUp;
    SilentReader(s, c, sends, writtenOff);
    if Enabled(s, a) {
      match a
      case Expire(now) => SilentReap(s, c, sends, writtenOff, now);
      case Judge => SilentJudge(s, c, sends, writtenOff);
      case Launch(now) => SilentLaunch(s, c, sends, writtenOff, now);
      case Finish(sent) => SilentFinish(s, c, sends, writtenOff, sent);
      case WriteFails => SilentWriteOff(s, c, sends, writtenOff);
    }
  }

  lemma SilentReader(s: State, c: Config, sends: nat, writtenOff: bool)
    requires SilentState(s, c, sends, writtenOff)
    ensures s.reader.Quiet?
  {
  }

  lemma SilentReap(s: State, c: Config, sends: nat, writtenOff: bool, now: Time)
    requires SilentState(s, c, sends, writtenOff) && s.at.Idle?
    ensures SilentState(Reaped(s, c, now), c, sends, writtenOff)
  {
    hide Overdue;
    ReapedCounts(s, c, now);
  }

  lemma SilentJudge(s: State, c: Config, sends: nat, writtenOff: bool)
    requires SilentState(s, c, sends, writtenOff) && s.at.Judging?
    ensures SilentState(Judged(s, c), c, sends, writtenOff)
  {
  }

  lemma SilentLaunch(s: State, c: Config, sends: nat, writtenOff: bool, now: Time)
    requires Inv(s) && SilentState(s, c, sends, writtenOff) && s.at.Launching?
    ensures SilentState(Launched(s, now), c, sends, writtenOff)
  {
    OneKey(s.probes, s.probeSeq + 1, now);
  }

  lemma SilentFinish(s: State, c: Config, sends: nat, writtenOff: bool, sent: bool)
    requires SilentState(s, c, sends, writtenOff) && s.at.Sending?
    ensures SilentState(Finished(s, sent), c, sends + if sent then 1 else 0, writtenOff)
  {
    WithoutCounts(s.probes, s.at.number);
  }

  lemma SilentWriteOff(s: State, c: Config, sends: nat, writtenOff: bool)
    requires SilentState(s, c, sends, writtenOff)
    ensures SilentState(WrittenOff(s), c, sends, true)
  {
  }

  lemma {:induction false} SilentRun(c: Config, actions: seq<Action>)
    requires c.failures > 0 && Silent(actions)
    ensures SilentState(After(FRESH, c, actions), c, SendsMade(c, actions), SomeWriteFails(actions))
  {
    hide Step, Inv;
    if actions != [] {
      var init, a := actions[..|actions| - 1], actions[|actions| - 1];
      SilentRun(c, init);
      OneProbeInFlight(c, init);
      SilentStep(After(FRESH, c, init), c, SendsMade(c, init), SomeWriteFails(init), a);
    }
  }

  /**
   Without answers, whichever sends fail, a link is up after every verdict exactly while fewer than
   `failures` probes have expired and no write has failed.  A probe expires only if it was sent, so a
   link on which fewer than `failures` probes are sent is taken down by a failed write or not at all.
   */
  lemma {:induction false} SilentLinkIsUpIff(c: Config, actions: seq<Action>)
    requires c.failures > 0 && Silent(actions)
    ensures var s := After(FRESH, c, actions);
      && (!s.at.Judging? ==> (s.healthy <==> s.expired < c.failures && !SomeWriteFails(actions)))
      && s.expired <= SendsMade(c, actions)
      && (SendsMade(c, actions) < c.failures ==> (s.healthy <==> !SomeWriteFails(actions)))
  {
    hide Step, Inv;
    SilentRun(c, actions);
    OneProbeInFlight(c, actions);
    SendingHasOne(After(FRESH, c, actions));
  }

  lemma SendingHasOne(s: State)
    requires s.at.Sending? ==> s.at.number in s.probes
    ensures s.at.Sending? ==> |s.probes| >= 1
  {
    if s.at.Sending? { assert |s.probes.Keys| == |s.probes| && s.probes.Keys != {}; }
  }

  // ---- how long a silent link stays up ----

  /** A pass reads the clock when it reaps and, if it launches a probe, when it does that. */
  datatype Pass = Pass(reapAt: Time, launchAt: Time, sent: bool)

  function PassActions(p: Pass): seq<Action> { [Expire(p.reapAt), Judge, Launch(p.launchAt), Finish(p.sent)] }

  function Passes(ps: seq<Pass>): seq<Action> {
    if ps == [] then [] else Passes(ps[..|ps| - 1]) + PassActions(ps[|ps| - 1])
  }

  lemma {:induction false} PassesAreSilent(ps: seq<Pass>)
    ensures Silent(Passes(ps)) && !SomeWriteFails(Passes(ps))
  {
    if ps != [] {
      var init, p := ps[..|ps| - 1], ps[|ps| - 1];
      PassesAreSilent(init);
      NoWriteIn(Passes(init) + [Expire(p.reapAt)] + [Judge] + [Launch(p.launchAt)], Finish(p.sent));
      NoWriteIn(Passes(init) + [Expire(p.reapAt)] + [Judge], Launch(p.launchAt));
      NoWriteIn(Passes(init) + [Expire(p.reapAt)], Judge);
      NoWriteIn(Passes(init), Expire(p.reapAt));
      assert Passes(ps) == Passes(init) + [Expire(p.reapAt)] + [Judge] + [Launch(p.launchAt)] + [Finish(p.sent)];
    }
  }

  lemma NoWriteIn(actions: seq<Action>, a: Action)
    requires !a.WriteFails?
    ensures SomeWriteFails(actions + [a]) == SomeWriteFails(actions)
  {
    assert (actions + [a])[..|actions|] == actions;
  }

  function Passed(s: State, c: Config, p: Pass): State {
    Step(Step(Step(Step(s, c, Expire(p.reapAt)), c, Judge), c, Launch(p.launchAt)), c, Finish(p.sent))
  }

  lemma AfterPass(c: Config, ps: seq<Pass>)
    requires ps != []
    ensures After(FRESH, c, Passes(ps)) == Passed(After(FRESH, c, Passes(ps[..|ps| - 1])), c, ps[|ps| - 1])
  {
    hide After, Step;
    var before, p := Passes(ps[..|ps| - 1]), ps[|ps| - 1];
    AfterOne(FRESH, c, before, Expire(p.reapAt));
    AfterOne(FRESH, c, before + [Expire(p.reapAt)], Judge);
    AfterOne(FRESH, c, before + [Expire(p.reapAt)] + [Judge], Launch(p.launchAt));
    AfterOne(FRESH, c, before + [Expire(p.reapAt)] + [Judge] + [Launch(p.launchAt)], Finish(p.sent));
    assert Passes(ps) == before + [Expire(p.reapAt)] + [Judge] + [Launch(p.launchAt)] + [Finish(p.sent)];
  }

  /** From one pass's reaping to the end of the next no more than `gap` goes by. */
  ghost predicate Spaced(ps: seq<Pass>, gap: nat) {
    && (forall i :: 0 <= i < |ps| ==> ps[i].reapAt <= ps[i].launchAt)
    && (forall i :: 0 < i < |ps| ==> ps[i].launchAt <= ps[i - 1].reapAt + gap)
  }

  function Spell(n: nat, period: nat): nat { n * period }

  lemma OneMore(n: nat, period: nat)
    ensures Spell(n + 1, period) == Spell(n, period) + period
  {
  }

  lemma SpellMonotone(a: nat, b: nat, period: nat)
    requires a <= b
    ensures Spell(a, period) <= Spell(b, period)
  {
    assert b * period == a * period + (b - a) * period;
  }

  /** The time `expired` probes and `unsent` ones can account for. */
  function Spent(c: Config, gap: nat, expired: nat, unsent: nat): nat {
    Spell(expired, c.timeout + gap) + Spell(unsent, gap)
  }

  /** After pass `p`: the latest probe went out, or failed to, no later than its predecessors account for. */
  ghost predicate Accounted(s: State, c: Config, start: Time, p: Pass, gap: nat) {
    && s.at.Idle? && |s.probes| <= 1 && (forall n <- s.probes :: n <= s.probeSeq)
    && (forall n <- s.probes ::
          p.reapAt <= s.probes[n] + c.timeout && s.probes[n] <= start + Spent(c, gap, s.expired, s.unsent))
    && (s.probes == map[] ==> s.unsent > 0 && p.launchAt <= start + Spent(c, gap, s.expired, s.unsent - 1))
  }

  lemma LaunchIsAccounted(s: State, c: Config, start: Time, p: Pass, gap: nat, t: State)
    requires s.at.Launching? && s.probes == map[] && p.reapAt <= p.launchAt
    requires p.launchAt <= start + Spent(c, gap, s.expired, s.unsent)
    requires t == Step(Step(s, c, Launch(p.launchAt)), c, Finish(p.sent))
    ensures Accounted(t, c, start, p, gap) && t.expired == s.expired
  {
    hide Spent;
    var n := s.probeSeq + 1;
    OneKey(s.probes, n, p.launchAt);
    assert s.probes[n := p.launchAt] - {n} == map[];
  }

  lemma FirstPass(c: Config, p: Pass, gap: nat)
    requires p.reapAt <= p.launchAt
    ensures Accounted(Passed(FRESH, c, p), c, p.launchAt, p, gap)
  {
    var judged := Step(Step(FRESH, c, Expire(p.reapAt)), c, Judge);
    assert Overdue(FRESH.probes, c, p.reapAt) == {};
    assert FRESH.probes - {} == map[];
    LaunchIsAccounted(judged, c, p.launchAt, p, gap, Passed(FRESH, c, p));
  }

  /** What a pass does before it launches anything. */
  lemma Verdict(s: State, c: Config, p: Pass)
    requires s.at.Idle? && |s.probes| <= 1
    ensures var late := Overdue(s.probes, c, p.reapAt);
      var judged := Step(Step(s, c, Expire(p.reapAt)), c, Judge);
      && judged.probeSeq == s.probeSeq && judged.unsent == s.unsent && judged.expired == s.expired + |late|
      && (if s.probes == map[] || late != {} then judged.at.Launching? && judged.probes == map[]
          else judged.at.Idle? && judged.probes == s.probes && late == {})
      && (late != {} ==> |late| == 1)
  {
    hide Overdue;
    ReapedCounts(s, c, p.reapAt);
    WhoIsLate(s.probes, c, p.reapAt);
    assert s.probes - {} == s.probes;
  }

  lemma NextPass(s: State, c: Config, start: Time, before: Pass, p: Pass, gap: nat)
    requires Accounted(s, c, start, before, gap)
    requires before.reapAt <= before.launchAt && p.reapAt <= p.launchAt <= before.reapAt + gap
    ensures Accounted(Passed(s, c, p), c, start, p, gap)
  {
    hide Overdue, Spent, Step, Accounted;
    var judged := Step(Step(s, c, Expire(p.reapAt)), c, Judge);
    assert Passed(s, c, p) == Step(Step(judged, c, Launch(p.launchAt)), c, Finish(p.sent));
    AccountedFacts(s, c, start, before, gap);
    Verdict(s, c, p);
    LaunchInTime(s, c, start, before, p, gap);
    if judged.at.Launching? {
      LaunchIsAccounted(judged, c, start, p, gap, Passed(s, c, p));
    } else {
      NothingLaunched(judged, c, p);
      StillAccounted(s, c, start, before, p, gap, judged);
    }
  }

  lemma AccountedFacts(s: State, c: Config, start: Time, p: Pass, gap: nat)
    requires Accounted(s, c, start, p, gap)
    ensures s.at.Idle? && |s.probes| <= 1
  {
  }

  /** Whatever a pass launches, it launches in time for the account. */
  lemma LaunchInTime(s: State, c: Config, start: Time, before: Pass, p: Pass, gap: nat)
    requires Accounted(s, c, start, before, gap)
    requires before.reapAt <= before.launchAt && p.launchAt <= before.reapAt + gap
    ensures s.probes == map[] || Overdue(s.probes, c, p.reapAt) != {} ==>
      p.launchAt <= start + Spent(c, gap, s.expired + |Overdue(s.probes, c, p.reapAt)|, s.unsent)
  {
    hide Overdue, Spent;
    var late := Overdue(s.probes, c, p.reapAt);
    WhoIsLate(s.probes, c, p.reapAt);
    if s.probes == map[] {
      MoreSpent(c, gap, s.expired, s.unsent - 1);
    } else if late != {} {
      var n :| n in late;
      assert before.reapAt <= s.probes[n] + c.timeout;
      MoreSpent(c, gap, s.expired, s.unsent);
    }
  }

  lemma StillAccounted(s: State, c: Config, start: Time, before: Pass, p: Pass, gap: nat, t: State)
    requires Accounted(s, c, start, before, gap)
    requires s.probes != map[] && Overdue(s.probes, c, p.reapAt) == {}
    requires t.at.Idle? && t.probes == s.probes && t.probeSeq == s.probeSeq
    requires t.expired == s.expired && t.unsent == s.unsent
    ensures Accounted(t, c, start, p, gap)
  {
    hide Overdue, Spent;
    WhoIsLate(s.probes, c, p.reapAt);
  }

  lemma NothingLaunched(s: State, c: Config, p: Pass)
    requires s.at.Idle?
    ensures Step(Step(s, c, Launch(p.launchAt)), c, Finish(p.sent)) == s
  {
  }

  lemma WhoIsLate(probes: map<nat, Time>, c: Config, now: Time)
    ensures Overdue(probes, c, now) <= probes.Keys
    ensures forall n <- probes :: n in Overdue(probes, c, now) <==> now - probes[n] > c.timeout
    ensures |probes| <= 1 ==> Overdue(probes, c, now) == {} || Overdue(probes, c, now) == probes.Keys
    ensures |probes| <= 1 && Overdue(probes, c, now) != {} ==> |Overdue(probes, c, now)| == 1
    ensures Overdue(probes, c, now) == probes.Keys ==> probes - Overdue(probes, c, now) == map[]
  {
    var late := Overdue(probes, c, now);
    assert |probes.Keys| == |probes|;
    if |probes| <= 1 && late != {} {
      var n :| n in late;
      forall m | m in probes ensures m == n {
        if m != n { assert {m, n} <= probes.Keys && |{m, n}| == 2; SubsetSize({m, n}, probes.Keys); }
      }
    }
  }

  lemma SubsetSize(a: set<nat>, b: set<nat>)
    requires a <= b
    ensures |a| <= |b|
  {
    assert b == a + (b - a);
  }

  lemma MoreSpent(c: Config, gap: nat, expired: nat, unsent: nat)
    ensures Spent(c, gap, expired + 1, unsent) == Spent(c, gap, expired, unsent) + c.timeout + gap
    ensures Spent(c, gap, expired, unsent + 1) == Spent(c, gap, expired, unsent) + gap
  {
    OneMore(expired, c.timeout + gap);
    OneMore(unsent, gap);
  }

  lemma {:induction false} SilenceIsAccounted(c: Config, ps: seq<Pass>, gap: nat)
    requires ps != [] && Spaced(ps, gap)
    ensures Accounted(After(FRESH, c, Passes(ps)), c, ps[0].launchAt, ps[|ps| - 1], gap)
  {
    hide Passed, Accounted;
    var init, p := ps[..|ps| - 1], ps[|ps| - 1];
    AfterPass(c, ps);
    if init == [] {
      assert After(FRESH, c, Passes(init)) == FRESH;
      FirstPass(c, p, gap);
    } else {
      SilenceIsAccounted(c, init, gap);
      NextPass(After(FRESH, c, Passes(init)), c, ps[0].launchAt, init[|init| - 1], p, gap);
    }
  }

  /**
   A link that never answers, whichever sends fail, is down once its passes have gone on for longer
   than one timeout, `failures - 1` further periods of a timeout and a gap, and a gap for each send
   that failed.
   */
  lemma {:induction false} SilentLinkGoesDown(c: Config, ps: seq<Pass>, gap: nat)
    requires c.failures > 0 && ps != [] && Spaced(ps, gap)
    requires var s := After(FRESH, c, Passes(ps));
      ps[|ps| - 1].reapAt - ps[0].launchAt > c.timeout + Spent(c, gap, c.failures - 1, s.unsent)
    ensures !After(FRESH, c, Passes(ps)).healthy
  {
    hide Step, After, Passes, Spell, Spent;
    PassesAreSilent(ps);
    SilentLinkIsUpIff(c, Passes(ps));
    ElapsedIsSpent(c, ps, gap);
    var s := After(FRESH, c, Passes(ps));
    if s.expired < c.failures {
      SpentMonotone(c, gap, s.expired, c.failures - 1, s.unsent);
    }
  }

  lemma SpentMonotone(c: Config, gap: nat, fewer: nat, more: nat, unsent: nat)
    requires fewer <= more
    ensures Spent(c, gap, fewer, unsent) <= Spent(c, gap, more, unsent)
  {
    SpellMonotone(fewer, more, c.timeout + gap);
  }

  lemma {:induction false} ElapsedIsSpent(c: Config, ps: seq<Pass>, gap: nat)
    requires ps != [] && Spaced(ps, gap)
    ensures var s := After(FRESH, c, Passes(ps));
      s.at.Idle? && ps[|ps| - 1].reapAt - ps[0].launchAt <= c.timeout + Spent(c, gap, s.expired, s.unsent)
  {
    hide After, Passes, Spent;
    SilenceIsAccounted(c, ps, gap);
    var s := After(FRESH, c, Passes(ps));
    if s.probes == map[] {
      MoreSpent(c, gap, s.expired, s.unsent - 1);
    } else {
      var n :| n in s.probes;
      assert s.probes[n] <= ps[0].launchAt + Spent(c, gap, s.expired, s.unsent);
    }
  }

  lemma {:induction false} FailedSendsAreUnsent(c: Config, ps: seq<Pass>)
    ensures (forall i :: 0 <= i < |ps| ==> ps[i].sent) ==> After(FRESH, c, Passes(ps)).unsent == 0
    ensures (forall i :: 0 <= i < |ps| ==> !ps[i].sent) ==> SendsMade(c, Passes(ps)) == 0
  {
    hide After, Overdue;
    if ps == [] {
      EmptyRun(c);
    } else {
      var init := ps[..|ps| - 1];
      FailedSendsAreUnsent(c, init);
      AfterPass(c, ps);
      if !ps[|ps| - 1].sent { SendsOfPass(c, Passes(init), ps[|ps| - 1]); }
    }
  }

  lemma SendsOfPass(c: Config, before: seq<Action>, p: Pass)
    requires !p.sent
    ensures SendsMade(c, before + PassActions(p)) == SendsMade(c, before)
  {
    hide After;
    var acts := before + [Expire(p.reapAt)] + [Judge] + [Launch(p.launchAt)] + [Finish(p.sent)];
    assert before + PassActions(p) == acts;
    SendsOfOne(c, before, Expire(p.reapAt));
    SendsOfOne(c, before + [Expire(p.reapAt)], Judge);
    SendsOfOne(c, before + [Expire(p.reapAt)] + [Judge], Launch(p.launchAt));
    SendsOfOne(c, before + [Expire(p.reapAt)] + [Judge] + [Launch(p.launchAt)], Finish(p.sent));
  }

  lemma SendsOfOne(c: Config, before: seq<Action>, a: Action)
    requires a.Finish? ==> !a.sent
    ensures SendsMade(c, before + [a]) == SendsMade(c, before)
  {
    assert (before + [a])[..|before|] == before;
  }

  /** When every send succeeds the bound depends on the clock alone. */
  lemma {:induction false} SentButUnansweredGoesDown(c: Config, ps: seq<Pass>, gap: nat)
    requires c.failures > 0 && ps != [] && Spaced(ps, gap) && forall i :: 0 <= i < |ps| ==> ps[i].sent
    requires ps[|ps| - 1].reapAt - ps[0].launchAt > c.timeout + Spell(c.failures - 1, c.timeout + gap)
    ensures !After(FRESH, c, Passes(ps)).healthy
  {
    hide After, Passes;
    FailedSendsAreUnsent(c, ps);
    SilentLinkGoesDown(c, ps, gap);
  }

  /**
   And probes whose sending fails are never missed: however long that lasts, only a write that fails as
   well takes such a link down.
   */
  lemma {:induction false} UnsentProbesAreNotMissed(c: Config, actions: seq<Action>)
    requires c.failures > 0 && Silent(actions) && SendsMade(c, actions) == 0
    ensures var s := After(FRESH, c, actions); s.misses == 0 && (s.healthy <==> !SomeWriteFails(actions))
  {
    hide After, Step;
    SilentRun(c, actions);
    SilentLinkIsUpIff(c, actions);
  }

  /** In particular passes that never get a probe out leave the link up. */
  lemma {:induction false} UnsentPassesLeaveUp(c: Config, ps: seq<Pass>)
    requires c.failures > 0 && forall i :: 0 <= i < |ps| ==> !ps[i].sent
    ensures var s := After(FRESH, c, Passes(ps)); s.healthy && s.misses == 0
  {
    hide After, Passes, Step;
    FailedSendsAreUnsent(c, ps);
    PassesAreSilent(ps);
    UnsentProbesAreNotMissed(c, Passes(ps));
  }
}
