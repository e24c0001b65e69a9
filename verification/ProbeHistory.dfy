/** What counts as a miss and as an answer (core/hydra/node/node.go), read off the history of one link's probes. */
module ProbeHistory {
  import opened Probes

  /** When the latest probe was launched. */
  function LaunchedAt(c: Config, actions: seq<Action>): Time {
    if actions == [] then 0
    else
      var init, a := actions[..|actions| - 1], actions[|actions| - 1];
      if a.Launch? && After(FRESH, c, init).at.Launching? then a.now else LaunchedAt(c, init)
  }

  /** How many probes were launched. */
  function Launches(c: Config, actions: seq<Action>): nat {
    if actions == [] then 0
    else
      var init, a := actions[..|actions| - 1], actions[|actions| - 1];
      Launches(c, init) + if a.Launch? && After(FRESH, c, init).at.Launching? then 1 else 0
  }

  /** The only probe that can be in flight is the latest, and its record is when it was launched. */
  ghost predicate LatestOnly(s: State, launches: nat, launchedAt: Time) {
    && s.probeSeq == launches
    && (s.probes == map[] || s.probes == map[launches := launchedAt])
  }

  lemma {:induction false} LatestStep(c: Config, s: State, a: Action, launches: nat, launchedAt: Time)
    requires Inv(s) && LatestOnly(s, launches, launchedAt)
    ensures var launched := a.Launch? && s.at.Launching?;
      LatestOnly(Step(s, c, a), if launched then launches + 1 else launches, if launched then a.now else launchedAt)
  {
    hide Blended, Sample;
    match a
    case Expire(now) => if s.at.Idle? { ReapsAllOrNone(s, c, now, launches, launchedAt); }
    case Launch(now) => if s.at.Launching? { assert s.probes[launches + 1 := now] == map[launches + 1 := now]; }
    case Finish(_) => if s.at.Sending? { assert s.probes - {s.at.number} == map[]; }
    case TakeEcho(n) => if n in s.probes { assert s.probes - {n} == map[]; }
    case _ =>
  }

  lemma {:induction false} ReapsAllOrNone(s: State, c: Config, now: Time, launches: nat, launchedAt: Time)
    requires LatestOnly(s, launches, launchedAt)
    ensures var late := s.probes != map[] && now - launchedAt > c.timeout; var t := Reaped(s, c, now);
      && t.probes == (if late then map[] else s.probes)
      && t.expired == s.expired + (if late then 1 else 0) && t.misses == s.misses + (if late then 1 else 0)
  {
    var overdue := Overdue(s.probes, c, now);
    if s.probes != map[] && now - launchedAt > c.timeout {
      assert overdue == {launches};
      assert s.probes - {launches} == map[];
    } else {
      assert overdue == {};
      assert s.probes - {} == s.probes;
    }
  }

  /** In every interleaving at most the latest probe is in flight, and it is dated by its launch. */
  lemma {:induction false} LatestIsDated(c: Config, actions: seq<Action>)
    ensures LatestOnly(After(FRESH, c, actions), Launches(c, actions), LaunchedAt(c, actions))
  {
    hide Step, Inv;
    if actions != [] {
      var init, a := actions[..|actions| - 1], actions[|actions| - 1];
      LatestIsDated(c, init);
      OneProbeInFlight(c, init);
      LatestStep(c, After(FRESH, c, init), a, Launches(c, init), LaunchedAt(c, init));
    }
  }

  /** A pass counts a miss if and only if a probe is in flight that was launched longer ago than the timeout. */
  lemma {:induction false} MissIff(c: Config, actions: seq<Action>, now: Time)
    requires After(FRESH, c, actions).at.Idle?
    ensures var s, t := After(FRESH, c, actions), After(FRESH, c, actions + [Expire(now)]);
      var late := s.probes != map[] && now - LaunchedAt(c, actions) > c.timeout;
      && t.misses == s.misses + (if late then 1 else 0)
      && t.expired == s.expired + (if late then 1 else 0)
      && (t.probes == map[] <==> s.probes == map[] || late)
  {
    hide Inv, LatestOnly;
    AfterOne(FRESH, c, actions, Expire(now));
    LatestIsDated(c, actions);
    ReapsAllOrNone(After(FRESH, c, actions), c, now, Launches(c, actions), LaunchedAt(c, actions));
  }

  /** An echo is taken if and only if it has the number of the latest probe and that is still in flight. */
  lemma {:induction false} TakenIff(c: Config, actions: seq<Action>, number: nat)
    requires After(FRESH, c, actions).reader.Quiet?
    ensures var s, t := After(FRESH, c, actions), After(FRESH, c, actions + [TakeEcho(number)]);
      if s.probes != map[] && number == Launches(c, actions) then
        t.echoed == s.echoed + 1 && t.probes == map[] && t.reader == Holding(LaunchedAt(c, actions))
      else t == s
  {
    AfterOne(FRESH, c, actions, TakeEcho(number));
    LatestIsDated(c, actions);
    var s := After(FRESH, c, actions);
    hide After;
    if number in s.probes { assert s.probes - {number} == map[]; }
  }

  /** A taken echo clears the misses and moves the average a fifth of the way to its round trip, in milliseconds. */
  lemma {:induction false} EchoIsMeasured(c: Config, actions: seq<Action>, number: nat, now: Time)
    requires After(FRESH, c, actions).reader.Quiet? && After(FRESH, c, actions).probes != map[]
    requires number == Launches(c, actions)
    ensures var s, t := After(FRESH, c, actions), After(FRESH, c, actions + [TakeEcho(number)] + [ClearMisses(now)]);
      var micros := (now - LaunchedAt(c, actions)) / 1000;
      && t.misses == 0 && t.healthy == s.healthy && t.reader == MarkingUp
      && 1000.0 * t.rtt ==
           if s.rtt == 0.0 then micros as real else 1000.0 * s.rtt + (micros as real - 1000.0 * s.rtt) / 5.0
  {
    TakenIff(c, actions, number);
    AfterOne(FRESH, c, actions + [TakeEcho(number)], ClearMisses(now));
    AfterOne(FRESH, c, actions, TakeEcho(number));
    hide After;
  }

  /** And then the link is up. */
  lemma {:induction false} MarkedUpAfter(c: Config, actions: seq<Action>)
    requires After(FRESH, c, actions).reader.MarkingUp?
    ensures var t := After(FRESH, c, actions + [MarkUp]); t.healthy && t.reader.Quiet?
  {
    AfterOne(FRESH, c, actions, MarkUp);
  }
}
