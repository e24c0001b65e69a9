/** Any interleaving of any number of download sessions, with codes added and revoked in between. */
module SmdpRuns {
  import opened Wrappers
  import opened Cmac
  import opened Esim
  import opened Smdp

  datatype Request =
    | Initiate(req: InitiateRequest, d: Draw, now: Time)
    | Authenticate(transaction: string, proof: string, now: Time)
    | GetPackage(transaction: string, iv: Block, now: Time)
    | Confirm(transaction: string, result: string)
    | Notify(transaction: string, notification: string)
    | Cancel(transaction: string)
    | Add(token: string, p: Profile, expiresAt: Option<Time>)
    | Revoke(token: string)

  function Step(c: Config, s: State, r: Request): State {
    match r
    case Initiate(req, d, now) => AfterInitiate(c, s, req, d, now)
    case Authenticate(tx, proof, _) => AfterAuthenticate(c, s, tx, proof)
    case GetPackage(tx, _, now) => AfterGetPackage(c, s, tx, now)
    case Confirm(tx, result) => if ConfirmError(s, tx, result).None? then WithStatus(s, tx, Confirmed) else s
    case Notify(_, _) => s
    case Cancel(tx) => if CancelError(s, tx).None? then WithStatus(s, tx, Cancelled) else s
    case Add(token, p, expiresAt) => s.(entries := Added(s.entries, token, p, expiresAt))
    case Revoke(token) => s.(entries := s.entries - {token})
  }

  function After(c: Config, s: State, rs: seq<Request>): State {
    if rs == [] then s else Step(c, After(c, s, rs[..|rs| - 1]), rs[|rs| - 1])
  }

  const EMPTY: State := State(map[], map[])

  // ---- what happened in a run ----

  predicate Opens(c: Config, s: State, r: Request, tx: string) {
    r.Initiate? && r.d.transaction == tx && Admitted(c, s.entries, r.req, r.now).Ok?
  }

  /** The request carries a proof the server accepts. */
  predicate Proves(c: Config, s: State, r: Request, tx: string) {
    r.Authenticate? && r.transaction == tx && Accepted(c, s, tx, r.proof).Ok?
  }

  predicate DeliversTo(c: Config, s: State, r: Request, tx: string) {
    r.GetPackage? && r.transaction == tx && Deliverable(c, s, tx, r.now).Ok?
  }

  predicate DeliversCode(c: Config, s: State, r: Request, code: string) {
    r.GetPackage? && Deliverable(c, s, r.transaction, r.now).Ok?
        && Deliverable(c, s, r.transaction, r.now).value.0.code == code
  }

  predicate Adds(s: State, r: Request, code: string) {
    r.Add? && r.token == code && code !in s.entries
  }

  /** Packages delivered to a transaction since it was last opened. */
  function DeliveredSince(c: Config, s: State, rs: seq<Request>, tx: string): nat {
    if rs == [] then 0
    else
      var t, r := After(c, s, rs[..|rs| - 1]), rs[|rs| - 1];
      if Opens(c, t, r, tx) then 0
      else DeliveredSince(c, s, rs[..|rs| - 1], tx) + if DeliversTo(c, t, r, tx) then 1 else 0
  }

  /** The transaction's proof was accepted since it was last opened. */
  predicate ProvenSince(c: Config, s: State, rs: seq<Request>, tx: string) {
    rs != [] &&
    var t, r := After(c, s, rs[..|rs| - 1]), rs[|rs| - 1];
    !Opens(c, t, r, tx) && (Proves(c, t, r, tx) || ProvenSince(c, s, rs[..|rs| - 1], tx))
  }

  /** Packages delivered for a code since it was last added. */
  function SoldSince(c: Config, s: State, rs: seq<Request>, code: string): nat {
    if rs == [] then 0
    else
      var t, r := After(c, s, rs[..|rs| - 1]), rs[|rs| - 1];
      if Adds(t, r, code) then 0
      else SoldSince(c, s, rs[..|rs| - 1], code) + if DeliversCode(c, t, r, code) then 1 else 0
  }

  function Packages(c: Config, s: State, rs: seq<Request>, code: string): nat {
    if rs == [] then 0
    else
      Packages(c, s, rs[..|rs| - 1], code)
      + if DeliversCode(c, After(c, s, rs[..|rs| - 1]), rs[|rs| - 1], code) then 1 else 0
  }

  function Additions(c: Config, s: State, rs: seq<Request>, code: string): nat {
    if rs == [] then 0
    else
      Additions(c, s, rs[..|rs| - 1], code)
      + if Adds(After(c, s, rs[..|rs| - 1]), rs[|rs| - 1], code) then 1 else 0
  }

  // ---- single use ----

  ghost predicate LedgerExact(s: State, code: string, sold: nat) {
    code in s.entries ==> (s.entries[code].downloadedAt.Some? <==> sold > 0)
  }

  lemma LedgerStep(c: Config, s: State, r: Request, code: string, sold: nat)
    requires LedgerExact(s, code, sold)
    ensures LedgerExact(Step(c, s, r), code,
              if Adds(s, r, code) then 0 else sold + if DeliversCode(c, s, r, code) then 1 else 0)
    ensures c.singleUse && DeliversCode(c, s, r, code) ==> sold == 0
  {
    hide Admitted, Accepted, CheckedProof;
  }

  /**
   The registry's download mark is exact, and with single-use codes every addition of a code is good
   for at most one package: a code that is never added again yields at most one.
   */
  lemma {:induction false} OnePackagePerAddition(c: Config, rs: seq<Request>, code: string)
    ensures LedgerExact(After(c, EMPTY, rs), code, SoldSince(c, EMPTY, rs, code))
    ensures c.singleUse ==> SoldSince(c, EMPTY, rs, code) <= 1
    ensures c.singleUse ==> Packages(c, EMPTY, rs, code) <= Additions(c, EMPTY, rs, code)
  {
    SoldIsBounded(c, rs, code);
  }

  lemma {:induction false} SoldIsBounded(c: Config, rs: seq<Request>, code: string)
    ensures LedgerExact(After(c, EMPTY, rs), code, SoldSince(c, EMPTY, rs, code))
    ensures c.singleUse ==> SoldSince(c, EMPTY, rs, code) <= 1
    ensures c.singleUse ==>
      Packages(c, EMPTY, rs, code) + (1 - SoldSince(c, EMPTY, rs, code)) <= Additions(c, EMPTY, rs, code)
      || (code !in After(c, EMPTY, rs).entries && Packages(c, EMPTY, rs, code) <= Additions(c, EMPTY, rs, code))
  {
    hide Step, DeliversCode, Adds;
    if rs != [] {
      var init, r := rs[..|rs| - 1], rs[|rs| - 1];
      SoldIsBounded(c, init, code);
      LedgerStep(c, After(c, EMPTY, init), r, code, SoldSince(c, EMPTY, init, code));
      EntryStep(c, After(c, EMPTY, init), r, code);
    }
  }

  lemma EntryStep(c: Config, s: State, r: Request, code: string)
    ensures DeliversCode(c, s, r, code) ==> code in s.entries
    ensures code in Step(c, s, r).entries && code !in s.entries ==> Adds(s, r, code)
    ensures Adds(s, r, code) ==> code !in s.entries && !DeliversCode(c, s, r, code)
  {
    hide Admitted, Accepted, CheckedProof;
  }

  /**
   Cancelling releases a single-use code for another attempt exactly when no package was delivered for
   it since it was added.
   */
  lemma CancelReleasesIff(c: Config, rs: seq<Request>, tx: string, code: string, now: Time)
    requires c.singleUse && code in After(c, EMPTY, rs).entries
    ensures var entries := After(c, EMPTY, rs + [Cancel(tx)]).entries;
      Resolved(entries, code, true, now).Ok?
      <==> SoldSince(c, EMPTY, rs, code) == 0 && (entries[code].expiresAt.None? || now <= entries[code].expiresAt.value)
  {
    OnePackagePerAddition(c, rs, code);
    assert (rs + [Cancel(tx)])[..|rs|] == rs;
  }

  // ---- sessions ----

  ghost predicate SessionExact(c: Config, s: State, tx: string, delivered: nat, proven: bool) {
    if tx !in s.sessions then delivered == 0 && !proven
    else
      var sess := s.sessions[tx];
      && sess.seqCounter == delivered
      && (sess.status == Pending ==> !proven)
      && (sess.status == Authenticated || sess.status == Confirmed ==> proven)
      && (proven ==> ProvenKeys(c, sess))
      && (delivered > 0 ==> proven)
  }

  /** The session's keys are those the two ends derive from their shared secret. */
  ghost predicate ProvenKeys(c: Config, sess: Session) {
    KeysFor(c.suite, sess.serverSecret, sess.euiccKey) == Ok(sess.keys)
  }

  lemma SessionStep(c: Config, s: State, r: Request, tx: string, delivered: nat, proven: bool)
    requires SessionExact(c, s, tx, delivered, proven)
    ensures SessionExact(c, Step(c, s, r), tx,
              if Opens(c, s, r, tx) then 0 else delivered + if DeliversTo(c, s, r, tx) then 1 else 0,
              !Opens(c, s, r, tx) && (Proves(c, s, r, tx) || proven))
  {
    hide Resolved, Marked, Added, KeysFor, Proof, Mac;
  }

  /**
   A session's counter is the number of packages delivered since the session was opened, and a session
   that may deliver, or ever delivered, holds a proof accepted since then and the keys that go with it.
   */
  lemma {:induction false} SessionsAreExact(c: Config, rs: seq<Request>, tx: string)
    ensures SessionExact(c, After(c, EMPTY, rs), tx, DeliveredSince(c, EMPTY, rs, tx), ProvenSince(c, EMPTY, rs, tx))
  {
    hide SessionExact, Step, Opens, Proves, DeliversTo;
    if rs == [] {
      EmptyIsExact(c, tx);
    } else {
      var init, r := rs[..|rs| - 1], rs[|rs| - 1];
      SessionsAreExact(c, init, tx);
      SessionStep(c, After(c, EMPTY, init), r, tx, DeliveredSince(c, EMPTY, init, tx), ProvenSince(c, EMPTY, init, tx));
    }
  }

  lemma EmptyIsExact(c: Config, tx: string)
    ensures SessionExact(c, EMPTY, tx, 0, false)
  {
  }

  /** No package before a valid proof; packages are numbered from one without a gap. */
  lemma NoPackageBeforeProof(c: Config, rs: seq<Request>, tx: string, iv: Block, now: Time)
    ensures var s, reply := After(c, EMPTY, rs), PackageReply(c, After(c, EMPTY, rs), tx, iv, now);
      reply.Ok? ==>
        && ProvenSince(c, EMPTY, rs, tx)
        && reply.value.seqCounter == DeliveredSince(c, EMPTY, rs, tx) + 1
        && tx in s.sessions && ProvenKeys(c, s.sessions[tx])
  {
    hide Resolved, KeysFor, Sealed;
    SessionsAreExact(c, rs, tx);
  }

  function Rank(status: Status): nat {
    match status case Pending => 0 case Authenticated => 1 case Confirmed => 2 case Cancelled => 3
  }

  /** The transaction is not drawn again in the run. */
  predicate NeverReopened(c: Config, s: State, rs: seq<Request>, tx: string) {
    rs == [] ||
    (NeverReopened(c, s, rs[..|rs| - 1], tx) && !Opens(c, After(c, s, rs[..|rs| - 1]), rs[|rs| - 1], tx))
  }

  /** What a later state keeps of a session: who it is for, and that it only moves forward. */
  ghost predicate Continues(before: Session, after: Session) {
    && Rank(before.status) <= Rank(after.status)
    && before.seqCounter <= after.seqCounter
    && (before.status == Cancelled ==> after == before)
    && after.code == before.code && after.eid == before.eid && after.iccid == before.iccid
    && after.euiccChallenge == before.euiccChallenge && after.euiccKey == before.euiccKey
    && after.serverChallenge == before.serverChallenge && after.serverSecret == before.serverSecret
    && (before.status != Pending ==> after.keys == before.keys)
  }

  lemma ContinuesStep(c: Config, s: State, r: Request, tx: string)
    requires tx in s.sessions && !Opens(c, s, r, tx)
    ensures tx in Step(c, s, r).sessions && Continues(s.sessions[tx], Step(c, s, r).sessions[tx])
  {
    hide Resolved, Marked, Added, CheckedProof;
  }

  /** Sessions never move backwards, whatever the other sessions do; a cancelled one is final. */
  lemma {:induction false} StatusNeverGoesBack(c: Config, s: State, rs: seq<Request>, tx: string)
    requires tx in s.sessions && NeverReopened(c, s, rs, tx)
    ensures tx in After(c, s, rs).sessions && Continues(s.sessions[tx], After(c, s, rs).sessions[tx])
  {
    hide Step, Opens;
    if rs != [] {
      var init := rs[..|rs| - 1];
      StatusNeverGoesBack(c, s, init, tx);
      ContinuesStep(c, After(c, s, init), rs[|rs| - 1], tx);
    }
  }
}
