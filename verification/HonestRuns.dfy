/**
 A download inside a run of the server: between any two of the client's requests the server handles
 requests of other transactions and changes to the registry, and a reply may be lost on its way.
 */
module HonestRuns {
  import opened Wrappers
  import Luhn
  import opened Cmac
  import opened Esim
  import opened Smdp
  import opened SmdpRuns
  import opened Euicc
  import opened HonestDownload

  /** `others[k]` is what the server handles between the client's request `k` and the next. */
  datatype Attempt = Attempt(
    chip: Chip, code: string, secret: OctetString, challenge: OctetString, d: Draw, iv: Block,
    opening: State, others: seq<seq<Request>>, openedAt: Time, provedAt: Time, fetchedAt: Time)
  {
    predicate Valid() { |others| == 5 && challenge != [] && d.transaction != "" }
  }

  /** The client's five requests, as the server receives them. */
  function Own(c: Config, x: Attempt, k: nat): Request
    requires k < 5
  {
    var tx := x.d.transaction;
    match k
    case 0 => Initiate(OpeningOf(c.suite, x.chip.eid, x.code, x.secret, x.challenge), x.d, x.openedAt)
    case 1 => Authenticate(tx, AgreedProof(c, Blank(x)), x.provedAt)
    case 2 => GetPackage(tx, x.iv, x.fetchedAt)
    case 3 => Confirm(tx, "success")
    case _ => Notify(tx, "install-success")
  }

  /** What the server handles up to and after the client's first `k` requests. */
  function Served(c: Config, x: Attempt, k: nat): seq<Request>
    requires x.Valid() && k <= 5
  {
    if k == 0 then [] else Served(c, x, k - 1) + [Own(c, x, k - 1)] + x.others[k - 1]
  }

  function Before(c: Config, x: Attempt, k: nat): State
    requires x.Valid() && k <= 5
  {
    After(c, x.opening, Served(c, x, k))
  }

  /** The download's own data, with the server's states still open. */
  function Blank(x: Attempt): Scene {
    Scene(x.chip, x.code, x.secret, x.challenge, x.d, x.iv, x.opening, x.opening, x.opening, x.opening, x.opening,
          x.openedAt, x.provedAt, x.fetchedAt)
  }

  /** The server's state when each request arrives is the one the run leads to. */
  function SceneOf(c: Config, x: Attempt): Scene
    requires x.Valid()
  {
    Blank(x).(proving := Before(c, x, 1), fetching := Before(c, x, 2), confirming := Before(c, x, 3),
              notifying := Before(c, x, 4))
  }

  ghost predicate Bystanders(x: Attempt)
    requires x.Valid()
  {
    forall k, i :: 0 <= k < 5 && 0 <= i < |x.others[k]| ==> !Addresses(x.others[k][i], x.d.transaction)
  }

  // ---- the scene is a run ----

  lemma {:induction false} AfterAppend(c: Config, s: State, a: seq<Request>, b: seq<Request>)
    ensures After(c, s, a + b) == After(c, After(c, s, a), b)
    decreases |b|
  {
    hide Step;
    if b == [] {
      assert a + b == a;
    } else {
      assert (a + b)[..|a + b| - 1] == a + b[..|b| - 1];
      AfterAppend(c, s, a, b[..|b| - 1]);
    }
  }

  lemma BeforeNext(c: Config, x: Attempt, k: nat)
    requires x.Valid() && k < 5
    ensures Before(c, x, k + 1) == After(c, Step(c, Before(c, x, k), Own(c, x, k)), x.others[k])
  {
    hide Step, Own;
    var done, own := Served(c, x, k), Own(c, x, k);
    AfterAppend(c, x.opening, done + [own], x.others[k]);
    AfterAppend(c, x.opening, done, [own]);
    assert [own][..0] == [];
    assert After(c, Before(c, x, k), [own]) == Step(c, Before(c, x, k), own);
  }

  lemma NobodyDisturbs(c: Config, x: Attempt, k: nat)
    requires x.Valid() && Bystanders(x) && k < 5
    ensures var s := Step(c, Before(c, x, k), Own(c, x, k));
      x.d.transaction in s.sessions ==> Undisturbed(s, Before(c, x, k + 1), x.d.transaction)
  {
    hide Step, Own, Before, Addresses;
    BeforeNext(c, x, k);
    var s := Step(c, Before(c, x, k), Own(c, x, k));
    if x.d.transaction in s.sessions {
      OthersDoNotDisturb(c, s, x.others[k], x.d.transaction);
    }
  }

  /** So nobody disturbs the download's session between its requests. */
  lemma RunsLeaveAlone(c: Config, x: Attempt)
    requires x.Valid() && Bystanders(x)
    ensures LeftAlone(c, SceneOf(c, x))
  {
    hide Before, Bystanders, Undisturbed, Admitted, Resolved, Accepted;
    NobodyDisturbs(c, x, 0);
    NobodyDisturbs(c, x, 1);
    NobodyDisturbs(c, x, 2);
    NobodyDisturbs(c, x, 3);
    assert Before(c, x, 0) == x.opening by { BeforeFirst(c, x); }
  }

  lemma BeforeFirst(c: Config, x: Attempt)
    requires x.Valid()
    ensures Before(c, x, 0) == x.opening
  {
  }

  /**
   In every such run an honest download succeeds exactly when the code resolves at each of the three
   requests that resolve it and the profile may be installed; it installs exactly the profile that the
   code resolved to last, and leaves the session confirmed with one more package counted.
   */
  lemma HonestRunIff(c: Config, x: Attempt)
    requires Lawful(c.suite) && x.Valid() && Bystanders(x)
    ensures var o := Downloaded(c.suite, x.chip, x.code, x.secret, x.challenge, HonestReplies(c, SceneOf(c, x)));
      && (o.result.Ok? <==> Succeeds(c, SceneOf(c, x)))
      && (o.result.Ok? ==>
            && Ok(o.result.value) == ResolvedProfile(c, SceneOf(c, x))
            && x.d.transaction in Before(c, x, 4).sessions && x.d.transaction in Before(c, x, 2).sessions
            && Before(c, x, 4).sessions[x.d.transaction].status == Confirmed
            && Before(c, x, 4).sessions[x.d.transaction].seqCounter
                 == Before(c, x, 2).sessions[x.d.transaction].seqCounter + 1)
  {
    hide Lawful, LeftAlone, Before, Bystanders, Admitted, Resolved, Installable, Downloaded, HonestReplies;
    RunsLeaveAlone(c, x);
    HonestDownloadIff(c, SceneOf(c, x));
    if Succeeds(c, SceneOf(c, x)) {
      ProofIsAccepted(c, SceneOf(c, x));
      HonestEnding(c, SceneOf(c, x));
    }
  }

  // ---- replies and requests that are lost ----

  function HeardOf<T>(heard: bool, r: Reply<T>): Reply<T> { if heard then r else Lost }

  /** Only the first `heard` replies reach the client. */
  function HeardReplies(c: Config, x: Attempt, heard: nat): Replies
    requires x.Valid()
  {
    var rs := HonestReplies(c, SceneOf(c, x));
    Replies(HeardOf(heard > 0, rs.initiate), HeardOf(heard > 1, rs.authenticate), HeardOf(heard > 2, rs.package),
            HeardOf(heard > 3, rs.confirm), HeardOf(heard > 4, rs.notify))
  }

  function OutcomeOf(c: Config, x: Attempt, heard: nat): Outcome
    requires x.Valid()
  {
    Downloaded(c.suite, x.chip, x.code, x.secret, x.challenge, HeardReplies(c, x, heard))
  }

  predicate EndsInCancel(o: Outcome) { o.posts != [] && o.posts[|o.posts| - 1].PostCancel? }

  /** How many of its five requests the client made. */
  function Asked(o: Outcome): nat {
    if EndsInCancel(o) then |o.posts| - 1 else |o.posts|
  }

  lemma AskedInRange(c: Config, x: Attempt, heard: nat)
    requires x.Valid()
    ensures var o := OutcomeOf(c, x, heard);
      1 <= Asked(o) <= 5 && (EndsInCancel(o) ==> Asked(o) <= heard) && (o.result.Ok? ==> Asked(o) == 5 && 5 <= heard)
  {
    hide Agree, Unpacked, HonestReplies, SceneOf;
  }

  /** How many arrived: a request that was answered did, and the last one may have. */
  function Arrived(o: Outcome, heard: nat, last: bool): nat {
    if last || Asked(o) <= heard || Asked(o) == 0 then Asked(o) else Asked(o) - 1
  }

  /** Everything the server handled from the opening on. */
  function Received(c: Config, x: Attempt, heard: nat, last: bool): seq<Request>
    requires x.Valid()
  {
    AskedInRange(c, x, heard);
    var o := OutcomeOf(c, x, heard);
    Served(c, x, Arrived(o, heard, last)) + if EndsInCancel(o) && last then [Cancel(x.d.transaction)] else []
  }

  /** The server delivered the download's package. */
  predicate PackageServed(c: Config, x: Attempt, heard: nat, last: bool)
    requires x.Valid()
  {
    && Arrived(OutcomeOf(c, x, heard), heard, last) >= 3
    && PackageReply(c, Before(c, x, 2), x.d.transaction, x.iv, x.fetchedAt).Ok?
  }

  /** Nobody else delivers a package for the code, or revokes it. */
  ghost predicate CodeLeftAlone(c: Config, x: Attempt, token: string)
    requires x.Valid()
  {
    forall k :: 0 <= k < 5 ==> LeavesCode(c, Step(c, Before(c, x, k), Own(c, x, k)), x.others[k], token)
  }

  ghost predicate LeavesCode(c: Config, s: State, rs: seq<Request>, token: string) {
    Packages(c, s, rs, token) == 0 && KeepsCode(rs, token)
  }

  ghost predicate KeepsCode(rs: seq<Request>, token: string) {
    forall i :: 0 <= i < |rs| ==> rs[i] != Revoke(token)
  }

  lemma {:induction false} PackagesAppend(c: Config, s: State, a: seq<Request>, b: seq<Request>, token: string)
    ensures Packages(c, s, a + b, token) == Packages(c, s, a, token) + Packages(c, After(c, s, a), b, token)
    decreases |b|
  {
    hide Step, DeliversCode;
    if b == [] {
      assert a + b == a;
    } else {
      var init := b[..|b| - 1];
      assert (a + b)[..|a + b| - 1] == a + init;
      PackagesAppend(c, s, a, init, token);
      AfterAppend(c, s, a, init);
    }
  }

  lemma OneStep(c: Config, s: State, r: Request, token: string)
    requires token in s.entries && r != Revoke(token)
    ensures var t := Step(c, s, r);
      && token in t.entries && t.entries[token].expiresAt == s.entries[token].expiresAt
      && (t.entries[token].downloadedAt.Some? <==> s.entries[token].downloadedAt.Some? || DeliversCode(c, s, r, token))
  {
    hide Admitted, Accepted, CheckedProof;
  }

  /** A code that is not revoked is marked exactly by the packages delivered for it. */
  lemma {:induction false} MarkedIff(c: Config, s: State, rs: seq<Request>, token: string)
    requires token in s.entries && KeepsCode(rs, token)
    ensures var t := After(c, s, rs);
      && token in t.entries && t.entries[token].expiresAt == s.entries[token].expiresAt
      && (t.entries[token].downloadedAt.Some? <==>
            s.entries[token].downloadedAt.Some? || Packages(c, s, rs, token) > 0)
  {
    hide Step, DeliversCode;
    if rs != [] {
      var init := rs[..|rs| - 1];
      MarkedIff(c, s, init, token);
      OneStep(c, After(c, s, init), rs[|rs| - 1], token);
    }
  }

  lemma {:induction false} ServedKeepsCode(c: Config, x: Attempt, k: nat, token: string)
    requires x.Valid() && k <= 5 && CodeLeftAlone(c, x, token)
    ensures KeepsCode(Served(c, x, k), token)
  {
    if k > 0 {
      ServedKeepsCode(c, x, k - 1, token);
      assert LeavesCode(c, Step(c, Before(c, x, k - 1), Own(c, x, k - 1)), x.others[k - 1], token);
    }
  }

  /** Of the client's requests only the third delivers, and then for its own code. */
  lemma OwnDelivers(c: Config, x: Attempt, k: nat, token: string)
    requires Lawful(c.suite) && x.Valid() && Bystanders(x) && k < 5
    requires Admitted(c, x.opening.entries, Opening(c, SceneOf(c, x)), x.openedAt).Ok?
    requires token == Admitted(c, x.opening.entries, Opening(c, SceneOf(c, x)), x.openedAt).value.0
    ensures DeliversCode(c, Before(c, x, k), Own(c, x, k), token)
      <==> k == 2 && PackageReply(c, Before(c, x, 2), x.d.transaction, x.iv, x.fetchedAt).Ok?
  {
    hide Lawful, LeftAlone, Before, Bystanders, Admitted, Resolved, Accepted, Sealed;
    if k == 2 {
      RunsLeaveAlone(c, x);
      ProofIsAccepted(c, SceneOf(c, x));
    }
  }

  lemma {:induction false} PackagesServed(c: Config, x: Attempt, k: nat, token: string)
    requires Lawful(c.suite) && x.Valid() && Bystanders(x) && k <= 5 && CodeLeftAlone(c, x, token)
    requires Admitted(c, x.opening.entries, Opening(c, SceneOf(c, x)), x.openedAt).Ok?
    requires token == Admitted(c, x.opening.entries, Opening(c, SceneOf(c, x)), x.openedAt).value.0
    ensures Packages(c, x.opening, Served(c, x, k), token)
         == if k >= 3 && PackageReply(c, Before(c, x, 2), x.d.transaction, x.iv, x.fetchedAt).Ok? then 1 else 0
  {
    hide Lawful, Bystanders, Admitted, PackageReply, DeliversCode, Step, Own, SceneOf;
    if k > 0 {
      PackagesServed(c, x, k - 1, token);
      var done, own := Served(c, x, k - 1), Own(c, x, k - 1);
      OwnDelivers(c, x, k - 1, token);
      PackagesAppend(c, x.opening, done + [own], x.others[k - 1], token);
      PackagesAppend(c, x.opening, done, [own], token);
      AfterAppend(c, x.opening, done, [own]);
      OnePackage(c, Before(c, x, k - 1), own, token);
      assert LeavesCode(c, Step(c, Before(c, x, k - 1), own), x.others[k - 1], token);
    }
  }

  lemma OnePackage(c: Config, s: State, r: Request, token: string)
    ensures After(c, s, [r]) == Step(c, s, r)
    ensures Packages(c, s, [r], token) == if DeliversCode(c, s, r, token) then 1 else 0
  {
    hide Step, DeliversCode;
    assert [r][..0] == [];
  }

  /**
   Whatever goes wrong in an honest download, on the network or at the client, a failure leaves the chip
   as it was; but a single-use code resolves again only if the server had not delivered the package yet.
   */
  lemma CodeSurvivesIff(c: Config, x: Attempt, heard: nat, last: bool, later: Time, now: Time)
    requires Lawful(c.suite) && x.Valid() && Bystanders(x) && c.singleUse
    requires Admitted(c, x.opening.entries, Opening(c, SceneOf(c, x)), x.openedAt).Ok?
    requires CodeLeftAlone(c, x, Admitted(c, x.opening.entries, Opening(c, SceneOf(c, x)), x.openedAt).value.0)
    ensures var token := Admitted(c, x.opening.entries, Opening(c, SceneOf(c, x)), x.openedAt).value.0;
      var o, end := OutcomeOf(c, x, heard), After(c, x.opening, Received(c, x, heard, last));
      && token in x.opening.entries
      && (o.result.Err? ==> AfterDownload(x.chip, o, now) == x.chip)
      && (Resolved(end.entries, token, true, later).Ok? <==>
            && (x.opening.entries[token].expiresAt.None? || later <= x.opening.entries[token].expiresAt.value)
            && !PackageServed(c, x, heard, last))
  {
    hide Lawful, Bystanders, CodeLeftAlone, Before, Served, Downloaded, PackageReply, HeardReplies;
    var token := Admitted(c, x.opening.entries, Opening(c, SceneOf(c, x)), x.openedAt).value.0;
    AdmittedIsFresh(c, x, token);
    AskedInRange(c, x, heard);
    var k := Arrived(OutcomeOf(c, x, heard), heard, last);
    var cancel := if EndsInCancel(OutcomeOf(c, x, heard)) && last then [Cancel(x.d.transaction)] else [];
    PackagesServed(c, x, k, token);
    ServedKeepsCode(c, x, k, token);
    PackagesAppend(c, x.opening, Served(c, x, k), cancel, token);
    CancelDelivers(c, After(c, x.opening, Served(c, x, k)), cancel, x.d.transaction, token);
    MarkedIff(c, x.opening, Served(c, x, k) + cancel, token);
  }

  lemma CancelDelivers(c: Config, s: State, rs: seq<Request>, tx: string, token: string)
    requires rs == [] || rs == [Cancel(tx)]
    ensures Packages(c, s, rs, token) == 0
  {
    if rs != [] { OnePackage(c, s, Cancel(tx), token); }
  }

  lemma AdmittedIsFresh(c: Config, x: Attempt, token: string)
    requires x.Valid() && c.singleUse
    requires Admitted(c, x.opening.entries, Opening(c, SceneOf(c, x)), x.openedAt).Ok?
    requires token == Admitted(c, x.opening.entries, Opening(c, SceneOf(c, x)), x.openedAt).value.0
    ensures token in x.opening.entries && x.opening.entries[token].downloadedAt.None?
  {
    hide Before;
  }

  /**
   When replies are lost a download succeeds exactly if all five are heard and it would have succeeded;
   it then used its code.
   */
  lemma LossyDownloadIff(c: Config, x: Attempt, heard: nat, last: bool)
    requires Lawful(c.suite) && x.Valid() && Bystanders(x)
    ensures OutcomeOf(c, x, heard).result.Ok? <==> heard >= 5 && Succeeds(c, SceneOf(c, x))
    ensures OutcomeOf(c, x, heard).result.Ok? ==> PackageServed(c, x, heard, last)
  {
    hide Lawful, Bystanders, Before, Served, Admitted, Resolved, Installable, LeftAlone, Agree, Unpacked;
    HonestRunIff(c, x);
    AskedInRange(c, x, heard);
  }

  /** A request as the server receives it. */
  function RequestOf(x: Attempt, p: Post): Request {
    match p
    case PostInitiate(req) => Initiate(req, x.d, x.openedAt)
    case PostAuthenticate(tx, proof) => Authenticate(tx, proof, x.provedAt)
    case PostGetPackage(tx) => GetPackage(tx, x.iv, x.fetchedAt)
    case PostConfirm(tx, result) => Confirm(tx, result)
    case PostNotify(tx, text) => Notify(tx, text)
    case PostCancel(tx) => Cancel(tx)
  }

  /** The requests of such a run are the ones the client makes. */
  lemma {:induction false} OwnAreMade(c: Config, x: Attempt, heard: nat)
    requires Lawful(c.suite) && x.Valid()
    ensures var o := OutcomeOf(c, x, heard);
      && Asked(o) <= |o.posts| && Asked(o) <= 5
      && (forall k :: 0 <= k < Asked(o) ==> RequestOf(x, o.posts[k]) == Own(c, x, k))
      && (EndsInCancel(o) ==> RequestOf(x, o.posts[|o.posts| - 1]) == Cancel(x.d.transaction))
  {
    hide Lawful, Before, Agree, Unpacked, PackageReply, Accepted, ConfirmError, NotifyError, Downloaded, PackageFits;
    hide InitiateReply, AuthenticateReply, PostsCancel;
    var rs := HeardReplies(c, x, heard);
    AskedInRange(c, x, heard);
    ClientAgrees(c, SceneOf(c, x));
    RequestsAre(c.suite, x.chip, x.code, x.secret, x.challenge, rs);
    CancelIsLast(c, x, heard);
    if rs.initiate.Answer? { AnsweredAsOpened(c, x, heard); }
  }

  lemma {:induction false} AnsweredAsOpened(c: Config, x: Attempt, heard: nat)
    requires x.Valid() && HeardReplies(c, x, heard).initiate.Answer?
    ensures HeardReplies(c, x, heard).initiate.body == Opener(c, SceneOf(c, x))
  {
    hide Before, Admitted, Agree;
  }

  lemma {:induction false} CancelIsLast(c: Config, x: Attempt, heard: nat)
    requires x.Valid()
    ensures var o := OutcomeOf(c, x, heard); PostsCancel(o) <==> EndsInCancel(o)
    ensures forall k :: 0 <= k < Asked(OutcomeOf(c, x, heard)) ==> !OutcomeOf(c, x, heard).posts[k].PostCancel?
  {
    hide Agree, Unpacked, HonestReplies, SceneOf;
  }

  // ---- a code that is delivered and cancelled ----

  function Zeros(n: nat): (s: string)
    ensures |s| == n && forall i :: 0 <= i < n ==> s[i] == '0'
  {
    if n == 0 then "" else Zeros(n - 1) + "0"
  }

  lemma {:induction false} ZerosWeighNothing(n: nat, double: bool)
    ensures Luhn.WeightedSum(Zeros(n), double) == 0
  {
    if n > 0 {
      assert Zeros(n)[..n - 1] == Zeros(n - 1);
      ZerosWeighNothing(n - 1, !double);
    }
  }

  lemma {:induction false} ZerosAreValid()
    ensures Luhn.Valid(Zeros(32)) && |Zeros(32)| == 32
  {
    ZerosWeighNothing(32, false);
  }

  const NEW_CHIP: Chip := Chip(Zeros(32), map[], [])

  /** A code is added, and a fresh chip asks for it; nobody else does anything. */
  function FirstAttempt(token: string, p: Profile, iv: Block): Attempt {
    Attempt(NEW_CHIP, token, [1], [1], Draw("t", [2], [2]), iv,
            State(map[token := Entry(p, None, None)], map[]), [[], [], [], [], []], 0, 0, 0)
  }

  /** The requests up to the package, from a server that knows nothing. */
  function FirstRun(c: Config, token: string, p: Profile, iv: Block): seq<Request> {
    var x := FirstAttempt(token, p, iv);
    [Add(token, p, None)] + Served(c, x, 3)
  }

  /** A session that is cancelled after its delivery: the cancellation is accepted, and the code stays used up. */
  lemma {:induction false} CancelledAfterDelivery(c: Config, token: string, p: Profile, iv: Block)
    requires Lawful(c.suite) && c.singleUse && token != "" && c.suite.normalize(token) == Some(token) && p.eid == ""
    ensures var rs := FirstRun(c, token, p, iv);
      && CancelError(After(c, EMPTY, rs), "t") == None
      && Resolved(After(c, EMPTY, rs + [Cancel("t")]).entries, token, true, 0) == Err(CodeUsed)
  {
    hide Lawful, Accepted, Sealed;
    var x := FirstAttempt(token, p, iv);
    var rs := FirstRun(c, token, p, iv);
    FirstIsAdmitted(c, token, p, iv);
    assert Bystanders(x);
    AddedState(c, token, p);
    AfterAppend(c, EMPTY, [Add(token, p, None)], Served(c, x, 3));
    assert After(c, EMPTY, rs) == Before(c, x, 3);
    FirstIsServed(c, token, p, iv);
    NobodyDisturbs(c, x, 2);
    assert (rs + [Cancel("t")])[..|rs|] == rs;
  }

  lemma {:induction false} AddedState(c: Config, token: string, p: Profile)
    ensures After(c, EMPTY, [Add(token, p, None)]) == State(map[token := Entry(p, None, None)], map[])
  {
    assert [Add(token, p, None)][..0] == [];
  }

  lemma {:induction false} FirstIsAdmitted(c: Config, token: string, p: Profile, iv: Block)
    requires Lawful(c.suite) && token != "" && c.suite.normalize(token) == Some(token) && p.eid == ""
    ensures var x := FirstAttempt(token, p, iv);
      x.Valid() && Admitted(c, x.opening.entries, Opening(c, SceneOf(c, x)), 0) == Ok((token, p))
  {
    hide Before;
    ZerosAreValid();
  }

  lemma {:induction false} FirstIsServed(c: Config, token: string, p: Profile, iv: Block)
    requires Lawful(c.suite) && c.singleUse && token != "" && c.suite.normalize(token) == Some(token) && p.eid == ""
    ensures var x := FirstAttempt(token, p, iv); var s := Before(c, x, 3);
      && "t" in s.sessions && s.sessions["t"].status == Authenticated
      && token in s.entries && s.entries[token].downloadedAt.Some? && s.entries[token].expiresAt.None?
  {
    hide Lawful, Accepted, Sealed, Served, Before, LeftAlone;
    var x := FirstAttempt(token, p, iv);
    FirstIsAdmitted(c, token, p, iv);
    assert Bystanders(x);
    assert CodeLeftAlone(c, x, token);
    RunsLeaveAlone(c, x);
    ProofIsAccepted(c, SceneOf(c, x));
    PackagesServed(c, x, 2, token);
    ServedKeepsCode(c, x, 2, token);
    ServedIsRun(c, x, 2);
    MarkedIff(c, x.opening, Served(c, x, 2), token);
    BeforeNext(c, x, 2);
    hide Step;
    DeliveryUsesUp(c, Before(c, x, 2), "t", token, iv);
  }

  lemma {:induction false} DeliveryUsesUp(c: Config, s: State, tx: string, token: string, iv: Block)
    requires tx in s.sessions && s.sessions[tx].status == Authenticated && s.sessions[tx].code == token
    requires token in s.entries && s.entries[token].downloadedAt.None? && s.entries[token].expiresAt.None?
    ensures var t := Step(c, s, GetPackage(tx, iv, 0));
      && tx in t.sessions && t.sessions[tx].status == Authenticated
      && token in t.entries && t.entries[token].downloadedAt.Some? && t.entries[token].expiresAt.None?
  {
  }

  lemma {:induction false} ServedIsRun(c: Config, x: Attempt, k: nat)
    requires x.Valid() && k <= 5
    ensures Before(c, x, k) == After(c, x.opening, Served(c, x, k))
  {
  }
}
