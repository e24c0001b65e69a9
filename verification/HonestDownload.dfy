/**
 The eUICC of core/esim/euicc/euicc.go against the server of core/esim/smdp/smdp.go, with other
 sessions served between any two of its requests.
 */
module HonestDownload {
  import opened Wrappers
  import opened Cmac
  import Cbc
  import opened Esim
  import opened Smdp
  import opened SmdpRuns
  import opened Euicc

  /**
   One download: `opening` is the server's state when the first request arrives, and `proving`,
   `fetching`, `confirming` and `notifying` are its states when the later ones do.
   */
  datatype Scene = Scene(
    chip: Chip, code: string, secret: OctetString, challenge: OctetString, d: Draw, iv: Block,
    opening: State, proving: State, fetching: State, confirming: State, notifying: State,
    openedAt: Time, provedAt: Time, fetchedAt: Time)

  /** The transaction's session is as it was. */
  ghost predicate Undisturbed(s: State, t: State, tx: string) {
    tx in s.sessions && tx in t.sessions && s.sessions[tx] == t.sessions[tx]
  }

  predicate Addresses(r: Request, tx: string) {
    match r
    case Initiate(_, d, _) => d.transaction == tx
    case Authenticate(x, _, _) => x == tx
    case GetPackage(x, _, _) => x == tx
    case Confirm(x, _) => x == tx
    case Notify(x, _) => x == tx
    case Cancel(x) => x == tx
    case Add(_, _, _) => false
    case Revoke(_) => false
  }

  /** Requests of other transactions, and changes to the registry, do not disturb a session. */
  lemma {:induction false} OthersDoNotDisturb(c: Config, s: State, rs: seq<Request>, tx: string)
    requires tx in s.sessions && forall i :: 0 <= i < |rs| ==> !Addresses(rs[i], tx)
    ensures Undisturbed(s, After(c, s, rs), tx)
  {
    hide Step, Addresses;
    if rs != [] {
      var init, r := rs[..|rs| - 1], rs[|rs| - 1];
      OthersDoNotDisturb(c, s, init, tx);
      OtherDoesNotDisturb(c, After(c, s, init), r, tx);
    }
  }

  lemma OtherDoesNotDisturb(c: Config, s: State, r: Request, tx: string)
    requires tx in s.sessions && !Addresses(r, tx)
    ensures Undisturbed(s, Step(c, s, r), tx)
  {
    hide Resolved, Marked, Added, CheckedProof;
  }

  function AnswerOf<T>(r: Result<T, Error>): Reply<T> {
    match r case Ok(v) => Answer(v) case Err(_) => Refused
  }

  function Told<T>(r: Result<T, Error>): Reply<()> {
    match r case Ok(_) => Answer(()) case Err(_) => Refused
  }

  function Acknowledged(e: Option<Error>): Reply<()> {
    if e.None? then Answer(()) else Refused
  }

  function Opening(c: Config, x: Scene): InitiateRequest {
    OpeningOf(c.suite, x.chip.eid, x.code, x.secret, x.challenge)
  }

  function Opener(c: Config, x: Scene): InitiateResponse {
    InitiateResponse(x.d.transaction, c.suite.hex(x.d.challenge), c.suite.hex(c.suite.publicKey(x.d.secret)))
  }

  /** What the server replies to each request, in the state in which the request finds it. */
  function HonestReplies(c: Config, x: Scene): Replies {
    var tx := x.d.transaction;
    Replies(
      AnswerOf(InitiateReply(c, x.opening, Opening(c, x), x.d, x.openedAt)),
      match Agree(c.suite, x.secret, x.challenge, Opener(c, x))
        case Err(_) => Lost
        case Ok(a) => Told(AuthenticateReply(c, x.proving, tx, a.proof, x.provedAt)),
      match PackageReply(c, x.fetching, tx, x.iv, x.fetchedAt)
        case Ok(package) => Answer(PackageBody(package.seqCounter, package.bpp))
        case Err(_) => Refused,
      Acknowledged(ConfirmError(x.confirming, tx, "success")),
      Acknowledged(NotifyError(x.notifying, tx, "install-success")))
  }

  function AgreedProof(c: Config, x: Scene): string {
    match Agree(c.suite, x.secret, x.challenge, Opener(c, x)) case Ok(a) => a.proof case Err(_) => ""
  }

  /** Between two of its requests nobody else uses the transaction. */
  ghost predicate LeftAlone(c: Config, x: Scene) {
    var tx := x.d.transaction;
    && (Admitted(c, x.opening.entries, Opening(c, x), x.openedAt).Ok? ==>
          Undisturbed(AfterInitiate(c, x.opening, Opening(c, x), x.d, x.openedAt), x.proving, tx))
    && (tx in x.proving.sessions
        ==> Undisturbed(AfterAuthenticate(c, x.proving, tx, AgreedProof(c, x)), x.fetching, tx))
    && (tx in x.fetching.sessions ==> Undisturbed(AfterGetPackage(c, x.fetching, tx, x.fetchedAt), x.confirming, tx))
    && (tx in x.confirming.sessions ==>
          Undisturbed(if ConfirmError(x.confirming, tx, "success").Some? then x.confirming
                      else WithStatus(x.confirming, tx, Confirmed),
                      x.notifying, tx))
  }

  /** The sort of run the source's client makes: a challenge is sent, and the transaction has a name. */
  predicate Proper(x: Scene) { x.challenge != [] && x.d.transaction != "" }

  /** Both ends derive the same keys. */
  lemma KeysAgree(c: Config, x: Scene)
    requires Lawful(c.suite)
    ensures var keys := KeysFor(c.suite, x.secret, c.suite.publicKey(x.d.secret));
      keys.Ok? && keys == KeysFor(c.suite, x.d.secret, c.suite.publicKey(x.secret))
  {
    hide SessionKeysOf;
    assert Agreed(c.suite, x.secret, x.d.secret);
  }

  function SharedKeys(c: Config, x: Scene): SessionKeys {
    match KeysFor(c.suite, x.secret, c.suite.publicKey(x.d.secret)) case Ok(keys) => keys case Err(_) => NO_KEYS
  }

  lemma ClientAgrees(c: Config, x: Scene)
    requires Lawful(c.suite)
    ensures Agree(c.suite, x.secret, x.challenge, Opener(c, x))
         == Ok(Agreement(SharedKeys(c, x), c.suite.hex(Proof(c.suite, SharedKeys(c, x), x.d.challenge, x.challenge))))
  {
    hide KeysFor, Proof;
    KeysAgree(c, x);
  }

  /** The server accepts the honest client's proof, and then holds the client's keys. */
  lemma ProofIsAccepted(c: Config, x: Scene)
    requires Lawful(c.suite) && Proper(x) && LeftAlone(c, x)
    requires Admitted(c, x.opening.entries, Opening(c, x), x.openedAt).Ok?
    ensures Accepted(c, x.proving, x.d.transaction, AgreedProof(c, x)) == Ok(SharedKeys(c, x))
    ensures x.d.transaction in x.fetching.sessions
    ensures var sess := x.fetching.sessions[x.d.transaction];
      sess.status == Authenticated && sess.keys == SharedKeys(c, x)
      && sess.code == Admitted(c, x.opening.entries, Opening(c, x), x.openedAt).value.0
  {
    hide KeysFor, Proof, Admitted;
    KeysAgree(c, x);
    ClientAgrees(c, x);
    assert c.suite.hex(Proof(c.suite, SharedKeys(c, x), x.d.challenge, x.challenge)) != "";
  }

  /** Opening the package the server sealed gives back the payload it sealed. */
  lemma PackageOpens(c: Config, keys: SessionKeys, n: nat, iv: Block, p: Profile)
    requires Lawful(c.suite)
    ensures PayloadOf(c.suite, keys, PackageBody(n, c.suite.encodePackage(Sealed(c, keys, n, iv, p))))
        == Some(c.suite.marshal(p))
  {
    hide Mac, Cbc.Encrypted, Cbc.Decrypted;
    Cbc.DecryptUndoesEncrypt(c.suite.cipher, c.suite.inverse, keys.dek, iv, c.suite.marshal(p));
  }

  /** The conditions an honest download meets or fails: the code resolves at every request, and the profile fits. */
  predicate Succeeds(c: Config, x: Scene) {
    match Admitted(c, x.opening.entries, Opening(c, x), x.openedAt)
    case Err(_) => false
    case Ok(pair) =>
      && Resolved(x.proving.entries, pair.0, c.singleUse, x.provedAt).Ok?
      && match Resolved(x.fetching.entries, pair.0, c.singleUse, x.fetchedAt)
         case Err(_) => false
         case Ok(p) => Installable(x.chip.eid, x.chip.profiles, p)
  }

  function ResolvedProfile(c: Config, x: Scene): Result<Profile, Error> {
    match Admitted(c, x.opening.entries, Opening(c, x), x.openedAt)
    case Err(e) => Err(e)
    case Ok(pair) => Resolved(x.fetching.entries, pair.0, c.singleUse, x.fetchedAt)
  }

  /**
   An honest download succeeds exactly when the code resolves at each of its three resolving requests
   and the profile may be installed; it then installs exactly the profile the code resolved to.
   */
  lemma HonestDownloadIff(c: Config, x: Scene)
    requires Lawful(c.suite) && Proper(x) && LeftAlone(c, x)
    ensures var o := Downloaded(c.suite, x.chip, x.code, x.secret, x.challenge, HonestReplies(c, x));
      && (o.result.Ok? <==> Succeeds(c, x))
      && (o.result.Ok? ==> Ok(o.result.value) == ResolvedProfile(c, x))
  {
    hide Lawful, LeftAlone, Admitted, Resolved, Agree, Unpacked, Accepted;
    ClientAgrees(c, x);
    if Admitted(c, x.opening.entries, Opening(c, x), x.openedAt).Ok? {
      ProofIsAccepted(c, x);
      HonestAuthReply(c, x);
      HonestPackageReply(c, x);
      if Succeeds(c, x) { HonestEnding(c, x); }
    }
  }

  lemma HonestAuthReply(c: Config, x: Scene)
    requires Lawful(c.suite) && Proper(x) && LeftAlone(c, x)
    requires Admitted(c, x.opening.entries, Opening(c, x), x.openedAt).Ok?
    ensures var token := Admitted(c, x.opening.entries, Opening(c, x), x.openedAt).value.0;
      AuthenticateReply(c, x.proving, x.d.transaction, AgreedProof(c, x), x.provedAt)
      == match Resolved(x.proving.entries, token, c.singleUse, x.provedAt)
         case Err(e) => Err(e)
         case Ok(p) => Ok(MetadataOf(p))
  {
    hide Lawful, Accepted, Admitted, Resolved;
    ProofIsAccepted(c, x);
  }

  lemma HonestPackageReply(c: Config, x: Scene)
    requires Lawful(c.suite) && Proper(x) && LeftAlone(c, x)
    requires Admitted(c, x.opening.entries, Opening(c, x), x.openedAt).Ok?
    ensures var reply := PackageReply(c, x.fetching, x.d.transaction, x.iv, x.fetchedAt);
      var p := ResolvedProfile(c, x);
      && (reply.Ok? <==> p.Ok?)
      && (reply.Ok? ==>
            var got := Unpacked(c.suite, x.chip, SharedKeys(c, x),
                PackageBody(reply.value.seqCounter, reply.value.bpp));
            got == if Installable(x.chip.eid, x.chip.profiles, p.value) then Some(p.value) else None)
  {
    hide LeftAlone, Admitted, Resolved, Installable, PayloadOf, Sealed, Accepted;
    ProofIsAccepted(c, x);
    var p := ResolvedProfile(c, x);
    if p.Ok? {
      var n := x.fetching.sessions[x.d.transaction].seqCounter + 1;
      PackageOpens(c, SharedKeys(c, x), n, x.iv, p.value);
    }
  }

  /** After the package the server takes the confirmation and the notification. */
  lemma HonestEnding(c: Config, x: Scene)
    requires Lawful(c.suite) && Proper(x) && LeftAlone(c, x)
    requires Admitted(c, x.opening.entries, Opening(c, x), x.openedAt).Ok? && ResolvedProfile(c, x).Ok?
    ensures ConfirmError(x.confirming, x.d.transaction, "success") == None
    ensures NotifyError(x.notifying, x.d.transaction, "install-success") == None
    ensures var sess := x.notifying.sessions[x.d.transaction];
      sess.status == Confirmed && sess.seqCounter == x.fetching.sessions[x.d.transaction].seqCounter + 1
  {
    hide Lawful, Admitted, Resolved, Accepted, Marked;
    ProofIsAccepted(c, x);
  }
}
