/**
 What the profile server answers (core/esim/smdp/smdp.go), read off the requests it has had: over every
 interleaving the state of a session is a matter of what was asked since it was opened.
 */
module SmdpHistory {
  import opened Wrappers
  import Luhn
  import opened Cmac
  import opened Esim
  import opened Smdp
  import opened SmdpRuns
  import Cbc

  /** The transaction was opened, at least once. */
  predicate WasOpened(c: Config, s: State, rs: seq<Request>, tx: string) {
    rs != [] &&
    (Opens(c, After(c, s, rs[..|rs| - 1]), rs[|rs| - 1], tx) || WasOpened(c, s, rs[..|rs| - 1], tx))
  }

  /** A cancellation was asked for since it was opened. */
  predicate CancelledSince(c: Config, s: State, rs: seq<Request>, tx: string) {
    rs != [] &&
    var init, r := rs[..|rs| - 1], rs[|rs| - 1];
    !Opens(c, After(c, s, init), r, tx)
    && ((r == Cancel(tx) && WasOpened(c, s, init, tx)) || CancelledSince(c, s, init, tx))
  }

  /** A result was reported since the proof was accepted, and before any cancellation. */
  predicate ConfirmedSince(c: Config, s: State, rs: seq<Request>, tx: string) {
    rs != [] &&
    var init, r := rs[..|rs| - 1], rs[|rs| - 1];
    !Opens(c, After(c, s, init), r, tx)
    && ((Reports(r, tx) && ProvenSince(c, s, init, tx) && !CancelledSince(c, s, init, tx))
        || ConfirmedSince(c, s, init, tx))
  }

  predicate Reports(r: Request, tx: string) {
    r.Confirm? && r.transaction == tx && tx != "" && (r.result == "success" || r.result == "failure")
  }

  /** The opened transaction has the status its history gives it. */
  ghost predicate StatusMatches(s: State, tx: string, started: bool, proven: bool, confirmed: bool, cancelled: bool) {
    && (tx in s.sessions <==> started)
    && (confirmed ==> proven) && (!started ==> !proven && !cancelled)
    && (started ==>
          s.sessions[tx].status ==
            if cancelled then Cancelled else if confirmed then Confirmed else if proven then Authenticated else Pending)
  }

  lemma {:induction false} StatusStep(c: Config, s: State, r: Request, tx: string,
      started: bool, proven: bool, confirmed: bool, cancelled: bool)
    requires StatusMatches(s, tx, started, proven, confirmed, cancelled)
    ensures var opens := Opens(c, s, r, tx);
      StatusMatches(Step(c, s, r), tx, opens || started,
        !opens && (Proves(c, s, r, tx) || proven),
        !opens && ((Reports(r, tx) && proven && !cancelled) || confirmed),
        !opens && ((r == Cancel(tx) && started) || cancelled))
  {
    hide Resolved, Marked, Added, CheckedProof;
  }

  /**
   Over every interleaving a session is there exactly if it was opened, and since then is cancelled if that was
   asked for, else confirmed if a result was reported after its proof, else authenticated if a proof was
   accepted, and else pending.
   */
  lemma {:induction false} StatusIsHistory(c: Config, rs: seq<Request>, tx: string)
    ensures StatusMatches(After(c, EMPTY, rs), tx, WasOpened(c, EMPTY, rs, tx), ProvenSince(c, EMPTY, rs, tx),
                          ConfirmedSince(c, EMPTY, rs, tx), CancelledSince(c, EMPTY, rs, tx))
  {
    hide Step, Opens, Proves, StatusMatches;
    if rs == [] {
      NothingYet(tx);
    } else {
      var init, r := rs[..|rs| - 1], rs[|rs| - 1];
      StatusIsHistory(c, init, tx);
      StatusStep(c, After(c, EMPTY, init), r, tx, WasOpened(c, EMPTY, init, tx), ProvenSince(c, EMPTY, init, tx),
                 ConfirmedSince(c, EMPTY, init, tx), CancelledSince(c, EMPTY, init, tx));
    }
  }

  lemma {:induction false} NothingYet(tx: string)
    ensures StatusMatches(EMPTY, tx, false, false, false, false)
  {
  }

  /** A package is delivered if and only if the proof was accepted, nothing was cancelled, and the code resolves. */
  lemma {:induction false} PackageIff(c: Config, rs: seq<Request>, tx: string, iv: Block, now: Time)
    ensures var s := After(c, EMPTY, rs);
      PackageReply(c, s, tx, iv, now).Ok? <==>
        && WasOpened(c, EMPTY, rs, tx) && ProvenSince(c, EMPTY, rs, tx) && !CancelledSince(c, EMPTY, rs, tx)
        && tx in s.sessions && Resolved(s.entries, s.sessions[tx].code, c.singleUse, now).Ok?
  {
    hide Resolved, Sealed, After, WasOpened, ProvenSince, CancelledSince, ConfirmedSince;
    StatusIsHistory(c, rs, tx);
  }

  /** A result is taken if and only if it is one of the two, and the proof was accepted and nothing cancelled. */
  lemma {:induction false} ConfirmIff(c: Config, rs: seq<Request>, tx: string, result: string)
    ensures ConfirmError(After(c, EMPTY, rs), tx, result) == None <==>
      && Reports(Confirm(tx, result), tx)
      && WasOpened(c, EMPTY, rs, tx) && ProvenSince(c, EMPTY, rs, tx) && !CancelledSince(c, EMPTY, rs, tx)
  {
    hide After, WasOpened, ProvenSince, CancelledSince, ConfirmedSince;
    StatusIsHistory(c, rs, tx);
  }

  /** A notification that says something, and a cancellation, are taken iff the session was opened and not cancelled. */
  lemma {:induction false} NotifyAndCancelIff(c: Config, rs: seq<Request>, tx: string, text: string)
    ensures var s, live := After(c, EMPTY, rs), WasOpened(c, EMPTY, rs, tx) && !CancelledSince(c, EMPTY, rs, tx);
      && (NotifyError(s, tx, text) == None <==> tx != "" && text != "" && live)
      && (CancelError(s, tx) == None <==> live)
  {
    hide After, WasOpened, ProvenSince, CancelledSince, ConfirmedSince;
    StatusIsHistory(c, rs, tx);
  }

  /**
   A proof is accepted if and only if the session is pending, the keys can be derived, and the proof is the MAC,
   under the first of the keys of the shared secret, of the server's challenge followed by the client's.
   */
  lemma {:induction false} ProofIff(c: Config, rs: seq<Request>, tx: string, proof: string)
    ensures var s := After(c, EMPTY, rs);
      Accepted(c, s, tx, proof).Ok? <==>
        && tx != "" && proof != ""
        && WasOpened(c, EMPTY, rs, tx) && !ProvenSince(c, EMPTY, rs, tx) && !CancelledSince(c, EMPTY, rs, tx)
        && tx in s.sessions
        && var sess := s.sessions[tx]; var shared := c.suite.agree(sess.serverSecret, sess.euiccKey);
        && shared.Some? && KdfKey(shared.value).Ok?
        && var enc := Mac(c.suite.cipher, KdfKey(shared.value).value,
                          [1, 0, 0, 0, 0, 0, 0, 0, 0, 0, 0, 0, 0, 0, 0, 0, 0, 0, 0, 1]);
           c.suite.unhex(proof) == Some(Mac(c.suite.cipher, enc, sess.serverChallenge + sess.euiccChallenge))
  {
    hide Mac, After, WasOpened, ProvenSince, CancelledSince, ConfirmedSince, KdfKey;
    StatusIsHistory(c, rs, tx);
    LabelledOne(1);
  }

  // ---- opening ----

  /**
   A session is opened if and only if no field is empty, the eUICC's identifier is 32 digits with a right check
   digit, the code is one that resolves, and its profile is bound to no eUICC or to this one.
   */
  lemma {:induction false} OpenedIff(c: Config, s: State, req: InitiateRequest, d: Draw, now: Time)
    ensures InitiateReply(c, s, req, d, now).Ok? <==>
      && req.activationCode != "" && req.eid != "" && req.challenge != "" && req.ekpb != ""
      && |req.eid| == 32 && Luhn.Valid(req.eid)
      && var token := c.suite.normalize(req.activationCode);
      && token.Some?
      && var p := Resolved(s.entries, token.value, c.singleUse, now);
         p.Ok? && (p.value.eid == "" || p.value.eid == req.eid)
  {
    hide Luhn.Valid, Resolved;
  }

  /** The opened session is for this eUICC, this code and this profile, with nothing proven and nothing delivered. */
  lemma {:induction false} OpenedSession(c: Config, s: State, req: InitiateRequest, d: Draw, now: Time)
    requires InitiateReply(c, s, req, d, now).Ok?
    ensures var t, r := AfterInitiate(c, s, req, d, now), InitiateReply(c, s, req, d, now).value;
      && d.transaction in t.sessions && t == s.(sessions := s.sessions[d.transaction := t.sessions[d.transaction]])
      && var sess, token := t.sessions[d.transaction], c.suite.normalize(req.activationCode).value;
      && sess.code == token && sess.eid == req.eid && sess.iccid == s.entries[token].profile.iccid
      && sess.status == Pending && sess.seqCounter == 0
      && (c.suite.unhex(req.challenge).Some? ==> sess.euiccChallenge == c.suite.unhex(req.challenge).value)
      && (c.suite.unhex(req.ekpb).Some? ==> sess.euiccKey == c.suite.unhex(req.ekpb).value)
      && sess.serverChallenge == d.challenge && sess.serverSecret == d.secret
      && r == InitiateResponse(d.transaction, c.suite.hex(d.challenge), c.suite.hex(c.suite.publicKey(d.secret)))
  {
    hide Luhn.Valid;
  }

  /** A code resolves if and only if it is registered, has not expired, and is not a used one of single use. */
  lemma {:induction false} ResolvesIff(entries: Entries, token: string, singleUse: bool, now: Time)
    ensures var r := Resolved(entries, token, singleUse, now);
      && (r.Ok? <==>
            && token in entries
            && (entries[token].expiresAt == None || now <= entries[token].expiresAt.value)
            && (!singleUse || entries[token].downloadedAt == None))
      && (r.Ok? ==> r.value == entries[token].profile)
  {
  }

  /** A package carries the session's next number, the profile under the fourth key, and a MAC under the second. */
  lemma {:induction false} PackageIs(c: Config, s: State, tx: string, iv: Block, now: Time)
    requires PackageReply(c, s, tx, iv, now).Ok?
    ensures var sess, r := s.sessions[tx], PackageReply(c, s, tx, iv, now).value;
      var sealed := Cbc.Encrypted(c.suite.cipher, sess.keys.dek, iv,
                                  c.suite.marshal(s.entries[sess.code].profile));
      && tx in s.sessions && sess.code in s.entries && r.seqCounter == sess.seqCounter + 1 && sealed.Ok?
      && r.bpp == c.suite.encodePackage(Envelope(r.seqCounter, sealed.value,
           Mac(c.suite.cipher, sess.keys.mac, c.suite.macInput(r.seqCounter, sealed.value))))
  {
    hide Mac, Cbc.CbcEncrypt, Cbc.WithPadding;
  }
}
