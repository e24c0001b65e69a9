/**
 The profile server's download sessions (core/esim/smdp/smdp.go), wired to the registry's code policy
 as the control plane does (core/fairwave-control/internal/api/esim.go).  Each request is atomic; its
 clock reading and the random values it draws are inputs.
 */
module Smdp {
  import opened Wrappers
  import Luhn
  import opened Cmac
  import Cbc
  import opened Esim

  datatype Status = Pending | Authenticated | Confirmed | Cancelled

  datatype Session = Session(
    code: string, eid: string, iccid: string, status: Status, seqCounter: nat,
    euiccChallenge: OctetString, euiccKey: OctetString, serverChallenge: OctetString, serverSecret: OctetString,
    keys: SessionKeys)

  datatype State = State(entries: Entries, sessions: map<string, Session>)

  datatype Config = Config(suite: Suite, singleUse: bool)

  datatype InitiateRequest = InitiateRequest(activationCode: string, eid: string, challenge: string, ekpb: string)

  datatype InitiateResponse = InitiateResponse(transaction: string, serverChallenge: string, serverKey: string)

  datatype Package = Package(seqCounter: nat, bpp: string)

  /** What a proven client is told of the profile: nothing of its subscriber or its keys. */
  datatype Metadata = Metadata(iccid: string, kind: string, description: string)

  function MetadataOf(p: Profile): Metadata { Metadata(p.iccid, p.kind, p.description) }

  /** The values one opening draws at random. */
  datatype Draw = Draw(transaction: string, challenge: OctetString, secret: OctetString)

  const NO_KEYS: SessionKeys := SessionKeys(ZERO_BLOCK, ZERO_BLOCK, ZERO_BLOCK, ZERO_BLOCK)

  function Unhexed(suite: Suite, s: string): OctetString {
    match suite.unhex(s) case Some(b) => b case None => []
  }

  /** The profile an opening request resolves to, if it is acceptable. */
  function Admitted(c: Config, entries: Entries, req: InitiateRequest, now: Time): Result<(string, Profile), Error> {
    if req.activationCode == "" || req.eid == "" || req.challenge == "" || req.ekpb == "" then Err(BadRequest)
    else if |req.eid| != 32 || !Luhn.Valid(req.eid) then Err(BadRequest)
    else
      match c.suite.normalize(req.activationCode)
      case None => Err(BadRequest)
      case Some(token) =>
        match Resolved(entries, token, c.singleUse, now)
        case Err(e) => Err(e)
        case Ok(p) => if p.eid != "" && p.eid != req.eid then Err(BadRequest) else Ok((token, p))
  }

  function Opened(c: Config, req: InitiateRequest, token: string, p: Profile, d: Draw): Session {
    Session(token, req.eid, p.iccid, Pending, 0, Unhexed(c.suite, req.challenge), Unhexed(c.suite, req.ekpb),
            d.challenge, d.secret, NO_KEYS)
  }

  function AfterInitiate(c: Config, s: State, req: InitiateRequest, d: Draw, now: Time): State {
    match Admitted(c, s.entries, req, now)
    case Err(_) => s
    case Ok(pair) => s.(sessions := s.sessions[d.transaction := Opened(c, req, pair.0, pair.1, d)])
  }

  function InitiateReply(c: Config, s: State, req: InitiateRequest, d: Draw, now: Time)
    : Result<InitiateResponse, Error>
  {
    match Admitted(c, s.entries, req, now)
    case Err(e) => Err(e)
    case Ok(_) =>
      Ok(InitiateResponse(d.transaction, c.suite.hex(d.challenge), c.suite.hex(c.suite.publicKey(d.secret))))
  }

  /** The keys both ends of a session derive from the shared secret. */
  function KeysFor(suite: Suite, secret: OctetString, peer: OctetString): Result<SessionKeys, Error> {
    match suite.agree(secret, peer)
    case None => Err(ProofFailed)
    case Some(shared) =>
      match KdfKey(shared)
      case Err(_) => Err(BadSecret)
      case Ok(k) => Ok(SessionKeysOf(suite.cipher, k))
  }

  /** What an eUICC must send: the MAC of the two challenges under the session's keys. */
  function Proof(suite: Suite, keys: SessionKeys, serverChallenge: OctetString, euiccChallenge: OctetString): Block {
    Mac(suite.cipher, keys.enc, serverChallenge + euiccChallenge)
  }

  function CheckedProof(c: Config, sess: Session, proof: string): Result<SessionKeys, Error> {
    match KeysFor(c.suite, sess.serverSecret, sess.euiccKey)
    case Err(e) => Err(e)
    case Ok(keys) =>
      if c.suite.unhex(proof) == Some(Proof(c.suite, keys, sess.serverChallenge, sess.euiccChallenge)) then Ok(keys)
      else Err(ProofFailed)
  }

  function FoundWith(s: State, transaction: string, allowed: set<Status>): Result<Session, Error> {
    if transaction !in s.sessions then Err(UnknownSession)
    else if s.sessions[transaction].status !in allowed then Err(SessionState)
    else Ok(s.sessions[transaction])
  }

  function Accepted(c: Config, s: State, transaction: string, proof: string): Result<SessionKeys, Error> {
    if transaction == "" || proof == "" then Err(BadRequest)
    else
      match FoundWith(s, transaction, {Pending})
      case Err(e) => Err(e)
      case Ok(sess) => CheckedProof(c, sess, proof)
  }

  function AfterAuthenticate(c: Config, s: State, transaction: string, proof: string): State {
    match Accepted(c, s, transaction, proof)
    case Ok(keys) =>
      if transaction in s.sessions then
        s.(sessions := s.sessions[transaction := s.sessions[transaction].(keys := keys, status := Authenticated)])
      else s
    case Err(_) => s
  }

  /** The reply resolves the code again, so an accepted proof may still be answered by an error. */
  function AuthenticateReply(c: Config, s: State, transaction: string, proof: string, now: Time)
    : Result<Metadata, Error>
  {
    match Accepted(c, s, transaction, proof)
    case Err(e) => Err(e)
    case Ok(_) =>
      if transaction !in s.sessions then Err(UnknownSession)
      else
        match Resolved(s.entries, s.sessions[transaction].code, c.singleUse, now)
        case Err(e) => Err(e)
        case Ok(p) => Ok(MetadataOf(p))
  }

  function Sealed(c: Config, keys: SessionKeys, seqCounter: nat, iv: Block, p: Profile): Envelope {
    Cbc.PaddedLength(|c.suite.marshal(p)|, 16);
    var ciphertext := Cbc.Encrypted(c.suite.cipher, keys.dek, iv, c.suite.marshal(p)).value;
    Envelope(seqCounter, ciphertext, Mac(c.suite.cipher, keys.mac, c.suite.macInput(seqCounter, ciphertext)))
  }

  /** The session and the profile a package request delivers. */
  function Deliverable(c: Config, s: State, transaction: string, now: Time): Result<(Session, Profile), Error> {
    match FoundWith(s, transaction, {Authenticated, Confirmed})
    case Err(e) => Err(e)
    case Ok(sess) =>
      match Resolved(s.entries, sess.code, c.singleUse, now)
      case Err(e) => Err(e)
      case Ok(p) => Ok((sess, p))
  }

  function AfterGetPackage(c: Config, s: State, transaction: string, now: Time): State {
    match Deliverable(c, s, transaction, now)
    case Err(_) => s
    case Ok(pair) =>
      State(Marked(s.entries, pair.0.code, now),
            s.sessions[transaction := pair.0.(seqCounter := pair.0.seqCounter + 1)])
  }

  function PackageReply(c: Config, s: State, transaction: string, iv: Block, now: Time): Result<Package, Error> {
    match Deliverable(c, s, transaction, now)
    case Err(e) => Err(e)
    case Ok(pair) =>
      var n := pair.0.seqCounter + 1;
      Ok(Package(n, c.suite.encodePackage(Sealed(c, pair.0.keys, n, iv, pair.1))))
  }

  function ConfirmError(s: State, transaction: string, result: string): Option<Error> {
    if transaction == "" || (result != "success" && result != "failure") then Some(BadRequest)
    else
      match FoundWith(s, transaction, {Authenticated, Confirmed})
      case Err(e) => Some(e)
      case Ok(_) => None
  }

  function WithStatus(s: State, transaction: string, status: Status): State {
    if transaction in s.sessions then
      s.(sessions := s.sessions[transaction := s.sessions[transaction].(status := status)])
    else s
  }

  function NotifyError(s: State, transaction: string, notification: string): Option<Error> {
    if transaction == "" || notification == "" then Some(BadRequest)
    else
      match FoundWith(s, transaction, {Pending, Authenticated, Confirmed})
      case Err(e) => Some(e)
      case Ok(_) => None
  }

  function CancelError(s: State, transaction: string): Option<Error> {
    match FoundWith(s, transaction, {Pending, Authenticated, Confirmed})
    case Err(e) => Some(e)
    case Ok(_) => None
  }

  class Server {
    const c: Config
    const registry: Registry
    var sessions: map<string, Session>

    function Model(): State
      reads this, registry
    {
      State(registry.entries, sessions)
    }

    constructor (c: Config, registry: Registry)
      ensures this.c == c && this.registry == registry && sessions == map[]
    {
      this.c, this.registry, sessions := c, registry, map[];
    }

    method InitiateAuthentication(req: InitiateRequest, d: Draw, now: Time) returns (r: Result<InitiateResponse, Error>)
      modifies this
      ensures Model() == AfterInitiate(c, old(Model()), req, d, now)
      ensures r == InitiateReply(c, old(Model()), req, d, now)
    {
      if req.activationCode == "" || req.eid == "" || req.challenge == "" || req.ekpb == "" {
        return Err(BadRequest);
      }
      var eidOk := Luhn.ValidLuhn(req.eid);
      if |req.eid| != 32 || !eidOk {
        return Err(BadRequest);
      }
      var token := c.suite.normalize(req.activationCode);
      if token.None? {
        return Err(BadRequest);
      }
      var p := registry.ResolvePolicy(token.value, c.singleUse, now);
      if p.Err? {
        return Err(p.error);
      }
      if p.value.eid != "" && p.value.eid != req.eid {
        return Err(BadRequest);
      }
      var sess := Session(token.value, req.eid, p.value.iccid, Pending, 0,
                          Unhexed(c.suite, req.challenge), Unhexed(c.suite, req.ekpb), d.challenge, d.secret, NO_KEYS);
      sessions := sessions[d.transaction := sess];
      r := Ok(InitiateResponse(d.transaction, c.suite.hex(d.challenge), c.suite.hex(c.suite.publicKey(d.secret))));
    }

    method AuthenticateClient(transaction: string, proof: string, now: Time) returns (r: Result<Metadata, Error>)
      modifies this
      ensures Model() == AfterAuthenticate(c, old(Model()), transaction, proof)
      ensures r == AuthenticateReply(c, old(Model()), transaction, proof, now)
    {
      hide Mac, Resolved;
      if transaction == "" || proof == "" {
        return Err(BadRequest);
      }
      if transaction !in sessions {
        return Err(UnknownSession);
      }
      var sess := sessions[transaction];
      if sess.status != Pending {
        return Err(SessionState);
      }
      var shared := c.suite.agree(sess.serverSecret, sess.euiccKey);
      if shared.None? {
        return Err(ProofFailed);
      }
      var keys := DeriveSessionKeys(c.suite.cipher, shared.value);
      if keys.Err? {
        return Err(BadSecret);
      }
      var expected := CMAC(c.suite.cipher, keys.value.enc, sess.serverChallenge + sess.euiccChallenge);
      if c.suite.unhex(proof) != Some(expected.value) {
        return Err(ProofFailed);
      }
      sessions := sessions[transaction := sess.(keys := keys.value, status := Authenticated)];
      var p := registry.ResolvePolicy(sess.code, c.singleUse, now);
      if p.Err? {
        return Err(p.error);
      }
      r := Ok(Metadata(p.value.iccid, p.value.kind, p.value.description));
    }

    method GetBoundProfilePackage(transaction: string, iv: Block, now: Time) returns (r: Result<Package, Error>)
      modifies this, registry
      ensures Model() == AfterGetPackage(c, old(Model()), transaction, now)
      ensures r == PackageReply(c, old(Model()), transaction, iv, now)
    {
      hide Mac, Resolved;
      if transaction !in sessions {
        return Err(UnknownSession);
      }
      var sess := sessions[transaction];
      if sess.status != Authenticated && sess.status != Confirmed {
        return Err(SessionState);
      }
      var p := registry.ResolvePolicy(sess.code, c.singleUse, now);
      if p.Err? {
        return Err(p.error);
      }
      var ciphertext := Cbc.Encrypt(c.suite.cipher, sess.keys.dek, iv, c.suite.marshal(p.value));
      sess := sess.(seqCounter := sess.seqCounter + 1);
      var mac := CMAC(c.suite.cipher, sess.keys.mac, c.suite.macInput(sess.seqCounter, ciphertext.value));
      var bpp := c.suite.encodePackage(Envelope(sess.seqCounter, ciphertext.value, mac.value));
      sessions := sessions[transaction := sess];
      var _ := registry.MarkDownloaded(sess.code, now);
      r := Ok(Package(sess.seqCounter, bpp));
    }

    method ConfirmOrder(transaction: string, result: string) returns (error: Option<Error>)
      modifies this
      ensures error == ConfirmError(old(Model()), transaction, result)
      ensures Model() == if error.None? then WithStatus(old(Model()), transaction, Confirmed) else old(Model())
    {
      if transaction == "" || (result != "success" && result != "failure") {
        return Some(BadRequest);
      }
      if transaction !in sessions {
        return Some(UnknownSession);
      }
      var sess := sessions[transaction];
      if sess.status != Authenticated && sess.status != Confirmed {
        return Some(SessionState);
      }
      sessions := sessions[transaction := sess.(status := Confirmed)];
      error := None;
    }

    method HandleNotification(transaction: string, notification: string) returns (error: Option<Error>)
      ensures error == NotifyError(Model(), transaction, notification)
    {
      if transaction == "" || notification == "" {
        return Some(BadRequest);
      }
      if transaction !in sessions {
        return Some(UnknownSession);
      }
      if sessions[transaction].status == Cancelled {
        return Some(SessionState);
      }
      error := None;
    }

    method CancelSession(transaction: string) returns (error: Option<Error>)
      modifies this
      ensures error == CancelError(old(Model()), transaction)
      ensures Model() == if error.None? then WithStatus(old(Model()), transaction, Cancelled) else old(Model())
    {
      if transaction !in sessions {
        return Some(UnknownSession);
      }
      var sess := sessions[transaction];
      if sess.status == Cancelled {
        return Some(SessionState);
      }
      sessions := sessions[transaction := sess.(status := Cancelled)];
      error := None;
    }
  }
}
