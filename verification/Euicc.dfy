/**
 The software eUICC (core/esim/euicc/euicc.go): a profile download against a server whose replies are
 arbitrary, removal, and the sorted listing.  The replies are inputs, so every server, honest or not,
 is covered; so are the clock reading and the random values drawn.
 */
module Euicc {
  import opened Wrappers
  import opened Strings
  import opened Cmac
  import Cbc
  import Luhn
  import opened Esim
  import opened Smdp

  datatype Installed = Installed(profile: Profile, enabled: bool, installedAt: Time)

  datatype Chip = Chip(eid: string, profiles: map<string, Installed>, installed: seq<string>)

  /** No usable reply, a reply with another status than success, or a decoded answer. */
  datatype Reply<T> = Lost | Refused | Answer(body: T)

  datatype PackageBody = PackageBody(seqCounter: int, bpp: string)

  datatype Replies = Replies(
    initiate: Reply<InitiateResponse>, authenticate: Reply<()>, package: Reply<PackageBody>,
    confirm: Reply<()>, notify: Reply<()>)

  datatype Post =
    | PostInitiate(req: InitiateRequest)
    | PostAuthenticate(transaction: string, proof: string)
    | PostGetPackage(transaction: string)
    | PostConfirm(transaction: string, result: string)
    | PostNotify(transaction: string, notification: string)
    | PostCancel(transaction: string)

  datatype Failure =
    NotInitiated | BadServerKey | BadServerChallenge | NoAuthReply | AuthRefused | NoPackageReply
    | PackageRefused | BadPackage | NotConfirmed | NotNotified

  datatype Outcome = Outcome(posts: seq<Post>, result: Result<Profile, Failure>)

  function OpeningOf(suite: Suite, eid: string, code: string, secret: OctetString, challenge: OctetString)
    : InitiateRequest
  {
    InitiateRequest(code, eid, suite.hex(challenge), suite.hex(suite.publicKey(secret)))
  }

  datatype Agreement = Agreement(keys: SessionKeys, proof: string)

  function Agree(suite: Suite, secret: OctetString, challenge: OctetString, ia: InitiateResponse)
    : Result<Agreement, Failure>
  {
    match suite.unhex(ia.serverKey)
    case None => Err(BadServerKey)
    case Some(peer) =>
      match KeysFor(suite, secret, peer)
      case Err(_) => Err(BadServerKey)
      case Ok(keys) =>
        match suite.unhex(ia.serverChallenge)
        case None => Err(BadServerChallenge)
        case Some(serverChallenge) =>
          Ok(Agreement(keys, suite.hex(Proof(suite, keys, serverChallenge, challenge))))
  }

  /** The payload of a package whose counters agree, whose MAC is right and which decrypts. */
  function PayloadOf(suite: Suite, keys: SessionKeys, body: PackageBody): Option<OctetString> {
    match suite.decodePackage(body.bpp)
    case None => None
    case Some(ep) =>
      if ep.seqCounter != body.seqCounter
          || ep.mac != Mac(suite.cipher, keys.mac, suite.macInput(ep.seqCounter, ep.ciphertext))
      then None
      else
        match Cbc.Decrypted(suite.inverse, keys.dek, ep.ciphertext)
        case Ok(payload) => Some(payload)
        case Err(_) => None
  }

  predicate Installable(eid: string, profiles: map<string, Installed>, p: Profile) {
    Wellformed(p) && (p.eid != "" ==> p.eid == eid) && p.iccid !in profiles
  }

  function Unpacked(suite: Suite, s: Chip, keys: SessionKeys, body: PackageBody): Option<Profile> {
    match PayloadOf(suite, keys, body)
    case None => None
    case Some(payload) =>
      match suite.unmarshal(payload)
      case None => None
      case Some(p) => if Installable(s.eid, s.profiles, p) then Some(p) else None
  }

  function Downloaded(suite: Suite, s: Chip, code: string, secret: OctetString, challenge: OctetString, rs: Replies)
    : Outcome
  {
    var open := [PostInitiate(OpeningOf(suite, s.eid, code, secret, challenge))];
    if !rs.initiate.Answer? then Outcome(open, Err(NotInitiated))
    else
      var tx := rs.initiate.body.transaction;
      match Agree(suite, secret, challenge, rs.initiate.body)
      case Err(e) => Outcome(open, Err(e))
      case Ok(a) =>
        var prove := open + [PostAuthenticate(tx, a.proof)];
        if rs.authenticate.Lost? then Outcome(prove, Err(NoAuthReply))
        else if rs.authenticate.Refused? then Outcome(prove + [PostCancel(tx)], Err(AuthRefused))
        else
          var fetch := prove + [PostGetPackage(tx)];
          if rs.package.Lost? then Outcome(fetch, Err(NoPackageReply))
          else if rs.package.Refused? then Outcome(fetch + [PostCancel(tx)], Err(PackageRefused))
          else
            match Unpacked(suite, s, a.keys, rs.package.body)
            case None => Outcome(fetch + [PostCancel(tx)], Err(BadPackage))
            case Some(p) =>
              var confirm := fetch + [PostConfirm(tx, "success")];
              if !rs.confirm.Answer? then Outcome(confirm, Err(NotConfirmed))
              else
                var notify := confirm + [PostNotify(tx, "install-success")];
                if !rs.notify.Answer? then Outcome(notify, Err(NotNotified)) else Outcome(notify, Ok(p))
  }

  /** A download adds its profile, or changes nothing. */
  function AfterDownload(s: Chip, o: Outcome, now: Time): Chip {
    match o.result
    case Err(_) => s
    case Ok(p) =>
      s.(profiles := s.profiles[p.iccid := Installed(p, true, now)], installed := s.installed + [p.iccid])
  }

  // ---- the install history lists the profiles ----

  ghost predicate Listing(s: Chip) {
    && (forall id: string :: id in s.installed <==> id in s.profiles)
    && (forall i, j :: 0 <= i < j < |s.installed| ==> s.installed[i] != s.installed[j])
    && (forall id <- s.profiles :: s.profiles[id].profile.iccid == id)
  }

  /** The history without the first occurrence of an identifier. */
  function Without(ids: seq<string>, id: string): seq<string> {
    if ids == [] then [] else if ids[0] == id then ids[1..] else [ids[0]] + Without(ids[1..], id)
  }

  lemma {:induction false} WithoutLast(ids: seq<string>, id: string)
    requires id !in ids
    ensures Without(ids + [id], id) == ids
  {
    if ids != [] {
      assert (ids + [id])[1..] == ids[1..] + [id];
      WithoutLast(ids[1..], id);
    }
  }

  lemma {:induction false} WithoutKeeps(ids: seq<string>, id: string)
    requires forall i, j :: 0 <= i < j < |ids| ==> ids[i] != ids[j]
    ensures forall x: string :: x in Without(ids, id) <==> x in ids && x != id
    ensures forall i, j :: 0 <= i < j < |Without(ids, id)| ==> Without(ids, id)[i] != Without(ids, id)[j]
  {
    if ids != [] && ids[0] != id {
      WithoutKeeps(ids[1..], id);
      assert forall i :: 0 <= i < |Without(ids[1..], id)| ==> Without(ids[1..], id)[i] in Without(ids[1..], id);
      assert ids[0] !in ids[1..];
    }
  }

  function Removed(s: Chip, id: string): Chip {
    s.(profiles := s.profiles - {id}, installed := Without(s.installed, id))
  }

  lemma RemoveKeepsListing(s: Chip, id: string)
    requires Listing(s)
    ensures Listing(Removed(s, id))
  {
    WithoutKeeps(s.installed, id);
  }

  lemma DownloadKeepsListing(s: Chip, o: Outcome, now: Time)
    requires Listing(s) && (o.result.Ok? ==> o.result.value.iccid !in s.profiles)
    ensures Listing(AfterDownload(s, o, now))
  {
  }

  /** Installing and removing again leaves no trace. */
  lemma RemoveUndoesInstall(s: Chip, o: Outcome, now: Time)
    requires Listing(s) && o.result.Ok? && o.result.value.iccid !in s.profiles
    ensures Removed(AfterDownload(s, o, now), o.result.value.iccid) == s
  {
    var p := o.result.value;
    WithoutLast(s.installed, p.iccid);
    assert s.profiles[p.iccid := Installed(p, true, now)] - {p.iccid} == s.profiles;
  }

  /** An installed profile passed every check, and was not there before. */
  lemma InstalledIsInstallable(suite: Suite, s: Chip, code: string, secret: OctetString, challenge: OctetString,
      rs: Replies)
    ensures var o := Downloaded(suite, s, code, secret, challenge, rs);
      o.result.Ok? ==> Installable(s.eid, s.profiles, o.result.value)
  {
    hide PayloadOf, Agree;
  }

  /** A profile is downloaded, from whatever server, or removed. */
  datatype Operation =
    | Install(code: string, secret: OctetString, challenge: OctetString, rs: Replies, now: Time)
    | Delete(iccid: string)

  function Operated(suite: Suite, s: Chip, op: Operation): Chip {
    match op
    case Install(code, secret, challenge, rs, now) =>
      AfterDownload(s, Downloaded(suite, s, code, secret, challenge, rs), now)
    case Delete(iccid) => Removed(s, iccid)
  }

  function AfterOperations(suite: Suite, s: Chip, ops: seq<Operation>): Chip {
    if ops == [] then s
    else Operated(suite, AfterOperations(suite, s, ops[..|ops| - 1]), ops[|ops| - 1])
  }

  /**
   Over any series of downloads, failed or not, and removals the history lists exactly the installed
   profiles, each once.
   */
  lemma {:induction false} ListingAlways(suite: Suite, s: Chip, ops: seq<Operation>)
    requires Listing(s)
    ensures Listing(AfterOperations(suite, s, ops))
  {
    hide Listing, Downloaded;
    if ops != [] {
      var init := ops[..|ops| - 1];
      var t := AfterOperations(suite, s, init);
      ListingAlways(suite, s, init);
      match ops[|ops| - 1]
      case Install(code, secret, challenge, rs, now) =>
        InstalledIsInstallable(suite, t, code, secret, challenge, rs);
        DownloadKeepsListing(t, Downloaded(suite, t, code, secret, challenge, rs), now);
      case Delete(iccid) => RemoveKeepsListing(t, iccid);
    }
  }

  /**
   Whatever the server replied, an installed profile was sealed under the keys agreed with the server:
   its package carries their MAC, and its ciphertext is the encryption of a payload that decodes to it.
   */
  lemma InstalledWasSealed(suite: Suite, s: Chip, code: string, secret: OctetString, challenge: OctetString,
      rs: Replies)
    requires Cbc.Undoes(suite.cipher, suite.inverse) && Cbc.Undoes(suite.inverse, suite.cipher)
    ensures var o := Downloaded(suite, s, code, secret, challenge, rs);
      o.result.Ok? ==>
        && rs.initiate.Answer? && rs.package.Answer?
        && Agree(suite, secret, challenge, rs.initiate.body).Ok?
        && SealedFor(suite, Agree(suite, secret, challenge, rs.initiate.body).value.keys, rs.package.body,
            o.result.value)
  {
    hide Agree, Mac, Cbc.Decrypted, Cbc.Encrypted;
    var o := Downloaded(suite, s, code, secret, challenge, rs);
    if o.result.Ok? {
      var keys := Agree(suite, secret, challenge, rs.initiate.body).value.keys;
      var ep := suite.decodePackage(rs.package.body.bpp).value;
      var payload := PayloadOf(suite, keys, rs.package.body).value;
      Cbc.DecryptIff(suite.cipher, suite.inverse, keys.dek, ep.ciphertext, payload);
    }
  }

  ghost predicate SealedFor(suite: Suite, keys: SessionKeys, body: PackageBody, p: Profile) {
    match suite.decodePackage(body.bpp)
    case None => false
    case Some(ep) =>
      && ep.seqCounter == body.seqCounter
      && ep.mac == Mac(suite.cipher, keys.mac, suite.macInput(ep.seqCounter, ep.ciphertext))
      && |ep.ciphertext| >= 16
      && exists payload: OctetString :: suite.unmarshal(payload) == Some(p)
           && Cbc.Encrypted(suite.cipher, keys.dek, ep.ciphertext[..16], payload) == Ok(ep.ciphertext)
  }

  function Posted(o: Outcome): set<Post> { set i | 0 <= i < |o.posts| :: o.posts[i] }

  predicate PostsCancel(o: Outcome) { exists p :: p in Posted(o) && p.PostCancel? }

  function AgreementOf(suite: Suite, secret: OctetString, challenge: OctetString, rs: Replies): Option<Agreement> {
    if !rs.initiate.Answer? then None
    else match Agree(suite, secret, challenge, rs.initiate.body) case Ok(a) => Some(a) case Err(_) => None
  }

  /** The answered package opens to a profile that may be installed. */
  predicate PackageFits(suite: Suite, s: Chip, secret: OctetString, challenge: OctetString, rs: Replies) {
    rs.package.Answer? &&
    match AgreementOf(suite, secret, challenge, rs)
    case None => false
    case Some(a) => Unpacked(suite, s, a.keys, rs.package.body).Some?
  }

  /**
   The session is cancelled exactly when the server's first reply leads to an agreement and the server
   then refuses a request before the installation, or answers with a package that does not fit.
   */
  lemma CancelsIff(suite: Suite, s: Chip, code: string, secret: OctetString, challenge: OctetString, rs: Replies)
    ensures PostsCancel(Downloaded(suite, s, code, secret, challenge, rs)) <==>
      && AgreementOf(suite, secret, challenge, rs).Some?
      && (rs.authenticate.Refused?
          || (rs.authenticate.Answer? && rs.package.Refused?)
          || (rs.authenticate.Answer? && rs.package.Answer? && !PackageFits(suite, s, secret, challenge, rs)))
  {
    hide Agree, Unpacked;
    var o := Downloaded(suite, s, code, secret, challenge, rs);
    LastIsPosted(o);
  }

  lemma LastIsPosted(o: Outcome)
    ensures PostsCancel(o) <==> exists i :: 0 <= i < |o.posts| && o.posts[i].PostCancel?
    ensures o.posts != [] && o.posts[|o.posts| - 1].PostCancel? ==> PostsCancel(o)
  {
    assert forall i :: 0 <= i < |o.posts| ==> o.posts[i] in Posted(o);
  }

  /**
   A failed download leaves the session it opened uncancelled exactly when a reply is lost, when the
   server's key or challenge cannot be used, or when the confirmation or the notification fails.
   */
  lemma LeavesOpenIff(suite: Suite, s: Chip, code: string, secret: OctetString, challenge: OctetString, rs: Replies)
    ensures var o := Downloaded(suite, s, code, secret, challenge, rs);
      rs.initiate.Answer? && o.result.Err? && !PostsCancel(o) <==>
      && rs.initiate.Answer?
      && (AgreementOf(suite, secret, challenge, rs).None?
          || rs.authenticate.Lost?
          || (rs.authenticate.Answer? && rs.package.Lost?)
          || (rs.authenticate.Answer? && PackageFits(suite, s, secret, challenge, rs)
              && !(rs.confirm.Answer? && rs.notify.Answer?)))
  {
    hide Agree, Unpacked, Posted, PostsCancel;
    CancelsIff(suite, s, code, secret, challenge, rs);
  }

  /** How far a download gets: the number of its requests, cancellation apart, by the replies to them. */
  function Reached(suite: Suite, s: Chip, secret: OctetString, challenge: OctetString, rs: Replies): nat {
    if AgreementOf(suite, secret, challenge, rs).None? then 1
    else if !rs.authenticate.Answer? then 2
    else if !PackageFits(suite, s, secret, challenge, rs) then 3
    else if !rs.confirm.Answer? then 4
    else 5
  }

  /** The five requests of a download whose first one is answered by `ia`. */
  function Requests(suite: Suite, s: Chip, code: string, secret: OctetString, challenge: OctetString,
      ia: InitiateResponse, proof: string): seq<Post>
  {
    [PostInitiate(InitiateRequest(code, s.eid, suite.hex(challenge), suite.hex(suite.publicKey(secret)))),
     PostAuthenticate(ia.transaction, proof), PostGetPackage(ia.transaction),
     PostConfirm(ia.transaction, "success"), PostNotify(ia.transaction, "install-success")]
  }

  /**
   The requests a download makes are the first of the five, as far as the replies take it, and perhaps a
   cancellation; it succeeds exactly if it makes all five and the last is answered too.
   */
  lemma {:induction false} RequestsAre(suite: Suite, s: Chip, code: string, secret: OctetString,
      challenge: OctetString, rs: Replies)
    ensures var o, n := Downloaded(suite, s, code, secret, challenge, rs), Reached(suite, s, secret, challenge, rs);
      && (o.result.Ok? <==> n == 5 && rs.notify.Answer?)
      && (n == 1 ==> o.posts == [PostInitiate(OpeningOf(suite, s.eid, code, secret, challenge))])
      && (n > 1 ==>
            var ia := rs.initiate.body;
            var five := Requests(suite, s, code, secret, challenge, ia,
                                 AgreementOf(suite, secret, challenge, rs).value.proof);
            o.posts == five[..n] + if PostsCancel(o) then [PostCancel(ia.transaction)] else [])
  {
    hide Agree, Unpacked, PostsCancel, Posted;
    CancelsIff(suite, s, code, secret, challenge, rs);
  }

  /** The proof sent is the MAC, under the first key of the secret, of the server's challenge and the client's. */
  lemma {:induction false} ProofSent(suite: Suite, secret: OctetString, challenge: OctetString, rs: Replies)
    ensures AgreementOf(suite, secret, challenge, rs).Some? ==>
      var ia := rs.initiate.body;
      var peer, theirs := suite.unhex(ia.serverKey), suite.unhex(ia.serverChallenge);
      && peer.Some? && theirs.Some?
      && var shared := suite.agree(secret, peer.value);
      && shared.Some? && KdfKey(shared.value).Ok?
      && var k := KdfKey(shared.value).value;
      && var enc := Mac(suite.cipher, k, [1, 0, 0, 0, 0, 0, 0, 0, 0, 0, 0, 0, 0, 0, 0, 0, 0, 0, 0, 1]);
         AgreementOf(suite, secret, challenge, rs).value.proof
           == suite.hex(Mac(suite.cipher, enc, theirs.value + challenge))
  {
    hide Mac, KdfKey;
    LabelledOne(1);
  }

  /** What may be installed, spelt out: an identifier of 19 digits or more with a right check digit, and so on. */
  lemma {:induction false} InstallableIff(eid: string, profiles: map<string, Installed>, p: Profile)
    ensures Installable(eid, profiles, p) <==>
      && |p.iccid| >= 19 && Luhn.Valid(p.iccid) && p.iccid !in profiles
      && (p.eid == "" || (p.eid == eid && |p.eid| == 32 && Luhn.Valid(p.eid)))
      && |p.imsi| == 15
      && ((p.kind == "lab" && |p.ki| == 32 && |p.opc| == 32) || p.kind == "prod")
  {
    hide Luhn.Valid;
  }

  /** One lost reply: whatever the server agreed to, its session stays uncancelled. */
  lemma {:induction false} LostReplyLeavesOpen(suite: Suite, s: Chip, code: string, secret: OctetString,
      challenge: OctetString, ia: InitiateResponse)
    ensures var o := Downloaded(suite, s, code, secret, challenge, Replies(Answer(ia), Lost, Lost, Lost, Lost));
      o.result.Err? && !PostsCancel(o)
  {
    hide PostsCancel, Agree;
    LeavesOpenIff(suite, s, code, secret, challenge, Replies(Answer(ia), Lost, Lost, Lost, Lost));
  }

  // ---- the object ----

  class EUICC {
    const eid: string
    var profiles: map<string, Installed>
    var installed: seq<string>

    function Model(): Chip
      reads this
    {
      Chip(eid, profiles, installed)
    }

    constructor (eid: string)
      ensures Model() == Chip(eid, map[], []) && Listing(Model())
    {
      this.eid := eid;
      profiles, installed := map[], [];
    }

    method Download(suite: Suite, code: string, secret: OctetString, challenge: OctetString, rs: Replies, now: Time)
      returns (posts: seq<Post>, r: Result<Installed, Failure>)
      requires Listing(Model())
      modifies this
      ensures var o := Downloaded(suite, old(Model()), code, secret, challenge, rs);
        && posts == o.posts
        && Model() == AfterDownload(old(Model()), o, now)
        && r == match o.result case Err(e) => Err(e) case Ok(p) => Ok(Installed(p, true, now))
      ensures Listing(Model())
      ensures r.Err? ==> profiles == old(profiles) && installed == old(installed)
    {
      hide Mac, Cbc.Decrypted, Listing, Removed;
      ghost var s := Model();
      posts := [PostInitiate(OpeningOf(suite, eid, code, secret, challenge))];
      if !rs.initiate.Answer? {
        return posts, Err(NotInitiated);
      }
      var ia := rs.initiate.body;
      var serverEphemeral := suite.unhex(ia.serverKey);
      if serverEphemeral.None? {
        return posts, Err(BadServerKey);
      }
      var shared := suite.agree(secret, serverEphemeral.value);
      if shared.None? {
        return posts, Err(BadServerKey);
      }
      var keys := DeriveSessionKeys(suite.cipher, shared.value);
      if keys.Err? {
        return posts, Err(BadServerKey);
      }
      var serverChallenge := suite.unhex(ia.serverChallenge);
      if serverChallenge.None? {
        return posts, Err(BadServerChallenge);
      }
      var proof := CMAC(suite.cipher, keys.value.enc, serverChallenge.value + challenge);
      posts := posts + [PostAuthenticate(ia.transaction, suite.hex(proof.value))];
      if rs.authenticate.Lost? {
        return posts, Err(NoAuthReply);
      }
      if rs.authenticate.Refused? {
        return posts + [PostCancel(ia.transaction)], Err(AuthRefused);
      }
      posts := posts + [PostGetPackage(ia.transaction)];
      if rs.package.Lost? {
        return posts, Err(NoPackageReply);
      }
      if rs.package.Refused? {
        return posts + [PostCancel(ia.transaction)], Err(PackageRefused);
      }
      var unpacked := Unpack(suite, keys.value, rs.package.body);
      if unpacked.None? {
        return posts + [PostCancel(ia.transaction)], Err(BadPackage);
      }
      var p := unpacked.value;
      profiles := profiles[p.iccid := Installed(p, true, now)];
      installed := installed + [p.iccid];
      ghost var o := Outcome(posts, Ok(p));
      assert Model() == AfterDownload(s, o, now);
      DownloadKeepsListing(s, o, now);
      RemoveUndoesInstall(s, o, now);
      posts := posts + [PostConfirm(ia.transaction, "success")];
      if !rs.confirm.Answer? {
        Remove(p.iccid);
        return posts, Err(NotConfirmed);
      }
      posts := posts + [PostNotify(ia.transaction, "install-success")];
      if !rs.notify.Answer? {
        Remove(p.iccid);
        return posts, Err(NotNotified);
      }
      r := Ok(profiles[p.iccid]);
    }

    method Unpack(suite: Suite, keys: SessionKeys, body: PackageBody) returns (r: Option<Profile>)
      ensures r == Unpacked(suite, Model(), keys, body)
      ensures r.Some? ==> r.value.iccid !in profiles
    {
      hide Mac, Cbc.Decrypted, Wellformed;
      var ep := suite.decodePackage(body.bpp);
      if ep.None? || ep.value.seqCounter != body.seqCounter {
        return None;
      }
      var expected := CMAC(suite.cipher, keys.mac, suite.macInput(ep.value.seqCounter, ep.value.ciphertext));
      if expected.value != ep.value.mac {
        return None;
      }
      var plaintext := Cbc.Decrypt(suite.inverse, keys.dek, ep.value.ciphertext);
      if plaintext.Err? {
        return None;
      }
      var p := suite.unmarshal(plaintext.value);
      if p.None? || !Wellformed(p.value) || (p.value.eid != "" && p.value.eid != eid) || p.value.iccid in profiles {
        return None;
      }
      r := p;
    }

    method Remove(iccid: string)
      modifies this
      ensures Model() == Removed(old(Model()), iccid)
    {
      profiles := profiles - {iccid};
      var i := 0;
      while i < |installed|
        invariant 0 <= i <= |installed| && installed == old(installed) && profiles == old(profiles) - {iccid}
        invariant Without(installed, iccid) == installed[..i] + Without(installed[i..], iccid)
      {
        if installed[i] == iccid {
          assert Without(installed[i..], iccid) == installed[i + 1..];
          installed := installed[..i] + installed[i + 1..];
          return;
        }
        assert installed[i..][1..] == installed[i + 1..] && installed[..i] + [installed[i]] == installed[..i + 1];
        i := i + 1;
      }
    }

    /** The installed profiles by ascending identifier; they are collected in no particular order. */
    method ListProfiles() returns (out: seq<Installed>)
      requires Listing(Model())
      ensures SortedListing(out, profiles)
    {
      hide LexLess;
      var collected, rest: set<string> := [], profiles.Keys;
      while rest != {}
        invariant rest <= profiles.Keys && Collected(collected, profiles, profiles.Keys - rest)
        decreases rest
      {
        var id :| id in rest;
        CollectOne(collected, profiles, profiles.Keys - rest, id);
        collected := collected + [profiles[id]];
        assert profiles.Keys - rest + {id} == profiles.Keys - (rest - {id});
        rest := rest - {id};
      }
      assert profiles.Keys - rest == profiles.Keys;
      var buffer := new Installed[|collected|](i requires 0 <= i < |collected| => collected[i]);
      assert buffer[..] == collected;
      SortById(buffer);
      out := buffer[..];
      SortedCollection(collected, out, profiles);
    }
  }

  // ---- the sorted listing ----

  predicate LessAt(s: seq<Installed>, i: nat, j: nat)
    requires i < |s| && j < |s|
  {
    LexLess(s[i].profile.iccid, s[j].profile.iccid)
  }

  ghost predicate Ascending(s: seq<Installed>) {
    forall i, j :: 0 <= i < j < |s| ==> LessAt(s, i, j)
  }

  ghost predicate Distinct(s: seq<Installed>) {
    forall i, j :: 0 <= i < j < |s| ==> s[i].profile.iccid != s[j].profile.iccid
  }

  /** The profiles under the given identifiers, each once. */
  ghost predicate Collected(s: seq<Installed>, profiles: map<string, Installed>, ids: set<string>) {
    && Distinct(s)
    && (forall x: Installed ::
          x in s <==> x.profile.iccid in ids && x.profile.iccid in profiles && profiles[x.profile.iccid] == x)
  }

  lemma CollectOne(s: seq<Installed>, profiles: map<string, Installed>, ids: set<string>, id: string)
    requires Collected(s, profiles, ids) && id !in ids && id in profiles && profiles[id].profile.iccid == id
    ensures Collected(s + [profiles[id]], profiles, ids + {id})
  {
    assert forall i :: 0 <= i < |s| ==> s[i] in s;
  }

  /** Every installed profile, in ascending order. */
  ghost predicate SortedListing(out: seq<Installed>, profiles: map<string, Installed>) {
    && Ascending(out)
    && (forall x: Installed :: x in out <==> x.profile.iccid in profiles && profiles[x.profile.iccid] == x)
  }

  lemma SortedCollection(s: seq<Installed>, out: seq<Installed>, profiles: map<string, Installed>)
    requires Collected(s, profiles, profiles.Keys) && Ascending(out) && multiset(out) == multiset(s)
    ensures SortedListing(out, profiles)
  {
    forall x: Installed ensures x in out <==> x in s {
      assert x in out <==> x in multiset(out);
      assert x in s <==> x in multiset(s);
    }
  }

  /** The listing does not depend on the order in which the profiles were collected. */
  lemma {:induction false} SortedListingIsUnique(a: seq<Installed>, b: seq<Installed>)
    requires Ascending(a) && Ascending(b) && forall x: Installed :: x in a <==> x in b
    ensures a == b
  {
    hide LexLess;
    assert |b| > 0 ==> b[0] in b;
    assert |a| > 0 ==> a[0] in a;
    if a != [] {
      SameGreatest(a, b);
      var c, d := a[..|a| - 1], b[..|b| - 1];
      forall x: Installed ensures x in c <==> x in d {
        InitMembers(a, x);
        InitMembers(b, x);
      }
      assert forall i, j :: 0 <= i < j < |c| ==> LessAt(a, i, j) && LessAt(c, i, j) == LessAt(a, i, j);
      assert forall i, j :: 0 <= i < j < |d| ==> LessAt(b, i, j) && LessAt(d, i, j) == LessAt(b, i, j);
      SortedListingIsUnique(c, d);
    }
  }

  lemma InitMembers(a: seq<Installed>, x: Installed)
    requires a != [] && Ascending(a)
    ensures x in a[..|a| - 1] <==> x in a && x != a[|a| - 1]
  {
    hide LexLess;
    var last := |a| - 1;
    assert a == a[..last] + [a[last]];
    if x in a[..last] {
      var i :| 0 <= i < last && a[i] == x;
      assert LessAt(a, i, last);
      LexIrreflexive(x.profile.iccid);
    }
  }

  lemma SameGreatest(a: seq<Installed>, b: seq<Installed>)
    requires Ascending(a) && Ascending(b) && a != [] && b != [] && forall x: Installed :: x in a <==> x in b
    ensures a[|a| - 1] == b[|b| - 1]
  {
    hide LexLess;
    var x, y := a[|a| - 1], b[|b| - 1];
    assert x in b && y in a;
    var i :| 0 <= i < |a| && a[i] == y;
    var j :| 0 <= j < |b| && b[j] == x;
    if x != y {
      assert LessAt(a, i, |a| - 1) && LessAt(b, j, |b| - 1);
      LexTransitive(x.profile.iccid, y.profile.iccid, x.profile.iccid);
      LexIrreflexive(x.profile.iccid);
    }
  }

  /** The first `i + 1` elements ascend, but for the one at `j` that is on its way down. */
  ghost predicate AscendingBut(s: seq<Installed>, i: nat, j: nat)
    requires i < |s|
  {
    forall p, q :: 0 <= p < q <= i && q != j ==> LessAt(s, p, q)
  }

  function Exchanged(s: seq<Installed>, j: nat): seq<Installed>
    requires 0 < j < |s|
  {
    s[j := s[j - 1]][j - 1 := s[j]]
  }

  lemma OneDown(s: seq<Installed>, i: nat, j: nat)
    requires 0 < j <= i < |s| && AscendingBut(s, i, j) && LessAt(s, j, j - 1)
    ensures AscendingBut(Exchanged(s, j), i, j - 1)
  {
    hide LexLess;
    var t := Exchanged(s, j);
    forall p, q | 0 <= p < q <= i && q != j - 1 ensures LessAt(t, p, q) {
      var p', q' := Origin(p, j), Origin(q, j);
      assert t[p] == s[p'] && t[q] == s[q'];
      assert LessAt(s, p', q');
    }
  }

  function Origin(k: nat, j: nat): nat
    requires j > 0
  {
    if k == j then j - 1 else if k == j - 1 then j else k
  }

  lemma ExchangeKeeps(s: seq<Installed>, j: nat)
    requires 0 < j < |s|
    ensures multiset(Exchanged(s, j)) == multiset(s)
    ensures Distinct(s) ==> Distinct(Exchanged(s, j))
  {
    var t := Exchanged(s, j);
    if Distinct(s) {
      forall p, q | 0 <= p < q < |s| ensures t[p].profile.iccid != t[q].profile.iccid {
        var p', q' := Origin(p, j), Origin(q, j);
        assert t[p] == s[p'] && t[q] == s[q'] && p' != q';
      }
    }
  }

  lemma InPlace(s: seq<Installed>, i: nat, j: nat)
    requires j <= i < |s| && Distinct(s) && AscendingBut(s, i, j) && (j > 0 ==> !LessAt(s, j, j - 1))
    ensures forall p, q :: 0 <= p < q <= i ==> LessAt(s, p, q)
  {
    hide LexLess;
    if j > 0 {
      LexTotal(s[j].profile.iccid, s[j - 1].profile.iccid);
      assert LessAt(s, j - 1, j);
      forall p | 0 <= p < j ensures LessAt(s, p, j) {
        if p < j - 1 {
          assert LessAt(s, p, j - 1);
          LexTransitive(s[p].profile.iccid, s[j - 1].profile.iccid, s[j].profile.iccid);
        }
      }
    }
  }

  method SortById(a: array<Installed>)
    requires Distinct(a[..])
    modifies a
    ensures Ascending(a[..]) && multiset(a[..]) == multiset(old(a[..]))
  {
    hide LexLess, Distinct;
    if a.Length == 0 {
      return;
    }
    for i := 1 to a.Length
      invariant multiset(a[..]) == multiset(old(a[..])) && Distinct(a[..])
      invariant forall p, q :: 0 <= p < q < i ==> LessAt(a[..], p, q)
    {
      var j := i;
      while j > 0 && LexLess(a[j].profile.iccid, a[j - 1].profile.iccid)
        invariant 0 <= j <= i
        invariant multiset(a[..]) == multiset(old(a[..])) && Distinct(a[..])
        invariant AscendingBut(a[..], i, j)
      {
        ghost var s := a[..];
        a[j], a[j - 1] := a[j - 1], a[j];
        assert a[..] == Exchanged(s, j);
        OneDown(s, i, j);
        ExchangeKeeps(s, j);
        j := j - 1;
      }
      InPlace(a[..], i, j);
    }
  }
}
