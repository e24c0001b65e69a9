/**
 Carrier profiles, the primitives their delivery rests on, and the registry of activation codes
 (core/esim/profile/profile.go, core/esim/registry/registry.go).

 Key agreement, the block cipher, and the JSON, DER and hexadecimal codecs are one parameter, the
 suite; what is assumed of them is `Lawful`.  The registry is the map in memory.
 */
module Esim {
  import opened Wrappers
  import Luhn
  import opened Cmac
  import Cbc

  /** `description` is the name, owner, provider and expiry shown to a client; `details` is everything else. */
  datatype Profile = Profile(
    iccid: string, eid: string, imsi: string, kind: string, ki: string, opc: string,
    description: string, details: string)

  predicate Wellformed(p: Profile) {
    && Luhn.Valid(p.iccid) && |p.iccid| >= 19
    && (p.eid != "" ==> |p.eid| == 32 && Luhn.Valid(p.eid))
    && |p.imsi| == 15
    && (p.kind == "lab" || p.kind == "prod")
    && (p.kind == "lab" ==> |p.ki| == 32 && |p.opc| == 32)
  }

  datatype Envelope = Envelope(seqCounter: int, ciphertext: OctetString, mac: OctetString)

  datatype Suite = Suite(
    publicKey: OctetString -> OctetString,
    agree: (OctetString, OctetString) -> Option<OctetString>,
    cipher: Cipher,
    inverse: Cipher,
    marshal: Profile -> OctetString,
    unmarshal: OctetString -> Option<Profile>,
    macInput: (int, OctetString) -> OctetString,
    encodePackage: Envelope -> string,
    decodePackage: string -> Option<Envelope>,
    hex: OctetString -> string,
    unhex: string -> Option<OctetString>,
    normalize: string -> Option<string>)

  /** Key agreement commutes on real keys, the cipher has an inverse, and the codecs are inverted. */
  ghost predicate Lawful(suite: Suite) {
    && (forall a: OctetString, b: OctetString ::
          Agreed(suite, a, b) && suite.agree(a, suite.publicKey(b)) == suite.agree(b, suite.publicKey(a)))
    && Cbc.Undoes(suite.inverse, suite.cipher)
    && (forall p: Profile :: suite.unmarshal(suite.marshal(p)) == Some(p))
    && (forall e: Envelope :: suite.decodePackage(suite.encodePackage(e)) == Some(e))
    && (forall b: OctetString :: suite.unhex(suite.hex(b)) == Some(b) && (suite.hex(b) == "" <==> b == []))
    && (forall b: OctetString :: suite.publicKey(b) != [])
  }

  ghost predicate Agreed(suite: Suite, a: OctetString, b: OctetString) {
    suite.agree(a, suite.publicKey(b)).Some? && |suite.agree(a, suite.publicKey(b)).value| == 32
  }

  datatype Error =
    BadRequest | UnknownCode | CodeExpired | CodeUsed | CodeExists
    | UnknownSession | SessionState | ProofFailed | BadSecret

  // ---- the registry ----

  type Time = int

  datatype Entry = Entry(profile: Profile, downloadedAt: Option<Time>, expiresAt: Option<Time>)

  type Entries = map<string, Entry>

  function Resolved(entries: Entries, token: string, singleUse: bool, now: Time): Result<Profile, Error> {
    if token !in entries then Err(UnknownCode)
    else if entries[token].expiresAt.Some? && now > entries[token].expiresAt.value then Err(CodeExpired)
    else if singleUse && entries[token].downloadedAt.Some? then Err(CodeUsed)
    else Ok(entries[token].profile)
  }

  function Marked(entries: Entries, token: string, now: Time): Entries {
    if token in entries then entries[token := entries[token].(downloadedAt := Some(now))] else entries
  }

  function Added(entries: Entries, token: string, p: Profile, expiresAt: Option<Time>): Entries {
    if token in entries then entries else entries[token := Entry(p, None, expiresAt)]
  }

  class Registry {
    var entries: Entries

    constructor ()
      ensures entries == map[]
    {
      entries := map[];
    }

    method AddWithExpiry(token: string, p: Profile, expiresAt: Option<Time>) returns (error: Option<Error>)
      modifies this
      ensures entries == Added(old(entries), token, p, expiresAt)
      ensures error == if token in old(entries) then Some(CodeExists) else None
    {
      if token in entries {
        return Some(CodeExists);
      }
      entries := entries[token := Entry(p, None, expiresAt)];
      error := None;
    }

    method ResolvePolicy(token: string, singleUse: bool, now: Time) returns (r: Result<Profile, Error>)
      ensures r == Resolved(entries, token, singleUse, now)
    {
      if token !in entries {
        return Err(UnknownCode);
      }
      var e := entries[token];
      if e.expiresAt.Some? && now > e.expiresAt.value {
        return Err(CodeExpired);
      }
      if singleUse && e.downloadedAt.Some? {
        return Err(CodeUsed);
      }
      r := Ok(e.profile);
    }

    method MarkDownloaded(token: string, now: Time) returns (error: Option<Error>)
      modifies this
      ensures entries == Marked(old(entries), token, now)
      ensures error == if token in old(entries) then None else Some(UnknownCode)
    {
      if token !in entries {
        return Some(UnknownCode);
      }
      entries := entries[token := entries[token].(downloadedAt := Some(now))];
      error := None;
    }

    method Revoke(token: string) returns (error: Option<Error>)
      modifies this
      ensures entries == old(entries) - {token}
      ensures error == if token in old(entries) then None else Some(UnknownCode)
    {
      if token !in entries {
        return Some(UnknownCode);
      }
      entries := entries - {token};
      error := None;
    }
  }
}
