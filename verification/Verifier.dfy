/** Signing and verifying statements (crates/channel-manager/src/grant.rs). The
    signature scheme is a parameter; a proof is what parsing its bytes as each
    of the three JSON envelopes gives. */
module Verifier {
  import opened Prelude
  import opened Text
  import opened Statements
  import Base64
  import DidKey

  datatype GrantError = UnsupportedOwnerFormat | Malformed | InvalidSignature

  /** Whether a signature verifies under a public key over a message. */
  type SignatureCheck = (seq<byte>, string, seq<byte>) -> bool

  /** A statement's fields beside a base64 signature over them. */
  datatype Envelope<+T> = Envelope(content: T, signature: string)

  /** Proof bytes, as parsed for each envelope; `None` where parsing fails. */
  datatype Proof = Proof(
    grant: Option<Envelope<Grant>>,
    creation: Option<Envelope<Creation>>,
    deletion: Option<Envelope<Deletion>>)

  function CheckSignature(check: SignatureCheck, key: seq<byte>, message: string, signature: string)
    : Result<(), GrantError>
  {
    match Base64.DecodePadded(Base64.Standard, signature)
    case None => Err(Malformed)
    case Some(bytes) => if check(key, message, bytes) then Ok(()) else Err(InvalidSignature)
  }

  function RejectNul(s: Statement): Result<(), GrantError> {
    if NulFree(s) then Ok(()) else Err(Malformed)
  }

  function DecodeOwner(owner: string): Result<seq<byte>, GrantError> {
    match DidKey.Decode(owner)
    case None => Err(UnsupportedOwnerFormat)
    case Some(key) => Ok(key)
  }

  function Parse<T>(envelope: Option<Envelope<T>>): Result<Envelope<T>, GrantError> {
    if envelope.Some? then Ok(envelope.value) else Err(Malformed)
  }

  /** `verify`: a grant signed by `owner`. */
  function VerifyGrant(check: SignatureCheck, owner: string, proof: Proof): Result<Grant, GrantError> {
    var key :- DecodeOwner(owner);
    var signed :- Parse(proof.grant);
    var _ :- RejectNul(GrantStatement(signed.content));
    var _ :- CheckSignature(check, key, Canonical(GrantStatement(signed.content)), signed.signature);
    Ok(signed.content)
  }

  /** `verify_create`: a create request signed by the owner it names. */
  function VerifyCreate(check: SignatureCheck, proof: Proof): Result<Creation, GrantError> {
    var signed :- Parse(proof.creation);
    if signed.content.callbackName == Some("") then Err(Malformed)
    else
      var _ :- RejectNul(CreateStatement(signed.content));
      var key :- DecodeOwner(signed.content.owner);
      var _ :- CheckSignature(check, key, Canonical(CreateStatement(signed.content)), signed.signature);
      Ok(signed.content)
  }

  /** `verify_delete`: a delete request signed by `owner`. */
  function VerifyDelete(check: SignatureCheck, owner: string, proof: Proof): Result<Deletion, GrantError> {
    var key :- DecodeOwner(owner);
    var signed :- Parse(proof.deletion);
    var _ :- RejectNul(DeleteStatement(signed.content));
    var _ :- CheckSignature(check, key, Canonical(DeleteStatement(signed.content)), signed.signature);
    Ok(signed.content)
  }

  // Signing.

  /** An Ed25519 key pair: its public key and what it signs. */
  datatype SigningKey = SigningKey(publicKey: seq<byte>, sign: string -> seq<byte>) {
    function Did(): string {
      DidKey.Of(publicKey)
    }

    function Signature(s: Statement): string {
      Base64.EncodePadded(Base64.Standard, sign(Canonical(s)))
    }
  }

  /** What `key` signs verifies under its 32-byte public key. */
  ghost predicate SignsFor(key: SigningKey, check: SignatureCheck) {
    |key.publicKey| == DidKey.KEY_LENGTH && forall m :: check(key.publicKey, m, key.sign(m))
  }

  function SignGrant(key: SigningKey, grant: Grant): Proof {
    Proof(Some(Envelope(grant, key.Signature(GrantStatement(grant)))), None, None)
  }

  /** A create envelope also holds every field a delete envelope has. */
  function SignCreate(key: SigningKey, creation: Creation): Result<Proof, GrantError> {
    if creation.owner != key.Did() then Err(Malformed)
    else
      var signature := key.Signature(CreateStatement(creation));
      var asDeletion := Deletion(creation.audience, creation.channel, creation.notAfter, creation.nonce);
      Ok(Proof(None, Some(Envelope(creation, signature)), Some(Envelope(asDeletion, signature))))
  }

  function SignDelete(key: SigningKey, deletion: Deletion): Proof {
    Proof(None, None, Some(Envelope(deletion, key.Signature(DeleteStatement(deletion)))))
  }

  lemma OwnSignatureChecks(key: SigningKey, check: SignatureCheck, s: Statement)
    requires SignsFor(key, check)
    ensures DecodeOwner(key.Did()) == Ok(key.publicKey)
    ensures CheckSignature(check, key.publicKey, Canonical(s), key.Signature(s)) == Ok(())
  {
    DidKey.RoundTrip(key.publicKey);
    Base64.PaddedRoundTrip(Base64.Standard, key.sign(Canonical(s)));
  }

  /** A signed grant verifies under its signer's did:key, unchanged, unless a field holds a NUL. */
  lemma SignedGrantVerifies(key: SigningKey, check: SignatureCheck, grant: Grant)
    requires SignsFor(key, check)
    ensures VerifyGrant(check, key.Did(), SignGrant(key, grant))
         == if NulFree(GrantStatement(grant)) then Ok(grant) else Err(Malformed)
  {
    OwnSignatureChecks(key, check, GrantStatement(grant));
  }

  /** A key signs creates naming itself only, and they verify unless a field
      holds a NUL or the callback name is empty. */
  lemma SignedCreateVerifies(key: SigningKey, check: SignatureCheck, creation: Creation)
    requires SignsFor(key, check)
    ensures SignCreate(key, creation).Ok? <==> creation.owner == key.Did()
    ensures SignCreate(key, creation).Ok? ==>
              VerifyCreate(check, SignCreate(key, creation).value)
              == if Acceptable(CreateStatement(creation)) then Ok(creation) else Err(Malformed)
  {
    OwnSignatureChecks(key, check, CreateStatement(creation));
  }

  lemma SignedDeleteVerifies(key: SigningKey, check: SignatureCheck, deletion: Deletion)
    requires SignsFor(key, check)
    ensures VerifyDelete(check, key.Did(), SignDelete(key, deletion))
         == if NulFree(DeleteStatement(deletion)) then Ok(deletion) else Err(Malformed)
  {
    OwnSignatureChecks(key, check, DeleteStatement(deletion));
  }

  // Soundness against an ideal scheme.

  /** Which key has signed which statement. */
  type SigningLog = iset<(seq<byte>, Statement)>

  /** An ideal scheme: a signature verifies only over bytes its key has signed. */
  ghost predicate Ideal(check: SignatureCheck, log: SigningLog) {
    forall key, m, signature :: check(key, m, signature) ==> SignedBytes(log, key, m)
  }

  ghost predicate SignedBytes(log: SigningLog, key: seq<byte>, m: string) {
    exists s :: (key, s) in log && Canonical(s) == m
  }

  /** `owner`'s key signed this statement, or the same create with an empty callback name. */
  ghost predicate SignedBy(log: SigningLog, owner: string, accepted: Statement) {
    && DidKey.Decode(owner).Some?
    && exists s :: (DidKey.Decode(owner).value, s) in log && Normal(s) == accepted
  }

  lemma CheckedSignature(check: SignatureCheck, log: SigningLog, owner: string, s: Statement, signature: string)
    requires Ideal(check, log) && Acceptable(s) && DecodeOwner(owner).Ok?
    requires CheckSignature(check, DecodeOwner(owner).value, Canonical(s), signature).Ok?
    ensures SignedBy(log, owner, s)
  {
    var key := DecodeOwner(owner).value;
    assert SignedBytes(log, key, Canonical(s));
    var original :| (key, original) in log && Canonical(original) == Canonical(s);
    CanonicalInjective(s, original);
  }

  /** A verified grant is one the owner's key signed. */
  lemma VerifiedGrant(check: SignatureCheck, log: SigningLog, owner: string, proof: Proof)
    requires Ideal(check, log) && VerifyGrant(check, owner, proof).Ok?
    ensures var s := GrantStatement(VerifyGrant(check, owner, proof).value);
            Acceptable(s) && SignedBy(log, owner, s)
  {
    var signed := proof.grant.value;
    CheckedSignature(check, log, owner, GrantStatement(signed.content), signed.signature);
  }

  /** A verified create is one the key of the owner it names signed. */
  lemma VerifiedCreate(check: SignatureCheck, log: SigningLog, proof: Proof)
    requires Ideal(check, log) && VerifyCreate(check, proof).Ok?
    ensures var c := VerifyCreate(check, proof).value;
            Acceptable(CreateStatement(c)) && SignedBy(log, c.owner, CreateStatement(c))
  {
    var signed := proof.creation.value;
    CheckedSignature(check, log, signed.content.owner, CreateStatement(signed.content), signed.signature);
  }

  lemma VerifiedDelete(check: SignatureCheck, log: SigningLog, owner: string, proof: Proof)
    requires Ideal(check, log) && VerifyDelete(check, owner, proof).Ok?
    ensures var s := DeleteStatement(VerifyDelete(check, owner, proof).value);
            Acceptable(s) && SignedBy(log, owner, s)
  {
    var signed := proof.deletion.value;
    CheckedSignature(check, log, owner, DeleteStatement(signed.content), signed.signature);
  }
}
