/** What authorizes a request, up to spending its nonce: the decisions of
    `GrantPolicy` (crates/channel-manager/src/service.rs). */
module Policy {
  import opened Prelude
  import opened Statements
  import opened Verifier
  import opened Store
  import NonceRuns

  /** How far ahead a signed create or delete may expire, in seconds. */
  const MAX_SIGNED_REQUEST_LIFETIME: u64 := 24 * 60 * 60

  datatype CreateRequest = CreateRequest(
    channel: string,
    mlsEnabled: bool,
    ttlSeconds: Option<u64>,
    callbackName: Option<string>,
    ownerProof: Option<Proof>)

  /** A participant change being authorized. */
  datatype Change = Change(channel: string, participant: string, action: Action)

  datatype GrantPolicy = GrantPolicy(
    check: SignatureCheck,
    audience: string,
    requireSignatures: bool,
    operators: seq<string>)

  datatype Refusal =
    | SignatureRequired
    | CallbackNeedsProof
    | InvalidProof(error: GrantError)
    | DoesNotMatch
    | WrongAudience
    | ValidTooLong
    | OwnerMustSign
    | OperatorMustSign
    | NoOperators
    | NoOwnerToSign
    | GrantRequired
    | NotApproved
    | NotSpent(reason: NonceRuns.SpendError)

  /** How asking the owner for approval ends. */
  datatype Approval = Granted(grant: Proof) | Denied | Unreachable | TimedOut

  datatype SignedDelete = SignedDelete(signer: string, deletion: Deletion)

  function VerifiedOr<T>(r: Result<T, GrantError>): Result<T, Refusal> {
    match r
    case Ok(value) => Ok(value)
    case Err(error) => Err(InvalidProof(error))
  }

  /** `check_signed_request`. */
  function CheckSignedRequest(policy: GrantPolicy, audience: string, notAfter: u64, now: u64): Result<(), Refusal> {
    if audience != policy.audience then Err(WrongAudience)
    else if notAfter > SaturatingAdd(now, MAX_SIGNED_REQUEST_LIFETIME) then Err(ValidTooLong)
    else Ok(())
  }

  /** A creation that describes exactly this request. */
  predicate Matches(creation: Creation, req: CreateRequest) {
    && creation.channel == req.channel
    && creation.mlsEnabled == req.mlsEnabled
    && creation.ttlSeconds == req.ttlSeconds
    && creation.callbackName == req.callbackName
  }

  /** `authorize_create` before `spend`: the signed creation to spend, if the request carries one. */
  function CheckCreate(policy: GrantPolicy, req: CreateRequest, now: u64): Result<Option<Creation>, Refusal> {
    match req.ownerProof
    case None =>
      if policy.requireSignatures then Err(SignatureRequired)
      else if req.callbackName.Some? then Err(CallbackNeedsProof)
      else Ok(None)
    case Some(proof) =>
      var creation :- VerifiedOr(VerifyCreate(policy.check, proof));
      if !Matches(creation, req) then Err(DoesNotMatch)
      else
        var _ :- CheckSignedRequest(policy, creation.audience, creation.notAfter, now);
        Ok(Some(creation))
  }

  /** The first of `signers` a delete request verifies under, or the first one's error. */
  function FindSigner(check: SignatureCheck, signers: seq<string>, proof: Proof): Result<SignedDelete, Refusal> {
    if signers == [] then Err(NoOperators)
    else
      match VerifyDelete(check, signers[0], proof)
      case Ok(deletion) => Ok(SignedDelete(signers[0], deletion))
      case Err(error) =>
        match FindSigner(check, signers[1..], proof)
        case Ok(signed) => Ok(signed)
        case Err(_) => Err(InvalidProof(error))
  }

  /** `authorize_delete` before `spend`, given the channel's owner. */
  function CheckDelete(policy: GrantPolicy, owner: Option<ChannelOwner>, channel: string, proof: Option<Proof>,
                       now: u64)
    : Result<Option<SignedDelete>, Refusal>
  {
    if owner.None? && !policy.requireSignatures then Ok(None)
    else if proof.None? then Err(if owner.Some? then OwnerMustSign else OperatorMustSign)
    else
      var first := if owner.Some? then [owner.value.subject] else [];
      var signed :- FindSigner(policy.check, first + policy.operators, proof.value);
      if signed.deletion.channel != channel then Err(DoesNotMatch)
      else
        var _ :- CheckSignedRequest(policy, signed.deletion.audience, signed.deletion.notAfter, now);
        Ok(Some(signed))
  }

  /** `ask_owner`: the grant the owner answers with, if there is a way to ask. */
  function AskOwner(owner: ChannelOwner, approval: Approval): Result<Proof, Refusal> {
    if owner.callbackName.None? then Err(GrantRequired)
    else if approval.Granted? then Ok(approval.grant)
    else Err(NotApproved)
  }

  /** `enforce` and `verify` before `spend`, given the channel's owner: the grant to spend, if one is needed. */
  function CheckChange(policy: GrantPolicy, owner: Option<ChannelOwner>, change: Change, grant: Option<Proof>,
                       approval: Approval): Result<Option<Grant>, Refusal>
  {
    if owner.None? then
      if policy.requireSignatures then Err(NoOwnerToSign) else Ok(None)
    else
      var proof :- if grant.Some? then Ok(grant.value) else AskOwner(owner.value, approval);
      var parsed :- VerifiedOr(VerifyGrant(policy.check, owner.value.subject, proof));
      if parsed.channel != change.channel || parsed.invitee != change.participant || parsed.action != change.action
      then Err(DoesNotMatch)
      else Ok(Some(parsed))
  }

  lemma {:induction false} FoundSigner(check: SignatureCheck, signers: seq<string>, proof: Proof)
    requires FindSigner(check, signers, proof).Ok?
    ensures var signed := FindSigner(check, signers, proof).value;
            signed.signer in signers && VerifyDelete(check, signed.signer, proof) == Ok(signed.deletion)
  {
    if VerifyDelete(check, signers[0], proof).Err? {
      FoundSigner(check, signers[1..], proof);
    }
  }
}
