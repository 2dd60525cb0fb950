/** What the channel manager answers (crates/channel-manager/src/service.rs): exactly when
    a request is let through, what it then does, and what was signed for it. Each in terms of the
    request, the records and the proof, not of the handlers. */
module Answers {
  import opened Prelude
  import opened Statements
  import opened Verifier
  import opened Store
  import opened Nonces
  import opened NonceRuns
  import opened Names
  import opened Policy
  import opened Manager
  import opened RecordRuns

  // Spending a nonce, and requests meant for this channel manager.

  /** The statement has not expired, its nonce is not held by an unexpired one, and it can be recorded. */
  predicate Spendable(st: State, id: NonceId, notAfter: u64, now: u64, faults: Faults) {
    now <= notAfter && !(id in st.consumed && st.consumed[id] >= now) && !faults.putNonce
  }

  lemma SpentIff(st: State, id: NonceId, notAfter: u64, now: u64, faults: Faults)
    ensures var (st', r) := SpendIn(st, id, notAfter, now, faults);
            && (r.Ok? <==> Spendable(st, id, notAfter, now, faults))
            && (r.Ok? ==> Get(st'.consumed, id) == Some(notAfter) && Get(st'.disk.nonces, id) == Some(notAfter))
  {
  }

  /** Signed for this channel manager, to expire within a day. */
  predicate MeantHere(policy: GrantPolicy, audience: string, notAfter: u64, now: u64) {
    audience == policy.audience && notAfter <= now + 86400
  }

  lemma MeantHereIff(policy: GrantPolicy, audience: string, notAfter: u64, now: u64)
    ensures CheckSignedRequest(policy, audience, notAfter, now).Ok? <==> MeantHere(policy, audience, notAfter, now)
  {
  }

  // Creating.

  /** The request's proof is a create its owner signed, describing exactly this request. */
  predicate SignedFor(policy: GrantPolicy, req: CreateRequest, c: Creation, checked: u64) {
    && req.ownerProof.Some? && VerifyCreate(policy.check, req.ownerProof.value) == Ok(c)
    && c.channel == req.channel && c.mlsEnabled == req.mlsEnabled
    && c.ttlSeconds == req.ttlSeconds && c.callbackName == req.callbackName
    && MeantHere(policy, c.audience, c.notAfter, checked)
  }

  /** A create is let through exactly when it is signed and spendable, or unsigned, naming no callback, where
      signatures are not required. */
  lemma CreateAuthorizedIff(policy: GrantPolicy, st: State, req: CreateRequest, checked: u64, now: u64, faults: Faults,
                            creation: Option<Creation>)
    ensures AuthorizeCreate(policy, st, req, checked, now, faults).1 == Ok(creation) <==>
              match creation
              case None => req.ownerProof.None? && req.callbackName.None? && !policy.requireSignatures
              case Some(c) =>
                SignedFor(policy, req, c, checked) && Spendable(st, (req.channel, c.nonce), c.notAfter, now, faults)
  {
    if req.ownerProof.Some? && VerifyCreate(policy.check, req.ownerProof.value).Ok? {
      var c := VerifyCreate(policy.check, req.ownerProof.value).value;
      MeantHereIff(policy, c.audience, c.notAfter, checked);
      SpentIff(st, (c.channel, c.nonce), c.notAfter, now, faults);
    }
  }

  /** Everything but authorization that a create needs. */
  predicate Creatable(settings: Settings, st: State, req: CreateRequest, faults: Faults) {
    && !settings.configMode && req.channel !in st.sessions && req.ttlSeconds != Some(0)
    && ValidName(req.channel) && (req.callbackName.Some? ==> ValidName(req.callbackName.value))
    && !faults.createSession
    && (req.ttlSeconds.Some? ==> !faults.putExpiry) && (req.ownerProof.Some? ==> !faults.putOwner)
  }

  lemma CreatedOwner(policy: GrantPolicy, st: State, req: CreateRequest, checked: u64, now: u64, faults: Faults)
    requires AuthorizeCreate(policy, st, req, checked, now, faults).1.Ok?
    ensures var creation := AuthorizeCreate(policy, st, req, checked, now, faults).1.value;
            && (creation.Some? <==> req.ownerProof.Some?)
            && NewOwner(creation, req)
               == if creation.Some? then Some(ChannelOwner(creation.value.owner, req.callbackName)) else None
  {
  }

  /** A create succeeds exactly when the channel is not listed, the names and TTL are good, it is let through
      and nothing it needs fails. */
  lemma CreateDoneIff(settings: Settings, st: State, req: CreateRequest, times: Times, session: SessionId,
                      faults: Faults)
    ensures HandleCreate(settings, st, req, times, session, faults).1.Done? <==>
              && Creatable(settings, st, req, faults)
              && AuthorizeCreate(settings.policy, st, req, times.checked, times.spent, faults).1.Ok?
  {
    var (spent, authorized) := AuthorizeCreate(settings.policy, st, req, times.checked, times.spent, faults);
    CreateTouchesNonces(settings.policy, st, req, times.checked, times.spent, faults);
    if authorized.Ok? {
      CreatedOwner(settings.policy, st, req, times.checked, times.spent, faults);
    }
  }

  /** A create of a channel whose session is open is answered so before anything is checked or spent; one that is not
      let through is refused with its reason. */
  lemma CreateAnswer(settings: Settings, st: State, req: CreateRequest, times: Times, session: SessionId,
                     faults: Faults)
    ensures var authorized := AuthorizeCreate(settings.policy, st, req, times.checked, times.spent, faults).1;
            var (st', response) := HandleCreate(settings, st, req, times, session, faults);
            && (response.ConfigMode? <==> settings.configMode)
            && (!settings.configMode && SessionOpen(st, req.channel) ==> response.AlreadyExists? && st' == st)
            && (response.Refused? <==>
                  && !settings.configMode && !SessionOpen(st, req.channel) && req.ttlSeconds != Some(0)
                  && ValidName(req.channel) && (req.callbackName.Some? ==> ValidName(req.callbackName.value))
                  && authorized.Err?)
            && (response.Refused? ==> response.reason == authorized.error)
  {
  }

  /** When a TTL of `ttl` seconds given at `now` runs out: at the end of time if it would be past it. */
  function RunsOut(now: u64, ttl: u64): (at: u64)
    ensures now + ttl < U64_LIMIT ==> at == now + ttl
    ensures now + ttl >= U64_LIMIT ==> at == U64_LIMIT - 1
  {
    if now + ttl < U64_LIMIT then now + ttl else U64_LIMIT - 1
  }

  /** A successful create lists the channel under its new, open session, on record with the owner who signed and
      the time its TTL runs out, in memory and on disk; it changes no other channel. */
  lemma CreateEffect(settings: Settings, st: State, req: CreateRequest, times: Times, session: SessionId,
                     faults: Faults)
    requires HandleCreate(settings, st, req, times, session, faults).1.Done?
    ensures var st' := HandleCreate(settings, st, req, times, session, faults).0;
            && st'.sessions == st.sessions[req.channel := session] && st'.open == st.open + {session}
            && (req.ttlSeconds.Some? ==>
                  var at := RunsOut(times.recorded, req.ttlSeconds.value);
                  && st'.expires == st.expires[req.channel := at]
                  && st'.disk.expires == st.disk.expires[req.channel := at])
            && (req.ttlSeconds.None? ==> st'.expires == st.expires && st'.disk.expires == st.disk.expires)
            && (req.ownerProof.None? ==> st'.owners == st.owners && st'.disk.owners == st.disk.owners)
            && (req.ownerProof.Some? ==>
                  exists c: Creation ::
                    && SignedFor(settings.policy, req, c, times.checked)
                    && st'.owners == st.owners[req.channel := ChannelOwner(c.owner, req.callbackName)]
                    && st'.disk.owners == st.disk.owners[req.channel := ChannelOwner(c.owner, req.callbackName)])
  {
    CreateDoneIff(settings, st, req, times, session, faults);
    var (spent, authorized) := AuthorizeCreate(settings.policy, st, req, times.checked, times.spent, faults);
    CreateTouchesNonces(settings.policy, st, req, times.checked, times.spent, faults);
    CreatedOwner(settings.policy, st, req, times.checked, times.spent, faults);
    CreateAuthorizedIff(settings.policy, st, req, times.checked, times.spent, faults, authorized.value);
    CompletedEffect(spent, req, NewOwner(authorized.value, req), times.recorded, session, faults);
    if req.ownerProof.Some? {
      assert SignedFor(settings.policy, req, authorized.value.value, times.checked);
    }
  }

  lemma CompletedEffect(st: State, req: CreateRequest, owner: Option<ChannelOwner>, now: u64, session: SessionId,
                        faults: Faults)
    requires CompleteCreate(st, req, owner, now, session, faults).1.Done?
    ensures var st' := CompleteCreate(st, req, owner, now, session, faults).0;
            var at := if req.ttlSeconds.Some? then Some(RunsOut(now, req.ttlSeconds.value)) else None;
            && st'.sessions == st.sessions[req.channel := session] && st'.open == st.open + {session}
            && st'.expires == Put(st.expires, req.channel, at)
            && st'.disk.expires == Put(st.disk.expires, req.channel, at)
            && st'.owners == Put(st.owners, req.channel, owner)
            && st'.disk.owners == Put(st.disk.owners, req.channel, owner)
  {
    var begun := st.(open := st.open + {session});
    var listed := AddSession(begun, req.channel, session).0;
    RecordedOrNot(listed, req.channel, ExpiresAt(req.ttlSeconds, now), owner, faults);
  }

  // Deleting.

  /** Who may sign a channel's deletion: its owner and the operators. */
  predicate MayDelete(policy: GrantPolicy, owner: Option<ChannelOwner>, signer: string) {
    (owner.Some? && signer == owner.value.subject) || signer in policy.operators
  }

  /** A delete is found exactly when it verifies under one of the signers. */
  lemma {:induction false} FoundIff(check: SignatureCheck, signers: seq<string>, proof: Proof)
    ensures FindSigner(check, signers, proof).Ok? <==>
              exists signer :: signer in signers && VerifyDelete(check, signer, proof).Ok?
  {
    if signers != [] {
      FoundIff(check, signers[1..], proof);
      assert forall signer :: signer in signers <==> signer == signers[0] || signer in signers[1..];
    }
  }

  /** The request's proof is a delete of this channel that someone entitled signed. */
  ghost predicate SignedDeleteOf(policy: GrantPolicy, owner: Option<ChannelOwner>, channel: string,
                                 proof: Option<Proof>, d: Deletion, checked: u64)
  {
    && proof.Some? && d.channel == channel && MeantHere(policy, d.audience, d.notAfter, checked)
    && exists signer :: MayDelete(policy, owner, signer) && VerifyDelete(policy.check, signer, proof.value) == Ok(d)
  }

  lemma FoundMayDelete(policy: GrantPolicy, owner: Option<ChannelOwner>, proof: Proof)
    ensures var signers := (if owner.Some? then [owner.value.subject] else []) + policy.operators;
            && (forall signer :: signer in signers <==> MayDelete(policy, owner, signer))
            && (FindSigner(policy.check, signers, proof).Ok? <==>
                  exists signer :: MayDelete(policy, owner, signer) && VerifyDelete(policy.check, signer, proof).Ok?)
            && (FindSigner(policy.check, signers, proof).Ok? ==>
                  var signed := FindSigner(policy.check, signers, proof).value;
                  && MayDelete(policy, owner, signed.signer)
                  && VerifyDelete(policy.check, signed.signer, proof) == Ok(signed.deletion))
  {
    var signers := (if owner.Some? then [owner.value.subject] else []) + policy.operators;
    FoundIff(policy.check, signers, proof);
    if FindSigner(policy.check, signers, proof).Ok? {
      FoundSigner(policy.check, signers, proof);
    }
  }

  /** Whoever it verifies under, a proof holds one delete. */
  lemma OneDeletion(check: SignatureCheck, a: string, b: string, proof: Proof)
    requires VerifyDelete(check, a, proof).Ok? && VerifyDelete(check, b, proof).Ok?
    ensures VerifyDelete(check, a, proof) == VerifyDelete(check, b, proof)
  {
  }

  /** A delete is let through exactly when someone entitled signed it and it is spendable, or the channel has no
      owner where signatures are not required. */
  lemma DeleteAuthorizedIff(policy: GrantPolicy, st: State, owner: Option<ChannelOwner>, channel: string,
                            proof: Option<Proof>, checked: u64, now: u64, faults: Faults)
    ensures AuthorizeDelete(policy, st, owner, channel, proof, checked, now, faults).1.Ok? <==>
              || (owner.None? && !policy.requireSignatures)
              || (exists d: Deletion ::
                    && SignedDeleteOf(policy, owner, channel, proof, d, checked)
                    && Spendable(st, (channel, d.nonce), d.notAfter, now, faults))
  {
    if proof.Some? && !(owner.None? && !policy.requireSignatures) {
      var signers := (if owner.Some? then [owner.value.subject] else []) + policy.operators;
      FoundMayDelete(policy, owner, proof.value);
      var found := FindSigner(policy.check, signers, proof.value);
      if found.Ok? {
        var d := found.value.deletion;
        MeantHereIff(policy, d.audience, d.notAfter, checked);
        SpentIff(st, (channel, d.nonce), d.notAfter, now, faults);
        forall d' | SignedDeleteOf(policy, owner, channel, proof, d', checked) ensures d' == d {
          var signer :| MayDelete(policy, owner, signer) && VerifyDelete(policy.check, signer, proof.value) == Ok(d');
          OneDeletion(policy.check, signer, found.value.signer, proof.value);
        }
      }
    }
  }

  /** A delete that is not let through is refused with its reason: one without a proof, for want of the owner's
      signature where there is an owner and of an operator's where there is none. */
  lemma DeleteAnswer(settings: Settings, st: State, channel: string, proof: Option<Proof>, times: Times,
                     faults: Faults)
    ensures var authorized := AuthorizeDelete(settings.policy, st, OwnerOf(st, channel), channel, proof, times.checked,
                                              times.spent, faults).1;
            var response := HandleDelete(settings, st, channel, proof, times, faults).1;
            && (response.ConfigMode? <==> settings.configMode)
            && (response.Refused? <==> !settings.configMode && authorized.Err?)
            && (response.Refused? ==> response.reason == authorized.error)
            && (response.Refused? && proof.None? ==>
                  response.reason == if channel in st.owners then OwnerMustSign else OperatorMustSign)
  {
  }

  /** A delete succeeds exactly when it is let through and the channel's session is open and can be deleted. */
  lemma DeleteDoneIff(settings: Settings, st: State, channel: string, proof: Option<Proof>, times: Times,
                      faults: Faults)
    ensures HandleDelete(settings, st, channel, proof, times, faults).1.Done? <==>
              && !settings.configMode && SessionOpen(st, channel) && channel !in faults.deleteSession
              && AuthorizeDelete(settings.policy, st, OwnerOf(st, channel), channel, proof, times.checked, times.spent,
                                 faults).1.Ok?
  {
    DeleteTouchesNonces(settings.policy, st, OwnerOf(st, channel), channel, proof, times.checked, times.spent, faults);
  }

  /** A successful delete unlists the channel, closes its session and drops its records, from disk too unless
      that fails; it changes no other channel. */
  lemma DeleteEffect(settings: Settings, st: State, channel: string, proof: Option<Proof>, times: Times,
                     faults: Faults)
    requires HandleDelete(settings, st, channel, proof, times, faults).1.Done?
    ensures var st' := HandleDelete(settings, st, channel, proof, times, faults).0;
            && channel in st.sessions && st'.sessions == st.sessions - {channel}
            && st'.open == st.open - {st.sessions[channel]}
            && st'.owners == st.owners - {channel} && st'.expires == st.expires - {channel}
            && st'.disk.owners == st.disk.owners - (if channel in faults.deleteOwner then {} else {channel})
            && st'.disk.expires == st.disk.expires - (if channel in faults.deleteExpiry then {} else {channel})
  {
    DeleteDoneIff(settings, st, channel, proof, times, faults);
    DeleteTouchesNonces(settings.policy, st, OwnerOf(st, channel), channel, proof, times.checked, times.spent, faults);
    var spent := AuthorizeDelete(settings.policy, st, OwnerOf(st, channel), channel, proof, times.checked, times.spent,
                                 faults).0;
    ForgetForgets(RemoveSession(spent, channel, false).0, channel, faults);
    assert st.disk.owners - {} == st.disk.owners && st.disk.expires - {} == st.disk.expires;
  }

  // Changing participants.

  /** A grant for exactly this change, in the request or given when the owner was asked. */
  ghost predicate GrantedBy(policy: GrantPolicy, owner: ChannelOwner, change: Change, grant: Option<Proof>,
                            approval: Approval, g: Grant)
  {
    && g.channel == change.channel && g.invitee == change.participant && g.action == change.action
    && exists proof: Proof ::
         && (grant == Some(proof) || (grant.None? && owner.callbackName.Some? && approval == Granted(proof)))
         && VerifyGrant(policy.check, owner.subject, proof) == Ok(g)
  }

  /** A participant change is let through exactly when the owner granted it and the grant is spendable, or the
      channel has no owner where signatures are not required. */
  lemma ChangeAuthorizedIff(policy: GrantPolicy, st: State, owner: Option<ChannelOwner>, change: Change,
                            grant: Option<Proof>, approval: Approval, now: u64, faults: Faults)
    ensures AuthorizeChange(policy, st, owner, change, grant, approval, now, faults).1.Ok? <==>
              || (owner.None? && !policy.requireSignatures)
              || (owner.Some?
                  && exists g: Grant ::
                       && GrantedBy(policy, owner.value, change, grant, approval, g)
                       && Spendable(st, (change.channel, g.nonce), g.notAfter, now, faults))
  {
    if owner.Some? {
      var proof := if grant.Some? then grant
                   else if owner.value.callbackName.Some? && approval.Granted? then Some(approval.grant) else None;
      if proof.Some? && VerifyGrant(policy.check, owner.value.subject, proof.value).Ok? {
        var g := VerifyGrant(policy.check, owner.value.subject, proof.value).value;
        SpentIff(st, (g.channel, g.nonce), g.notAfter, now, faults);
        assert g.channel == change.channel && g.invitee == change.participant && g.action == change.action ==>
            GrantedBy(policy, owner.value, change, grant, approval, g);
      }
    }
  }

  /** A participant change succeeds exactly when the channel's session is open, the change is let through, the
      participant's name is valid and the session does not refuse. */
  lemma ChangeDoneIff(settings: Settings, st: State, change: Change, grant: Option<Proof>, approval: Approval,
                      times: Times, faults: Faults, fails: bool)
    ensures HandleChange(settings, st, change, grant, approval, times, faults, fails).1.Done? <==>
              && !settings.configMode && SessionOpen(st, change.channel) && ValidName(change.participant) && !fails
              && AuthorizeChange(settings.policy, st, OwnerOf(st, change.channel), change, grant, approval, times.spent,
                                 faults).1.Ok?
  {
  }

  /** How a participant change that does not succeed is answered. */
  lemma ChangeAnswer(settings: Settings, st: State, change: Change, grant: Option<Proof>, approval: Approval,
                     times: Times, faults: Faults, fails: bool)
    ensures var authorized := AuthorizeChange(settings.policy, st, OwnerOf(st, change.channel), change, grant, approval,
                                              times.spent, faults).1;
            var response := HandleChange(settings, st, change, grant, approval, times, faults, fails).1;
            && (response.ConfigMode? <==> settings.configMode)
            && (response.ChannelNotFound? <==> !settings.configMode && !SessionOpen(st, change.channel))
            && (response.Refused? <==>
                  !settings.configMode && SessionOpen(st, change.channel) && authorized.Err?)
            && (response.Refused? ==> response.reason == authorized.error)
  {
  }

  // What was signed, under an ideal scheme.

  /** A change of an owned channel's participants that succeeds is one its owner signed. */
  lemma ChangeWasSigned(settings: Settings, signing: SigningLog, st: State, change: Change, grant: Option<Proof>,
                        approval: Approval, times: Times, faults: Faults, fails: bool)
    requires Ideal(settings.policy.check, signing) && change.channel in st.owners
    requires HandleChange(settings, st, change, grant, approval, times, faults, fails).1.Done?
    ensures exists g: Grant ::
              && SignedBy(signing, st.owners[change.channel].subject, GrantStatement(g))
              && Change(g.channel, g.invitee, g.action) == change && times.spent <= g.notAfter
  {
    var owner := st.owners[change.channel];
    ChangeDoneIff(settings, st, change, grant, approval, times, faults, fails);
    ChangeAuthorizedIff(settings.policy, st, OwnerOf(st, change.channel), change, grant, approval, times.spent, faults);
    var g: Grant :| && GrantedBy(settings.policy, owner, change, grant, approval, g)
                    && Spendable(st, (change.channel, g.nonce), g.notAfter, times.spent, faults);
    var proof: Proof :| VerifyGrant(settings.policy.check, owner.subject, proof) == Ok(g);
    VerifiedGrant(settings.policy.check, signing, owner.subject, proof);
  }

  /** A delete of an owned channel, or of any where signatures are required, that succeeds is one its owner or
      an operator signed for this channel manager. */
  lemma DeleteWasSigned(settings: Settings, signing: SigningLog, st: State, channel: string, proof: Option<Proof>,
                        times: Times, faults: Faults)
    requires Ideal(settings.policy.check, signing) && (channel in st.owners || settings.policy.requireSignatures)
    requires HandleDelete(settings, st, channel, proof, times, faults).1.Done?
    ensures exists signer: string, d: Deletion ::
              && SignedBy(signing, signer, DeleteStatement(d))
                  && MayDelete(settings.policy, OwnerOf(st, channel), signer)
              && d.channel == channel && d.audience == settings.policy.audience
              && times.spent <= d.notAfter <= times.checked + 86400
  {
    var policy, owner := settings.policy, OwnerOf(st, channel);
    DeleteDoneIff(settings, st, channel, proof, times, faults);
    DeleteAuthorizedIff(policy, st, owner, channel, proof, times.checked, times.spent, faults);
    var d: Deletion :| && SignedDeleteOf(policy, owner, channel, proof, d, times.checked)
                       && Spendable(st, (channel, d.nonce), d.notAfter, times.spent, faults);
    var signer :| MayDelete(policy, owner, signer) && VerifyDelete(policy.check, signer, proof.value) == Ok(d);
    VerifiedDelete(policy.check, signing, signer, proof.value);
  }

  /** A create that succeeds with an owner, or at all where signatures are required, is one that owner signed
      for this channel manager, and it is that owner who is recorded. */
  lemma CreateWasSigned(settings: Settings, signing: SigningLog, st: State, req: CreateRequest, times: Times,
                        session: SessionId, faults: Faults)
    requires Ideal(settings.policy.check, signing) && (req.ownerProof.Some? || settings.policy.requireSignatures)
    requires HandleCreate(settings, st, req, times, session, faults).1.Done?
    ensures var st' := HandleCreate(settings, st, req, times, session, faults).0;
            exists c: Creation ::
              && SignedBy(signing, c.owner, CreateStatement(c))
              && OwnerOf(st', req.channel) == Some(ChannelOwner(c.owner, c.callbackName))
              && c.channel == req.channel && c.mlsEnabled == req.mlsEnabled && c.ttlSeconds == req.ttlSeconds
              && c.audience == settings.policy.audience && times.spent <= c.notAfter <= times.checked + 86400
  {
    var policy := settings.policy;
    CreateDoneIff(settings, st, req, times, session, faults);
    var authorized := AuthorizeCreate(policy, st, req, times.checked, times.spent, faults).1;
    CreateAuthorizedIff(policy, st, req, times.checked, times.spent, faults, authorized.value);
    CreateEffect(settings, st, req, times, session, faults);
    VerifiedCreate(policy.check, signing, req.ownerProof.value);
  }

  // And what is properly signed is let through.

  /** An owner's signed grant, presented in time and for the first time, changes the participants of their channel. */
  lemma SignedGrantIsDone(settings: Settings, st: State, key: SigningKey, g: Grant, approval: Approval, times: Times,
                          faults: Faults)
    requires SignsFor(key, settings.policy.check) && NulFree(GrantStatement(g))
    requires !settings.configMode && SessionOpen(st, g.channel) && ValidName(g.invitee)
    requires g.channel in st.owners && st.owners[g.channel].subject == key.Did()
    requires Spendable(st, (g.channel, g.nonce), g.notAfter, times.spent, faults)
    ensures HandleChange(settings, st, Change(g.channel, g.invitee, g.action), Some(SignGrant(key, g)), approval, times,
                         faults, false).1.Done?
  {
    var change, proof := Change(g.channel, g.invitee, g.action), SignGrant(key, g);
    SignedGrantVerifies(key, settings.policy.check, g);
    assert GrantedBy(settings.policy, st.owners[g.channel], change, Some(proof), approval, g);
    ChangeAuthorizedIff(settings.policy, st, OwnerOf(st, g.channel), change, Some(proof), approval, times.spent,
                        faults);
    ChangeDoneIff(settings, st, change, Some(proof), approval, times, faults, false);
  }

  /** A delete its owner or an operator signed, presented in time and for the first time, deletes the channel. */
  lemma SignedDeleteIsDone(settings: Settings, st: State, key: SigningKey, d: Deletion, times: Times, faults: Faults)
    requires SignsFor(key, settings.policy.check) && NulFree(DeleteStatement(d))
    requires !settings.configMode && SessionOpen(st, d.channel) && d.channel !in faults.deleteSession
    requires MayDelete(settings.policy, OwnerOf(st, d.channel), key.Did())
    requires MeantHere(settings.policy, d.audience, d.notAfter, times.checked)
    requires Spendable(st, (d.channel, d.nonce), d.notAfter, times.spent, faults)
    ensures HandleDelete(settings, st, d.channel, Some(SignDelete(key, d)), times, faults).1.Done?
  {
    var policy, owner, proof := settings.policy, OwnerOf(st, d.channel), SignDelete(key, d);
    SignedDeleteVerifies(key, policy.check, d);
    assert MayDelete(policy, owner, key.Did()) && VerifyDelete(policy.check, key.Did(), proof) == Ok(d);
    assert SignedDeleteOf(policy, owner, d.channel, Some(proof), d, times.checked);
    DeleteAuthorizedIff(policy, st, owner, d.channel, Some(proof), times.checked, times.spent, faults);
    DeleteDoneIff(settings, st, d.channel, Some(proof), times, faults);
  }

  /** A create its owner signed, presented in time and for the first time, creates the channel. */
  lemma SignedCreateIsDone(settings: Settings, st: State, key: SigningKey, c: Creation, times: Times,
                           session: SessionId, faults: Faults)
    requires SignsFor(key, settings.policy.check) && Acceptable(CreateStatement(c)) && c.owner == key.Did()
    requires MeantHere(settings.policy, c.audience, c.notAfter, times.checked)
    requires Spendable(st, (c.channel, c.nonce), c.notAfter, times.spent, faults)
    requires Creatable(settings, st, CreateRequest(c.channel, c.mlsEnabled, c.ttlSeconds, c.callbackName,
                                                   Some(SignCreate(key, c).value)), faults)
    ensures var req := CreateRequest(c.channel, c.mlsEnabled, c.ttlSeconds, c.callbackName,
                                     Some(SignCreate(key, c).value));
            HandleCreate(settings, st, req, times, session, faults).1.Done?
  {
    var req := CreateRequest(c.channel, c.mlsEnabled, c.ttlSeconds, c.callbackName, Some(SignCreate(key, c).value));
    SignedCreateVerifies(key, settings.policy.check, c);
    CreateAuthorizedIff(settings.policy, st, req, times.checked, times.spent, faults, Some(c));
    CreateDoneIff(settings, st, req, times, session, faults);
  }

  // The reaper.

  /** A reaper pass unlists and forgets exactly the channels due, and closes exactly their open sessions but
      those it could not delete. */
  lemma ReapEffect(st: State, now: u64, faults: Faults)
    ensures var st' := ReapExpired(st, now, faults);
            && (forall c :: Get(st'.sessions, c)
                            == if c in st.expires && st.expires[c] <= now then None else Get(st.sessions, c))
            && (forall c :: OwnerOf(st', c) == if c in st.expires && st.expires[c] <= now then None else OwnerOf(st, c))
            && (forall c :: ExpiryOf(st', c) == if c in st.expires && st.expires[c] <= now then None
                else ExpiryOf(st, c))
            && (forall s :: s in st.open && s !in st'.open <==>
                  exists c :: && c in st.expires && st.expires[c] <= now && SessionOpen(st, c)
                              && c !in faults.deleteSession && st.sessions[c] == s)
            && st'.open <= st.open
  {
    var st' := ReapExpired(st, now, faults);
    forall s ensures s in Closed(st, Due(st, now), faults) <==>
               exists c :: && c in st.expires && st.expires[c] <= now && SessionOpen(st, c)
                           && c !in faults.deleteSession && st.sessions[c] == s
    {
    }
  }
}
