/** The gRPC server's handlers as they run (crates/channel-manager/src/service.rs):
    each leaves exactly the state `Manager` describes. */
module Server {
  import opened Prelude
  import opened Statements
  import opened Verifier
  import opened Store
  import opened Policy
  import opened Manager
  import opened Names
  import Nonces
  import NonceRuns
  import Ownership
  import Expiry
  import Sessions

  /** Which of startup's store operations fail. */
  datatype LoadFaults = LoadFaults(
    loadOwners: bool,
    loadExpiries: bool,
    loadNonces: bool,
    deleteOwner: set<string>,
    deleteExpiry: set<string>,
    deleteNonce: set<NonceId>)

  class ChannelManagerServer {
    const settings: Settings
    const app: Sessions.App
    const sessions: Sessions.SessionsList
    const store: StateStore
    const ownership: Ownership.ChannelOwnership
    const expiry: Expiry.ChannelExpiry
    const nonces: Nonces.NonceStore

    ghost predicate Valid()
      reads app, sessions, store, ownership, expiry, nonces
    {
      && ownership.store == expiry.store == nonces.store == store
      && ownership.Valid() && expiry.Valid() && nonces.Valid()
    }

    ghost function View(): State
      reads app, sessions, store, ownership, expiry, nonces
    {
      State(sessions.channels, app.open, ownership.owners, expiry.expires, nonces.consumed, store.disk)
    }

    constructor (settings: Settings, app: Sessions.App, sessions: Sessions.SessionsList, store: StateStore,
                 ownership: Ownership.ChannelOwnership, expiry: Expiry.ChannelExpiry, nonces: Nonces.NonceStore)
      requires ownership.store == expiry.store == nonces.store == store
      requires ownership.Valid() && expiry.Valid() && nonces.Valid()
      ensures Valid()
      ensures View() == State(sessions.channels, app.open, ownership.owners, expiry.expires, nonces.consumed,
                              store.disk)
      ensures this.settings == settings && this.app == app && this.sessions == sessions && this.store == store
    {
      this.settings := settings;
      this.app := app;
      this.sessions := sessions;
      this.store := store;
      this.ownership := ownership;
      this.expiry := expiry;
      this.nonces := nonces;
    }

    /** `with_state_store`: a server over the restored sessions and what the store
        still holds for them. A failed startup loses nothing a later one would load. */
    static method WithStateStore(settings: Settings, app: Sessions.App, sessions: Sessions.SessionsList,
                                 store: StateStore,
                                 now: u64, faults: LoadFaults) returns (r: Result<ChannelManagerServer, StoreError>)
      requires store.Valid()
      modifies store
      ensures store.Valid()
      ensures r.Ok? <==> && !faults.loadOwners && !faults.loadExpiries && !faults.loadNonces
                         && old(store.disk).owners.Keys - sessions.channels.Keys !! faults.deleteOwner
                         && old(store.disk).expires.Keys - sessions.channels.Keys !! faults.deleteExpiry
                         && Nonces.Expired(old(store.disk).nonces, now) !! faults.deleteNonce
      ensures Restart(store.disk, sessions.channels, app.open, now)
           == Restart(old(store.disk), sessions.channels, app.open, now)
      ensures r.Ok? ==> && r.value.Valid() && r.value.settings == settings
                        && r.value.sessions == sessions && r.value.app == app
                        && r.value.View() == Restart(old(store.disk), sessions.channels, app.open, now)
    {
      ghost var disk := store.disk;
      var restored := sessions.channels.Keys;
      var ownership := Ownership.ChannelOwnership.Load(store, restored, faults.loadOwners, faults.deleteOwner);
      if ownership.Err? {
        return Err(StoreError);
      }
      var expiry := Expiry.ChannelExpiry.Load(store, restored, faults.loadExpiries, faults.deleteExpiry);
      assert Restrict(store.disk.owners, restored) == Restrict(disk.owners, restored);
      if expiry.Err? {
        return Err(StoreError);
      }
      var nonces := Nonces.NonceStore.Load(store, now, faults.loadNonces, faults.deleteNonce);
      assert Restrict(store.disk.expires, restored) == Restrict(disk.expires, restored);
      if nonces.Err? {
        return Err(StoreError);
      }
      var server := new ChannelManagerServer(settings, app, sessions, store, ownership.value, expiry.value,
                                             nonces.value);
      return Ok(server);
    }

    /** `spend`. */
    method Spend(id: NonceId, notAfter: u64, now: u64, faults: Faults) returns (r: Result<(), Refusal>)
      requires Valid() && NUL !in id.0
      modifies nonces, store
      ensures Valid()
      ensures (View(), r) == SpendIn(old(View()), id, notAfter, now, faults)
    {
      if notAfter < now {
        return Err(NotSpent(NonceRuns.HasExpired));
      }
      var consumed := nonces.Consume(id, notAfter, now, faults.putNonce, faults.deleteNonce);
      match consumed
      case Err(_) => return Err(NotSpent(NonceRuns.NotRecorded));
      case Ok(firstUse) =>
        if !firstUse {
          return Err(NotSpent(NonceRuns.AlreadyUsed));
        }
        return Ok(());
    }

    /** `authorize_create`. */
    method AuthorizeCreate(req: CreateRequest, checked: u64, now: u64, faults: Faults)
      returns (r: Result<Option<Creation>, Refusal>)
      requires Valid()
      modifies nonces, store
      ensures Valid()
      ensures (View(), r) == Manager.AuthorizeCreate(settings.policy, old(View()), req, checked, now, faults)
    {
      var creation := CheckCreate(settings.policy, req, checked);
      match creation
      case Err(e) => return Err(e);
      case Ok(None) => return Ok(None);
      case Ok(Some(c)) =>
        ScopedCreate(settings.policy, req, checked);
        var spent := Spend((c.channel, c.nonce), c.notAfter, now, faults);
        match spent
        case Err(e) => return Err(e);
        case Ok(_) => return Ok(Some(c));
    }

    /** `authorize_delete`. */
    method AuthorizeDelete(channel: string, proof: Option<Proof>, checked: u64, now: u64, faults: Faults)
      returns (r: Result<Option<SignedDelete>, Refusal>)
      requires Valid()
      modifies nonces, store
      ensures Valid()
      ensures (View(), r) == Manager.AuthorizeDelete(settings.policy, old(View()), OwnerOf(old(View()), channel),
                                                     channel, proof, checked, now, faults)
    {
      var owner := ownership.GetOwner(channel);
      var signed := CheckDelete(settings.policy, owner, channel, proof, checked);
      match signed
      case Err(e) => return Err(e);
      case Ok(None) => return Ok(None);
      case Ok(Some(s)) =>
        ScopedDelete(settings.policy, owner, channel, proof, checked);
        var spent := Spend((channel, s.deletion.nonce), s.deletion.notAfter, now, faults);
        match spent
        case Err(e) => return Err(e);
        case Ok(_) => return Ok(Some(s));
    }

    /** `enforce`. */
    method Enforce(change: Change, grant: Option<Proof>, approval: Approval, now: u64, faults: Faults)
      returns (r: Result<Option<Grant>, Refusal>)
      requires Valid()
      modifies nonces, store
      ensures Valid()
      ensures (View(), r) == AuthorizeChange(settings.policy, old(View()), OwnerOf(old(View()), change.channel), change,
                                             grant, approval, now, faults)
    {
      var owner := ownership.GetOwner(change.channel);
      var signed := CheckChange(settings.policy, owner, change, grant, approval);
      match signed
      case Err(e) => return Err(e);
      case Ok(None) => return Ok(None);
      case Ok(Some(g)) =>
        ScopedChange(settings.policy, owner, change, grant, approval);
        var spent := Spend((g.channel, g.nonce), g.notAfter, now, faults);
        match spent
        case Err(e) => return Err(e);
        case Ok(_) => return Ok(Some(g));
    }

    /** `forget_channel`. */
    method ForgetChannel(channel: string, faults: Faults)
      requires Valid()
      modifies ownership, expiry, store
      ensures Valid()
      ensures View() == Forget(old(View()), channel, faults)
    {
      var _ := ownership.RemoveOwner(channel, channel in faults.deleteOwner);
      var _ := expiry.RemoveExpiry(channel, channel in faults.deleteExpiry);
    }

    /** `record_new_channel`. */
    method RecordNewChannel(channel: string, expiresAt: Option<u64>, owner: Option<ChannelOwner>, faults: Faults)
      returns (ok: bool)
      requires Valid()
      modifies ownership, expiry, store
      ensures Valid()
      ensures (View(), ok) == RecordNew(old(View()), channel, expiresAt, owner, faults)
    {
      if expiresAt.Some? {
        var wrote := expiry.SetExpiry(channel, expiresAt.value, faults.putExpiry);
        if wrote.Err? {
          return false;
        }
      }
      if owner.Some? {
        var wrote := ownership.SetOwner(channel, owner.value, faults.putOwner);
        if wrote.Err? {
          return false;
        }
      }
      return true;
    }

    /** `handle_create_channel`. */
    method HandleCreateChannel(req: CreateRequest, times: Times, session: SessionId, faults: Faults)
      returns (response: Response)
      requires Valid()
      modifies app, sessions, ownership, expiry, nonces, store
      ensures Valid()
      ensures (View(), response) == HandleCreate(settings, old(View()), req, times, session, faults)
    {
      if settings.configMode {
        return ConfigMode;
      }
      if sessions.GetSession(req.channel, app).Some? {
        return AlreadyExists;
      }
      if req.ttlSeconds == Some(0) {
        return BadTtl;
      }
      if !ValidName(req.channel) {
        return BadName;
      }
      if req.callbackName.Some? && !ValidName(req.callbackName.value) {
        return BadCallbackName;
      }
      var authorized := AuthorizeCreate(req, times.checked, times.spent, faults);
      if authorized.Err? {
        return Refused(authorized.error);
      }
      if faults.createSession {
        return CreateFailed;
      }
      response := CompleteCreateChannel(req, NewOwner(authorized.value, req), times.recorded, session, faults);
    }

    /** The rest of a create, once its session is open. */
    method CompleteCreateChannel(req: CreateRequest, owner: Option<ChannelOwner>, now: u64, session: SessionId,
                                 faults: Faults)
      returns (response: Response)
      requires Valid()
      modifies app, sessions, ownership, expiry, store
      ensures Valid()
      ensures (View(), response) == CompleteCreate(old(View()), req, owner, now, session, faults)
    {
      app.open := app.open + {session};
      var added := sessions.AddSession(req.channel, session);
      if !added {
        if req.channel !in faults.deleteSession {
          app.open := app.open - {session};
        }
        return AlreadyExists;
      }
      var recorded := RecordNewChannel(req.channel, ExpiresAt(req.ttlSeconds, now), owner, faults);
      if !recorded {
        var _ := sessions.RemoveSession(req.channel, app, req.channel in faults.deleteSession);
        ForgetChannel(req.channel, faults);
        return RecordFailed;
      }
      return Done;
    }

    /** `handle_delete_channel`. */
    method HandleDeleteChannel(channel: string, proof: Option<Proof>, times: Times, faults: Faults)
      returns (response: Response)
      requires Valid()
      modifies app, sessions, ownership, expiry, nonces, store
      ensures Valid()
      ensures (View(), response) == HandleDelete(settings, old(View()), channel, proof, times, faults)
    {
      if settings.configMode {
        return ConfigMode;
      }
      var authorized := AuthorizeDelete(channel, proof, times.checked, times.spent, faults);
      if authorized.Err? {
        return Refused(authorized.error);
      }
      var removed := sessions.RemoveSession(channel, app, channel in faults.deleteSession);
      if removed.Err? {
        return RemoveFailed;
      }
      ForgetChannel(channel, faults);
      return Done;
    }

    /** `handle_add_participant` and `handle_delete_participant`. */
    method HandleParticipantChange(change: Change, grant: Option<Proof>, approval: Approval, times: Times,
                                   faults: Faults, fails: bool) returns (response: Response)
      requires Valid()
      modifies nonces, store
      ensures Valid()
      ensures (View(), response) == HandleChange(settings, old(View()), change, grant, approval, times, faults, fails)
    {
      if settings.configMode {
        return ConfigMode;
      }
      if sessions.GetSession(change.channel, app).None? {
        return ChannelNotFound;
      }
      var authorized := Enforce(change, grant, approval, times.spent, faults);
      if authorized.Err? {
        return Refused(authorized.error);
      }
      if !ValidName(change.participant) {
        return BadParticipantName;
      }
      return if fails then SessionOperationFailed else Done;
    }

    /** One due channel's turn: it is forgotten whether or not its session could be deleted. */
    method ReapChannel(channel: string, faults: Faults)
      requires Valid()
      modifies app, sessions, ownership, expiry, store
      ensures Valid()
      ensures View() == ReapOne(old(View()), channel, faults)
    {
      var _ := sessions.RemoveSession(channel, app, channel in faults.deleteSession);
      ForgetChannel(channel, faults);
    }

    /** `reap_expired`: deletes the due channels one by one, in any order. */
    method ReapExpiredChannels(now: u64, faults: Faults)
      requires Valid() && SessionsDistinct(View())
      modifies app, sessions, ownership, expiry, store
      ensures Valid()
      ensures View() == ReapExpired(old(View()), now, faults)
    {
      ghost var before := View();
      var due := expiry.DueAt(now);
      ghost var done: set<string> := {};
      ReapedNone(before, faults);
      while due != {}
        invariant Valid() && done !! due && done + due == Due(before, now)
        invariant View() == Reaped(before, done, faults)
        decreases |due|
      {
        var channel :| channel in due;
        ReapedStep(before, done, channel, faults);
        ReapChannel(channel, faults);
        due := due - {channel};
        done := done + {channel};
      }
      assert done == Due(before, now);
    }
  }

  // What reaches `spend` names a channel without NULs: the verifier refuses others.

  lemma ScopedCreate(policy: GrantPolicy, req: CreateRequest, now: u64)
    requires CheckCreate(policy, req, now).Ok? && CheckCreate(policy, req, now).value.Some?
    ensures NUL !in CheckCreate(policy, req, now).value.value.channel
  {
    var c := CheckCreate(policy, req, now).value.value;
    assert NulFree(CreateStatement(c));
    assert FreeText(CreateStatement(c))[1] == c.channel;
  }

  lemma ScopedDelete(policy: GrantPolicy, owner: Option<ChannelOwner>, channel: string, proof: Option<Proof>, now: u64)
    requires CheckDelete(policy, owner, channel, proof, now).Ok?
        && CheckDelete(policy, owner, channel, proof, now).value.Some?
    ensures NUL !in channel
  {
    var signers := (if owner.Some? then [owner.value.subject] else []) + policy.operators;
    FoundSigner(policy.check, signers, proof.value);
    var d := CheckDelete(policy, owner, channel, proof, now).value.value.deletion;
    assert NulFree(DeleteStatement(d));
    assert FreeText(DeleteStatement(d))[1] == d.channel;
  }

  lemma ScopedChange(policy: GrantPolicy, owner: Option<ChannelOwner>, change: Change, grant: Option<Proof>,
                     approval: Approval)
    requires CheckChange(policy, owner, change, grant, approval).Ok?
    requires CheckChange(policy, owner, change, grant, approval).value.Some?
    ensures NUL !in change.channel
  {
    var g := CheckChange(policy, owner, change, grant, approval).value.value;
    assert NulFree(GrantStatement(g));
    assert FreeText(GrantStatement(g))[0] == g.channel;
  }
}
