/** The channel manager's state and what each operation does to it
    (crates/channel-manager/src/service.rs). Store and session failures are inputs. */
module Manager {
  import opened Prelude
  import opened Names
  import opened Statements
  import opened Verifier
  import opened Store
  import opened Nonces
  import opened NonceRuns
  import opened Policy
  import Sessions

  type SessionId = Sessions.SessionId

  /** Live channels, open SLIM sessions, the records in memory and the ones on disk. */
  datatype State = State(
    sessions: map<string, SessionId>,
    open: set<SessionId>,
    owners: map<string, ChannelOwner>,
    expires: map<string, u64>,
    consumed: Consumed,
    disk: Disk)

  /** Which outside operations fail. */
  datatype Faults = Faults(
    putNonce: bool,
    deleteNonce: set<NonceId>,
    putExpiry: bool,
    putOwner: bool,
    deleteOwner: set<string>,
    deleteExpiry: set<string>,
    createSession: bool,
    deleteSession: set<string>)

  // Single operations on the records and sessions.

  function OwnerOf(st: State, channel: string): Option<ChannelOwner> {
    if channel in st.owners then Some(st.owners[channel]) else None
  }

  function SetExpiry(st: State, channel: string, expiresAt: u64, fails: bool): (State, bool) {
    if fails then (st, false)
    else (st.(expires := st.expires[channel := expiresAt],
              disk := st.disk.(expires := st.disk.expires[channel := expiresAt])), true)
  }

  function SetOwner(st: State, channel: string, owner: ChannelOwner, fails: bool): (State, bool) {
    if fails then (st, false)
    else (st.(owners := st.owners[channel := owner],
              disk := st.disk.(owners := st.disk.owners[channel := owner])), true)
  }

  function RemoveOwner(st: State, channel: string, fails: bool): State {
    st.(owners := st.owners - {channel},
        disk := if fails then st.disk else st.disk.(owners := st.disk.owners - {channel}))
  }

  function RemoveExpiry(st: State, channel: string, fails: bool): State {
    st.(expires := st.expires - {channel},
        disk := if fails then st.disk else st.disk.(expires := st.disk.expires - {channel}))
  }

  /** `forget_channel`. */
  function Forget(st: State, channel: string, faults: Faults): State {
    RemoveExpiry(RemoveOwner(st, channel, channel in faults.deleteOwner), channel, channel in faults.deleteExpiry)
  }

  /** `record_new_channel`. */
  function RecordNew(st: State, channel: string, expiresAt: Option<u64>, owner: Option<ChannelOwner>, faults: Faults)
    : (State, bool)
  {
    var (timed, ok) := if expiresAt.Some? then SetExpiry(st, channel, expiresAt.value, faults.putExpiry)
        else (st, true);
    if !ok then (timed, false)
    else if owner.Some? then SetOwner(timed, channel, owner.value, faults.putOwner)
    else (timed, true)
  }

  /** `add_session`: check and insert in one go. */
  function AddSession(st: State, channel: string, session: SessionId): (State, bool) {
    if channel in st.sessions then (st, false)
    else (st.(sessions := st.sessions[channel := session]), true)
  }

  predicate SessionOpen(st: State, channel: string) {
    channel in st.sessions && st.sessions[channel] in st.open
  }

  /** `remove_session`: the channel leaves the list whether or not its session can be deleted. */
  function RemoveSession(st: State, channel: string, fails: bool): (State, bool) {
    if !SessionOpen(st, channel) || fails then (st.(sessions := st.sessions - {channel}), false)
    else (st.(sessions := st.sessions - {channel}, open := st.open - {st.sessions[channel]}), true)
  }

  // Authorization.

  /** `spend` on the manager's nonces. */
  function SpendIn(st: State, id: NonceId, notAfter: u64, now: u64, faults: Faults): (State, Result<(), Refusal>) {
    var (mem, r) := Spend(Memory(st.consumed, st.disk.nonces), id, notAfter, now, faults.putNonce, faults.deleteNonce);
    (st.(consumed := mem.consumed, disk := st.disk.(nonces := mem.stored)),
     match r case Ok(_) => Ok(()) case Err(e) => Err(NotSpent(e)))
  }

  /** `authorize_create`, with its two clock readings: the signed creation spent, if any. */
  function AuthorizeCreate(policy: GrantPolicy, st: State, req: CreateRequest, checked: u64, now: u64, faults: Faults)
    : (State, Result<Option<Creation>, Refusal>)
  {
    match CheckCreate(policy, req, checked)
    case Err(e) => (st, Err(e))
    case Ok(None) => (st, Ok(None))
    case Ok(Some(c)) =>
      var (st', r) := SpendIn(st, (c.channel, c.nonce), c.notAfter, now, faults);
      (st', match r case Ok(_) => Ok(Some(c)) case Err(e) => Err(e))
  }

  /** `authorize_delete`, given the owner read earlier: the signed request spent, if any. */
  function AuthorizeDelete(policy: GrantPolicy, st: State, owner: Option<ChannelOwner>, channel: string,
                           proof: Option<Proof>, checked: u64, now: u64, faults: Faults)
    : (State, Result<Option<SignedDelete>, Refusal>)
  {
    match CheckDelete(policy, owner, channel, proof, checked)
    case Err(e) => (st, Err(e))
    case Ok(None) => (st, Ok(None))
    case Ok(Some(s)) =>
      var (st', r) := SpendIn(st, (channel, s.deletion.nonce), s.deletion.notAfter, now, faults);
      (st', match r case Ok(_) => Ok(Some(s)) case Err(e) => Err(e))
  }

  /** `enforce`, given the owner read earlier: the grant spent, if any. */
  function AuthorizeChange(policy: GrantPolicy, st: State, owner: Option<ChannelOwner>, change: Change,
                           grant: Option<Proof>, approval: Approval, now: u64, faults: Faults)
    : (State, Result<Option<Grant>, Refusal>)
  {
    match CheckChange(policy, owner, change, grant, approval)
    case Err(e) => (st, Err(e))
    case Ok(None) => (st, Ok(None))
    case Ok(Some(g)) =>
      var (st', r) := SpendIn(st, (g.channel, g.nonce), g.notAfter, now, faults);
      (st', match r case Ok(_) => Ok(Some(g)) case Err(e) => Err(e))
  }

  // Requests, each handled in one go.

  datatype Response =
    | Done
    | ConfigMode
    | AlreadyExists
    | ChannelNotFound
    | BadTtl
    | BadName
    | BadCallbackName
    | BadParticipantName
    | Refused(reason: Refusal)
    | CreateFailed
    | RecordFailed
    | RemoveFailed
    | SessionOperationFailed

  /** A server's fixed settings. */
  datatype Settings = Settings(policy: GrantPolicy, configMode: bool)

  /** The clock readings one request makes, in order. */
  datatype Times = Times(checked: u64, spent: u64, recorded: u64)

  function ExpiresAt(ttlSeconds: Option<u64>, now: u64): Option<u64> {
    if ttlSeconds.Some? then Some(SaturatingAdd(now, ttlSeconds.value)) else None
  }

  function NewOwner(creation: Option<Creation>, req: CreateRequest): Option<ChannelOwner> {
    if creation.Some? then Some(ChannelOwner(creation.value.owner, req.callbackName)) else None
  }

  /** What a create request must pass before anything is authorized. */
  function PrecheckCreate(settings: Settings, st: State, req: CreateRequest): Response {
    if settings.configMode then ConfigMode
    else if SessionOpen(st, req.channel) then AlreadyExists
    else if req.ttlSeconds == Some(0) then BadTtl
    else if !ValidName(req.channel) then BadName
    else if req.callbackName.Some? && !ValidName(req.callbackName.value) then BadCallbackName
    else Done
  }

  /** `handle_create_channel`; `session` is the session SLIM opens for it. */
  function HandleCreate(settings: Settings, st: State, req: CreateRequest, times: Times, session: SessionId,
                        faults: Faults)
    : (State, Response)
  {
    var pre := PrecheckCreate(settings, st, req);
    if !pre.Done? then (st, pre)
    else
      var (spent, authorized) := AuthorizeCreate(settings.policy, st, req, times.checked, times.spent, faults);
      match authorized
      case Err(e) => (spent, Refused(e))
      case Ok(creation) =>
        if faults.createSession then (spent, CreateFailed)
        else CompleteCreate(spent, req, NewOwner(creation, req), times.recorded, session, faults)
  }

  /** A create from the moment its session is open: list it and record its expiry and owner, or undo. */
  function CompleteCreate(st: State, req: CreateRequest, owner: Option<ChannelOwner>, now: u64, session: SessionId,
                          faults: Faults): (State, Response)
  {
    var begun := st.(open := st.open + {session});
    var (listed, added) := AddSession(begun, req.channel, session);
    if !added then
      (if req.channel in faults.deleteSession then begun else begun.(open := begun.open - {session}), AlreadyExists)
    else RecordOrUndo(listed, req.channel, ExpiresAt(req.ttlSeconds, now), owner, faults)
  }

  /** Records a listed channel's expiry and owner; where that fails, unlists and forgets it. */
  function RecordOrUndo(st: State, channel: string, at: Option<u64>, owner: Option<ChannelOwner>, faults: Faults)
    : (State, Response)
  {
    var (recorded, ok) := RecordNew(st, channel, at, owner, faults);
    if ok then (recorded, Done)
    else
      var (removed, _) := RemoveSession(recorded, channel, channel in faults.deleteSession);
      (Forget(removed, channel, faults), RecordFailed)
  }

  /** `handle_delete_channel`: the records are kept when the session could not be removed. */
  function HandleDelete(settings: Settings, st: State, channel: string, proof: Option<Proof>, times: Times,
                        faults: Faults)
    : (State, Response)
  {
    if settings.configMode then (st, ConfigMode)
    else
      var (spent, authorized) :=
        AuthorizeDelete(settings.policy, st, OwnerOf(st, channel), channel, proof, times.checked, times.spent, faults);
      match authorized
      case Err(e) => (spent, Refused(e))
      case Ok(_) =>
        var (removed, ok) := RemoveSession(spent, channel, channel in faults.deleteSession);
        if ok then (Forget(removed, channel, faults), Done) else (removed, RemoveFailed)
  }

  /** `handle_add_participant` and `handle_delete_participant`; `fails` is whether the session refuses the change. */
  function HandleChange(settings: Settings, st: State, change: Change, grant: Option<Proof>, approval: Approval,
                        times: Times, faults: Faults, fails: bool): (State, Response)
  {
    if settings.configMode then (st, ConfigMode)
    else if !SessionOpen(st, change.channel) then (st, ChannelNotFound)
    else
      var (spent, authorized) :=
        AuthorizeChange(settings.policy, st, OwnerOf(st, change.channel), change, grant, approval, times.spent, faults);
      match authorized
      case Err(e) => (spent, Refused(e))
      case Ok(_) =>
        if !ValidName(change.participant) then (spent, BadParticipantName)
        else if fails then (spent, SessionOperationFailed)
        else (spent, Done)
  }

  // The reaper.

  function Due(st: State, now: u64): set<string> {
    set c | c in st.expires && st.expires[c] <= now
  }

  /** One due channel's turn. */
  function ReapOne(st: State, channel: string, faults: Faults): State {
    Forget(RemoveSession(st, channel, channel in faults.deleteSession).0, channel, faults)
  }

  /** The sessions deleted for the channels in `done`. */
  function Closed(st: State, done: set<string>, faults: Faults): set<SessionId> {
    set c | c in done && SessionOpen(st, c) && c !in faults.deleteSession :: st.sessions[c]
  }

  /** The state after the channels in `done` had their turn, in whatever order. */
  function Reaped(st: State, done: set<string>, faults: Faults): State {
    State(
      st.sessions - done,
      st.open - Closed(st, done, faults),
      st.owners - done,
      st.expires - done,
      st.consumed,
      Disk(st.disk.owners - (done - faults.deleteOwner), st.disk.expires - (done - faults.deleteExpiry),
           st.disk.nonces))
  }

  /** `reap_expired`. */
  function ReapExpired(st: State, now: u64, faults: Faults): State {
    Reaped(st, Due(st, now), faults)
  }

  /** No two channels share a session. */
  predicate SessionsDistinct(st: State) {
    forall a, b :: a in st.sessions && b in st.sessions && st.sessions[a] == st.sessions[b] ==> a == b
  }

  lemma ReapedNone(st: State, faults: Faults)
    ensures Reaped(st, {}, faults) == st
  {
    assert Closed(st, {}, faults) == {};
    assert st.sessions - {} == st.sessions && st.owners - {} == st.owners && st.expires - {} == st.expires;
    assert {} - faults.deleteOwner == {} && {} - faults.deleteExpiry == {};
    assert st.disk.owners - {} == st.disk.owners && st.disk.expires - {} == st.disk.expires;
  }

  lemma RemoveOneMore<K, V>(m: map<K, V>, done: set<K>, key: K, kept: set<K>)
    ensures (m - done) - {key} == m - (done + {key})
    ensures key in kept ==> m - (done - kept) == m - (done + {key} - kept)
    ensures key !in kept ==> (m - (done - kept)) - {key} == m - (done + {key} - kept)
  {
    if key in kept {
      assert done - kept == done + {key} - kept;
    } else {
      assert done - kept + {key} == done + {key} - kept;
    }
  }

  lemma CloseOneMore(st: State, done: set<string>, channel: string, faults: Faults)
    requires SessionsDistinct(st) && channel !in done
    ensures SessionOpen(Reaped(st, done, faults), channel) <==> SessionOpen(st, channel)
    ensures Closed(st, done + {channel}, faults)
         == if SessionOpen(st, channel) && channel !in faults.deleteSession
            then Closed(st, done, faults) + {st.sessions[channel]} else Closed(st, done, faults)
  {
    var extra := if SessionOpen(st, channel) && channel !in faults.deleteSession then {st.sessions[channel]} else {};
    assert Closed(st, done + {channel}, faults) == Closed(st, done, faults) + extra;
  }

  /** One more channel's turn: the reaper's loop reaches the closed form in any order. */
  lemma ReapedStep(st: State, done: set<string>, channel: string, faults: Faults)
    requires SessionsDistinct(st) && channel !in done
    ensures ReapOne(Reaped(st, done, faults), channel, faults) == Reaped(st, done + {channel}, faults)
  {
    CloseOneMore(st, done, channel, faults);
    RemoveOneMore(st.sessions, done, channel, {});
    RemoveOneMore(st.owners, done, channel, {});
    RemoveOneMore(st.expires, done, channel, {});
    RemoveOneMore(st.disk.owners, done, channel, faults.deleteOwner);
    RemoveOneMore(st.disk.expires, done, channel, faults.deleteExpiry);
  }

  // Restarts.

  /** A restart with `disk`: the sessions in `restored` come back under those names, memory is
      reloaded from disk and stale records are dropped. */
  function Restart(disk: Disk, restored: map<string, SessionId>, open: set<SessionId>, now: u64): State {
    var kept := Disk(Restrict(disk.owners, restored.Keys), Restrict(disk.expires, restored.Keys),
                     Unexpired(disk.nonces, now));
    State(restored, open, kept.owners, kept.expires, kept.nonces, kept)
  }
}
