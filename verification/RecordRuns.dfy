/** Whole runs of the channel manager with each request handled in one go
    (crates/channel-manager/src/service.rs): what memory, disk and the live channels
    agree on. */
module RecordRuns {
  import opened Prelude
  import opened Statements
  import opened Verifier
  import opened Store
  import opened Nonces
  import opened Policy
  import opened Manager
  import opened Names

  datatype Event =
    | Create(req: CreateRequest, times: Times, session: SessionId, faults: Faults)
    | Delete(channel: string, proof: Option<Proof>, times: Times, faults: Faults)
    | ChangeParticipants(change: Change, grant: Option<Proof>, approval: Approval, times: Times, faults: Faults,
                         fails: bool)
    | Reap(now: u64, faults: Faults)
    | SessionEnds(session: SessionId)
    | Restarts(restored: map<string, SessionId>, open: set<SessionId>, now: u64)

  function Handle(settings: Settings, st: State, event: Event): (State, Response) {
    match event
    case Create(req, times, session, faults) => HandleCreate(settings, st, req, times, session, faults)
    case Delete(channel, proof, times, faults) => HandleDelete(settings, st, channel, proof, times, faults)
    case ChangeParticipants(change, grant, approval, times, faults, fails) =>
      HandleChange(settings, st, change, grant, approval, times, faults, fails)
    case Reap(now, faults) => (ReapExpired(st, now, faults), Done)
    case SessionEnds(session) => (st.(open := st.open - {session}), Done)
    case Restarts(restored, open, now) => (Restart(st.disk, restored, open, now), Done)
  }

  /** A restart lists a live channel's session under the channel's tidied name, if at all, and may
      bring back sessions that had left the list without being deleted. */
  predicate BringsBack(st: State, restored: map<string, SessionId>) {
    && (forall d :: d in restored ==> IsTidy(d))
    && (forall c, d :: c in st.sessions && d in restored && st.sessions[c] == restored[d] ==> d == Tidy(c))
    && (forall c, d :: c in restored && d in restored && restored[c] == restored[d] ==> c == d)
  }

  /** Sessions are new when created, and restarts name them as they do. */
  predicate Possible(st: State, event: Event) {
    match event
    case Create(_, _, session, _) => session !in st.open && session !in st.sessions.Values
    case Restarts(restored, _, _) => BringsBack(st, restored)
    case _ => true
  }

  /** The same sessions and records, in memory and on disk. */
  predicate SameRecords(a: State, b: State) {
    && a.sessions == b.sessions && a.open == b.open && a.owners == b.owners && a.expires == b.expires
    && a.disk.owners == b.disk.owners && a.disk.expires == b.disk.expires
  }

  function Get<K, V>(m: map<K, V>, key: K): Option<V> {
    if key in m then Some(m[key]) else None
  }

  function Put<K, V>(m: map<K, V>, key: K, value: Option<V>): map<K, V> {
    if value.Some? then m[key := value.value] else m
  }

  /** How a create ends once its session is open. */
  predicate Completed(st: State, st': State, response: Response, channel: string, at: Option<u64>,
                      owner: Option<ChannelOwner>, session: SessionId, faults: Faults)
  {
    match response
    case AlreadyExists =>
      channel in st.sessions && SameRecords(st.(open := st'.open), st')
    case Done =>
      && channel !in st.sessions
      && st'.sessions == st.sessions[channel := session]
      && st'.owners == Put(st.owners, channel, owner)
      && st'.expires == Put(st.expires, channel, at)
      && st'.disk.owners == Put(st.disk.owners, channel, owner)
      && st'.disk.expires == Put(st.disk.expires, channel, at)
    case RecordFailed =>
      && channel !in st.sessions
      && st'.sessions == st.sessions
      && st'.owners == st.owners - {channel}
      && st'.expires == st.expires - {channel}
      && st'.disk.owners == (if channel in faults.deleteOwner then st.disk.owners else st.disk.owners - {channel})
      && st'.disk.expires == (if channel !in faults.deleteExpiry then st.disk.expires - {channel}
                              else if faults.putExpiry then st.disk.expires
                              else Put(st.disk.expires, channel, at))
    case _ => false
  }

  lemma RecordedOrNot(st: State, channel: string, at: Option<u64>, owner: Option<ChannelOwner>, faults: Faults)
    ensures var (st', ok) := RecordNew(st, channel, at, owner, faults);
            && st'.sessions == st.sessions && st'.open == st.open
            && (ok ==> && st'.owners == Put(st.owners, channel, owner)
                       && st'.expires == Put(st.expires, channel, at)
                       && st'.disk.owners == Put(st.disk.owners, channel, owner)
                       && st'.disk.expires == Put(st.disk.expires, channel, at))
            && (!ok ==> && st'.owners == st.owners && st'.disk.owners == st.disk.owners
                        && st'.expires == (if faults.putExpiry then st.expires else Put(st.expires, channel, at))
                        && st'.disk.expires == (if faults.putExpiry then st.disk.expires
                                                else Put(st.disk.expires, channel, at)))
  {
  }

  lemma PutThenRemove<K, V>(m: map<K, V>, key: K, value: Option<V>)
    ensures Put(m, key, value) - {key} == m - {key}
    ensures key !in m ==> m - {key} == m
  {
  }

  lemma RemovedSession(st: State, channel: string, fails: bool)
    ensures var st' := RemoveSession(st, channel, fails).0;
            st' == st.(sessions := st.sessions - {channel}, open := st'.open)
  {
  }

  /** What is left once a channel has been forgotten. */
  predicate Forgotten(st: State, st': State, channel: string, faults: Faults) {
    && st'.owners == st.owners - {channel} && st'.expires == st.expires - {channel}
    && st'.disk.owners == (if channel in faults.deleteOwner then st.disk.owners else st.disk.owners - {channel})
    && st'.disk.expires == (if channel in faults.deleteExpiry then st.disk.expires else st.disk.expires - {channel})
  }

  lemma ForgetForgets(st: State, channel: string, faults: Faults)
    ensures Forgotten(st, Forget(st, channel, faults), channel, faults)
    ensures Forget(st, channel, faults).sessions == st.sessions
  {
    var half := RemoveOwner(st, channel, channel in faults.deleteOwner);
    assert half.expires == st.expires && half.disk.expires == st.disk.expires && half.sessions == st.sessions;
  }

  lemma CompleteCases(st: State, req: CreateRequest, owner: Option<ChannelOwner>, now: u64, session: SessionId,
                      faults: Faults)
    ensures var (st', response) := CompleteCreate(st, req, owner, now, session, faults);
            Completed(st, st', response, req.channel, ExpiresAt(req.ttlSeconds, now), owner, session, faults)
  {
    var begun := st.(open := st.open + {session});
    var (listed, added) := AddSession(begun, req.channel, session);
    if added {
      var at := ExpiresAt(req.ttlSeconds, now);
      var recorded := RecordNew(listed, req.channel, at, owner, faults).0;
      RecordedOrNot(listed, req.channel, at, owner, faults);
      RemovedSession(recorded, req.channel, req.channel in faults.deleteSession);
      ForgetForgets(RemoveSession(recorded, req.channel, req.channel in faults.deleteSession).0, req.channel, faults);
      PutThenRemove(st.sessions, req.channel, Some(session));
      PutThenRemove(st.expires, req.channel, at);
      PutThenRemove(st.disk.expires, req.channel, at);
    }
  }

  // Authorizing touches the nonces only.

  lemma SpendTouchesNonces(st: State, id: NonceId, notAfter: u64, now: u64, faults: Faults)
    ensures SameRecords(st, SpendIn(st, id, notAfter, now, faults).0)
  {
  }

  lemma CreateTouchesNonces(policy: GrantPolicy, st: State, req: CreateRequest, checked: u64, now: u64, faults: Faults)
    ensures SameRecords(st, AuthorizeCreate(policy, st, req, checked, now, faults).0)
  {
    var r := CheckCreate(policy, req, checked);
    if r.Ok? && r.value.Some? {
      SpendTouchesNonces(st, (r.value.value.channel, r.value.value.nonce), r.value.value.notAfter, now, faults);
    }
  }

  lemma DeleteTouchesNonces(policy: GrantPolicy, st: State, owner: Option<ChannelOwner>, channel: string,
                            proof: Option<Proof>, checked: u64, now: u64, faults: Faults)
    ensures SameRecords(st, AuthorizeDelete(policy, st, owner, channel, proof, checked, now, faults).0)
  {
    var r := CheckDelete(policy, owner, channel, proof, checked);
    if r.Ok? && r.value.Some? {
      SpendTouchesNonces(st, (channel, r.value.value.deletion.nonce), r.value.value.deletion.notAfter, now, faults);
    }
  }

  lemma ChangeTouchesNonces(policy: GrantPolicy, st: State, owner: Option<ChannelOwner>, change: Change,
                            grant: Option<Proof>, approval: Approval, now: u64, faults: Faults)
    ensures SameRecords(st, AuthorizeChange(policy, st, owner, change, grant, approval, now, faults).0)
  {
    var r := CheckChange(policy, owner, change, grant, approval);
    if r.Ok? && r.value.Some? {
      SpendTouchesNonces(st, (r.value.value.channel, r.value.value.nonce), r.value.value.notAfter, now, faults);
    }
  }

  /** A create as its authorization, then its completion. */
  lemma CreateCases(settings: Settings, st: State, req: CreateRequest, times: Times, session: SessionId, faults: Faults)
    ensures var (st', response) := HandleCreate(settings, st, req, times, session, faults);
            var checked := CheckCreate(settings.policy, req, times.checked);
            || (SameRecords(st, st') && !response.Done?)
            || (checked.Ok? && Completed(st, st', response, req.channel, ExpiresAt(req.ttlSeconds, times.recorded),
                                         NewOwner(checked.value, req), session, faults))
  {
    CreateTouchesNonces(settings.policy, st, req, times.checked, times.spent, faults);
    var (spent, authorized) := AuthorizeCreate(settings.policy, st, req, times.checked, times.spent, faults);
    if authorized.Ok? {
      CompleteCases(spent, req, NewOwner(authorized.value, req), times.recorded, session, faults);
    }
  }

  /** A delete either stops before touching the records, stops at removing the session, or forgets the channel. */
  lemma DeleteCases(settings: Settings, st: State, channel: string, proof: Option<Proof>, times: Times, faults: Faults)
    ensures var (st', response) := HandleDelete(settings, st, channel, proof, times, faults);
            || (SameRecords(st, st') && !response.Done? && !response.RemoveFailed?)
            || (response.RemoveFailed? && SameRecords(st.(sessions := st.sessions - {channel}), st'))
            || (response.Done? && st'.sessions == st.sessions - {channel} && Forgotten(st, st', channel, faults))
  {
    DeleteTouchesNonces(settings.policy, st, OwnerOf(st, channel), channel, proof, times.checked, times.spent, faults);
    var (spent, authorized) :=
      AuthorizeDelete(settings.policy, st, OwnerOf(st, channel), channel, proof, times.checked, times.spent, faults);
    RemovedSession(spent, channel, channel in faults.deleteSession);
    ForgetForgets(RemoveSession(spent, channel, channel in faults.deleteSession).0, channel, faults);
  }

  lemma ChangeCases(settings: Settings, st: State, change: Change, grant: Option<Proof>, approval: Approval,
                    times: Times, faults: Faults, fails: bool)
    ensures SameRecords(st, HandleChange(settings, st, change, grant, approval, times, faults, fails).0)
  {
    ChangeTouchesNonces(settings.policy, st, OwnerOf(st, change.channel), change, grant, approval, times.spent, faults);
  }

  // Memory and disk.

  predicate SubMap<K, V(==)>(a: map<K, V>, b: map<K, V>) {
    forall k :: k in a ==> k in b && b[k] == a[k]
  }

  /** Every record in memory is on disk. */
  predicate MemoryOnDisk(st: State) {
    SubMap(st.owners, st.disk.owners) && SubMap(st.expires, st.disk.expires)
  }

  /** Memory and disk hold the same records. */
  predicate MemoryIsDisk(st: State) {
    st.owners == st.disk.owners && st.expires == st.disk.expires
  }

  function FaultsOf(event: Event): Option<Faults> {
    match event
    case Create(_, _, _, faults) => Some(faults)
    case Delete(_, _, _, faults) => Some(faults)
    case ChangeParticipants(_, _, _, _, faults, _) => Some(faults)
    case Reap(_, faults) => Some(faults)
    case _ => None
  }

  predicate RecordDeletesSucceed(event: Event) {
    FaultsOf(event).Some? ==> FaultsOf(event).value.deleteOwner == {} && FaultsOf(event).value.deleteExpiry == {}
  }

  lemma CompletedKeepsDisk(st: State, st': State, response: Response, channel: string, at: Option<u64>,
                           owner: Option<ChannelOwner>, session: SessionId, faults: Faults)
    requires Completed(st, st', response, channel, at, owner, session, faults)
    ensures MemoryOnDisk(st) ==> MemoryOnDisk(st')
    ensures MemoryIsDisk(st) && faults.deleteOwner == {} && faults.deleteExpiry == {} ==> MemoryIsDisk(st')
  {
  }

  lemma ReapKeepsDisk(st: State, now: u64, faults: Faults)
    ensures MemoryOnDisk(st) ==> MemoryOnDisk(ReapExpired(st, now, faults))
    ensures MemoryIsDisk(st) && faults.deleteOwner == {} && faults.deleteExpiry == {} ==>
              MemoryIsDisk(ReapExpired(st, now, faults))
  {
    assert faults.deleteOwner == {} ==> Due(st, now) - faults.deleteOwner == Due(st, now);
    assert faults.deleteExpiry == {} ==> Due(st, now) - faults.deleteExpiry == Due(st, now);
  }

  /** Whatever fails, memory stays on disk; while record deletes succeed they stay equal. */
  lemma EventKeepsDisk(settings: Settings, st: State, event: Event)
    ensures MemoryOnDisk(st) ==> MemoryOnDisk(Handle(settings, st, event).0)
    ensures MemoryIsDisk(st) && RecordDeletesSucceed(event) ==> MemoryIsDisk(Handle(settings, st, event).0)
  {
    var (st', response) := Handle(settings, st, event);
    match event
    case Create(req, times, session, faults) =>
      CreateCases(settings, st, req, times, session, faults);
      if !SameRecords(st, st') {
        CompletedKeepsDisk(st, st', response, req.channel, ExpiresAt(req.ttlSeconds, times.recorded),
                           NewOwner(CheckCreate(settings.policy, req, times.checked).value, req), session, faults);
      }
    case Delete(channel, proof, times, faults) =>
      DeleteCases(settings, st, channel, proof, times, faults);
    case ChangeParticipants(change, grant, approval, times, faults, fails) =>
      ChangeCases(settings, st, change, grant, approval, times, faults, fails);
    case Reap(now, faults) => ReapKeepsDisk(st, now, faults);
    case SessionEnds(_) =>
    case Restarts(_, _, _) =>
  }

  // Records and live channels.

  /** Records name live channels only. */
  predicate Within(st: State) {
    st.owners.Keys <= st.sessions.Keys && st.expires.Keys <= st.sessions.Keys
  }

  /** After a restart the records name restored channels only, whatever was on disk. */
  lemma RestartWithin(disk: Disk, restored: map<string, SessionId>, open: set<SessionId>, now: u64)
    ensures var st := Restart(disk, restored, open, now);
            Within(st) && MemoryIsDisk(st) && st.sessions == restored
  {
  }

  /** A create keeps the records within the live channels, and one that does not
      succeed leaves sessions, owners and expiry times in memory as they were. */
  lemma CreateWithin(settings: Settings, st: State, req: CreateRequest, times: Times, session: SessionId,
                     faults: Faults)
    requires Within(st)
    ensures var (st', response) := HandleCreate(settings, st, req, times, session, faults);
            && Within(st')
            && (!response.Done? ==> st'.sessions == st.sessions && st'.owners == st.owners && st'.expires == st.expires)
  {
    CreateCases(settings, st, req, times, session, faults);
    var (st', response) := HandleCreate(settings, st, req, times, session, faults);
    if !(SameRecords(st, st') && !response.Done?) {
      CompletedWithin(st, st', response, req.channel, ExpiresAt(req.ttlSeconds, times.recorded),
                      NewOwner(CheckCreate(settings.policy, req, times.checked).value, req), session, faults);
    }
  }

  lemma CompletedWithin(st: State, st': State, response: Response, channel: string, at: Option<u64>,
                        owner: Option<ChannelOwner>, session: SessionId, faults: Faults)
    requires Within(st) && Completed(st, st', response, channel, at, owner, session, faults)
    ensures Within(st')
    ensures !response.Done? ==> st'.sessions == st.sessions && st'.owners == st.owners && st'.expires == st.expires
  {
    if response.RecordFailed? {
      assert channel !in st.owners.Keys && channel !in st.expires.Keys;
    }
  }

  /** A successful create leaves the owner and expiry it asked for, unless it
      asked for none and a record of an earlier channel of that name was still there. */
  lemma CreatedRecords(settings: Settings, st: State, req: CreateRequest, times: Times, session: SessionId,
                       faults: Faults)
    requires HandleCreate(settings, st, req, times, session, faults).1.Done?
    ensures var st' := HandleCreate(settings, st, req, times, session, faults).0;
            var owner := NewOwner(CheckCreate(settings.policy, req, times.checked).value, req);
            var expiresAt := ExpiresAt(req.ttlSeconds, times.recorded);
            && (OwnerOf(st', req.channel) == owner <==> owner.Some? || req.channel !in st.owners)
            && (ExpiryOf(st', req.channel) == expiresAt <==> expiresAt.Some? || req.channel !in st.expires)
  {
    CreateCases(settings, st, req, times, session, faults);
  }

  function ExpiryOf(st: State, channel: string): Option<u64> {
    if channel in st.expires then Some(st.expires[channel]) else None
  }

  lemma ReapWithin(st: State, now: u64, faults: Faults)
    requires Within(st)
    ensures Within(ReapExpired(st, now, faults))
  {
  }

  /** A delete that is let through takes a channel with records off the list, but its session has
      ended by itself or cannot be deleted. */
  predicate DeleteStops(settings: Settings, st: State, event: Event) {
    && event.Delete? && !settings.configMode
    && AuthorizeDelete(settings.policy, st, OwnerOf(st, event.channel), event.channel, event.proof,
                       event.times.checked, event.times.spent, event.faults).1.Ok?
    && (!SessionOpen(st, event.channel) || event.channel in event.faults.deleteSession)
    && (event.channel in st.owners || event.channel in st.expires)
  }

  /** A delete keeps the records within the live channels exactly when it is not one of those. */
  lemma DeleteWithin(settings: Settings, st: State, channel: string, proof: Option<Proof>, times: Times, faults: Faults)
    requires Within(st)
    ensures Within(HandleDelete(settings, st, channel, proof, times, faults).0)
       <==> !DeleteStops(settings, st, Event.Delete(channel, proof, times, faults))
  {
    DeleteCases(settings, st, channel, proof, times, faults);
    DeleteTouchesNonces(settings.policy, st, OwnerOf(st, channel), channel, proof, times.checked, times.spent, faults);
    var (st', response) := HandleDelete(settings, st, channel, proof, times, faults);
    assert response.RemoveFailed? ==> channel !in st'.sessions.Keys;
  }

  /** Every event keeps the records within the live channels exactly when it is not such a delete. */
  lemma EventWithin(settings: Settings, st: State, event: Event)
    requires Within(st)
    ensures Within(Handle(settings, st, event).0) <==> !DeleteStops(settings, st, event)
  {
    match event
    case Create(req, times, session, faults) => CreateWithin(settings, st, req, times, session, faults);
    case Delete(channel, proof, times, faults) => DeleteWithin(settings, st, channel, proof, times, faults);
    case ChangeParticipants(change, grant, approval, times, faults, fails) =>
      ChangeCases(settings, st, change, grant, approval, times, faults, fails);
    case Reap(now, faults) => ReapWithin(st, now, faults);
    case SessionEnds(_) =>
    case Restarts(restored, open, now) => RestartWithin(st.disk, restored, open, now);
  }

  /** Deleting a channel whose session has ended always leaves its records behind. */
  lemma EndedChannelLeavesRecords(settings: Settings, st: State, channel: string, proof: Option<Proof>, times: Times,
                                  faults: Faults)
    requires !settings.configMode && channel in st.sessions && (channel in st.owners || channel in st.expires)
    requires AuthorizeDelete(settings.policy, st, OwnerOf(st, channel), channel, proof, times.checked, times.spent,
                             faults).1.Ok?
    ensures var ended := Handle(settings, st, SessionEnds(st.sessions[channel])).0;
            var (st', response) := HandleDelete(settings, ended, channel, proof, times, faults);
            && response.RemoveFailed? && channel !in st'.sessions && !Within(st')
            && OwnerOf(st', channel) == OwnerOf(st, channel) && ExpiryOf(st', channel) == ExpiryOf(st, channel)
  {
    var ended := st.(open := st.open - {st.sessions[channel]});
    SameAuthorization(settings.policy, st, ended, OwnerOf(st, channel), channel, proof, times.checked, times.spent,
                      faults);
    DeleteCases(settings, ended, channel, proof, times, faults);
    var st' := HandleDelete(settings, ended, channel, proof, times, faults).0;
    assert channel !in st'.sessions.Keys;
  }

  /** Authorizing a delete looks at nothing but the nonces. */
  lemma SameAuthorization(policy: GrantPolicy, a: State, b: State, owner: Option<ChannelOwner>, channel: string,
                          proof: Option<Proof>, checked: u64, now: u64, faults: Faults)
    requires a.consumed == b.consumed && a.disk.nonces == b.disk.nonces
    ensures AuthorizeDelete(policy, a, owner, channel, proof, checked, now, faults).1
         == AuthorizeDelete(policy, b, owner, channel, proof, checked, now, faults).1
  {
  }

  // Channels across restarts.

  /** What a restart does to the records of a channel it brings back, `d` being the name it is then
      listed under: under a tidy name they are kept exactly when disk has no record memory had
      forgotten; under another they are dropped, and the channel has what disk held for `d`. */
  lemma RestartedRecords(st: State, restored: map<string, SessionId>, open: set<SessionId>, now: u64, c: string,
                         d: string)
    requires MemoryOnDisk(st) && BringsBack(st, restored)
    requires c in st.sessions && d in restored && restored[d] == st.sessions[c]
    ensures d == Tidy(c)
    ensures var st' := Restart(st.disk, restored, open, now);
            && (IsTidy(c) ==>
                  && (OwnerOf(st', d) == OwnerOf(st, c) <==> (c in st.disk.owners ==> c in st.owners))
                  && (ExpiryOf(st', d) == ExpiryOf(st, c) <==> (c in st.disk.expires ==> c in st.expires)))
            && (!IsTidy(c) ==>
                  && c !in st'.owners && c !in st'.expires && c !in st'.disk.owners && c !in st'.disk.expires
                  && (OwnerOf(st', d).Some? <==> d in st.disk.owners)
                  && (ExpiryOf(st', d).Some? <==> d in st.disk.expires))
  {
  }

  /** With no record of another channel under its tidied name, a channel's owner and expiry
      survive a restart exactly when its name is tidy. */
  lemma RecordsSurviveIffTidy(st: State, restored: map<string, SessionId>, open: set<SessionId>, now: u64, c: string)
    requires MemoryOnDisk(st) && BringsBack(st, restored)
    requires c in st.sessions && Tidy(c) in restored && restored[Tidy(c)] == st.sessions[c]
    requires !IsTidy(c) ==> Tidy(c) !in st.disk.owners && Tidy(c) !in st.disk.expires
    ensures var st' := Restart(st.disk, restored, open, now);
            && (c in st.owners ==> (OwnerOf(st', Tidy(c)) == OwnerOf(st, c) <==> IsTidy(c)))
            && (c in st.expires ==> (ExpiryOf(st', Tidy(c)) == ExpiryOf(st, c) <==> IsTidy(c)))
  {
    RestartedRecords(st, restored, open, now, c, Tidy(c));
  }

  /** Restarting with exactly the live channels brings back exactly their records exactly when
      every channel with a record has a tidy name. */
  lemma RestartBringsBackIff(st: State, restored: map<string, SessionId>, open: set<SessionId>, now: u64)
    requires MemoryIsDisk(st) && Within(st) && BringsBack(st, restored) && restored.Values == st.sessions.Values
    ensures var st' := Restart(st.disk, restored, open, now);
            st'.owners == st.owners && st'.expires == st.expires <==>
              forall c :: c in st.owners.Keys + st.expires.Keys ==> IsTidy(c)
  {
    var st' := Restart(st.disk, restored, open, now);
    forall c | c in st.owners.Keys + st.expires.Keys ensures c in restored.Keys <==> IsTidy(c) {
      assert c in st.sessions.Keys;
      LiveIsRestored(st, restored, c);
    }
    RestrictedSame(st.owners, restored.Keys);
    RestrictedSame(st.expires, restored.Keys);
  }

  lemma LiveIsRestored(st: State, restored: map<string, SessionId>, c: string)
    requires BringsBack(st, restored) && restored.Values == st.sessions.Values && c in st.sessions
    ensures c in restored <==> IsTidy(c)
  {
    assert st.sessions[c] in restored.Values;
    var d :| d in restored && restored[d] == st.sessions[c];
  }

  lemma RestrictedSame<K, V>(m: map<K, V>, keep: set<K>)
    ensures Restrict(m, keep) == m <==> forall k :: k in m.Keys ==> k in keep
  {
    if Restrict(m, keep) == m {
      forall k | k in m.Keys ensures k in keep {
        assert k in Restrict(m, keep);
      }
    }
  }

  // Ownership.

  /** A restart finds a record on disk that memory had forgotten: an earlier delete of it failed. */
  predicate RevivesOwner(st: State, event: Event, channel: string) {
    event.Restarts? && channel in st.disk.owners && channel !in st.owners
  }

  predicate RevivesExpiry(st: State, event: Event, channel: string) {
    event.Restarts? && channel in st.disk.expires && channel !in st.expires
  }

  function OwnerReviver(channel: string): (State, Event) -> bool {
    (st, event) => RevivesOwner(st, event, channel)
  }

  function ExpiryReviver(channel: string): (State, Event) -> bool {
    (st, event) => RevivesExpiry(st, event, channel)
  }

  predicate ListedAs(st: State, channel: string, session: SessionId) {
    channel in st.sessions && st.sessions[channel] == session
  }

  /** While a session stays listed its channel keeps its name, if that is tidy, and keeps its owner
      and expiry exactly when no restart revives a record. */
  lemma RecordsStayIff(settings: Settings, st: State, event: Event, channel: string, session: SessionId)
    requires MemoryOnDisk(st) && SessionsDistinct(st) && Possible(st, event)
    requires ListedAs(st, channel, session) && IsTidy(channel)
    requires session in Handle(settings, st, event).0.sessions.Values
    ensures var st' := Handle(settings, st, event).0;
            && ListedAs(st', channel, session)
            && (OwnerOf(st', channel) == OwnerOf(st, channel) <==> !RevivesOwner(st, event, channel))
            && (ExpiryOf(st', channel) == ExpiryOf(st, channel) <==> !RevivesExpiry(st, event, channel))
  {
    var st' := Handle(settings, st, event).0;
    if event.Restarts? {
      var name :| name in st'.sessions && st'.sessions[name] == session;
      RestartedRecords(st, event.restored, event.open, event.now, channel, name);
    } else {
      ListedKeepsRecords(settings, st, event, channel);
      SessionKeepsName(st, st', channel, session,
                       if event.Create? then Some((event.req.channel, event.session)) else None);
    }
  }

  /** The channel's session and records, in memory and on disk, are as they were. */
  predicate SameChannel(st: State, st': State, channel: string) {
    && Get(st'.sessions, channel) == Get(st.sessions, channel)
    && OwnerOf(st', channel) == OwnerOf(st, channel) && ExpiryOf(st', channel) == ExpiryOf(st, channel)
    && Get(st'.disk.owners, channel) == Get(st.disk.owners, channel)
    && Get(st'.disk.expires, channel) == Get(st.disk.expires, channel)
  }

  lemma CompletedOthers(st: State, st': State, response: Response, channel: string, at: Option<u64>,
                        owner: Option<ChannelOwner>, session: SessionId, faults: Faults, c: string)
    requires Completed(st, st', response, channel, at, owner, session, faults) && c in st.sessions
    ensures SameChannel(st, st', c)
    ensures st'.sessions == st.sessions || st'.sessions == st.sessions[channel := session]
  {
  }

  lemma ReapOthers(st: State, now: u64, faults: Faults, c: string)
    ensures var st' := ReapExpired(st, now, faults);
            (c in st'.sessions ==> SameChannel(st, st', c)) && SubMap(st'.sessions, st.sessions)
  {
  }

  /** What events other than restarts do to the list: unlist channels, or list a new one. */
  lemma ListedKeepsRecords(settings: Settings, st: State, event: Event, channel: string)
    requires !event.Restarts? && channel in st.sessions
    ensures var st' := Handle(settings, st, event).0;
            && (channel in st'.sessions ==> SameChannel(st, st', channel))
            && (SubMap(st'.sessions, st.sessions)
                || (event.Create? && st'.sessions == st.sessions[event.req.channel := event.session]))
  {
    match event
    case Create(req, times, session, faults) =>
      CreateCases(settings, st, req, times, session, faults);
      var (st', response) := HandleCreate(settings, st, req, times, session, faults);
      if !(SameRecords(st, st') && !response.Done?) {
        CompletedOthers(st, st', response, req.channel, ExpiresAt(req.ttlSeconds, times.recorded),
                        NewOwner(CheckCreate(settings.policy, req, times.checked).value, req), session, faults,
                        channel);
      }
    case Delete(c, proof, times, faults) => DeleteCases(settings, st, c, proof, times, faults);
    case ChangeParticipants(change, grant, approval, times, faults, fails) =>
      ChangeCases(settings, st, change, grant, approval, times, faults, fails);
    case Reap(now, faults) => ReapOthers(st, now, faults, channel);
    case SessionEnds(_) =>
  }

  /** A session still listed after that is listed as it was. */
  lemma SessionKeepsName(st: State, st': State, channel: string, session: SessionId,
                         added: Option<(string, SessionId)>)
    requires SessionsDistinct(st) && ListedAs(st, channel, session) && session in st'.sessions.Values
    requires || SubMap(st'.sessions, st.sessions)
             || (added.Some? && st'.sessions == st.sessions[added.value.0 := added.value.1]
                 && added.value.1 !in st.sessions.Values)
    ensures channel in st'.sessions
  {
    var name :| name in st'.sessions && st'.sessions[name] == session;
    assert st.sessions[channel] in st.sessions.Values;
  }

  /** The event asked for `channel`'s deletion with a request its owner or an operator signed for it. */
  ghost predicate SignedDeletion(settings: Settings, signing: SigningLog, st: State, event: Event, channel: string) {
    && event.Delete? && event.channel == channel
    && exists signer: string, deletion: Deletion ::
         && SignedBy(signing, signer, DeleteStatement(deletion))
         && deletion.channel == channel && deletion.audience == settings.policy.audience
         && (signer in settings.policy.operators || (channel in st.owners && signer == st.owners[channel].subject))
  }

  predicate Unlists(settings: Settings, st: State, event: Event, channel: string) {
    channel !in Handle(settings, st, event).0.sessions
  }

  /** An owned channel leaves the list only by a delete its owner or an operator
      signed, by being due, or by a restart that does not restore it. */
  lemma OwnedChannelLeaves(settings: Settings, signing: SigningLog, st: State, event: Event, channel: string)
    requires Ideal(settings.policy.check, signing)
    requires channel in st.sessions && channel in st.owners && Unlists(settings, st, event, channel)
    ensures || SignedDeletion(settings, signing, st, event, channel)
            || (event.Reap? && channel in Due(st, event.now))
            || (event.Restarts? && channel !in event.restored)
  {
    match event
    case Create(req, times, session, faults) => CreateCases(settings, st, req, times, session, faults);
    case Delete(c, proof, times, faults) =>
      DeleteCases(settings, st, c, proof, times, faults);
      var policy, owner := settings.policy, OwnerOf(st, c);
      var checked := CheckDelete(policy, owner, c, proof, times.checked);
      assert checked.Ok? && c == channel;
      var signed := checked.value.value;
      FoundSigner(policy.check, [owner.value.subject] + policy.operators, proof.value);
      VerifiedDelete(policy.check, signing, signed.signer, proof.value);
      assert SignedBy(signing, signed.signer, DeleteStatement(signed.deletion));
    case ChangeParticipants(change, grant, approval, times, faults, fails) =>
      ChangeCases(settings, st, change, grant, approval, times, faults, fails);
    case Reap(_, _) =>
    case SessionEnds(_) =>
    case Restarts(_, _, _) =>
  }

  // The reaper.

  /** A reaper pass leaves no channel due, and channels not due untouched. */
  lemma ReapClears(st: State, now: u64, faults: Faults)
    requires SessionsDistinct(st)
    ensures var st' := ReapExpired(st, now, faults);
            && (forall c :: c in st'.expires ==> st'.expires[c] > now)
            && (forall c :: c in st.expires && st.expires[c] <= now ==> c !in st'.sessions)
            && (forall c :: c in st.sessions && c !in Due(st, now) ==>
                  && c in st'.sessions && st'.sessions[c] == st.sessions[c]
                  && OwnerOf(st', c) == OwnerOf(st, c) && ExpiryOf(st', c) == ExpiryOf(st, c)
                  && (SessionOpen(st, c) <==> SessionOpen(st', c)))
  {
    var st' := ReapExpired(st, now, faults);
    forall c | c in st.sessions && c !in Due(st, now)
      ensures st.sessions[c] !in Closed(st, Due(st, now), faults)
    {
    }
  }

  // Runs.

  function After(settings: Settings, start: State, events: seq<Event>): State
    decreases |events|
  {
    if events == [] then start
    else Handle(settings, After(settings, start, events[..|events| - 1]), events[|events| - 1]).0
  }

  predicate AllPossible(settings: Settings, start: State, events: seq<Event>)
    decreases |events|
  {
    events == [] ||
      var front := events[..|events| - 1];
      AllPossible(settings, start, front) && Possible(After(settings, start, front), events[|events| - 1])
  }

  lemma HandleDistinct(settings: Settings, st: State, event: Event)
    requires SessionsDistinct(st) && Possible(st, event)
    ensures SessionsDistinct(Handle(settings, st, event).0)
  {
    var st' := Handle(settings, st, event).0;
    match event
    case Create(req, times, session, faults) =>
      CreateCases(settings, st, req, times, session, faults);
      assert st'.sessions == st.sessions || st'.sessions == st.sessions[req.channel := session];
      assert forall c :: c in st.sessions ==> st.sessions[c] in st.sessions.Values;
    case Delete(channel, proof, times, faults) =>
      DeleteCases(settings, st, channel, proof, times, faults);
    case ChangeParticipants(change, grant, approval, times, faults, fails) =>
      ChangeCases(settings, st, change, grant, approval, times, faults, fails);
    case _ =>
  }

  lemma {:induction false} RunDistinct(settings: Settings, start: State, events: seq<Event>)
    requires SessionsDistinct(start) && AllPossible(settings, start, events)
    ensures SessionsDistinct(After(settings, start, events))
    decreases |events|
  {
    if events != [] {
      var front := events[..|events| - 1];
      RunDistinct(settings, start, front);
      HandleDistinct(settings, After(settings, start, front), events[|events| - 1]);
    }
  }

  lemma AfterThree(settings: Settings, start: State, a: Event, b: Event, c: Event)
    ensures After(settings, start, [a] + [b] + [c])
         == Handle(settings, Handle(settings, Handle(settings, start, a).0, b).0, c).0
  {
    AfterOne(settings, start, [], a);
    AfterOne(settings, start, [a], b);
    AfterOne(settings, start, [a] + [b], c);
    assert [] + [a] == [a];
  }

  lemma AfterOne(settings: Settings, start: State, events: seq<Event>, event: Event)
    ensures After(settings, start, events + [event]) == Handle(settings, After(settings, start, events), event).0
  {
    assert (events + [event])[..|events|] == events;
  }

  /** A request for a new channel that needs no signature, and nothing of that name or session before. */
  predicate PlainRequest(settings: Settings, start: State, req: CreateRequest, session: SessionId) {
    && !settings.configMode && !settings.policy.requireSignatures
    && ValidName(req.channel) && req.ownerProof.None? && req.callbackName.None?
    && req.ttlSeconds.Some? && req.ttlSeconds.value > 0
    && req.channel !in start.sessions && session !in start.open && session !in start.sessions.Values
  }

  lemma PlainRequestSucceeds(settings: Settings, start: State, req: CreateRequest, times: Times, session: SessionId,
                             faults: Faults)
    requires PlainRequest(settings, start, req, session)
    requires !faults.createSession && !faults.putExpiry && !faults.putOwner
    ensures var (st, response) := HandleCreate(settings, start, req, times, session, faults);
            && response.Done?
            && st == start.(sessions := start.sessions[req.channel := session], open := start.open + {session},
                            expires := start.expires[req.channel := ExpiresAt(req.ttlSeconds, times.recorded).value],
                            disk := start.disk.(expires :=
                              start.disk.expires[req.channel := ExpiresAt(req.ttlSeconds, times.recorded).value]))
  {
  }

  /** A channel with a TTL whose session ends by itself and which is then deleted leaves its expiry record behind. */
  lemma EndedThenDeleted(settings: Settings, start: State, req: CreateRequest, times: Times, session: SessionId,
                         faults: Faults)
    requires PlainRequest(settings, start, req, session) && req.channel !in start.owners
    requires !faults.createSession && !faults.putExpiry && !faults.putOwner
    ensures var events := [Create(req, times, session, faults)] + [SessionEnds(session)]
                          + [Event.Delete(req.channel, None, times, faults)];
            !Within(After(settings, start, events))
  {
    PlainRequestSucceeds(settings, start, req, times, session, faults);
    AfterThree(settings, start, Create(req, times, session, faults), SessionEnds(session),
               Event.Delete(req.channel, None, times, faults));
    var st := HandleCreate(settings, start, req, times, session, faults).0;
    assert AuthorizeDelete(settings.policy, st, OwnerOf(st, req.channel), req.channel, None, times.checked, times.spent,
                           faults).1.Ok?;
    EndedChannelLeavesRecords(settings, st, req.channel, None, times, faults);
  }

  /** In every run from a state whose memory is on disk it stays there, and while record deletes
      succeed the two stay equal. */
  lemma {:induction false} RunKeepsDisk(settings: Settings, start: State, events: seq<Event>)
    requires MemoryIsDisk(start)
    ensures var st := After(settings, start, events);
            && MemoryOnDisk(st)
            && ((forall k :: 0 <= k < |events| ==> RecordDeletesSucceed(events[k])) ==> MemoryIsDisk(st))
    decreases |events|
  {
    if events != [] {
      var front := events[..|events| - 1];
      RunKeepsDisk(settings, start, front);
      EventKeepsDisk(settings, After(settings, start, front), events[|events| - 1]);
    }
  }

  /** In every run in which record deletes succeed, restarting with exactly the live channels then brings
      back their records, exactly when the names of channels with records are tidy. */
  lemma RunRestartsIff(settings: Settings, start: State, events: seq<Event>, restored: map<string, SessionId>,
                       open: set<SessionId>, now: u64)
    requires MemoryIsDisk(start) && forall k :: 0 <= k < |events| ==> RecordDeletesSucceed(events[k])
    requires var st := After(settings, start, events);
             BringsBack(st, restored) && restored.Values == st.sessions.Values
    ensures var st := After(settings, start, events);
            var st' := Restart(st.disk, restored, open, now);
            && st'.owners == Restrict(st.owners, restored.Keys) && st'.expires == Restrict(st.expires, restored.Keys)
            && (Within(st) ==>
                  (st'.owners == st.owners && st'.expires == st.expires <==>
                     forall c :: c in st.owners.Keys + st.expires.Keys ==> IsTidy(c)))
  {
    RunKeepsDisk(settings, start, events);
    if Within(After(settings, start, events)) {
      RestartBringsBackIff(After(settings, start, events), restored, open, now);
    }
  }

  /** Records name live channels only at every point of the run. */
  predicate WithinThroughout(settings: Settings, start: State, events: seq<Event>)
    decreases |events|
  {
    && Within(After(settings, start, events))
    && (events == [] || WithinThroughout(settings, start, events[..|events| - 1]))
  }

  predicate NoDeleteStops(settings: Settings, start: State, events: seq<Event>)
    decreases |events|
  {
    events == [] ||
      var front := events[..|events| - 1];
      && NoDeleteStops(settings, start, front)
      && !DeleteStops(settings, After(settings, start, front), events[|events| - 1])
  }

  /** In every run the records name live channels only, all the way, exactly when no delete on the way
      takes a channel with records off the list whose session has ended or cannot be deleted. */
  lemma {:induction false} RunWithin(settings: Settings, start: State, events: seq<Event>)
    requires Within(start)
    ensures WithinThroughout(settings, start, events) <==> NoDeleteStops(settings, start, events)
    decreases |events|
  {
    if events != [] {
      var front := events[..|events| - 1];
      RunWithin(settings, start, front);
      if Within(After(settings, start, front)) {
        EventWithin(settings, After(settings, start, front), events[|events| - 1]);
      }
    }
  }

  /** The session is listed at every point from `from` on. */
  predicate StaysListed(settings: Settings, start: State, events: seq<Event>, from: nat, session: SessionId) {
    forall k :: from <= k <= |events| ==> session in After(settings, start, events[..k]).sessions.Values
  }

  ghost predicate NoneRevived(settings: Settings, start: State, events: seq<Event>, from: nat,
                              revives: (State, Event) -> bool)
  {
    forall k :: from <= k < |events| ==> !revives(After(settings, start, events[..k]), events[k])
  }

  lemma StaysListedBefore(settings: Settings, start: State, events: seq<Event>, from: nat, session: SessionId)
    requires events != [] && StaysListed(settings, start, events, from, session)
    ensures StaysListed(settings, start, events[..|events| - 1], from, session)
    ensures from <= |events| ==> session in After(settings, start, events).sessions.Values
  {
    var front := events[..|events| - 1];
    forall k | from <= k <= |front| ensures session in After(settings, start, front[..k]).sessions.Values {
      assert front[..k] == events[..k];
    }
    assert events[..|events|] == events;
  }

  lemma NoneRevivedOneMore(settings: Settings, start: State, events: seq<Event>, from: nat,
                           revives: (State, Event) -> bool)
    requires from < |events|
    ensures var front := events[..|events| - 1];
            NoneRevived(settings, start, events, from, revives) <==>
              && NoneRevived(settings, start, front, from, revives)
              && !revives(After(settings, start, front), events[|events| - 1])
  {
    var front := events[..|events| - 1];
    assert forall k :: 0 <= k <= |front| ==> front[..k] == events[..k];
    assert forall k :: 0 <= k < |front| ==> front[k] == events[k];
  }

  /** In every run a channel with a tidy name whose session stays listed keeps its owner and its expiry
      exactly when no restart on the way revives a record an earlier delete failed to remove; a
      revived record stays. */
  lemma {:induction false} RecordsStayThroughoutIff(settings: Settings, start: State, events: seq<Event>, from: nat,
                                                    channel: string, session: SessionId)
    requires MemoryIsDisk(start) && SessionsDistinct(start) && AllPossible(settings, start, events)
    requires from <= |events| && IsTidy(channel)
    requires ListedAs(After(settings, start, events[..from]), channel, session)
    requires StaysListed(settings, start, events, from, session)
    ensures var was, st := After(settings, start, events[..from]), After(settings, start, events);
            && ListedAs(st, channel, session)
            && (if NoneRevived(settings, start, events, from, OwnerReviver(channel))
                then OwnerOf(st, channel) == OwnerOf(was, channel)
                else OwnerOf(was, channel).None? && OwnerOf(st, channel).Some?)
            && (if NoneRevived(settings, start, events, from, ExpiryReviver(channel))
                then ExpiryOf(st, channel) == ExpiryOf(was, channel)
                else ExpiryOf(was, channel).None? && ExpiryOf(st, channel).Some?)
    decreases |events|
  {
    if from == |events| {
      assert events[..from] == events;
    } else {
      var front, last := events[..|events| - 1], events[|events| - 1];
      StaysListedBefore(settings, start, events, from, session);
      assert front[..from] == events[..from];
      RecordsStayThroughoutIff(settings, start, front, from, channel, session);
      RunKeepsDisk(settings, start, front);
      RunDistinct(settings, start, front);
      NoneRevivedOneMore(settings, start, events, from, OwnerReviver(channel));
      NoneRevivedOneMore(settings, start, events, from, ExpiryReviver(channel));
      assert events[..|events| - 1] == front;
      RecordsStayIff(settings, After(settings, start, front), last, channel, session);
    }
  }

  /** In every run in which record deletes succeed, a channel with a tidy name whose session stays
      listed keeps its owner and its expiry. */
  lemma RecordsStayThroughout(settings: Settings, start: State, events: seq<Event>, from: nat, channel: string,
                              session: SessionId)
    requires MemoryIsDisk(start) && SessionsDistinct(start) && AllPossible(settings, start, events)
    requires forall k :: 0 <= k < |events| ==> RecordDeletesSucceed(events[k])
    requires from <= |events| && IsTidy(channel)
    requires ListedAs(After(settings, start, events[..from]), channel, session)
    requires StaysListed(settings, start, events, from, session)
    ensures var was, st := After(settings, start, events[..from]), After(settings, start, events);
            && ListedAs(st, channel, session)
            && OwnerOf(st, channel) == OwnerOf(was, channel) && ExpiryOf(st, channel) == ExpiryOf(was, channel)
  {
    forall k | from <= k < |events| ensures MemoryIsDisk(After(settings, start, events[..k])) {
      RunKeepsDisk(settings, start, events[..k]);
    }
    RecordsStayThroughoutIff(settings, start, events, from, channel, session);
  }
}
