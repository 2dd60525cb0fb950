/** What channels were created with, over whole runs of the channel manager
    (crates/channel-manager/src/service.rs): exactly when a session created with an owner or a
    TTL is ever listed without it, and so exactly when channels are gone after their TTL. */
module PromiseRuns {
  import opened Prelude
  import opened Names
  import opened Store
  import opened Policy
  import opened Manager
  import opened RecordRuns
  import Answers

  /** The expiry and owner each session was created with. A session that leaves the list keeps
      them: one that was not deleted may come back with a restart. */
  datatype Promises = Promises(due: map<SessionId, u64>, owners: map<SessionId, ChannelOwner>)

  function OwnerAsked(policy: GrantPolicy, req: CreateRequest, checked: u64): Option<ChannelOwner> {
    match CheckCreate(policy, req, checked)
    case Ok(creation) => NewOwner(creation, req)
    case Err(_) => None
  }

  /** A successful create promises what it asked for. */
  function Promise(settings: Settings, st: State, promises: Promises, event: Event): Promises {
    if event.Create? && Handle(settings, st, event).1.Done? then
      Promises(Put(promises.due, event.session, ExpiresAt(event.req.ttlSeconds, event.times.recorded)),
               Put(promises.owners, event.session, OwnerAsked(settings.policy, event.req, event.times.checked)))
    else promises
  }

  function Promised(settings: Settings, start: State, events: seq<Event>): Promises
    decreases |events|
  {
    if events == [] then Promises(map[], map[])
    else
      var front := events[..|events| - 1];
      Promise(settings, After(settings, start, front), Promised(settings, start, front), events[|events| - 1])
  }

  /** Sessions are not used again. */
  predicate NewSession(promises: Promises, event: Event) {
    event.Create? ==> event.session !in promises.due && event.session !in promises.owners
  }

  /** A run whose every event is possible. */
  predicate Proper(settings: Settings, start: State, events: seq<Event>)
    decreases |events|
  {
    events == [] ||
      var front, last := events[..|events| - 1], events[|events| - 1];
      && Proper(settings, start, front)
      && Possible(After(settings, start, front), last) && NewSession(Promised(settings, start, front), last)
  }

  lemma {:induction false} ProperIsPossible(settings: Settings, start: State, events: seq<Event>)
    requires Proper(settings, start, events)
    ensures AllPossible(settings, start, events)
    decreases |events|
  {
    if events != [] {
      ProperIsPossible(settings, start, events[..|events| - 1]);
    }
  }

  // One record of each listed session, in memory and on disk.

  /** What is on record will do for what was promised. */
  predicate Honours<V>(ok: (V, V) -> bool, record: Option<V>, promise: V) {
    record.Some? && ok(record.value, promise)
  }

  /** Every listed session that was promised something has it on record. */
  predicate OnRecord<V>(ok: (V, V) -> bool, sessions: map<string, SessionId>, promised: map<SessionId, V>,
                        memory: map<string, V>, disk: map<string, V>)
  {
    forall c :: c in sessions && sessions[c] in promised ==>
      Honours(ok, Get(memory, c), promised[sessions[c]]) && Honours(ok, Get(disk, c), promised[sessions[c]])
  }

  /** Disk has what every session brought back was promised, under the name it is then listed by. */
  predicate DiskHas<V>(ok: (V, V) -> bool, restored: map<string, SessionId>, promised: map<SessionId, V>,
                       disk: map<string, V>)
  {
    forall d :: d in restored && restored[d] in promised ==> Honours(ok, Get(disk, d), promised[restored[d]])
  }

  lemma RestartedOnRecord<V>(ok: (V, V) -> bool, restored: map<string, SessionId>, promised: map<SessionId, V>,
                             disk: map<string, V>)
    ensures var kept := Restrict(disk, restored.Keys);
            OnRecord(ok, restored, promised, kept, kept) <==> DiskHas(ok, restored, promised, disk)
  {
    assert forall d :: d in restored ==> Get(Restrict(disk, restored.Keys), d) == Get(disk, d);
  }

  lemma CreatedOnRecord<V>(ok: (V, V) -> bool, sessions: map<string, SessionId>, promised: map<SessionId, V>,
                           memory: map<string, V>, disk: map<string, V>, channel: string, session: SessionId,
                           value: Option<V>)
    requires OnRecord(ok, sessions, promised, memory, disk) && (value.Some? ==> ok(value.value, value.value))
    requires channel !in sessions && session !in sessions.Values && session !in promised
    ensures OnRecord(ok, sessions[channel := session], Put(promised, session, value), Put(memory, channel, value),
                     Put(disk, channel, value))
  {
    forall c | c in sessions && c != channel ensures sessions[c] != session {
      assert sessions[c] in sessions.Values;
    }
  }

  /** Listed sessions whose records stay are still on record. */
  lemma StillOnRecord<V>(ok: (V, V) -> bool, sessions: map<string, SessionId>, sessions': map<string, SessionId>,
                         promised: map<SessionId, V>, memory: map<string, V>, memory': map<string, V>,
                         disk: map<string, V>, disk': map<string, V>)
    requires OnRecord(ok, sessions, promised, memory, disk)
    requires forall c :: c in sessions' ==> c in sessions && sessions[c] == sessions'[c]
    requires forall c :: c in sessions' ==> Get(memory', c) == Get(memory, c) && Get(disk', c) == Get(disk, c)
    ensures OnRecord(ok, sessions', promised, memory', disk')
  {
  }

  // Events.

  /** The owner on record is the one promised; so is the expiry; the expiry is no later than promised. */
  datatype Kind = Owner | Expiry | InTime

  function SameOwner(): (ChannelOwner, ChannelOwner) -> bool {
    (a, b) => a == b
  }

  function TimeOk(kind: Kind): (u64, u64) -> bool {
    if kind.InTime? then (a, b) => a <= b else (a, b) => a == b
  }

  predicate Kept(kind: Kind, st: State, promises: Promises) {
    if kind.Owner? then OnRecord(SameOwner(), st.sessions, promises.owners, st.owners, st.disk.owners)
    else OnRecord(TimeOk(kind), st.sessions, promises.due, st.expires, st.disk.expires)
  }

  /** The event is not a restart that brings back a session under a name disk does not have its record for. */
  predicate Keeps(kind: Kind, st: State, promises: Promises, event: Event) {
    event.Restarts? ==>
      if kind.Owner? then DiskHas(SameOwner(), event.restored, promises.owners, st.disk.owners)
      else DiskHas(TimeOk(kind), event.restored, promises.due, st.disk.expires)
  }

  lemma RestartKeeps(kind: Kind, st: State, promises: Promises, restored: map<string, SessionId>,
                     open: set<SessionId>, now: u64)
    ensures Kept(kind, Restart(st.disk, restored, open, now), promises)
       <==> Keeps(kind, st, promises, Restarts(restored, open, now))
  {
    RestartedOnRecord(SameOwner(), restored, promises.owners, st.disk.owners);
    RestartedOnRecord(TimeOk(kind), restored, promises.due, st.disk.expires);
  }

  lemma CreateKeeps(settings: Settings, kind: Kind, st: State, promises: Promises, event: Event)
    requires event.Create? && Handle(settings, st, event).1.Done?
    requires Kept(kind, st, promises) && Possible(st, event) && NewSession(promises, event)
    ensures Kept(kind, Handle(settings, st, event).0, Promise(settings, st, promises, event))
  {
    var req, times := event.req, event.times;
    CreateCases(settings, st, req, times, event.session, event.faults);
    if kind.Owner? {
      CreatedOnRecord(SameOwner(), st.sessions, promises.owners, st.owners, st.disk.owners, req.channel,
                      event.session, OwnerAsked(settings.policy, req, times.checked));
    } else {
      CreatedOnRecord(TimeOk(kind), st.sessions, promises.due, st.expires, st.disk.expires, req.channel,
                      event.session, ExpiresAt(req.ttlSeconds, times.recorded));
    }
  }

  /** Anything but a successful create or a restart takes channels off the list at most. */
  lemma OtherEvents(settings: Settings, st: State, event: Event, c: string)
    requires !event.Restarts? && !(event.Create? && Handle(settings, st, event).1.Done?)
    requires c in Handle(settings, st, event).0.sessions
    ensures c in st.sessions && st.sessions[c] == Handle(settings, st, event).0.sessions[c]
  {
    match event
    case Create(req, times, session, faults) => CreateCases(settings, st, req, times, session, faults);
    case Delete(channel, proof, times, faults) => DeleteCases(settings, st, channel, proof, times, faults);
    case ChangeParticipants(change, grant, approval, times, faults, fails) =>
      ChangeCases(settings, st, change, grant, approval, times, faults, fails);
    case Reap(_, _) =>
    case SessionEnds(_) =>
  }

  lemma OtherKeeps(settings: Settings, kind: Kind, st: State, promises: Promises, event: Event)
    requires !event.Restarts? && !(event.Create? && Handle(settings, st, event).1.Done?)
    requires Kept(kind, st, promises)
    ensures Kept(kind, Handle(settings, st, event).0, promises)
  {
    var st' := Handle(settings, st, event).0;
    forall c | c in st'.sessions
      ensures c in st.sessions && st.sessions[c] == st'.sessions[c]
      ensures Get(st'.owners, c) == Get(st.owners, c) && Get(st'.disk.owners, c) == Get(st.disk.owners, c)
      ensures Get(st'.expires, c) == Get(st.expires, c) && Get(st'.disk.expires, c) == Get(st.disk.expires, c)
    {
      OtherEvents(settings, st, event, c);
      ListedKeepsRecords(settings, st, event, c);
    }
    if kind.Owner? {
      StillOnRecord(SameOwner(), st.sessions, st'.sessions, promises.owners, st.owners, st'.owners,
                    st.disk.owners, st'.disk.owners);
    } else {
      StillOnRecord(TimeOk(kind), st.sessions, st'.sessions, promises.due, st.expires, st'.expires,
                    st.disk.expires, st'.disk.expires);
    }
  }

  /** An event keeps every listed session's record exactly when it is no restart that brings one
      back, listed before or not, under a name disk does not have its record for. */
  lemma EventKeeps(settings: Settings, kind: Kind, st: State, promises: Promises, event: Event)
    requires Kept(kind, st, promises) && Possible(st, event) && NewSession(promises, event)
    ensures Kept(kind, Handle(settings, st, event).0, Promise(settings, st, promises, event))
       <==> Keeps(kind, st, promises, event)
  {
    if event.Restarts? {
      RestartKeeps(kind, st, promises, event.restored, event.open, event.now);
    } else if event.Create? && Handle(settings, st, event).1.Done? {
      CreateKeeps(settings, kind, st, promises, event);
    } else {
      OtherKeeps(settings, kind, st, promises, event);
    }
  }

  // Runs.

  predicate KeptAfter(settings: Settings, start: State, kind: Kind, events: seq<Event>) {
    Kept(kind, After(settings, start, events), Promised(settings, start, events))
  }

  predicate KeepsAfter(settings: Settings, start: State, kind: Kind, events: seq<Event>, event: Event) {
    Keeps(kind, After(settings, start, events), Promised(settings, start, events), event)
  }

  predicate KeptThroughout(settings: Settings, start: State, kind: Kind, events: seq<Event>)
    decreases |events|
  {
    && KeptAfter(settings, start, kind, events)
    && (events == [] || KeptThroughout(settings, start, kind, events[..|events| - 1]))
  }

  /** No restart of the run brings a session back under a name disk does not have its record for. */
  predicate RestartsKeep(settings: Settings, start: State, kind: Kind, events: seq<Event>)
    decreases |events|
  {
    events == [] ||
      var front := events[..|events| - 1];
      && RestartsKeep(settings, start, kind, front)
      && KeepsAfter(settings, start, kind, front, events[|events| - 1])
  }

  lemma KeptAfterOne(settings: Settings, start: State, kind: Kind, events: seq<Event>)
    requires events != [] && Proper(settings, start, events)
    requires KeptAfter(settings, start, kind, events[..|events| - 1])
    ensures KeptAfter(settings, start, kind, events) <==>
              KeepsAfter(settings, start, kind, events[..|events| - 1], events[|events| - 1])
  {
    var front := events[..|events| - 1];
    EventKeeps(settings, kind, After(settings, start, front), Promised(settings, start, front), events[|events| - 1]);
  }

  /** In every run every listed session created with an owner, or with a TTL, has it on record all the
      way, in memory and on disk, exactly when no restart on the way brings one back under a name
      disk does not have its record for. */
  lemma {:induction false} RunKeepsIff(settings: Settings, start: State, kind: Kind, events: seq<Event>)
    requires Proper(settings, start, events)
    ensures KeptThroughout(settings, start, kind, events) <==> RestartsKeep(settings, start, kind, events)
    decreases |events|
  {
    if events != [] {
      var front := events[..|events| - 1];
      RunKeepsIff(settings, start, kind, front);
      if KeptAfter(settings, start, kind, front) {
        KeptAfterOne(settings, start, kind, events);
      }
    }
  }

  /** Every session created with an owner that is listed has that owner. */
  predicate OwnersRight(st: State, promises: Promises) {
    forall c :: c in st.sessions && st.sessions[c] in promises.owners ==>
      OwnerOf(st, c) == Some(promises.owners[st.sessions[c]])
  }

  predicate OwnersRightThroughout(settings: Settings, start: State, events: seq<Event>)
    decreases |events|
  {
    && OwnersRight(After(settings, start, events), Promised(settings, start, events))
    && (events == [] || OwnersRightThroughout(settings, start, events[..|events| - 1]))
  }

  lemma {:induction false} RightIsKept(settings: Settings, start: State, events: seq<Event>)
    requires MemoryIsDisk(start)
    ensures OwnersRightThroughout(settings, start, events) <==> KeptThroughout(settings, start, Owner, events)
    decreases |events|
  {
    RunKeepsDisk(settings, start, events);
    if events != [] {
      RightIsKept(settings, start, events[..|events| - 1]);
    }
  }

  /** In every run no session created with an owner is ever listed without that owner exactly when every
      restart finds on disk the owner of each session it brings back, listed before or not. */
  lemma NeverWithoutOwnerIff(settings: Settings, start: State, events: seq<Event>)
    requires MemoryIsDisk(start) && Proper(settings, start, events)
    ensures OwnersRightThroughout(settings, start, events) <==> RestartsKeep(settings, start, Owner, events)
  {
    RightIsKept(settings, start, events);
    RunKeepsIff(settings, start, Owner, events);
  }

  /** No listed session is due at `now` by what it was created with. */
  predicate NoneOverdue(st: State, promises: Promises, now: u64) {
    forall c :: c in st.sessions && st.sessions[c] in promises.due ==> promises.due[st.sessions[c]] > now
  }

  /** In every run whose restarts find a deadline on disk, no later than promised, for the sessions they
      bring back, no session created with a TTL is listed after a reaper pass at or after its expiry. */
  lemma NothingOutlivesItsTtl(settings: Settings, start: State, events: seq<Event>)
    requires SessionsDistinct(start) && Proper(settings, start, events)
    requires RestartsKeep(settings, start, InTime, events)
    requires events != [] && events[|events| - 1].Reap?
    ensures NoneOverdue(After(settings, start, events), Promised(settings, start, events), events[|events| - 1].now)
  {
    var front, last := events[..|events| - 1], events[|events| - 1];
    RunKeepsIff(settings, start, InTime, events);
    ProperIsPossible(settings, start, front);
    RunDistinct(settings, start, front);
    ReapClears(After(settings, start, front), last.now, last.faults);
  }

  /** A reaper pass at any time, with any failures, leaves no session overdue. */
  ghost predicate ReapedInTime(st: State, promises: Promises) {
    forall now: u64, faults: Faults :: NoneOverdue(ReapExpired(st, now, faults), promises, now)
  }

  /** A session on the list with no deadline in memory, or a later one, is left there when it is overdue. */
  lemma LateIsOverdue(st: State, promises: Promises, c: string)
    requires c in st.sessions && st.sessions[c] in promises.due
    requires !Honours(TimeOk(InTime), Get(st.expires, c), promises.due[st.sessions[c]])
    ensures !ReapedInTime(st, promises)
  {
    var now, faults := promises.due[st.sessions[c]], Faults(false, {}, false, false, {}, {}, false, {});
    var st' := ReapExpired(st, now, faults);
    assert c in st'.sessions && st'.sessions[c] == st.sessions[c];
    assert !NoneOverdue(st', promises, now);
  }

  lemma ReapedIffInTime(st: State, promises: Promises)
    requires SessionsDistinct(st) && MemoryOnDisk(st)
    ensures ReapedInTime(st, promises) <==> Kept(InTime, st, promises)
  {
    if Kept(InTime, st, promises) {
      forall now: u64, faults: Faults ensures NoneOverdue(ReapExpired(st, now, faults), promises, now) {
        ReapClears(st, now, faults);
      }
    } else {
      var c :| c in st.sessions && st.sessions[c] in promises.due
               && !(&& Honours(TimeOk(InTime), Get(st.expires, c), promises.due[st.sessions[c]])
                    && Honours(TimeOk(InTime), Get(st.disk.expires, c), promises.due[st.sessions[c]]));
      assert c in st.expires ==> Get(st.disk.expires, c) == Get(st.expires, c);
      LateIsOverdue(st, promises, c);
    }
  }

  ghost predicate ReapedThroughout(settings: Settings, start: State, events: seq<Event>)
    decreases |events|
  {
    && ReapedInTime(After(settings, start, events), Promised(settings, start, events))
    && (events == [] || ReapedThroughout(settings, start, events[..|events| - 1]))
  }

  lemma {:induction false} ReapedIsKept(settings: Settings, start: State, events: seq<Event>)
    requires MemoryIsDisk(start) && SessionsDistinct(start) && Proper(settings, start, events)
    ensures ReapedThroughout(settings, start, events) <==> KeptThroughout(settings, start, InTime, events)
    decreases |events|
  {
    RunKeepsDisk(settings, start, events);
    ProperIsPossible(settings, start, events);
    RunDistinct(settings, start, events);
    ReapedIffInTime(After(settings, start, events), Promised(settings, start, events));
    if events != [] {
      ReapedIsKept(settings, start, events[..|events| - 1]);
    }
  }

  /** The condition is exact: in every run a reaper pass, whenever it comes and whatever fails in it, leaves
      no session overdue exactly when every restart finds on disk a deadline no later than promised for
      each session it brings back, listed before or not. */
  lemma NothingOutlivesIff(settings: Settings, start: State, events: seq<Event>)
    requires MemoryIsDisk(start) && SessionsDistinct(start) && Proper(settings, start, events)
    ensures ReapedThroughout(settings, start, events) <==> RestartsKeep(settings, start, InTime, events)
  {
    ReapedIsKept(settings, start, events);
    RunKeepsIff(settings, start, InTime, events);
  }

  // Conditions on the requests.

  predicate AsksFor(kind: Kind, req: CreateRequest) {
    if kind.Owner? then req.ownerProof.Some? else req.ttlSeconds.Some?
  }

  predicate Has(kind: Kind, promises: Promises, session: SessionId) {
    if kind.Owner? then session in promises.owners else session in promises.due
  }

  /** A create that asks for the record names the channel tidily. */
  predicate TidyRequest(kind: Kind, event: Event) {
    event.Create? && AsksFor(kind, event.req) ==> IsTidy(event.req.channel)
  }

  /** A restart brings back sessions that were listed, and no others. */
  predicate OnlyListed(st: State, event: Event) {
    event.Restarts? ==> event.restored.Values <= st.sessions.Values
  }

  predicate WellNamed(settings: Settings, start: State, kind: Kind, events: seq<Event>)
    decreases |events|
  {
    events == [] ||
      var front, last := events[..|events| - 1], events[|events| - 1];
      && WellNamed(settings, start, kind, front)
      && TidyRequest(kind, last) && OnlyListed(After(settings, start, front), last)
  }

  predicate TidyNames(kind: Kind, st: State, promises: Promises) {
    forall c :: c in st.sessions && Has(kind, promises, st.sessions[c]) ==> IsTidy(c)
  }

  lemma EventTidy(settings: Settings, kind: Kind, st: State, promises: Promises, event: Event)
    requires TidyNames(kind, st, promises) && Possible(st, event) && NewSession(promises, event)
    requires TidyRequest(kind, event)
    ensures TidyNames(kind, Handle(settings, st, event).0, Promise(settings, st, promises, event))
  {
    var st' := Handle(settings, st, event).0;
    if event.Create? && Handle(settings, st, event).1.Done? {
      CreateCases(settings, st, event.req, event.times, event.session, event.faults);
      forall c | c in st.sessions ensures st.sessions[c] != event.session {
        assert st.sessions[c] in st.sessions.Values;
      }
    } else if !event.Restarts? {
      forall c | c in st'.sessions ensures c in st.sessions && st.sessions[c] == st'.sessions[c] {
        OtherEvents(settings, st, event, c);
      }
    }
  }

  /** Bringing back listed sessions with tidy names finds their records. */
  lemma TidyKeeps(kind: Kind, st: State, promises: Promises, event: Event)
    requires Kept(kind, st, promises) && TidyNames(kind, st, promises)
    requires Possible(st, event) && OnlyListed(st, event)
    ensures Keeps(kind, st, promises, event)
  {
    if event.Restarts? {
      forall d | d in event.restored && Has(kind, promises, event.restored[d])
        ensures d in st.sessions && st.sessions[d] == event.restored[d]
      {
        assert event.restored[d] in st.sessions.Values;
        var c :| c in st.sessions && st.sessions[c] == event.restored[d];
      }
    }
  }

  predicate TidyAfter(settings: Settings, start: State, kind: Kind, events: seq<Event>) {
    TidyNames(kind, After(settings, start, events), Promised(settings, start, events))
  }

  lemma TidyAfterOne(settings: Settings, start: State, kind: Kind, events: seq<Event>)
    requires events != [] && Proper(settings, start, events) && WellNamed(settings, start, kind, events)
    requires TidyAfter(settings, start, kind, events[..|events| - 1])
    requires KeptAfter(settings, start, kind, events[..|events| - 1])
    ensures TidyAfter(settings, start, kind, events)
    ensures KeepsAfter(settings, start, kind, events[..|events| - 1], events[|events| - 1])
  {
    var front, last := events[..|events| - 1], events[|events| - 1];
    var st, promises := After(settings, start, front), Promised(settings, start, front);
    EventTidy(settings, kind, st, promises, last);
    TidyKeeps(kind, st, promises, last);
  }

  /** When requests are well named the restarts keep the records. */
  lemma {:induction false} RunTidy(settings: Settings, start: State, kind: Kind, events: seq<Event>)
    requires Proper(settings, start, events) && WellNamed(settings, start, kind, events)
    ensures TidyAfter(settings, start, kind, events) && KeptAfter(settings, start, kind, events)
    ensures RestartsKeep(settings, start, kind, events)
    decreases |events|
  {
    if events != [] {
      RunTidy(settings, start, kind, events[..|events| - 1]);
      TidyAfterOne(settings, start, kind, events);
      KeptAfterOne(settings, start, kind, events);
    }
  }

  /** So nothing outlives its TTL in every run in which channels with a TTL are asked for by tidy names
      and restarts bring back listed sessions only. */
  lemma TidyNamesDoNotOutlive(settings: Settings, start: State, events: seq<Event>)
    requires SessionsDistinct(start) && Proper(settings, start, events) && WellNamed(settings, start, InTime, events)
    requires events != [] && events[|events| - 1].Reap?
    ensures NoneOverdue(After(settings, start, events), Promised(settings, start, events), events[|events| - 1].now)
  {
    RunTidy(settings, start, InTime, events);
    NothingOutlivesItsTtl(settings, start, events);
  }

  /** And no channel loses its owner in every run in which owners ask for tidy names and restarts bring back
      listed sessions only. */
  lemma TidyNamesKeepOwners(settings: Settings, start: State, events: seq<Event>)
    requires MemoryIsDisk(start) && Proper(settings, start, events) && WellNamed(settings, start, Owner, events)
    ensures OwnersRightThroughout(settings, start, events)
  {
    RunTidy(settings, start, Owner, events);
    NeverWithoutOwnerIff(settings, start, events);
  }

  // Both conditions are needed.

  /** One more event. */
  lemma GoOn(settings: Settings, start: State, front: seq<Event>, last: Event)
    requires Proper(settings, start, front)
    requires Possible(After(settings, start, front), last) && NewSession(Promised(settings, start, front), last)
    ensures Proper(settings, start, front + [last])
    ensures After(settings, start, front + [last]) == Handle(settings, After(settings, start, front), last).0
    ensures Promised(settings, start, front + [last])
         == Promise(settings, After(settings, start, front), Promised(settings, start, front), last)
  {
    assert (front + [last])[..|front|] == front;
  }

  /** Nothing but this channel is listed under the session. */
  ghost predicate ListedOnlyAs(st: State, channel: string, session: SessionId) {
    ListedAs(st, channel, session) && forall c :: ListedAs(st, c, session) ==> c == channel
  }

  lemma PlainPromise(settings: Settings, start: State, req: CreateRequest, times: Times, session: SessionId,
                     faults: Faults)
    requires PlainRequest(settings, start, req, session)
    requires !faults.createSession && !faults.putExpiry && !faults.putOwner
    ensures var create, at := Create(req, times, session, faults), ExpiresAt(req.ttlSeconds, times.recorded).value;
            var st := Handle(settings, start, create).0;
            && Possible(start, create) && ListedOnlyAs(st, req.channel, session)
            && Promise(settings, start, Promises(map[], map[]), create).due == map[session := at]
            && Get(st.expires, req.channel) == Some(at)
            && st.disk.expires.Keys == start.disk.expires.Keys + {req.channel}
  {
    PlainRequestSucceeds(settings, start, req, times, session, faults);
    assert forall c :: c in start.sessions ==> start.sessions[c] in start.sessions.Values;
  }

  /** A plain create and what it promises. */
  lemma CreatedPlain(settings: Settings, start: State, req: CreateRequest, times: Times, session: SessionId,
                     faults: Faults)
    requires PlainRequest(settings, start, req, session)
    requires !faults.createSession && !faults.putExpiry && !faults.putOwner
    ensures var events := [Create(req, times, session, faults)];
            var st, at := After(settings, start, events), ExpiresAt(req.ttlSeconds, times.recorded).value;
            && Proper(settings, start, events) && ListedOnlyAs(st, req.channel, session)
            && Promised(settings, start, events).due == map[session := at]
            && Get(st.expires, req.channel) == Some(at)
            && st.disk.expires.Keys == start.disk.expires.Keys + {req.channel}
  {
    var none: seq<Event> := [];
    var create := Create(req, times, session, faults);
    PlainPromise(settings, start, req, times, session, faults);
    GoOn(settings, start, none, create);
    assert none + [create] == [create];
  }

  /** A restart brings a channel back under its tidied name with no expiry on disk for it: no reaper
      pass ever takes it off the list. */
  lemma BackWithoutExpiry(st: State, c: string, session: SessionId, open: set<SessionId>, restartedAt: u64, now: u64,
                          faults: Faults)
    requires ValidName(c) && Tidy(c) !in st.disk.expires
    requires forall other :: ListedAs(st, other, session) ==> other == c
    ensures var restored := map[Tidy(c) := session];
            var end := ReapExpired(Restart(st.disk, restored, open, restartedAt), now, faults);
            BringsBack(st, restored) && ListedAs(end, Tidy(c), session) && ExpiryOf(end, Tidy(c)).None?
  {
    TidyParses(c);
    var restored := map[Tidy(c) := session];
    forall other, d | other in st.sessions && d in restored && st.sessions[other] == restored[d]
      ensures d == Tidy(other)
    {
      assert ListedAs(st, other, session);
    }
    assert Tidy(c) !in Due(Restart(st.disk, restored, open, restartedAt), now);
  }

  lemma Overdue(st: State, promises: Promises, channel: string, session: SessionId, now: u64)
    requires ListedAs(st, channel, session) && session in promises.due && promises.due[session] <= now
    ensures !NoneOverdue(st, promises, now)
  {
  }

  /** Names have to be tidy: a channel with a TTL under any other valid name outlives it once a restart has
      brought it back, with no record of its expiry. */
  lemma UntidyNameOutlives(settings: Settings, start: State, req: CreateRequest, times: Times, session: SessionId,
                           faults: Faults, open: set<SessionId>, restartedAt: u64, now: u64)
    requires PlainRequest(settings, start, req, session) && !IsTidy(req.channel)
    requires Tidy(req.channel) !in start.disk.expires
    requires !faults.createSession && !faults.putExpiry && !faults.putOwner
    requires ExpiresAt(req.ttlSeconds, times.recorded).value <= now
    ensures var events := [Create(req, times, session, faults)]
                          + [Restarts(map[Tidy(req.channel) := session], open, restartedAt)] + [Reap(now, faults)];
            var end := After(settings, start, events);
            && Proper(settings, start, events) && !NoneOverdue(end, Promised(settings, start, events), now)
            && ListedAs(end, Tidy(req.channel), session) && ExpiryOf(end, Tidy(req.channel)).None?
  {
    var one := [Create(req, times, session, faults)];
    var restart := Restarts(map[Tidy(req.channel) := session], open, restartedAt);
    CreatedPlain(settings, start, req, times, session, faults);
    BackWithoutExpiry(After(settings, start, one), req.channel, session, open, restartedAt, now, faults);
    GoOn(settings, start, one, restart);
    GoOn(settings, start, one + [restart], Reap(now, faults));
    var events := one + [restart] + [Reap(now, faults)];
    Overdue(After(settings, start, events), Promised(settings, start, events), Tidy(req.channel), session, now);
  }

  /** A reaper pass forgets a due channel though its session could not be deleted. */
  lemma ReapedUndeleted(st: State, channel: string, session: SessionId, reapedAt: u64, faults: Faults)
    requires ListedOnlyAs(st, channel, session) && channel in Due(st, reapedAt)
    requires channel !in faults.deleteExpiry && channel !in faults.deleteOwner
    ensures var st' := ReapExpired(st, reapedAt, faults);
            && channel !in st'.disk.expires && channel !in st'.disk.owners
            && forall other :: !ListedAs(st', other, session)
  {
    var st' := ReapExpired(st, reapedAt, faults);
    forall other ensures !ListedAs(st', other, session) {
      assert ListedAs(st', other, session) ==> ListedAs(st, other, session);
    }
  }

  /** Whatever owner and expiry a tidily named channel had, they are lost when a reaper pass could not delete
      its session and a restart brings that back. */
  lemma ReapedThenBack(st: State, channel: string, session: SessionId, reapedAt: u64, faults: Faults,
                       open: set<SessionId>, restartedAt: u64)
    requires ListedOnlyAs(st, channel, session) && channel in Due(st, reapedAt) && IsTidy(channel)
    requires channel in faults.deleteSession && channel !in faults.deleteExpiry && channel !in faults.deleteOwner
    ensures var reaped := ReapExpired(st, reapedAt, faults);
            var back := Restart(reaped.disk, map[channel := session], open, restartedAt);
            && (SessionOpen(st, channel) && SessionsDistinct(st) ==> session in reaped.open)
            && BringsBack(reaped, map[channel := session]) && ListedAs(back, channel, session)
            && OwnerOf(back, channel).None? && ExpiryOf(back, channel).None?
  {
    ReapedUndeleted(st, channel, session, reapedAt, faults);
    var reaped := ReapExpired(st, reapedAt, faults);
    assert forall other :: other in reaped.sessions ==> reaped.sessions[other] != session by {
      assert forall other :: other in reaped.sessions && reaped.sessions[other] == session ==>
               ListedAs(reaped, other, session);
    }
  }

  /** And restarts have to bring back listed sessions only: a channel with a TTL outlives it, under a tidy name
      too, when the reaper could not delete its session and a restart brings that back. */
  lemma UndeletedOutlives(settings: Settings, start: State, req: CreateRequest, times: Times, session: SessionId,
                          faults: Faults, stuck: Faults, reapedAt: u64, open: set<SessionId>, restartedAt: u64,
                          now: u64)
    requires PlainRequest(settings, start, req, session) && IsTidy(req.channel)
    requires !faults.createSession && !faults.putExpiry && !faults.putOwner
    requires req.channel in stuck.deleteSession
    requires req.channel !in stuck.deleteExpiry && req.channel !in stuck.deleteOwner
    requires ExpiresAt(req.ttlSeconds, times.recorded).value <= reapedAt <= now
    ensures var events := [Create(req, times, session, faults)] + [Reap(reapedAt, stuck)]
                          + [Restarts(map[req.channel := session], open, restartedAt)] + [Reap(now, faults)];
            var end := After(settings, start, events);
            && Proper(settings, start, events) && !NoneOverdue(end, Promised(settings, start, events), now)
            && ListedAs(end, req.channel, session) && ExpiryOf(end, req.channel).None?
  {
    var one, reap := [Create(req, times, session, faults)], Reap(reapedAt, stuck);
    var restart := Restarts(map[req.channel := session], open, restartedAt);
    CreatedPlain(settings, start, req, times, session, faults);
    var st := After(settings, start, one);
    ReapedUndeleted(st, req.channel, session, reapedAt, stuck);
    GoOn(settings, start, one, reap);
    BackWithoutExpiry(ReapExpired(st, reapedAt, stuck), req.channel, session, open, restartedAt, now, faults);
    GoOn(settings, start, one + [reap], restart);
    GoOn(settings, start, one + [reap] + [restart], Reap(now, faults));
    var events := one + [reap] + [restart] + [Reap(now, faults)];
    Overdue(After(settings, start, events), Promised(settings, start, events), req.channel, session, now);
  }

  // The TTL in seconds.

  /** Event `k` of the run creates a channel with a TTL of `ttl` seconds. */
  predicate CreatedWithTtl(settings: Settings, start: State, events: seq<Event>, k: int, ttl: u64) {
    && 0 <= k < |events| && events[k].Create? && events[k].req.ttlSeconds == Some(ttl)
    && Handle(settings, After(settings, start, events[..k]), events[k]).1.Done?
  }

  /** What is promised is the time of recording and the TTL together, and stays promised. */
  lemma {:induction false} PromisedTtl(settings: Settings, start: State, events: seq<Event>, k: int, ttl: u64)
    requires Proper(settings, start, events) && CreatedWithTtl(settings, start, events, k, ttl)
    ensures Get(Promised(settings, start, events).due, events[k].session)
         == Some(Answers.RunsOut(events[k].times.recorded, ttl))
    decreases |events|
  {
    var front := events[..|events| - 1];
    if k < |front| {
      assert front[..k] == events[..k];
      PromisedTtl(settings, start, front, k, ttl);
    }
  }

  lemma KeptIsReaped(st: State, promises: Promises, session: SessionId, now: u64, faults: Faults)
    requires SessionsDistinct(st) && Kept(Expiry, st, promises) && session in promises.due
    ensures session in ReapExpired(st, now, faults).sessions.Values <==>
              session in st.sessions.Values && now < promises.due[session]
  {
    var st' := ReapExpired(st, now, faults);
    Answers.ReapEffect(st, now, faults);
    forall c | ListedAs(st, c, session) ensures ListedAs(st', c, session) <==> now < promises.due[session] {
      assert Get(st'.sessions, c) == if st.expires[c] <= now then None else Get(st.sessions, c);
    }
    forall c | ListedAs(st', c, session) ensures ListedAs(st, c, session) {
      assert Get(st'.sessions, c) != None;
    }
    if session in st.sessions.Values {
      var c :| c in st.sessions && st.sessions[c] == session;
      assert ListedAs(st, c, session);
      assert ListedAs(st', c, session) ==> st'.sessions[c] in st'.sessions.Values;
    }
    if session in st'.sessions.Values {
      var c :| c in st'.sessions && st'.sessions[c] == session;
      assert ListedAs(st', c, session);
      assert st.sessions[c] in st.sessions.Values;
    }
  }

  /** In every run whose restarts find the deadlines, a channel created with a TTL is taken off the list by a reaper
      pass exactly when the pass comes no sooner than the time it was recorded and the TTL together. */
  lemma ListedUntilTtl(settings: Settings, start: State, events: seq<Event>, k: int, ttl: u64)
    requires SessionsDistinct(start) && Proper(settings, start, events)
    requires RestartsKeep(settings, start, Expiry, events)
    requires events != [] && events[|events| - 1].Reap? && CreatedWithTtl(settings, start, events, k, ttl)
    ensures var was, now := After(settings, start, events[..|events| - 1]), events[|events| - 1].now;
            var session, recorded := events[k].session, events[k].times.recorded;
            && (recorded + ttl < U64_LIMIT ==>
                  (session in After(settings, start, events).sessions.Values <==>
                     session in was.sessions.Values && now < recorded + ttl))
            && (recorded + ttl >= U64_LIMIT ==>
                  (session in After(settings, start, events).sessions.Values <==>
                     session in was.sessions.Values && now < U64_LIMIT - 1))
  {
    var front, last := events[..|events| - 1], events[|events| - 1];
    assert k < |front|;
    assert front[..k] == events[..k];
    PromisedTtl(settings, start, front, k, ttl);
    RunKeepsIff(settings, start, Expiry, front);
    ProperIsPossible(settings, start, front);
    RunDistinct(settings, start, front);
    KeptIsReaped(After(settings, start, front), Promised(settings, start, front), events[k].session, last.now,
                 last.faults);
  }
}
