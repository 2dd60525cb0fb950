/** Whole runs of the channel manager, handlers interleaved in any way, with
    store failures, crashes and restarts: no signed statement ever authorizes
    twice, and each authorization is one the right key signed
    (crates/channel-manager/src/service.rs). Every step below is one a handler
    takes under a lock; a handler's steps are in order but others may come
    between them. */
module AuthorizationRuns {
  import opened Prelude
  import opened Statements
  import opened Verifier
  import opened Store
  import opened Nonces
  import opened NonceRuns
  import opened Policy
  import opened Manager

  /** The owner a handler found when it looked a channel up. */
  datatype Reading = Reading(channel: string, owner: Option<ChannelOwner>)

  datatype Operation =
    | CreateChannel(req: CreateRequest)
    | DeleteChannel(channel: string)
    | ChangeParticipant(change: Change)

  /** An operation let through because of a signed statement. */
  datatype Authorization = Authorization(
    operation: Operation,
    signer: string,
    statement: Statement,
    reading: Option<Reading>)

  datatype World = World(st: State, clock: u64, readings: map<nat, Reading>, log: seq<Authorization>)

  datatype Step =
    | ReadOwner(task: nat, channel: string)
    | CreateRequested(req: CreateRequest, checked: u64, now: u64, faults: Faults)
    | DeleteRequested(task: nat, proof: Option<Proof>, checked: u64, now: u64, faults: Faults)
    | ChangeRequested(task: nat, change: Change, grant: Option<Proof>, approval: Approval, now: u64, faults: Faults)
    | SessionOpened(session: SessionId)
    | SessionEnded(session: SessionId)
    | SessionListed(channel: string, session: SessionId)
    | SessionRemoved(channel: string, fails: bool)
    | ExpiryRecorded(channel: string, expiresAt: u64, fails: bool)
    | OwnerRecorded(channel: string, owner: ChannelOwner, fails: bool)
    | OwnerForgotten(channel: string, fails: bool)
    | ExpiryForgotten(channel: string, fails: bool)
    | SpendInterrupted(id: NonceId, notAfter: u64, now: u64, faults: Faults)
    | RestartFailed(now: u64, dropped: set<NonceId>)
    | Restarted(restored: map<string, SessionId>, open: set<SessionId>, now: u64)

  /** When a step reads the clock under the nonce store's lock; a handler's earlier reading may be any. */
  function Ends(step: Step, clock: u64): u64 {
    match step
    case CreateRequested(_, _, now, _) => now
    case DeleteRequested(_, _, _, now, _) => now
    case ChangeRequested(_, _, _, _, now, _) => now
    case SpendInterrupted(_, _, now, _) => now
    case RestartFailed(now, _) => now
    case Restarted(_, _, now) => now
    case _ => clock
  }

  function Logged(w: World, st: State, now: u64, entries: seq<Authorization>): World {
    w.(st := st, clock := now, log := w.log + entries)
  }

  function StepCreate(policy: GrantPolicy, w: World, req: CreateRequest, checked: u64, now: u64,
                      faults: Faults): World
  {
    var (st, r) := AuthorizeCreate(policy, w.st, req, checked, now, faults);
    Logged(w, st, now,
           if r.Ok? && r.value.Some?
           then [Authorization(CreateChannel(req), r.value.value.owner, CreateStatement(r.value.value), None)]
           else [])
  }

  function StepDelete(policy: GrantPolicy, w: World, reading: Reading, proof: Option<Proof>, checked: u64, now: u64,
                      faults: Faults): World
  {
    var (st, r) := AuthorizeDelete(policy, w.st, reading.owner, reading.channel, proof, checked, now, faults);
    Logged(w, st, now,
           if r.Ok? && r.value.Some?
           then [Authorization(DeleteChannel(reading.channel), r.value.value.signer,
                               DeleteStatement(r.value.value.deletion), Some(reading))]
           else [])
  }

  function StepChange(policy: GrantPolicy, w: World, reading: Reading, change: Change, grant: Option<Proof>,
                      approval: Approval, now: u64, faults: Faults): World
  {
    var (st, r) := AuthorizeChange(policy, w.st, reading.owner, change, grant, approval, now, faults);
    Logged(w, st, now,
           if r.Ok? && r.value.Some? && reading.owner.Some?
           then [Authorization(ChangeParticipant(change), reading.owner.value.subject,
                               GrantStatement(r.value.value), Some(reading))]
           else [])
  }

  /** The steps that leave the nonces alone. */
  function StepRecords(st: State, step: Step): State {
    match step
    case SessionOpened(session) => st.(open := st.open + {session})
    case SessionEnded(session) => st.(open := st.open - {session})
    case SessionListed(channel, session) => AddSession(st, channel, session).0
    case SessionRemoved(channel, fails) => RemoveSession(st, channel, fails).0
    case ExpiryRecorded(channel, expiresAt, fails) => SetExpiry(st, channel, expiresAt, fails).0
    case OwnerRecorded(channel, owner, fails) => SetOwner(st, channel, owner, fails).0
    case OwnerForgotten(channel, fails) => RemoveOwner(st, channel, fails)
    case ExpiryForgotten(channel, fails) => RemoveExpiry(st, channel, fails)
    case _ => st
  }

  function Next(policy: GrantPolicy, w: World, step: Step): World {
    match step
    case ReadOwner(task, channel) =>
      w.(readings := w.readings[task := Reading(channel, OwnerOf(w.st, channel))])
    case CreateRequested(req, checked, now, faults) =>
      StepCreate(policy, w, req, checked, now, faults)
    case DeleteRequested(task, proof, checked, now, faults) =>
      if task in w.readings then StepDelete(policy, w, w.readings[task], proof, checked, now, faults)
      else w.(clock := now)
    case ChangeRequested(task, change, grant, approval, now, faults) =>
      if task in w.readings && w.readings[task].channel == change.channel
      then StepChange(policy, w, w.readings[task], change, grant, approval, now, faults)
      else w.(clock := now)
    case SpendInterrupted(id, notAfter, now, faults) =>
      // The process dies inside `spend`: the store has the nonce, nobody has an answer.
      w.(st := w.st.(disk := SpendIn(w.st, id, notAfter, now, faults).0.disk), clock := now)
    case RestartFailed(now, dropped) =>
      var mem := FailedReload(Memory(w.st.consumed, w.st.disk.nonces), now, dropped);
      w.(st := w.st.(disk := w.st.disk.(nonces := mem.stored)), clock := now)
    case Restarted(restored, open, now) =>
      World(Restart(w.st.disk, restored, open, now), now, map[], w.log)
    case _ => w.(st := StepRecords(w.st, step))
  }

  function Run(policy: GrantPolicy, w: World, steps: seq<Step>): World
    decreases |steps|
  {
    if steps == [] then w
    else Next(policy, Run(policy, w, steps[..|steps| - 1]), steps[|steps| - 1])
  }

  /** The clock read under the nonce store's lock never goes back. */
  predicate ClockOk(policy: GrantPolicy, w: World, steps: seq<Step>) {
    forall k :: 0 <= k < |steps| ==> StepInTime(Run(policy, w, steps[..k]).clock, steps[k])
  }

  predicate StepInTime(clock: u64, step: Step) {
    clock <= Ends(step, clock)
  }

  // What an authorization must be.

  /** The statement names exactly this operation, and the signer is the key entitled to it. */
  predicate Names(policy: GrantPolicy, a: Authorization) {
    match a.operation
    case CreateChannel(req) =>
      // the new owner
      && a.statement.CreateStatement?
      && Matches(a.statement.creation, req)
      && a.statement.creation.audience == policy.audience
      && a.signer == a.statement.creation.owner
    case DeleteChannel(channel) =>
      // the owner on record, or an operator
      && a.statement.DeleteStatement?
      && a.statement.deletion.channel == channel
      && a.statement.deletion.audience == policy.audience
      && a.reading.Some? && a.reading.value.channel == channel
      && (a.signer in policy.operators || IsOwner(a.reading.value, a.signer))
    case ChangeParticipant(change) =>
      // the owner on record
      && a.statement.GrantStatement?
      && Change(a.statement.grant.channel, a.statement.grant.invitee, a.statement.grant.action) == change
      && a.reading.Some? && a.reading.value.channel == change.channel
      && IsOwner(a.reading.value, a.signer)
  }

  predicate IsOwner(reading: Reading, signer: string) {
    reading.owner.Some? && reading.owner.value.subject == signer
  }

  ghost predicate Lawful(policy: GrantPolicy, signing: SigningLog, a: Authorization) {
    Acceptable(a.statement) && SignedBy(signing, a.signer, a.statement) && Names(policy, a)
  }

  function IdOf(s: Statement): NonceId {
    (s.Channel(), s.Nonce())
  }

  /** A spent statement that could still be presented is remembered in memory and on disk. */
  predicate Remembered(st: State, clock: u64, s: Statement) {
    s.NotAfter() >= clock ==>
      && IdOf(s) in st.consumed && st.consumed[IdOf(s)] == s.NotAfter()
      && IdOf(s) in st.disk.nonces && st.disk.nonces[IdOf(s)] == s.NotAfter()
  }

  ghost predicate Safe(policy: GrantPolicy, signing: SigningLog, w: World) {
    && (forall i :: 0 <= i < |w.log| ==> Lawful(policy, signing, w.log[i]))
    && (forall i :: 0 <= i < |w.log| ==> Remembered(w.st, w.clock, w.log[i].statement))
    && (forall i, j :: 0 <= i < j < |w.log| ==> w.log[i].statement != w.log[j].statement)
  }

  // One step at a time.

  /** Spending keeps every earlier statement remembered, remembers the one it accepts and accepts none of them. */
  lemma SpendRemembers(st: State, clock: u64, id: NonceId, notAfter: u64, now: u64, faults: Faults, s: Statement)
    requires Remembered(st, clock, s) && clock <= now
    ensures var (st', r) := SpendIn(st, id, notAfter, now, faults);
            && Remembered(st', now, s)
            && Remembered(st.(disk := st'.disk), now, s)
            && (r.Ok? ==> !(IdOf(s) == id && s.NotAfter() == notAfter))
  {
  }

  lemma SpendRemembersOwn(st: State, notAfter: u64, now: u64, faults: Faults, s: Statement)
    requires s.NotAfter() == notAfter
    ensures var (st', r) := SpendIn(st, IdOf(s), notAfter, now, faults);
            r.Ok? ==> Remembered(st', now, s)
  {
  }

  /** A step that spends a lawful statement and logs it keeps the world safe. */
  lemma SpendSafe(policy: GrantPolicy, signing: SigningLog, w: World, a: Authorization, now: u64, faults: Faults)
    requires Safe(policy, signing, w) && w.clock <= now && Lawful(policy, signing, a)
    ensures var (st, r) := SpendIn(w.st, IdOf(a.statement), a.statement.NotAfter(), now, faults);
            && Safe(policy, signing, Logged(w, st, now, []))
            && (r.Ok? ==> Safe(policy, signing, Logged(w, st, now, [a])))
  {
    var (st, r) := SpendIn(w.st, IdOf(a.statement), a.statement.NotAfter(), now, faults);
    forall i | 0 <= i < |w.log|
      ensures Remembered(st, now, w.log[i].statement) && (r.Ok? ==> w.log[i].statement != a.statement)
    {
      SpendRemembers(w.st, w.clock, IdOf(a.statement), a.statement.NotAfter(), now, faults, w.log[i].statement);
    }
    SpendRemembersOwn(w.st, a.statement.NotAfter(), now, faults, a.statement);
    assert Logged(w, st, now, []).log == w.log;
  }

  lemma LaterSafe(policy: GrantPolicy, signing: SigningLog, w: World, now: u64)
    requires Safe(policy, signing, w) && w.clock <= now
    ensures Safe(policy, signing, Logged(w, w.st, now, []))
    ensures Safe(policy, signing, w.(clock := now))
  {
    assert Logged(w, w.st, now, []).log == w.log;
  }

  lemma CreateSafe(policy: GrantPolicy, signing: SigningLog, w: World, req: CreateRequest, checked: u64, now: u64,
                   faults: Faults)
    requires Ideal(policy.check, signing) && Safe(policy, signing, w) && w.clock <= now
    ensures Safe(policy, signing, StepCreate(policy, w, req, checked, now, faults))
  {
    var checkedCreate := CheckCreate(policy, req, checked);
    LaterSafe(policy, signing, w, now);
    if checkedCreate.Ok? && checkedCreate.value.Some? {
      var c := checkedCreate.value.value;
      VerifiedCreate(policy.check, signing, req.ownerProof.value);
      SpendSafe(policy, signing, w, Authorization(CreateChannel(req), c.owner, CreateStatement(c), None), now, faults);
    }
  }

  lemma DeleteSafe(policy: GrantPolicy, signing: SigningLog, w: World, reading: Reading, proof: Option<Proof>,
                   checked: u64, now: u64, faults: Faults)
    requires Ideal(policy.check, signing) && Safe(policy, signing, w) && w.clock <= now
    ensures Safe(policy, signing, StepDelete(policy, w, reading, proof, checked, now, faults))
  {
    var checkedDelete := CheckDelete(policy, reading.owner, reading.channel, proof, checked);
    LaterSafe(policy, signing, w, now);
    if checkedDelete.Ok? && checkedDelete.value.Some? {
      var s := checkedDelete.value.value;
      var first := if reading.owner.Some? then [reading.owner.value.subject] else [];
      FoundSigner(policy.check, first + policy.operators, proof.value);
      VerifiedDelete(policy.check, signing, s.signer, proof.value);
      SpendSafe(policy, signing, w,
                Authorization(DeleteChannel(reading.channel), s.signer, DeleteStatement(s.deletion), Some(reading)),
                now, faults);
    }
  }

  lemma ChangeSafe(policy: GrantPolicy, signing: SigningLog, w: World, reading: Reading, change: Change,
                   grant: Option<Proof>, approval: Approval, now: u64, faults: Faults)
    requires Ideal(policy.check, signing) && Safe(policy, signing, w) && w.clock <= now
    requires reading.channel == change.channel
    ensures Safe(policy, signing, StepChange(policy, w, reading, change, grant, approval, now, faults))
  {
    var checkedChange := CheckChange(policy, reading.owner, change, grant, approval);
    LaterSafe(policy, signing, w, now);
    if checkedChange.Ok? && checkedChange.value.Some? {
      var owner := reading.owner.value;
      var proof := if grant.Some? then grant.value else approval.grant;
      VerifiedGrant(policy.check, signing, owner.subject, proof);
      SpendSafe(policy, signing, w,
                Authorization(ChangeParticipant(change), owner.subject, GrantStatement(checkedChange.value.value),
                              Some(reading)),
                now, faults);
    }
  }

  lemma RecordsSafe(policy: GrantPolicy, signing: SigningLog, w: World, step: Step)
    requires Safe(policy, signing, w)
    ensures Safe(policy, signing, w.(st := StepRecords(w.st, step)))
  {
    var st := StepRecords(w.st, step);
    assert st.consumed == w.st.consumed && st.disk.nonces == w.st.disk.nonces;
  }

  lemma InterruptedSafe(policy: GrantPolicy, signing: SigningLog, w: World, id: NonceId, notAfter: u64, now: u64,
                        faults: Faults)
    requires Safe(policy, signing, w) && w.clock <= now
    ensures Safe(policy, signing, w.(st := w.st.(disk := SpendIn(w.st, id, notAfter, now, faults).0.disk),
                                     clock := now))
  {
    forall i | 0 <= i < |w.log|
      ensures Remembered(w.st.(disk := SpendIn(w.st, id, notAfter, now, faults).0.disk), now, w.log[i].statement)
    {
      SpendRemembers(w.st, w.clock, id, notAfter, now, faults, w.log[i].statement);
    }
  }

  lemma RestartFailedSafe(policy: GrantPolicy, signing: SigningLog, w: World, now: u64, dropped: set<NonceId>)
    requires Safe(policy, signing, w) && w.clock <= now
    ensures Safe(policy, signing, Next(policy, w, RestartFailed(now, dropped)))
  {
    var st := Next(policy, w, RestartFailed(now, dropped)).st;
    forall i | 0 <= i < |w.log| ensures Remembered(st, now, w.log[i].statement) {
      assert Remembered(w.st, w.clock, w.log[i].statement);
    }
  }

  lemma RestartedSafe(policy: GrantPolicy, signing: SigningLog, w: World, restored: map<string, SessionId>,
                      open: set<SessionId>, now: u64)
    requires Safe(policy, signing, w) && w.clock <= now
    ensures Safe(policy, signing, Next(policy, w, Restarted(restored, open, now)))
  {
    forall i | 0 <= i < |w.log|
      ensures Remembered(Restart(w.st.disk, restored, open, now), now, w.log[i].statement)
    {
      assert Remembered(w.st, w.clock, w.log[i].statement);
    }
  }

  /** Every step keeps the world safe. */
  lemma StepSafe(policy: GrantPolicy, signing: SigningLog, w: World, step: Step)
    requires Ideal(policy.check, signing) && Safe(policy, signing, w) && StepInTime(w.clock, step)
    ensures Safe(policy, signing, Next(policy, w, step))
  {
    match step
    case ReadOwner(_, _) =>
    case CreateRequested(req, checked, now, faults) =>
      CreateSafe(policy, signing, w, req, checked, now, faults);
    case DeleteRequested(task, proof, checked, now, faults) =>
      LaterSafe(policy, signing, w, now);
      if task in w.readings {
        DeleteSafe(policy, signing, w, w.readings[task], proof, checked, now, faults);
      }
    case ChangeRequested(task, change, grant, approval, now, faults) =>
      LaterSafe(policy, signing, w, now);
      if task in w.readings && w.readings[task].channel == change.channel {
        ChangeSafe(policy, signing, w, w.readings[task], change, grant, approval, now, faults);
      }
    case SpendInterrupted(id, notAfter, now, faults) =>
      InterruptedSafe(policy, signing, w, id, notAfter, now, faults);
    case RestartFailed(now, dropped) => RestartFailedSafe(policy, signing, w, now, dropped);
    case Restarted(restored, open, now) => RestartedSafe(policy, signing, w, restored, open, now);
    case _ =>
      RecordsSafe(policy, signing, w, step);
  }

  lemma {:induction false} RunSafe(policy: GrantPolicy, signing: SigningLog, w: World, steps: seq<Step>)
    requires Ideal(policy.check, signing) && w.log == [] && ClockOk(policy, w, steps)
    ensures Safe(policy, signing, Run(policy, w, steps))
    decreases |steps|
  {
    if steps != [] {
      var front := steps[..|steps| - 1];
      forall k | 0 <= k < |front| ensures StepInTime(Run(policy, w, front[..k]).clock, front[k]) {
        assert front[..k] == steps[..k];
      }
      RunSafe(policy, signing, w, front);
      StepSafe(policy, signing, Run(policy, w, front), steps[|steps| - 1]);
    }
  }

  /** In every run, each authorization is of a statement its signer's key signed
      that names exactly the operation, the signer is the key entitled to it,
      and no two authorizations share a statement or even its signed bytes. */
  lemma NoStatementAuthorizesTwice(policy: GrantPolicy, signing: SigningLog, w: World, steps: seq<Step>)
    requires Ideal(policy.check, signing) && w.log == [] && ClockOk(policy, w, steps)
    ensures var log := Run(policy, w, steps).log;
            && (forall i :: 0 <= i < |log| ==> Lawful(policy, signing, log[i]))
            && (forall i, j :: 0 <= i < j < |log| ==> Canonical(log[i].statement) != Canonical(log[j].statement))
  {
    RunSafe(policy, signing, w, steps);
    var log := Run(policy, w, steps).log;
    forall i, j | 0 <= i < j < |log| ensures Canonical(log[i].statement) != Canonical(log[j].statement) {
      assert Lawful(policy, signing, log[i]) && Lawful(policy, signing, log[j]);
      CanonicalInjective(log[i].statement, log[j].statement);
    }
  }

  // Nothing that needs a statement is let through without one being logged.

  lemma SignedCreateLogged(policy: GrantPolicy, w: World, req: CreateRequest, checked: u64, now: u64, faults: Faults)
    requires AuthorizeCreate(policy, w.st, req, checked, now, faults).1.Ok? && req.ownerProof.Some?
    ensures |StepCreate(policy, w, req, checked, now, faults).log| == |w.log| + 1
  {
    assert CheckCreate(policy, req, checked).value.Some?;
  }

  lemma OwnedDeleteLogged(policy: GrantPolicy, w: World, reading: Reading, proof: Option<Proof>, checked: u64, now: u64,
                          faults: Faults)
    requires AuthorizeDelete(policy, w.st, reading.owner, reading.channel, proof, checked, now, faults).1.Ok?
    requires reading.owner.Some? || policy.requireSignatures
    ensures |StepDelete(policy, w, reading, proof, checked, now, faults).log| == |w.log| + 1
  {
    assert CheckDelete(policy, reading.owner, reading.channel, proof, checked).value.Some?;
  }

  lemma OwnedChangeLogged(policy: GrantPolicy, w: World, reading: Reading, change: Change, grant: Option<Proof>,
                          approval: Approval, now: u64, faults: Faults)
    requires AuthorizeChange(policy, w.st, reading.owner, change, grant, approval, now, faults).1.Ok?
        && reading.owner.Some?
    ensures |StepChange(policy, w, reading, change, grant, approval, now, faults).log| == |w.log| + 1
  {
    assert CheckChange(policy, reading.owner, change, grant, approval).value.Some?;
  }

  // The owners handlers find are owners on record.

  /** At some point of the run the channel's owner was what the reading says. */
  ghost predicate WasSo(policy: GrantPolicy, w: World, steps: seq<Step>, reading: Reading) {
    exists k :: 0 <= k <= |steps| && OwnerOf(Run(policy, w, steps[..k]).st, reading.channel) == reading.owner
  }

  lemma WasSoLater(policy: GrantPolicy, w: World, steps: seq<Step>, reading: Reading)
    requires steps != [] && WasSo(policy, w, steps[..|steps| - 1], reading)
    ensures WasSo(policy, w, steps, reading)
  {
    var front := steps[..|steps| - 1];
    var k :| 0 <= k <= |front| && OwnerOf(Run(policy, w, front[..k]).st, reading.channel) == reading.owner;
    assert front[..k] == steps[..k];
  }

  /** Whoever an authorization took for the owner had been recorded as the owner. */
  lemma {:induction false} ReadingsWereSo(policy: GrantPolicy, w: World, steps: seq<Step>)
    requires w.log == [] && w.readings == map[]
    ensures forall task :: task in Run(policy, w, steps).readings ==>
              WasSo(policy, w, steps, Run(policy, w, steps).readings[task])
    ensures forall i :: 0 <= i < |Run(policy, w, steps).log| && Run(policy, w, steps).log[i].reading.Some? ==>
              WasSo(policy, w, steps, Run(policy, w, steps).log[i].reading.value)
    decreases |steps|
  {
    if steps != [] {
      var front, last := steps[..|steps| - 1], steps[|steps| - 1];
      ReadingsWereSo(policy, w, front);
      var before, after := Run(policy, w, front), Run(policy, w, steps);
      forall reading | WasSo(policy, w, front, reading) ensures WasSo(policy, w, steps, reading) {
        WasSoLater(policy, w, steps, reading);
      }
      forall task | task in after.readings ensures WasSo(policy, w, steps, after.readings[task]) {
        NextReadings(policy, before, last, task);
        if !(task in before.readings && before.readings[task] == after.readings[task]) {
          assert OwnerOf(Run(policy, w, steps[..|steps| - 1]).st, last.channel) == after.readings[task].owner;
        }
      }
      forall i | 0 <= i < |after.log| && after.log[i].reading.Some?
        ensures WasSo(policy, w, steps, after.log[i].reading.value)
      {
        NextLog(policy, before, last, i);
      }
    }
  }

  /** A reading is taken from the owners on record, or was there before. */
  lemma NextReadings(policy: GrantPolicy, w: World, step: Step, task: nat)
    requires task in Next(policy, w, step).readings
    ensures || (task in w.readings && w.readings[task] == Next(policy, w, step).readings[task])
            || (step.ReadOwner? && Next(policy, w, step).readings[task]
                == Reading(step.channel, OwnerOf(w.st, step.channel)))
  {
  }

  /** A logged reading is one some handler had taken, or was logged before. */
  lemma NextLog(policy: GrantPolicy, w: World, step: Step, i: nat)
    requires i < |Next(policy, w, step).log| && Next(policy, w, step).log[i].reading.Some?
    ensures || (i < |w.log| && w.log[i] == Next(policy, w, step).log[i])
            || (exists task :: task in w.readings && w.readings[task] == Next(policy, w, step).log[i].reading.value)
  {
  }

  // The handlers are such runs, taken without a pause.

  lemma {:induction false} RunInTwo(policy: GrantPolicy, w: World, a: seq<Step>, b: seq<Step>)
    ensures Run(policy, w, a + b) == Run(policy, Run(policy, w, a), b)
    decreases |b|
  {
    if b == [] {
      assert a + b == a;
    } else {
      assert (a + b)[..|a + b| - 1] == a + b[..|b| - 1];
      RunInTwo(policy, w, a, b[..|b| - 1]);
    }
  }

  lemma RunStep(policy: GrantPolicy, w: World, step: Step, rest: seq<Step>)
    ensures Run(policy, w, [step] + rest) == Run(policy, Next(policy, w, step), rest)
  {
    RunInTwo(policy, w, [step], rest);
    assert [step][..0] == [];
    assert Run(policy, w, [step]) == Next(policy, Run(policy, w, []), step);
  }

  /** The steps that forget a channel. */
  function ForgetTrace(channel: string, faults: Faults): seq<Step> {
    [OwnerForgotten(channel, channel in faults.deleteOwner)]
    + ([ExpiryForgotten(channel, channel in faults.deleteExpiry)] + [])
  }

  lemma ForgetIsARun(policy: GrantPolicy, w: World, channel: string, faults: Faults)
    ensures Run(policy, w, ForgetTrace(channel, faults)) == w.(st := Forget(w.st, channel, faults))
  {
    var first := OwnerForgotten(channel, channel in faults.deleteOwner);
    var second := ExpiryForgotten(channel, channel in faults.deleteExpiry);
    RunStep(policy, w, first, [second] + []);
    RunStep(policy, Next(policy, w, first), second, []);
  }

  /** The steps of `handle_delete_channel` outside config mode. */
  function DeleteTrace(policy: GrantPolicy, st: State, task: nat, channel: string, proof: Option<Proof>, times: Times,
                       faults: Faults): seq<Step>
  {
    var fails := channel in faults.deleteSession;
    var (spent, r) := AuthorizeDelete(policy, st, OwnerOf(st, channel), channel, proof, times.checked, times.spent,
                                      faults);
    var ending := if r.Err? then []
                  else [SessionRemoved(channel, fails)]
                       + (if RemoveSession(spent, channel, fails).1 then ForgetTrace(channel, faults) else []);
    [ReadOwner(task, channel)] + ([DeleteRequested(task, proof, times.checked, times.spent, faults)] + ending)
  }

  /** Deleting a channel is a run of its steps. */
  lemma DeleteIsARun(settings: Settings, w: World, task: nat, channel: string, proof: Option<Proof>, times: Times,
                     faults: Faults)
    requires !settings.configMode
    ensures Run(settings.policy, w, DeleteTrace(settings.policy, w.st, task, channel, proof, times, faults)).st
         == HandleDelete(settings, w.st, channel, proof, times, faults).0
  {
    var policy, fails := settings.policy, channel in faults.deleteSession;
    var read := ReadOwner(task, channel);
    var request := DeleteRequested(task, proof, times.checked, times.spent, faults);
    var (spent, r) := AuthorizeDelete(policy, w.st, OwnerOf(w.st, channel), channel, proof, times.checked, times.spent,
                                      faults);
    var rest := if RemoveSession(spent, channel, fails).1 then ForgetTrace(channel, faults) else [];
    var ending := if r.Err? then [] else [SessionRemoved(channel, fails)] + rest;
    var w1 := Next(policy, w, read);
    var w2 := Next(policy, w1, request);
    RunStep(policy, w, read, [request] + ending);
    RunStep(policy, w1, request, ending);
    if r.Ok? {
      RemoveIsARun(policy, w2, channel, fails, faults);
    }
  }

  lemma RemoveIsARun(policy: GrantPolicy, w: World, channel: string, fails: bool, faults: Faults)
    ensures var (removed, ok) := RemoveSession(w.st, channel, fails);
            Run(policy, w, [SessionRemoved(channel, fails)] + (if ok then ForgetTrace(channel, faults) else [])).st
            == if ok then Forget(removed, channel, faults) else removed
  {
    var (removed, ok) := RemoveSession(w.st, channel, fails);
    RunStep(policy, w, SessionRemoved(channel, fails), if ok then ForgetTrace(channel, faults) else []);
    ForgetIsARun(policy, w.(st := removed), channel, faults);
  }

  /** The steps of a participant change to a live channel. */
  lemma ChangeIsARun(settings: Settings, w: World, task: nat, change: Change, grant: Option<Proof>, approval: Approval,
                     times: Times, faults: Faults, fails: bool)
    requires !settings.configMode && SessionOpen(w.st, change.channel)
    ensures Run(settings.policy, w, [ReadOwner(task, change.channel)]
                                    + ([ChangeRequested(task, change, grant, approval, times.spent, faults)] + [])).st
         == HandleChange(settings, w.st, change, grant, approval, times, faults, fails).0
  {
    var read := ReadOwner(task, change.channel);
    var request := ChangeRequested(task, change, grant, approval, times.spent, faults);
    RunStep(settings.policy, w, read, [request] + []);
    RunStep(settings.policy, Next(settings.policy, w, read), request, []);
  }

  /** The steps that record a new channel. */
  function RecordTrace(channel: string, at: Option<u64>, owner: Option<ChannelOwner>, faults: Faults): seq<Step> {
    var recordOwner := if owner.Some? then [OwnerRecorded(channel, owner.value, faults.putOwner)] + [] else [];
    if at.None? then recordOwner
    else [ExpiryRecorded(channel, at.value, faults.putExpiry)] + (if faults.putExpiry then [] else recordOwner)
  }

  lemma RecordIsARun(policy: GrantPolicy, w: World, channel: string, at: Option<u64>, owner: Option<ChannelOwner>,
                     faults: Faults)
    ensures Run(policy, w, RecordTrace(channel, at, owner, faults))
         == w.(st := RecordNew(w.st, channel, at, owner, faults).0)
  {
    var w1 := w;
    var recordOwner := if owner.Some? then [OwnerRecorded(channel, owner.value, faults.putOwner)] + [] else [];
    if at.Some? {
      var timed := ExpiryRecorded(channel, at.value, faults.putExpiry);
      w1 := Next(policy, w, timed);
      RunStep(policy, w, timed, if faults.putExpiry then [] else recordOwner);
    }
    if owner.Some? {
      RunStep(policy, w1, OwnerRecorded(channel, owner.value, faults.putOwner), []);
    }
  }

  /** The steps that record a listed channel or undo it. */
  function RecordOrUndoTrace(st: State, channel: string, at: Option<u64>, owner: Option<ChannelOwner>,
                             faults: Faults): seq<Step>
  {
    RecordTrace(channel, at, owner, faults)
    + (if RecordNew(st, channel, at, owner, faults).1 then []
       else [SessionRemoved(channel, channel in faults.deleteSession)] + ForgetTrace(channel, faults))
  }

  lemma RecordOrUndoIsARun(policy: GrantPolicy, w: World, channel: string, at: Option<u64>, owner: Option<ChannelOwner>,
                           faults: Faults)
    ensures Run(policy, w, RecordOrUndoTrace(w.st, channel, at, owner, faults)).st
         == RecordOrUndo(w.st, channel, at, owner, faults).0
  {
    var (recorded, ok) := RecordNew(w.st, channel, at, owner, faults);
    var removal := SessionRemoved(channel, channel in faults.deleteSession);
    var undo := if ok then [] else [removal] + ForgetTrace(channel, faults);
    var after := w.(st := recorded);
    RunInTwo(policy, w, RecordTrace(channel, at, owner, faults), undo);
    RecordIsARun(policy, w, channel, at, owner, faults);
    if !ok {
      RunStep(policy, after, removal, ForgetTrace(channel, faults));
      ForgetIsARun(policy, Next(policy, after, removal), channel, faults);
    }
  }

  /** The steps of a create once its session is open. */
  function CompleteTrace(st: State, req: CreateRequest, owner: Option<ChannelOwner>, now: u64, session: SessionId,
                         faults: Faults): seq<Step>
  {
    var (listed, added) := AddSession(st.(open := st.open + {session}), req.channel, session);
    [SessionOpened(session)]
    + ([SessionListed(req.channel, session)]
       + if added then RecordOrUndoTrace(listed, req.channel, ExpiresAt(req.ttlSeconds, now), owner, faults)
         else if req.channel in faults.deleteSession then []
         else [SessionEnded(session)] + [])
  }

  lemma CompleteIsARun(policy: GrantPolicy, w: World, req: CreateRequest, owner: Option<ChannelOwner>, now: u64,
                       session: SessionId, faults: Faults)
    ensures Run(policy, w, CompleteTrace(w.st, req, owner, now, session, faults)).st
         == CompleteCreate(w.st, req, owner, now, session, faults).0
  {
    var at := ExpiresAt(req.ttlSeconds, now);
    var opening, listing := SessionOpened(session), SessionListed(req.channel, session);
    var w1 := Next(policy, w, opening);
    var w2 := Next(policy, w1, listing);
    var (listed, added) := AddSession(w1.st, req.channel, session);
    var ending := if added then RecordOrUndoTrace(listed, req.channel, at, owner, faults)
                  else if req.channel in faults.deleteSession then []
                  else [SessionEnded(session)] + [];
    RunStep(policy, w, opening, [listing] + ending);
    RunStep(policy, w1, listing, ending);
    if added {
      RecordOrUndoIsARun(policy, w2, req.channel, at, owner, faults);
    } else if req.channel !in faults.deleteSession {
      RunStep(policy, w2, SessionEnded(session), []);
    }
  }

  /** The steps of `handle_create_channel`. */
  function CreateTrace(settings: Settings, st: State, req: CreateRequest, times: Times, session: SessionId,
                       faults: Faults)
    : seq<Step>
  {
    if !PrecheckCreate(settings, st, req).Done? then []
    else
      var (spent, r) := AuthorizeCreate(settings.policy, st, req, times.checked, times.spent, faults);
      [CreateRequested(req, times.checked, times.spent, faults)]
      + (if r.Err? || faults.createSession then []
         else CompleteTrace(spent, req, NewOwner(r.value, req), times.recorded, session, faults))
  }

  /** Creating a channel is a run of its steps. */
  lemma CreateIsARun(settings: Settings, w: World, req: CreateRequest, times: Times, session: SessionId, faults: Faults)
    ensures Run(settings.policy, w, CreateTrace(settings, w.st, req, times, session, faults)).st
         == HandleCreate(settings, w.st, req, times, session, faults).0
  {
    if PrecheckCreate(settings, w.st, req).Done? {
      var (spent, r) := AuthorizeCreate(settings.policy, w.st, req, times.checked, times.spent, faults);
      var request := CreateRequested(req, times.checked, times.spent, faults);
      var rest := if r.Err? || faults.createSession then []
                  else CompleteTrace(spent, req, NewOwner(r.value, req), times.recorded, session, faults);
      RunStep(settings.policy, w, request, rest);
      if r.Ok? && !faults.createSession {
        CompleteIsARun(settings.policy, Next(settings.policy, w, request), req, NewOwner(r.value, req), times.recorded,
                       session, faults);
      }
    }
  }
}
