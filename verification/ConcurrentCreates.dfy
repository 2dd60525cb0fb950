/** Create requests racing each other (crates/channel-manager/src/service.rs and
    crates/channel-manager/src/sessions.rs): every interleaving of their steps, failures to
    record and to clean up included, with no deletes and no reaping. */
module ConcurrentCreates {
  import opened Prelude
  import opened Verifier
  import opened Store
  import opened Policy
  import opened Manager
  import opened RecordRuns

  /** How far one request has come. `Undoing` is listed but could not be recorded;
      `Unlisted` and `Unowned` have yet to forget the channel's records. */
  datatype Phase =
    | Arrived
    | Checked
    | Authorized
    | Opened(session: SessionId)
    | Listed(session: SessionId)
    | Timed(session: SessionId, at: u64)
    | Succeeded(session: SessionId, at: u64)
    | Undoing(session: SessionId)
    | Unlisted(session: SessionId)
    | Unowned(session: SessionId)
    | Undone(session: SessionId)
    | Losing(session: SessionId)
    | Lost(session: SessionId)
    | Leaked(session: SessionId)
    | Failed

  /** `next` is the next session SLIM opens. */
  datatype World = World(st: State, phases: seq<Phase>, next: SessionId)

  datatype Step =
    | Advance(task: nat, checked: u64, now: u64, faults: Faults)
    | SessionEnds(session: SessionId)

  /** The owner a request makes: whoever signed it. */
  function OwnerFor(policy: GrantPolicy, req: CreateRequest): Option<ChannelOwner> {
    if req.ownerProof.Some? && VerifyCreate(policy.check, req.ownerProof.value).Ok?
    then Some(ChannelOwner(VerifyCreate(policy.check, req.ownerProof.value).value.owner, req.callbackName))
    else None
  }

  /** The next thing the handler of `req` does. */
  function Act(settings: Settings, st: State, next: SessionId, req: CreateRequest, phase: Phase, checked: u64, now: u64,
               faults: Faults): (State, Phase)
  {
    match phase
    case Arrived => (st, if PrecheckCreate(settings, st, req).Done? then Checked else Failed)
    case Checked =>
      var (st', r) := AuthorizeCreate(settings.policy, st, req, checked, now, faults);
      (st', if r.Ok? then Authorized else Failed)
    case Authorized =>
      if faults.createSession then (st, Failed) else (st.(open := st.open + {next}), Opened(next))
    case Opened(session) =>
      var (st', added) := AddSession(st, req.channel, session);
      (st', if added then Listed(session) else Losing(session))
    case Losing(session) =>
      if req.channel in faults.deleteSession then (st, Leaked(session))
      else (st.(open := st.open - {session}), Lost(session))
    case Listed(session) =>
      var (st', ok) := RecordExpiry(st, req.channel, ExpiresAt(req.ttlSeconds, now), faults.putExpiry);
      (st', if ok then Timed(session, now) else Undoing(session))
    case Timed(session, at) =>
      var (st', ok) := RecordOwner(st, req.channel, OwnerFor(settings.policy, req), faults.putOwner);
      (st', if ok then Succeeded(session, at) else Undoing(session))
    case Undoing(session) => (RemoveSession(st, req.channel, req.channel in faults.deleteSession).0, Unlisted(session))
    case Unlisted(session) => (RemoveOwner(st, req.channel, req.channel in faults.deleteOwner), Unowned(session))
    case Unowned(session) => (RemoveExpiry(st, req.channel, req.channel in faults.deleteExpiry), Undone(session))
    case _ => (st, phase)
  }

  function RecordExpiry(st: State, channel: string, at: Option<u64>, fails: bool): (State, bool) {
    if at.Some? then SetExpiry(st, channel, at.value, fails) else (st, true)
  }

  function RecordOwner(st: State, channel: string, owner: Option<ChannelOwner>, fails: bool): (State, bool) {
    if owner.Some? then SetOwner(st, channel, owner.value, fails) else (st, true)
  }

  function Next(settings: Settings, reqs: seq<CreateRequest>, w: World, step: Step): World
    requires |w.phases| == |reqs|
  {
    match step
    case SessionEnds(session) => w.(st := w.st.(open := w.st.open - {session}))
    case Advance(task, checked, now, faults) =>
      if task >= |reqs| then w
      else
        var (st, phase) := Act(settings, w.st, w.next, reqs[task], w.phases[task], checked, now, faults);
        World(st, w.phases[task := phase], if w.phases[task].Authorized? then w.next + 1 else w.next)
  }

  function Run(settings: Settings, reqs: seq<CreateRequest>, w: World, steps: seq<Step>): (end: World)
    requires |w.phases| == |reqs|
    ensures |end.phases| == |reqs|
    decreases |steps|
  {
    if steps == [] then w
    else Next(settings, reqs, Run(settings, reqs, w, steps[..|steps| - 1]), steps[|steps| - 1])
  }

  predicate HasSession(phase: Phase) {
    !phase.Arrived? && !phase.Checked? && !phase.Authorized? && !phase.Failed?
  }

  /** The request's channel is in the list because of it. */
  predicate Holds(phase: Phase) {
    phase.Listed? || phase.Timed? || phase.Succeeded? || phase.Undoing?
  }

  predicate Beaten(phase: Phase) {
    phase.Losing? || phase.Lost? || phase.Leaked?
  }

  /** The request took its channel off the list again. */
  predicate Withdrawn(phase: Phase) {
    phase.Unlisted? || phase.Unowned? || phase.Undone?
  }

  /** The request is about to forget records under a name it no longer holds. */
  predicate Forgetting(phase: Phase) {
    phase.Unlisted? || phase.Unowned?
  }

  // Sessions, whatever fails.

  predicate SessionOk(st: State, next: SessionId, req: CreateRequest, phase: Phase) {
    && (HasSession(phase) ==> phase.session < next)
    && (Holds(phase) ==> req.channel in st.sessions && st.sessions[req.channel] == phase.session)
    && (phase.Opened? || Beaten(phase) ==> phase.session !in st.sessions.Values)
    && (phase.Lost? ==> phase.session !in st.open)
  }

  predicate WasBeaten(reqs: seq<CreateRequest>, w: World, i: nat)
    requires i < |reqs| == |w.phases|
  {
    reqs[i].channel in w.st.sessions
    || exists j :: 0 <= j < |reqs| && Withdrawn(w.phases[j]) && reqs[j].channel == reqs[i].channel
  }

  predicate Ok(reqs: seq<CreateRequest>, w: World) {
    && |w.phases| == |reqs|
    && (forall c :: c in w.st.sessions ==> w.st.sessions[c] < w.next)
    && (forall id :: id in w.st.open ==> id < w.next)
    && (forall i :: 0 <= i < |reqs| ==> SessionOk(w.st, w.next, reqs[i], w.phases[i]))
    && (forall i :: 0 <= i < |reqs| && Beaten(w.phases[i]) ==> WasBeaten(reqs, w, i))
    && (forall i, j :: 0 <= i < j < |reqs| && HasSession(w.phases[i]) && HasSession(w.phases[j]) ==>
          w.phases[i].session != w.phases[j].session)
  }

  /** What one request's step may do to the sessions. */
  predicate Moves(st: State, st': State, next: SessionId, req: CreateRequest, phase: Phase) {
    && st'.sessions == (if phase.Opened? && req.channel !in st.sessions then st.sessions[req.channel := phase.session]
                        else if phase.Undoing? then st.sessions - {req.channel}
                        else st.sessions)
    && (if phase.Authorized? then st'.open <= st.open + {next} else st'.open <= st.open)
  }

  lemma ActMoves(settings: Settings, st: State, next: SessionId, req: CreateRequest, phase: Phase, checked: u64,
                 now: u64, faults: Faults)
    ensures Moves(st, Act(settings, st, next, req, phase, checked, now, faults).0, next, req, phase)
  {
    if phase.Checked? {
      CreateTouchesNonces(settings.policy, st, req, checked, now, faults);
    }
  }

  /** One request's step keeps what holds of another's session. */
  lemma OthersSession(st: State, st': State, next: SessionId, req: CreateRequest, phase: Phase,
                      other: CreateRequest, otherPhase: Phase)
    requires Moves(st, st', next, req, phase)
    requires SessionOk(st, next, other, otherPhase) && SessionOk(st, next, req, phase)
    requires HasSession(phase) && HasSession(otherPhase) ==> phase.session != otherPhase.session
    ensures SessionOk(st', if phase.Authorized? then next + 1 else next, other, otherPhase)
  {
    if phase.Undoing? && Holds(otherPhase) {
      assert req.channel != other.channel;
    }
    assert forall id :: id in st'.sessions.Values ==>
             id in st.sessions.Values || (phase.Opened? && id == phase.session);
  }

  /** A request's own step keeps what holds of its session. */
  lemma OwnSession(settings: Settings, st: State, next: SessionId, req: CreateRequest, phase: Phase, checked: u64,
                   now: u64, faults: Faults)
    requires SessionOk(st, next, req, phase)
    requires forall c :: c in st.sessions ==> st.sessions[c] < next
    ensures var (st', phase') := Act(settings, st, next, req, phase, checked, now, faults);
            && SessionOk(st', if phase.Authorized? then next + 1 else next, req, phase')
            && (HasSession(phase) ==> HasSession(phase') && phase'.session == phase.session)
            && (HasSession(phase') && !HasSession(phase) ==> phase.Authorized? && phase'.session == next)
  {
    ActMoves(settings, st, next, req, phase, checked, now, faults);
    if phase.Authorized? {
      assert next !in st.sessions.Values;
    }
  }

  /** How a request comes to be beaten or withdrawn, and that it stays so. */
  lemma PhasesGo(settings: Settings, st: State, next: SessionId, req: CreateRequest, phase: Phase, checked: u64,
                 now: u64, faults: Faults)
    ensures var phase' := Act(settings, st, next, req, phase, checked, now, faults).1;
            && (Withdrawn(phase) || phase.Undoing? ==> Withdrawn(phase'))
            && (Beaten(phase') ==> Beaten(phase) || req.channel in st.sessions)
  {
  }

  lemma StillBeaten(settings: Settings, reqs: seq<CreateRequest>, w: World, step: Step, i: nat)
    requires Ok(reqs, w) && step.Advance? && step.task < |reqs| && i < |reqs|
    requires Beaten(Next(settings, reqs, w, step).phases[i])
    ensures WasBeaten(reqs, Next(settings, reqs, w, step), i)
  {
    var t := step.task;
    var w' := Next(settings, reqs, w, step);
    ActMoves(settings, w.st, w.next, reqs[t], w.phases[t], step.checked, step.now, step.faults);
    PhasesGo(settings, w.st, w.next, reqs[t], w.phases[t], step.checked, step.now, step.faults);
    if reqs[i].channel in w.st.sessions {
      if reqs[i].channel !in w'.st.sessions {
        assert Withdrawn(w'.phases[t]) && reqs[t].channel == reqs[i].channel;
      }
    } else {
      assert Beaten(w.phases[i]) && WasBeaten(reqs, w, i);
      var j :| 0 <= j < |reqs| && Withdrawn(w.phases[j]) && reqs[j].channel == reqs[i].channel;
      assert Withdrawn(w'.phases[j]);
    }
  }

  /** Every step keeps the sessions straight, whatever fails. */
  lemma StepOk(settings: Settings, reqs: seq<CreateRequest>, w: World, step: Step)
    requires Ok(reqs, w)
    ensures Ok(reqs, Next(settings, reqs, w, step))
  {
    var w' := Next(settings, reqs, w, step);
    if step.Advance? && step.task < |reqs| {
      var t := step.task;
      ActMoves(settings, w.st, w.next, reqs[t], w.phases[t], step.checked, step.now, step.faults);
      OwnSession(settings, w.st, w.next, reqs[t], w.phases[t], step.checked, step.now, step.faults);
      forall j | 0 <= j < |reqs| ensures SessionOk(w'.st, w'.next, reqs[j], w'.phases[j]) {
        if j != t {
          OthersSession(w.st, w'.st, w.next, reqs[t], w.phases[t], reqs[j], w.phases[j]);
        }
      }
      forall i | 0 <= i < |reqs| && Beaten(w'.phases[i]) ensures WasBeaten(reqs, w', i) {
        StillBeaten(settings, reqs, w, step, i);
      }
    } else {
      forall i | 0 <= i < |reqs| && Beaten(w'.phases[i]) ensures WasBeaten(reqs, w', i) {
        assert WasBeaten(reqs, w, i);
      }
    }
  }

  lemma {:induction false} RunOk(settings: Settings, reqs: seq<CreateRequest>, w: World, steps: seq<Step>)
    requires Ok(reqs, w)
    ensures Ok(reqs, Run(settings, reqs, w, steps))
    decreases |steps|
  {
    if steps != [] {
      RunOk(settings, reqs, w, steps[..|steps| - 1]);
      StepOk(settings, reqs, Run(settings, reqs, w, steps[..|steps| - 1]), steps[|steps| - 1]);
    }
  }

  /** Where the requests start from: `next` is a session nobody has had. */
  predicate Fresh(start: State, next: SessionId) {
    && (forall c :: c in start.sessions ==> start.sessions[c] < next)
    && (forall id :: id in start.open ==> id < next)
  }

  function Start(reqs: seq<CreateRequest>, start: State, next: SessionId): (w: World)
    ensures |w.phases| == |reqs|
  {
    World(start, seq(|reqs|, i => Arrived), next)
  }

  /** In every interleaving, whatever fails, at most one request per channel succeeds
      and the channel's session is its own; one beaten at the insert found the channel
      someone else's, and its session is closed unless closing it failed. */
  lemma OneCreateWins(settings: Settings, reqs: seq<CreateRequest>, start: State, next: SessionId, steps: seq<Step>)
    requires Fresh(start, next)
    ensures var end := Run(settings, reqs, Start(reqs, start, next), steps);
            && (forall i, j :: 0 <= i < j < |reqs| && end.phases[i].Succeeded? && end.phases[j].Succeeded? ==>
                  reqs[i].channel != reqs[j].channel)
            && (forall i :: 0 <= i < |reqs| && end.phases[i].Succeeded? ==>
                  reqs[i].channel in end.st.sessions && end.st.sessions[reqs[i].channel] == end.phases[i].session)
            && (forall i :: 0 <= i < |reqs| && Beaten(end.phases[i]) ==> WasBeaten(reqs, end, i))
            && (forall i :: 0 <= i < |reqs| && end.phases[i].Lost? ==> end.phases[i].session !in end.st.open)
  {
    RunOk(settings, reqs, Start(reqs, start, next), steps);
    var end := Run(settings, reqs, Start(reqs, start, next), steps);
    forall i | 0 <= i < |reqs| ensures SessionOk(end.st, end.next, reqs[i], end.phases[i]) {
    }
  }

  // Records.

  predicate RecordOk(settings: Settings, st: State, req: CreateRequest, phase: Phase) {
    && (phase.Listed? ==> ExpiryOf(st, req.channel).None?)
    && (phase.Listed? || phase.Timed? || phase.Undoing? ==> OwnerOf(st, req.channel).None?)
    && (phase.Timed? || phase.Succeeded? ==> ExpiryOf(st, req.channel) == ExpiresAt(req.ttlSeconds, phase.at))
    && (phase.Succeeded? ==> OwnerOf(st, req.channel) == OwnerFor(settings.policy, req))
  }

  /** A request that is `phase` far with forgetting the channel has nothing of `req`'s left to forget. */
  predicate Spares(settings: Settings, phase: Phase, req: CreateRequest) {
    req.ttlSeconds.None? && (phase.Unlisted? ==> OwnerFor(settings.policy, req).None?)
  }

  /** Whoever holds a channel another request is still forgetting is spared. */
  predicate PairOk(settings: Settings, req: CreateRequest, phase: Phase, other: CreateRequest, otherPhase: Phase) {
    Holds(phase) && Forgetting(otherPhase) && req.channel == other.channel ==> Spares(settings, otherPhase, req)
  }

  predicate BeingForgotten(reqs: seq<CreateRequest>, w: World, c: string)
    requires |w.phases| == |reqs|
  {
    exists j :: 0 <= j < |reqs| && Forgetting(w.phases[j]) && reqs[j].channel == c
  }

  ghost predicate RecordsOk(settings: Settings, reqs: seq<CreateRequest>, w: World) {
    && |w.phases| == |reqs|
    && (forall i :: 0 <= i < |reqs| ==> RecordOk(settings, w.st, reqs[i], w.phases[i]))
    && (forall i, j :: 0 <= i < |reqs| && 0 <= j < |reqs| ==>
          PairOk(settings, reqs[i], w.phases[i], reqs[j], w.phases[j]))
    && (forall c :: c in w.st.owners ==> c in w.st.sessions)
    && (forall c :: c in w.st.expires ==> c in w.st.sessions || BeingForgotten(reqs, w, c))
  }

  /** A request takes a channel another has unlisted but not yet forgotten, with an expiry still on
      record there or asking for a record the other is about to forget. */
  predicate Harms(settings: Settings, reqs: seq<CreateRequest>, w: World, step: Step)
    requires |w.phases| == |reqs|
  {
    && step.Advance? && step.task < |reqs| && w.phases[step.task].Opened?
    && reqs[step.task].channel !in w.st.sessions
    && exists i :: 0 <= i < |reqs| && HarmedBy(settings, reqs, w, step.task, i)
  }

  predicate HarmedBy(settings: Settings, reqs: seq<CreateRequest>, w: World, task: nat, i: int)
    requires |w.phases| == |reqs| && task < |reqs|
  {
    && 0 <= i < |reqs| && Forgetting(w.phases[i]) && reqs[i].channel == reqs[task].channel
    && (ExpiryOf(w.st, reqs[task].channel).Some? || !Spares(settings, w.phases[i], reqs[task]))
  }

  /** What one request's step may do to the records. */
  ghost predicate Writes(st: State, st': State, req: CreateRequest, phase: Phase) {
    && (forall c :: c != req.channel || !(phase.Listed? || phase.Timed? || Forgetting(phase)) ==>
          OwnerOf(st', c) == OwnerOf(st, c) && ExpiryOf(st', c) == ExpiryOf(st, c))
    && (phase.Unlisted? ==>
          OwnerOf(st', req.channel).None? && ExpiryOf(st', req.channel) == ExpiryOf(st, req.channel))
    && (phase.Unowned? ==>
          ExpiryOf(st', req.channel).None? && OwnerOf(st', req.channel) == OwnerOf(st, req.channel))
  }

  lemma ActWrites(settings: Settings, st: State, next: SessionId, req: CreateRequest, phase: Phase, checked: u64,
                  now: u64, faults: Faults)
    ensures Writes(st, Act(settings, st, next, req, phase, checked, now, faults).0, req, phase)
  {
    if phase.Checked? {
      CreateTouchesNonces(settings.policy, st, req, checked, now, faults);
    }
  }

  /** One request's step keeps the records of another that holds its channel. */
  lemma OthersRecords(settings: Settings, st: State, st': State, next: SessionId, req: CreateRequest, phase: Phase,
                      other: CreateRequest, otherPhase: Phase)
    requires Writes(st, st', req, phase)
    requires SessionOk(st, next, other, otherPhase) && SessionOk(st, next, req, phase)
    requires RecordOk(settings, st, other, otherPhase) && PairOk(settings, other, otherPhase, req, phase)
    requires HasSession(phase) && HasSession(otherPhase) ==> phase.session != otherPhase.session
    ensures RecordOk(settings, st', other, otherPhase)
  {
  }

  /** A request's own step leaves its records as its phase says. */
  lemma OwnRecords(settings: Settings, st: State, next: SessionId, req: CreateRequest, phase: Phase, checked: u64,
                   now: u64, faults: Faults)
    requires SessionOk(st, next, req, phase) && RecordOk(settings, st, req, phase)
    requires phase.Opened? && req.channel !in st.sessions ==> req.channel !in st.owners && req.channel !in st.expires
    ensures var (st', phase') := Act(settings, st, next, req, phase, checked, now, faults);
            RecordOk(settings, st', req, phase')
  {
  }

  /** How a request comes to hold its channel or to forget it. */
  lemma HoldsOrForgets(settings: Settings, st: State, next: SessionId, req: CreateRequest, phase: Phase, checked: u64,
                       now: u64, faults: Faults)
    ensures var phase' := Act(settings, st, next, req, phase, checked, now, faults).1;
            && (Holds(phase') ==> Holds(phase) || (phase.Opened? && req.channel !in st.sessions))
            && (Forgetting(phase') ==> phase.Undoing? || phase.Unlisted?)
            && (phase.Undoing? ==> phase'.Unlisted?) && (phase.Unlisted? ==> phase'.Unowned?)
  {
  }

  /** One request's step keeps it apart from another, unless it harms. */
  lemma PairKept(settings: Settings, req: CreateRequest, phase: Phase, phase': Phase, other: CreateRequest,
                 otherPhase: Phase)
    requires PairOk(settings, req, phase, other, otherPhase) && PairOk(settings, other, otherPhase, req, phase)
    requires Holds(phase') ==> Holds(phase)
                               || (Forgetting(otherPhase) && req.channel == other.channel
                                   ==> Spares(settings, otherPhase, req))
    requires Forgetting(phase') ==> phase.Undoing? || phase.Unlisted?
    requires phase.Unlisted? ==> phase'.Unowned?
    requires Holds(phase) && Holds(otherPhase) ==> req.channel != other.channel
    ensures PairOk(settings, req, phase', other, otherPhase) && PairOk(settings, other, otherPhase, req, phase')
  {
  }

  lemma StepPairs(settings: Settings, reqs: seq<CreateRequest>, w: World, step: Step, i: nat, j: nat)
    requires Ok(reqs, w) && RecordsOk(settings, reqs, w) && !Harms(settings, reqs, w, step)
    requires step.Advance? && step.task < |reqs| && i < |reqs| && j < |reqs|
    ensures var phases := Next(settings, reqs, w, step).phases;
            PairOk(settings, reqs[i], phases[i], reqs[j], phases[j])
  {
    var t, phases := step.task, Next(settings, reqs, w, step).phases;
    var o := if i == t then j else i;
    HoldsOrForgets(settings, w.st, w.next, reqs[t], w.phases[t], step.checked, step.now, step.faults);
    if o != t && (i == t || j == t) {
      assert PairOk(settings, reqs[t], w.phases[t], reqs[o], w.phases[o]);
      assert PairOk(settings, reqs[o], w.phases[o], reqs[t], w.phases[t]);
      assert SessionOk(w.st, w.next, reqs[t], w.phases[t]) && SessionOk(w.st, w.next, reqs[o], w.phases[o]);
      assert Holds(phases[t]) && !Holds(w.phases[t]) ==> !HarmedBy(settings, reqs, w, t, o);
      PairKept(settings, reqs[t], w.phases[t], phases[t], reqs[o], w.phases[o]);
    }
  }

  /** One request's step leaves no channel's expiry unaccounted for. */
  lemma StillAccounted(reqs: seq<CreateRequest>, w: World, w': World, t: nat, c: string)
    requires t < |reqs| == |w.phases| == |w'.phases| && w'.phases == w.phases[t := w'.phases[t]]
    requires Moves(w.st, w'.st, w.next, reqs[t], w.phases[t]) && Writes(w.st, w'.st, reqs[t], w.phases[t])
    requires SessionOk(w.st, w.next, reqs[t], w.phases[t])
    requires w.phases[t].Undoing? || w.phases[t].Unlisted? ==> Forgetting(w'.phases[t])
    requires c in w.st.expires ==> c in w.st.sessions || BeingForgotten(reqs, w, c)
    requires c in w'.st.expires
    ensures c in w'.st.sessions || BeingForgotten(reqs, w', c)
  {
    assert ExpiryOf(w'.st, c).Some?;
    if c == reqs[t].channel && (w.phases[t].Undoing? || w.phases[t].Unlisted?) {
      assert Forgetting(w'.phases[t]);
    } else if c !in w'.st.sessions {
      var j :| 0 <= j < |reqs| && Forgetting(w.phases[j]) && reqs[j].channel == c;
      assert Forgetting(w'.phases[j]);
    }
  }

  /** One request's step leaves no owner on record for a channel that is not listed. */
  lemma OwnersListed(settings: Settings, w: World, w': World, req: CreateRequest, phase: Phase, c: string)
    requires Moves(w.st, w'.st, w.next, req, phase) && Writes(w.st, w'.st, req, phase)
    requires SessionOk(w.st, w.next, req, phase) && RecordOk(settings, w.st, req, phase)
    requires c in w.st.owners ==> c in w.st.sessions
    requires c in w'.st.owners
    ensures c in w'.st.sessions
  {
    assert OwnerOf(w'.st, c).Some?;
  }

  lemma TakenClean(settings: Settings, reqs: seq<CreateRequest>, w: World, step: Step)
    requires RecordsOk(settings, reqs, w) && !Harms(settings, reqs, w, step) && step.Advance? && step.task < |reqs|
    ensures var c := reqs[step.task].channel;
            w.phases[step.task].Opened? && c !in w.st.sessions ==> c !in w.st.owners && c !in w.st.expires
  {
    var c := reqs[step.task].channel;
    if w.phases[step.task].Opened? && c !in w.st.sessions && c in w.st.expires {
      var i :| 0 <= i < |reqs| && Forgetting(w.phases[i]) && reqs[i].channel == c;
      assert HarmedBy(settings, reqs, w, step.task, i);
    }
  }

  /** Every step that does no harm keeps the records straight. */
  lemma StepRecords(settings: Settings, reqs: seq<CreateRequest>, w: World, step: Step)
    requires Ok(reqs, w) && RecordsOk(settings, reqs, w) && !Harms(settings, reqs, w, step)
    ensures RecordsOk(settings, reqs, Next(settings, reqs, w, step))
  {
    var w' := Next(settings, reqs, w, step);
    if step.Advance? && step.task < |reqs| {
      var t := step.task;
      ActMoves(settings, w.st, w.next, reqs[t], w.phases[t], step.checked, step.now, step.faults);
      ActWrites(settings, w.st, w.next, reqs[t], w.phases[t], step.checked, step.now, step.faults);
      HoldsOrForgets(settings, w.st, w.next, reqs[t], w.phases[t], step.checked, step.now, step.faults);
      TakenClean(settings, reqs, w, step);
      OwnRecords(settings, w.st, w.next, reqs[t], w.phases[t], step.checked, step.now, step.faults);
      forall j | 0 <= j < |reqs| ensures RecordOk(settings, w'.st, reqs[j], w'.phases[j]) {
        if j != t {
          assert PairOk(settings, reqs[j], w.phases[j], reqs[t], w.phases[t]);
          OthersRecords(settings, w.st, w'.st, w.next, reqs[t], w.phases[t], reqs[j], w.phases[j]);
        }
      }
      forall i, j | 0 <= i < |reqs| && 0 <= j < |reqs|
        ensures PairOk(settings, reqs[i], w'.phases[i], reqs[j], w'.phases[j])
      {
        StepPairs(settings, reqs, w, step, i, j);
      }
      forall c | c in w'.st.owners ensures c in w'.st.sessions {
        OwnersListed(settings, w, w', reqs[t], w.phases[t], c);
      }
      forall c | c in w'.st.expires ensures c in w'.st.sessions || BeingForgotten(reqs, w', c) {
        StillAccounted(reqs, w, w', t, c);
      }
    } else {
      forall c | c in w'.st.expires ensures c in w'.st.sessions || BeingForgotten(reqs, w', c) {
        assert c in w.st.sessions || BeingForgotten(reqs, w, c);
      }
    }
  }

  /** No step of the run does harm. */
  predicate Quiet(settings: Settings, reqs: seq<CreateRequest>, w: World, steps: seq<Step>)
    requires |w.phases| == |reqs|
    decreases |steps|
  {
    steps == [] ||
      var front := steps[..|steps| - 1];
      Quiet(settings, reqs, w, front) && !Harms(settings, reqs, Run(settings, reqs, w, front), steps[|steps| - 1])
  }

  lemma {:induction false} RunRecords(settings: Settings, reqs: seq<CreateRequest>, w: World, steps: seq<Step>)
    requires Ok(reqs, w) && RecordsOk(settings, reqs, w) && Quiet(settings, reqs, w, steps)
    ensures RecordsOk(settings, reqs, Run(settings, reqs, w, steps))
    decreases |steps|
  {
    if steps != [] {
      var front := steps[..|steps| - 1];
      RunRecords(settings, reqs, w, front);
      RunOk(settings, reqs, w, front);
      StepRecords(settings, reqs, Run(settings, reqs, w, front), steps[|steps| - 1]);
    }
  }

  /** The owner and expiry on record for a created channel are those its request asked for. */
  predicate RecordsRight(settings: Settings, reqs: seq<CreateRequest>, w: World)
    requires |w.phases| == |reqs|
  {
    forall i :: 0 <= i < |reqs| && w.phases[i].Succeeded? ==>
      && OwnerOf(w.st, reqs[i].channel) == OwnerFor(settings.policy, reqs[i])
      && ExpiryOf(w.st, reqs[i].channel) == ExpiresAt(reqs[i].ttlSeconds, w.phases[i].at)
  }

  lemma OkIsRight(settings: Settings, reqs: seq<CreateRequest>, w: World)
    requires RecordsOk(settings, reqs, w)
    ensures RecordsRight(settings, reqs, w)
  {
    forall i | 0 <= i < |reqs| ensures RecordOk(settings, w.st, reqs[i], w.phases[i]) {
    }
  }

  /** In every interleaving without harm, failures included, the owner and expiry on record for
      a created channel are those its one successful request asked for. */
  lemma RecordsAreTheWinners(settings: Settings, reqs: seq<CreateRequest>, start: State, next: SessionId,
                             steps: seq<Step>)
    requires Within(start) && Fresh(start, next) && Quiet(settings, reqs, Start(reqs, start, next), steps)
    ensures RecordsRight(settings, reqs, Run(settings, reqs, Start(reqs, start, next), steps))
  {
    StartRecords(settings, reqs, start, next);
    RunRecords(settings, reqs, Start(reqs, start, next), steps);
    OkIsRight(settings, reqs, Run(settings, reqs, Start(reqs, start, next), steps));
  }

  lemma StartRecords(settings: Settings, reqs: seq<CreateRequest>, start: State, next: SessionId)
    requires Within(start) && Fresh(start, next)
    ensures Ok(reqs, Start(reqs, start, next)) && RecordsOk(settings, reqs, Start(reqs, start, next))
  {
    assert forall c :: c in start.owners ==> c in start.sessions.Keys;
    assert forall c :: c in start.expires ==> c in start.sessions.Keys;
  }

  /** The condition is exact: after a run without harm, whatever comes next leaves the records right
      in every continuation without further harm exactly when it does none itself. */
  lemma RecordsRightIff(settings: Settings, reqs: seq<CreateRequest>, start: State, next: SessionId, steps: seq<Step>,
                        step: Step)
    requires Within(start) && Fresh(start, next) && Quiet(settings, reqs, Start(reqs, start, next), steps)
    ensures var w := Run(settings, reqs, Start(reqs, start, next), steps);
            AlwaysRight(settings, reqs, Next(settings, reqs, w, step)) <==> !Harms(settings, reqs, w, step)
  {
    var first := Start(reqs, start, next);
    var w := Run(settings, reqs, first, steps);
    var w' := Next(settings, reqs, w, step);
    StartRecords(settings, reqs, start, next);
    RunOk(settings, reqs, first, steps);
    RunRecords(settings, reqs, first, steps);
    if Harms(settings, reqs, w, step) {
      var rest := HarmLosesRecords(settings, reqs, w, step);
    } else {
      StepOk(settings, reqs, w, step);
      StepRecords(settings, reqs, w, step);
      forall rest | Quiet(settings, reqs, w', rest)
        ensures RecordsRight(settings, reqs, Run(settings, reqs, w', rest))
      {
        RunRecords(settings, reqs, w', rest);
        OkIsRight(settings, reqs, Run(settings, reqs, w', rest));
      }
    }
  }

  ghost predicate AlwaysRight(settings: Settings, reqs: seq<CreateRequest>, w: World)
    requires |w.phases| == |reqs|
  {
    forall rest: seq<Step> :: Quiet(settings, reqs, w, rest) ==>
      RecordsRight(settings, reqs, Run(settings, reqs, w, rest))
  }

  function NoFaults(): Faults {
    Faults(false, {}, false, false, {}, {}, false, {})
  }

  /** One more step of a request, with nothing failing. */
  function Go(task: nat): Step {
    Advance(task, 0, 0, NoFaults())
  }

  lemma RunOne(settings: Settings, reqs: seq<CreateRequest>, w: World, steps: seq<Step>, step: Step)
    requires |w.phases| == |reqs|
    ensures Run(settings, reqs, w, steps + [step]) == Next(settings, reqs, Run(settings, reqs, w, steps), step)
    ensures Quiet(settings, reqs, w, steps + [step]) <==>
              Quiet(settings, reqs, w, steps) && !Harms(settings, reqs, Run(settings, reqs, w, steps), step)
  {
    assert (steps + [step])[..|steps|] == steps;
  }

  /** After any harm the run can go on, without further harm, so that the taker succeeds and its
      records are not the ones it asked for. */
  lemma HarmLosesRecords(settings: Settings, reqs: seq<CreateRequest>, w: World, step: Step) returns (rest: seq<Step>)
    requires |w.phases| == |reqs| && Harms(settings, reqs, w, step)
    ensures var taken := Next(settings, reqs, w, step);
            Quiet(settings, reqs, taken, rest) && !RecordsRight(settings, reqs, Run(settings, reqs, taken, rest))
  {
    var j, c := step.task, reqs[step.task].channel;
    var i :| 0 <= i < |reqs| && HarmedBy(settings, reqs, w, j, i);
    var taken := Next(settings, reqs, w, step);
    assert taken.phases == w.phases[j := Listed(w.phases[j].session)];
    Recording(settings, reqs, taken, j);
    rest := [] + [Go(j)] + [Go(j)];
    var recorded := Run(settings, reqs, taken, rest);
    if reqs[j].ttlSeconds.None? && ExpiryOf(w.st, c).Some? {
      assert recorded.phases[j].Succeeded? && ExpiryOf(recorded.st, c).Some?;
    } else {
      Forgets(settings, reqs, recorded, i);
      RunOne(settings, reqs, taken, rest, Go(i));
      var before := rest;
      rest := rest + [Go(i)];
      if reqs[j].ttlSeconds.Some? && w.phases[i].Unlisted? {
        var half := Run(settings, reqs, taken, rest);
        Forgets(settings, reqs, half, i);
        RunOne(settings, reqs, taken, rest, Go(i));
        rest := rest + [Go(i)];
      }
      assert Run(settings, reqs, taken, rest).phases[j].Succeeded?;
    }
  }

  /** A listed request records, nothing failing, and succeeds. */
  lemma Recording(settings: Settings, reqs: seq<CreateRequest>, w: World, j: nat)
    requires |w.phases| == |reqs| && j < |reqs| && w.phases[j].Listed?
    ensures var steps := [] + [Go(j)] + [Go(j)];
            var end := Run(settings, reqs, w, steps);
            && Quiet(settings, reqs, w, steps)
            && end.phases == w.phases[j := Succeeded(w.phases[j].session, 0)]
            && (reqs[j].ttlSeconds.None? ==> ExpiryOf(end.st, reqs[j].channel) == ExpiryOf(w.st, reqs[j].channel))
  {
    var w1 := Next(settings, reqs, w, Go(j));
    assert w1.phases == w.phases[j := Timed(w.phases[j].session, 0)];
    RunOne(settings, reqs, w, [], Go(j));
    RunOne(settings, reqs, w, [] + [Go(j)], Go(j));
  }

  /** One step of forgetting: the owner, or the expiry. */
  lemma Forgets(settings: Settings, reqs: seq<CreateRequest>, w: World, i: nat)
    requires |w.phases| == |reqs| && i < |reqs| && Forgetting(w.phases[i])
    ensures var w' := Next(settings, reqs, w, Go(i));
            && !Harms(settings, reqs, w, Go(i))
            && (w.phases[i].Unlisted? ==>
                  w'.phases == w.phases[i := Unowned(w.phases[i].session)] && OwnerOf(w'.st, reqs[i].channel).None?)
            && (w.phases[i].Unowned? ==>
                  w'.phases == w.phases[i := Undone(w.phases[i].session)] && ExpiryOf(w'.st, reqs[i].channel).None?)
  {
  }

  // While recording does not fail nobody withdraws.

  predicate RecordingSucceeds(steps: seq<Step>) {
    forall k :: 0 <= k < |steps| && steps[k].Advance? ==> !steps[k].faults.putExpiry && !steps[k].faults.putOwner
  }

  predicate NoneWithdraws(phases: seq<Phase>) {
    forall i :: 0 <= i < |phases| ==> !phases[i].Undoing? && !Withdrawn(phases[i])
  }

  lemma {:induction false} RecordingIsQuiet(settings: Settings, reqs: seq<CreateRequest>, w: World, steps: seq<Step>)
    requires |w.phases| == |reqs| && NoneWithdraws(w.phases) && RecordingSucceeds(steps)
    ensures NoneWithdraws(Run(settings, reqs, w, steps).phases) && Quiet(settings, reqs, w, steps)
    decreases |steps|
  {
    if steps != [] {
      RecordingIsQuiet(settings, reqs, w, steps[..|steps| - 1]);
    }
  }

  /** When recording does not fail, then, the records are the winner's in every interleaving,
      and a beaten request's channel is listed. */
  lemma RecordedAreTheWinners(settings: Settings, reqs: seq<CreateRequest>, start: State, next: SessionId,
                              steps: seq<Step>)
    requires Within(start) && Fresh(start, next) && RecordingSucceeds(steps)
    ensures var end := Run(settings, reqs, Start(reqs, start, next), steps);
            && RecordsRight(settings, reqs, end)
            && (forall i :: 0 <= i < |reqs| && Beaten(end.phases[i]) ==> reqs[i].channel in end.st.sessions)
  {
    RecordingIsQuiet(settings, reqs, Start(reqs, start, next), steps);
    RecordsAreTheWinners(settings, reqs, start, next, steps);
    OneCreateWins(settings, reqs, start, next, steps);
  }

  // Harm comes about from any two requests for a channel.

  /** Two requests for one channel that is not listed, let through one after the other with
      the clock readings and faults of `a` and `b`. */
  predicate Contend(settings: Settings, reqs: seq<CreateRequest>, start: State, a: Step, b: Step) {
    && a.Advance? && b.Advance? && a.task < |reqs| && b.task < |reqs| && a.task != b.task
    && reqs[a.task].channel == reqs[b.task].channel && reqs[a.task].channel !in start.sessions
    && PrecheckCreate(settings, start, reqs[a.task]).Done? && PrecheckCreate(settings, start, reqs[b.task]).Done?
    && var (st, r) := AuthorizeCreate(settings.policy, start, reqs[a.task], a.checked, a.now, a.faults);
       && r.Ok?
       && AuthorizeCreate(settings.policy, st, reqs[b.task], b.checked, b.now, b.faults).1.Ok?
  }

  /** The request asks for an owner or an expiry on record. */
  predicate Asks(settings: Settings, req: CreateRequest) {
    req.ttlSeconds.Some? || OwnerFor(settings.policy, req).Some?
  }

  predicate NoneForgets(phases: seq<Phase>) {
    forall k :: 0 <= k < |phases| ==> !Forgetting(phases[k])
  }

  /** One more step of a run while nobody is forgetting. */
  lemma RunOnward(settings: Settings, reqs: seq<CreateRequest>, first: World, steps: seq<Step>, step: Step)
    requires |first.phases| == |reqs| && Quiet(settings, reqs, first, steps)
    requires NoneForgets(Run(settings, reqs, first, steps).phases)
    ensures Run(settings, reqs, first, steps + [step]) == Next(settings, reqs, Run(settings, reqs, first, steps), step)
    ensures Quiet(settings, reqs, first, steps + [step])
  {
    RunOne(settings, reqs, first, steps, step);
  }

  /** One step of request `t` as a step of the world. */
  lemma Stepped(settings: Settings, reqs: seq<CreateRequest>, w: World, step: Step, st: State, phase: Phase)
    requires |w.phases| == |reqs| && step.Advance? && step.task < |reqs|
    requires Act(settings, w.st, w.next, reqs[step.task], w.phases[step.task], step.checked, step.now, step.faults)
          == (st, phase)
    ensures var w' := Next(settings, reqs, w, step); w'.st == st && w'.phases == w.phases[step.task := phase]
  {
  }

  /** Both requests pass the checks. */
  lemma BothChecked(settings: Settings, reqs: seq<CreateRequest>, start: State, next: SessionId, i: nat, j: nat)
    returns (steps: seq<Step>)
    requires i < |reqs| && j < |reqs| && i != j
    requires PrecheckCreate(settings, start, reqs[i]).Done? && PrecheckCreate(settings, start, reqs[j]).Done?
    ensures var first := Start(reqs, start, next);
            var w := Run(settings, reqs, first, steps);
            && Quiet(settings, reqs, first, steps) && w.st == start
            && w.phases == first.phases[i := Checked][j := Checked]
  {
    var first := Start(reqs, start, next);
    RunOnward(settings, reqs, first, [], Go(i));
    Stepped(settings, reqs, first, Go(i), start, Checked);
    steps := [] + [Go(i)];
    RunOnward(settings, reqs, first, steps, Go(j));
    Stepped(settings, reqs, Run(settings, reqs, first, steps), Go(j), start, Checked);
    steps := steps + [Go(j)];
  }

  /** And both are authorized. */
  lemma BothAuthorized(settings: Settings, reqs: seq<CreateRequest>, start: State, next: SessionId, a: Step, b: Step)
    returns (steps: seq<Step>)
    requires Contend(settings, reqs, start, a, b)
    ensures var first := Start(reqs, start, next);
            var w := Run(settings, reqs, first, steps);
            && Quiet(settings, reqs, first, steps) && w.st.sessions == start.sessions
            && w.phases == first.phases[a.task := Authorized][b.task := Authorized]
  {
    var first, i, j := Start(reqs, start, next), a.task, b.task;
    steps := BothChecked(settings, reqs, start, next, i, j);
    var w := Run(settings, reqs, first, steps);
    var st := AuthorizeCreate(settings.policy, start, reqs[i], a.checked, a.now, a.faults).0;
    var st' := AuthorizeCreate(settings.policy, st, reqs[j], b.checked, b.now, b.faults).0;
    RunOnward(settings, reqs, first, steps, a);
    Stepped(settings, reqs, w, a, st, Authorized);
    steps := steps + [a];
    var w' := Run(settings, reqs, first, steps);
    RunOnward(settings, reqs, first, steps, b);
    Stepped(settings, reqs, w', b, st', Authorized);
    steps := steps + [b];
    CreateTouchesNonces(settings.policy, start, reqs[i], a.checked, a.now, a.faults);
    CreateTouchesNonces(settings.policy, st, reqs[j], b.checked, b.now, b.faults);
    assert w.phases[i := Authorized][j := Authorized] == first.phases[i := Authorized][j := Authorized];
  }

  /** A request opens its session. */
  lemma OneOpened(settings: Settings, reqs: seq<CreateRequest>, first: World, before: seq<Step>, i: nat)
    returns (steps: seq<Step>)
    requires |first.phases| == |reqs| && i < |reqs|
    requires Quiet(settings, reqs, first, before) && NoneForgets(Run(settings, reqs, first, before).phases)
    requires Run(settings, reqs, first, before).phases[i].Authorized?
    ensures var was, w := Run(settings, reqs, first, before), Run(settings, reqs, first, steps);
            && Quiet(settings, reqs, first, steps) && NoneForgets(w.phases)
            && w.phases == was.phases[i := Opened(was.next)] && w.st.sessions == was.st.sessions
  {
    var was := Run(settings, reqs, first, before);
    RunOnward(settings, reqs, first, before, Go(i));
    Stepped(settings, reqs, was, Go(i), was.st.(open := was.st.open + {was.next}), Opened(was.next));
    steps := before + [Go(i)];
  }

  /** Both open their sessions and the first is listed. */
  lemma OneListed(settings: Settings, reqs: seq<CreateRequest>, first: World, before: seq<Step>, i: nat, j: nat)
    returns (steps: seq<Step>)
    requires |first.phases| == |reqs| && i < |reqs| && j < |reqs| && i != j
    requires Quiet(settings, reqs, first, before) && NoneForgets(Run(settings, reqs, first, before).phases)
    requires var w := Run(settings, reqs, first, before);
             w.phases[i].Authorized? && w.phases[j].Authorized? && reqs[i].channel !in w.st.sessions
    ensures var w := Run(settings, reqs, first, steps);
            && Quiet(settings, reqs, first, steps) && NoneForgets(w.phases)
            && w.phases[i].Listed? && w.phases[j].Opened? && reqs[i].channel in w.st.sessions
  {
    steps := OneOpened(settings, reqs, first, before, i);
    steps := OneOpened(settings, reqs, first, steps, j);
    var w := Run(settings, reqs, first, steps);
    RunOnward(settings, reqs, first, steps, Go(i));
    Stepped(settings, reqs, w, Go(i), AddSession(w.st, reqs[i].channel, w.phases[i].session).0,
            Listed(w.phases[i].session));
    steps := steps + [Go(i)];
  }

  /** A step in which nothing can be recorded. */
  function Stuck(task: nat): Step {
    Advance(task, 0, 0, NoFaults().(putExpiry := true, putOwner := true))
  }

  /** The request is about to write a record it asks for. */
  predicate HasToWrite(settings: Settings, req: CreateRequest, phase: Phase) {
    || (phase.Listed? && req.ttlSeconds.Some?)
    || (phase.Timed? && OwnerFor(settings.policy, req).Some?)
  }

  lemma CannotWrite(settings: Settings, st: State, next: SessionId, req: CreateRequest, phase: Phase)
    requires HasToWrite(settings, req, phase)
    ensures Act(settings, st, next, req, phase, 0, 0, Stuck(0).faults) == (st, Undoing(phase.session))
  {
  }

  /** A request that has a record to write fails at it. */
  lemma OneStuck(settings: Settings, reqs: seq<CreateRequest>, first: World, before: seq<Step>, i: nat)
    returns (steps: seq<Step>)
    requires |first.phases| == |reqs| && i < |reqs|
    requires Quiet(settings, reqs, first, before) && NoneForgets(Run(settings, reqs, first, before).phases)
    requires HasToWrite(settings, reqs[i], Run(settings, reqs, first, before).phases[i])
    ensures var was, w := Run(settings, reqs, first, before), Run(settings, reqs, first, steps);
            && Quiet(settings, reqs, first, steps) && NoneForgets(w.phases)
            && w.phases == was.phases[i := Undoing(was.phases[i].session)]
  {
    var was := Run(settings, reqs, first, before);
    CannotWrite(settings, was.st, was.next, reqs[i], was.phases[i]);
    RunOnward(settings, reqs, first, before, Stuck(i));
    Stepped(settings, reqs, was, Stuck(i), was.st, Undoing(was.phases[i].session));
    steps := before + [Stuck(i)];
  }

  /** A listed request that asks for a record fails at it. */
  lemma OneUndoing(settings: Settings, reqs: seq<CreateRequest>, first: World, before: seq<Step>, i: nat)
    returns (steps: seq<Step>)
    requires |first.phases| == |reqs| && i < |reqs| && Asks(settings, reqs[i])
    requires Quiet(settings, reqs, first, before) && NoneForgets(Run(settings, reqs, first, before).phases)
    requires Run(settings, reqs, first, before).phases[i].Listed?
    ensures var was, w := Run(settings, reqs, first, before), Run(settings, reqs, first, steps);
            && Quiet(settings, reqs, first, steps) && NoneForgets(w.phases)
            && w.phases == was.phases[i := Undoing(was.phases[i].session)]
  {
    var was := Run(settings, reqs, first, before);
    steps := before;
    if reqs[i].ttlSeconds.None? {
      RunOnward(settings, reqs, first, steps, Go(i));
      Stepped(settings, reqs, was, Go(i), was.st, Timed(was.phases[i].session, 0));
      steps := steps + [Go(i)];
    }
    steps := OneStuck(settings, reqs, first, steps, i);
  }

  /** And unlists its channel. */
  lemma OneUnlisted(settings: Settings, reqs: seq<CreateRequest>, first: World, before: seq<Step>, i: nat)
    returns (steps: seq<Step>)
    requires |first.phases| == |reqs| && i < |reqs| && Asks(settings, reqs[i])
    requires Quiet(settings, reqs, first, before) && NoneForgets(Run(settings, reqs, first, before).phases)
    requires Run(settings, reqs, first, before).phases[i].Listed?
    ensures var was, w := Run(settings, reqs, first, before), Run(settings, reqs, first, steps);
            && Quiet(settings, reqs, first, steps)
            && w.phases == was.phases[i := Unlisted(was.phases[i].session)] && reqs[i].channel !in w.st.sessions
  {
    var was := Run(settings, reqs, first, before);
    steps := OneUndoing(settings, reqs, first, before, i);
    var w := Run(settings, reqs, first, steps);
    RunOnward(settings, reqs, first, steps, Go(i));
    Stepped(settings, reqs, w, Go(i), RemoveSession(w.st, reqs[i].channel, false).0, Unlisted(was.phases[i].session));
    steps := steps + [Go(i)];
    assert w.phases[i := Unlisted(was.phases[i].session)] == was.phases[i := Unlisted(was.phases[i].session)];
  }

  /** For any two such requests that ask for a record there is a run, with one failure to record, up to
      where the second takes the channel to its harm. */
  lemma HarmIsReached(settings: Settings, reqs: seq<CreateRequest>, start: State, next: SessionId, a: Step, b: Step)
    returns (steps: seq<Step>)
    requires Contend(settings, reqs, start, a, b)
    requires Asks(settings, reqs[a.task]) && Asks(settings, reqs[b.task])
    ensures var first := Start(reqs, start, next);
            && Quiet(settings, reqs, first, steps)
            && Harms(settings, reqs, Run(settings, reqs, first, steps), Go(b.task))
  {
    var first := Start(reqs, start, next);
    steps := BothAuthorized(settings, reqs, start, next, a, b);
    steps := OneListed(settings, reqs, first, steps, a.task, b.task);
    steps := OneUnlisted(settings, reqs, first, steps, a.task);
    assert HarmedBy(settings, reqs, Run(settings, reqs, first, steps), b.task, a.task);
  }

  lemma {:induction false} RunInTwo(settings: Settings, reqs: seq<CreateRequest>, w: World, a: seq<Step>, b: seq<Step>)
    requires |w.phases| == |reqs|
    ensures Run(settings, reqs, w, a + b) == Run(settings, reqs, Run(settings, reqs, w, a), b)
    decreases |b|
  {
    if b == [] {
      assert a + b == a;
    } else {
      assert (a + b)[..|a + b| - 1] == a + b[..|b| - 1];
      RunInTwo(settings, reqs, w, a, b[..|b| - 1]);
    }
  }

  /** So for any two such requests there is a whole run that ends with the second successful and its
      records not the ones it asked for. */
  lemma RecordsCanBeLost(settings: Settings, reqs: seq<CreateRequest>, start: State, next: SessionId, a: Step, b: Step)
    returns (steps: seq<Step>)
    requires Contend(settings, reqs, start, a, b)
    requires Asks(settings, reqs[a.task]) && Asks(settings, reqs[b.task])
    ensures !RecordsRight(settings, reqs, Run(settings, reqs, Start(reqs, start, next), steps))
  {
    var first := Start(reqs, start, next);
    var before := HarmIsReached(settings, reqs, start, next, a, b);
    var rest := HarmLosesRecords(settings, reqs, Run(settings, reqs, first, before), Go(b.task));
    RunOne(settings, reqs, first, before, Go(b.task));
    RunInTwo(settings, reqs, first, before + [Go(b.task)], rest);
    steps := before + [Go(b.task)] + rest;
  }

  // One request by itself.

  /** A request's steps with nobody in between, once it could not be recorded. */
  function AloneUndoing(settings: Settings, st: State, req: CreateRequest, session: SessionId, faults: Faults)
    : (State, Phase)
  {
    var (s1, p1) := Act(settings, st, session, req, Undoing(session), 0, 0, faults);
    var (s2, p2) := Act(settings, s1, session, req, p1, 0, 0, faults);
    Act(settings, s2, session, req, p2, 0, 0, faults)
  }

  /** The same from the moment it is listed. */
  function AloneListed(settings: Settings, st: State, req: CreateRequest, now: u64, session: SessionId, faults: Faults)
    : (State, Phase)
  {
    var (s1, p1) := Act(settings, st, session, req, Listed(session), 0, now, faults);
    if p1.Undoing? then AloneUndoing(settings, s1, req, session, faults)
    else
      var (s2, p2) := Act(settings, s1, session, req, p1, 0, 0, faults);
      if p2.Undoing? then AloneUndoing(settings, s2, req, session, faults) else (s2, p2)
  }

  /** The same from the moment its session is open. */
  function AloneOpened(settings: Settings, st: State, req: CreateRequest, now: u64, session: SessionId, faults: Faults)
    : (State, Phase)
  {
    var (s1, p1) := Act(settings, st, session, req, Opened(session), 0, 0, faults);
    if p1.Losing? then Act(settings, s1, session, req, p1, 0, 0, faults)
        else AloneListed(settings, s1, req, now, session, faults)
  }

  /** All of one request's steps with nobody in between. */
  function Alone(settings: Settings, st: State, req: CreateRequest, times: Times, session: SessionId,
                 faults: Faults): (State, Phase)
  {
    var (s1, p1) := Act(settings, st, session, req, Arrived, 0, 0, faults);
    if p1.Failed? then (s1, p1)
    else
      var (s2, p2) := Act(settings, s1, session, req, p1, times.checked, times.spent, faults);
      if p2.Failed? then (s2, p2)
      else
        var (s3, p3) := Act(settings, s2, session, req, p2, 0, 0, faults);
        if p3.Failed? then (s3, p3) else AloneOpened(settings, s3, req, times.recorded, session, faults)
  }

  lemma AloneUndoes(settings: Settings, st: State, req: CreateRequest, session: SessionId, faults: Faults)
    ensures AloneUndoing(settings, st, req, session, faults)
         == (Forget(RemoveSession(st, req.channel, req.channel in faults.deleteSession).0, req.channel, faults),
             Undone(session))
  {
  }

  lemma AloneRecords(settings: Settings, st: State, req: CreateRequest, now: u64, session: SessionId, faults: Faults)
    ensures var (st', response) :=
              RecordOrUndo(st, req.channel, ExpiresAt(req.ttlSeconds, now), OwnerFor(settings.policy, req), faults);
            AloneListed(settings, st, req, now, session, faults)
            == (st', if response.Done? then Succeeded(session, now) else Undone(session))
  {
    var (timed, ok) := RecordExpiry(st, req.channel, ExpiresAt(req.ttlSeconds, now), faults.putExpiry);
    assert Act(settings, st, session, req, Listed(session), 0, now, faults)
        == (timed, if ok then Timed(session, now) else Undoing(session));
    if ok {
      var (owned, ok') := RecordOwner(timed, req.channel, OwnerFor(settings.policy, req), faults.putOwner);
      assert Act(settings, timed, session, req, Timed(session, now), 0, 0, faults)
          == (owned, if ok' then Succeeded(session, now) else Undoing(session));
      AloneUndoes(settings, owned, req, session, faults);
    } else {
      AloneUndoes(settings, timed, req, session, faults);
    }
  }

  lemma AloneCompletes(settings: Settings, st: State, req: CreateRequest, now: u64, session: SessionId, faults: Faults)
    ensures var (st', response) := CompleteCreate(st, req, OwnerFor(settings.policy, req), now, session, faults);
            var (end, phase) := AloneOpened(settings, st.(open := st.open + {session}), req, now, session, faults);
            end == st' && (response.Done? <==> phase == Succeeded(session, now))
  {
    var (listed, added) := AddSession(st.(open := st.open + {session}), req.channel, session);
    AloneRecords(settings, listed, req, now, session, faults);
  }

  /** Alone, a request's steps are the whole handler: the same state, and success when it succeeds. */
  lemma AloneIsHandleCreate(settings: Settings, st: State, req: CreateRequest, times: Times, session: SessionId,
                            faults: Faults)
    ensures var (st', response) := HandleCreate(settings, st, req, times, session, faults);
            var (end, phase) := Alone(settings, st, req, times, session, faults);
            end == st' && (response.Done? <==> phase == Succeeded(session, times.recorded))
  {
    var checked := CheckCreate(settings.policy, req, times.checked);
    var (spent, authorized) := AuthorizeCreate(settings.policy, st, req, times.checked, times.spent, faults);
    if authorized.Ok? {
      SignerIsOwner(settings.policy, req, times.checked);
      AloneCompletes(settings, spent, req, times.recorded, session, faults);
    }
  }

  /** The owner a create makes is the one its signed request names. */
  lemma SignerIsOwner(policy: GrantPolicy, req: CreateRequest, now: u64)
    requires CheckCreate(policy, req, now).Ok?
    ensures NewOwner(CheckCreate(policy, req, now).value, req) == OwnerFor(policy, req)
  {
  }
}
