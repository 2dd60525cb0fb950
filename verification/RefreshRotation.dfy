/** Refresh-token rotation (crates/auth/src/refresh_token.rs, file-backed as
    crates/config/src/auth/oidc.rs sets it up): any number of processes share token files under a
    lock, against a provider that invalidates a refresh token when it rotates
    it (section 6 of RFC 6749). An exchange happens entirely or not at all. */
module RefreshRotation {
  import opened Prelude

  type RefreshToken = string

  /** An access token and the two claims its freshness depends on; `None` when they cannot be read. */
  datatype AccessToken = AccessToken(text: string, claims: Option<(u64, u64)>)

  /** The identity provider: the one live refresh token and the rotated ones. */
  datatype Provider = Provider(live: RefreshToken, spent: set<RefreshToken>)

  /** What the provider would do with its live token: rotate it, renew without rotating, or not answer. */
  datatype Reply =
    | Rotate(access: AccessToken, next: RefreshToken)
    | Renew(access: AccessToken)
    | NoAnswer

  datatype Outcome = Renewed(access: AccessToken, rotated: Option<RefreshToken>) | Revoked | Failed

  /** One token exchange. */
  function Exchange(idp: Provider, token: RefreshToken, reply: Reply): (Provider, Outcome) {
    if reply.NoAnswer? then (idp, Failed)
    else if token != idp.live then (idp, Revoked)
    else if reply.Renew? then (idp, Renewed(reply.access, None))
    else (Provider(reply.next, idp.spent + {idp.live}), Renewed(reply.access, Some(reply.next)))
  }

  /** A rotated token is a new one. */
  predicate IssuesNew(idp: Provider, reply: Reply) {
    reply.Rotate? ==> reply.next != idp.live && reply.next !in idp.spent
  }

  /** The token files; an empty refresh-token file holds none and is refused when read. */
  datatype Files = Files(refresh: Option<RefreshToken>, access: Option<AccessToken>)

  /** How writing the refresh-token file ends: the file is truncated before it is written. */
  datatype WriteOutcome = Written | NotOpened | CutShort(left: Option<RefreshToken>)

  function OnFile(outcome: WriteOutcome, before: Option<RefreshToken>, token: RefreshToken): Option<RefreshToken> {
    match outcome
    case Written => Some(token)
    case NotOpened => before
    case CutShort(left) => left
  }

  datatype Cached = Cached(access: AccessToken, exp: nat)

  /** Two thirds of the lifetime have not passed yet. */
  predicate Fresh(exp: u64, iat: u64, now: u64) {
    now < iat + SaturatingSub(exp, iat) * 2 / 3
  }

  predicate StoredIsFresh(access: Option<AccessToken>, now: u64) {
    access.Some? && access.value.claims.Some? && Fresh(access.value.claims.value.0, access.value.claims.value.1, now)
  }

  /** How far a process is in `fetch_new_token`; it holds the lock except when idle. */
  datatype Phase =
    | Idle
    | Locked(refresh: RefreshToken, access: Option<AccessToken>)
    | Exchanged(granted: AccessToken, rotated: Option<RefreshToken>)
    | WroteRefresh(granted: AccessToken)
    | Persisted(granted: AccessToken)

  datatype Process = Process(phase: Phase, current: RefreshToken, cached: Option<Cached>)

  /** `presented` is every refresh token sent to the provider, with whether it was live then. */
  datatype System = System(
    idp: Provider,
    files: Files,
    lock: Option<nat>,
    processes: map<nat, Process>,
    presented: seq<(RefreshToken, bool)>)

  datatype Step =
    | Starts(pid: nat, remembered: RefreshToken)
    | Locks(pid: nat)
    | ReusesStored(pid: nat, now: u64)
    | Exchanges(pid: nat, now: u64, reply: Reply)
    | WritesRefresh(pid: nat, outcome: WriteOutcome)
    | WritesAccess(pid: nat, configured: bool)
    | Finishes(pid: nat, now: u64, expiresIn: u64)
    | Crashes(pid: nat)

  function PhaseOf(s: System, pid: nat): Phase {
    if pid in s.processes then s.processes[pid].phase else Idle
  }

  function SetPhase(s: System, pid: nat, phase: Phase): System
    requires pid in s.processes
  {
    s.(processes := s.processes[pid := s.processes[pid].(phase := phase)])
  }

  /** Back to idle, letting go of the lock. */
  function Release(s: System, pid: nat): System
    requires pid in s.processes
  {
    SetPhase(s, pid, Idle).(lock := None)
  }

  function StepExchange(s: System, pid: nat, reply: Reply): System
    requires pid in s.processes && s.processes[pid].phase.Locked?
  {
    var token := s.processes[pid].phase.refresh;
    var (idp, outcome) := Exchange(s.idp, token, reply);
    var sent := s.(idp := idp, presented := s.presented + [(token, token == s.idp.live)]);
    match outcome
    case Renewed(access, rotated) =>
      var current := if rotated.Some? then rotated.value else s.processes[pid].current;
      SetPhase(sent.(processes := s.processes[pid := s.processes[pid].(current := current)]), pid,
               Exchanged(access, rotated))
    case _ => Release(sent, pid)
  }

  /** One step; a step the process is not ready for changes nothing. */
  function Next(s: System, step: Step): System {
    var phase := PhaseOf(s, step.pid);
    var pid := step.pid;
    if step.Starts? then
      if pid in s.processes then s
      else s.(processes := s.processes[pid := Process(Idle, step.remembered, None)])
    else if pid !in s.processes then s
    else
      match step
      case Locks(_) =>
        // with nothing to read the lock is let go at once
        if phase.Idle? && s.lock.None? && s.files.refresh.Some? then
          SetPhase(s.(processes := s.processes[pid := s.processes[pid].(current := s.files.refresh.value)]),
                   pid, Locked(s.files.refresh.value, s.files.access)).(lock := Some(pid))
        else s
      case ReusesStored(_, now) =>
        if phase.Locked? && StoredIsFresh(phase.access, now) then
          var cached := Cached(phase.access.value, phase.access.value.claims.value.0);
          Release(s.(processes := s.processes[pid := s.processes[pid].(cached := Some(cached))]), pid)
        else s
      case Exchanges(_, now, reply) =>
        if phase.Locked? && !StoredIsFresh(phase.access, now) then StepExchange(s, pid, reply) else s
      case WritesRefresh(_, outcome) =>
        // a failed write is only logged
        if phase.Exchanged? then
          if phase.rotated.None? then SetPhase(s, pid, Persisted(phase.granted))
          else
            var refresh := OnFile(outcome, s.files.refresh, phase.rotated.value);
            SetPhase(s.(files := s.files.(refresh := refresh)), pid, WroteRefresh(phase.granted))
        else s
      case WritesAccess(_, configured) =>
        if phase.WroteRefresh? then
          SetPhase(if configured then s.(files := s.files.(access := Some(phase.granted))) else s, pid,
                   Persisted(phase.granted))
        else s
      case Finishes(_, now, expiresIn) =>
        if phase.Persisted? then
          var cached := Cached(phase.granted, now + expiresIn);
          Release(s.(processes := s.processes[pid := s.processes[pid].(cached := Some(cached))]), pid)
        else s
      case Crashes(_) =>
        s.(processes := s.processes - {pid}, lock := if phase.Idle? then s.lock else None)
      case _ => s
  }

  function Run(s: System, steps: seq<Step>): System
    decreases |steps|
  {
    if steps == [] then s else Next(Run(s, steps[..|steps| - 1]), steps[|steps| - 1])
  }

  /** The process dies with a rotated token it has not written down, or writes something else. */
  predicate LosesToken(s: System, step: Step) {
    var phase := PhaseOf(s, step.pid);
    && phase.Exchanged? && phase.rotated.Some?
    && (|| step.Crashes?
        || (step.WritesRefresh? && OnFile(step.outcome, s.files.refresh, phase.rotated.value) != phase.rotated))
  }

  /** Persisting completes, and the provider never reissues a token. */
  predicate Proper(s: System, step: Step) {
    !LosesToken(s, step) && (step.Exchanges? ==> IssuesNew(s.idp, step.reply))
  }

  predicate AllProper(s: System, steps: seq<Step>) {
    forall k :: 0 <= k < |steps| ==> Proper(Run(s, steps[..k]), steps[k])
  }

  // The invariant.

  /** What the lock holder's phase says about the files and the provider. */
  predicate HolderOk(s: System, pid: nat) {
    var phase := PhaseOf(s, pid);
    match phase
    case Idle => false
    case Locked(refresh, _) => refresh == s.idp.live && s.files.refresh == Some(refresh)
    case Exchanged(_, rotated) =>
      if rotated.Some? then
        s.idp.live == rotated.value && s.files.refresh.Some? && s.files.refresh.value in s.idp.spent
      else s.files.refresh == Some(s.idp.live)
    case _ => s.files.refresh == Some(s.idp.live)
  }

  predicate Sound(s: System) {
    && s.idp.live !in s.idp.spent
    && (forall pid :: pid in s.processes && !s.processes[pid].phase.Idle? ==> s.lock == Some(pid))
    && (s.lock.Some? ==> s.lock.value in s.processes && HolderOk(s, s.lock.value))
    && (s.lock.None? ==> s.files.refresh == Some(s.idp.live))
    && (forall i :: 0 <= i < |s.presented| ==> s.presented[i].1)
  }

  lemma StepSound(s: System, step: Step)
    requires Sound(s) && Proper(s, step)
    ensures Sound(Next(s, step))
  {
  }

  lemma {:induction false} RunSound(s: System, steps: seq<Step>)
    requires Sound(s) && AllProper(s, steps)
    ensures Sound(Run(s, steps))
    decreases |steps|
  {
    if steps != [] {
      var front := steps[..|steps| - 1];
      forall k | 0 <= k < |front| ensures Proper(Run(s, front[..k]), front[k]) {
        assert front[..k] == steps[..k];
      }
      RunSound(s, front);
      StepSound(Run(s, front), steps[|steps| - 1]);
    }
  }

  /** A start: nobody holds the lock and the file holds the live token. */
  predicate Begins(s: System) {
    && s.lock.None? && s.presented == [] && s.processes == map[]
    && s.files.refresh == Some(s.idp.live) && s.idp.live !in s.idp.spent
  }

  /** In every interleaving of any number of processes, every token presented was
      the live one, and whenever the lock is free the file holds the live token. */
  lemma NoSpentTokenPresented(s: System, steps: seq<Step>)
    requires Begins(s) && AllProper(s, steps)
    ensures var end := Run(s, steps);
            && (forall i :: 0 <= i < |end.presented| ==> end.presented[i].1)
            && (end.lock.None? ==> end.files.refresh == Some(end.idp.live))
            && end.idp.live !in end.idp.spent
  {
    RunSound(s, steps);
  }

  /** A crash leaves the file with the live token exactly when no rotated token was lost. */
  lemma CrashKeepsTokenIff(s: System, pid: nat)
    requires Sound(s) && pid in s.processes && !s.processes[pid].phase.Idle?
    ensures var after := Next(s, Crashes(pid));
            after.lock.None? && (after.files.refresh == Some(after.idp.live) <==> !LosesToken(s, Crashes(pid)))
  {
    assert s.lock == Some(pid) && HolderOk(s, pid);
  }

  /** Every step from a sound system keeps it sound exactly when it does not lose a rotated token,
      given a provider that never reissues one. */
  lemma StepSoundIff(s: System, step: Step)
    requires Sound(s) && (step.Exchanges? ==> IssuesNew(s.idp, step.reply))
    ensures Sound(Next(s, step)) <==> !LosesToken(s, step)
  {
    if LosesToken(s, step) {
      var after := Next(s, step);
      assert s.lock == Some(step.pid) && HolderOk(s, step.pid);
      assert after.files.refresh != Some(after.idp.live);
    } else {
      StepSound(s, step);
    }
  }

  /** A lost token shows while the file holds another: the next process to take the lock and go to
      the provider presents one that is not live. */
  lemma LostTokenIsPresented(s: System, pid: nat, now: u64, reply: Reply)
    requires s.lock.None? && s.files.refresh.Some? && s.files.refresh.value != s.idp.live
    requires pid in s.processes && s.processes[pid].phase.Idle? && !StoredIsFresh(s.files.access, now)
    ensures var end := Next(Next(s, Locks(pid)), Exchanges(pid, now, reply));
            && end.presented == s.presented + [(s.files.refresh.value, false)]
            && end.idp == s.idp && end.lock.None? && end.files == s.files
  {
    var locked := Next(s, Locks(pid));
    assert locked.processes[pid].phase == Locked(s.files.refresh.value, s.files.access);
  }

  /** Nobody holds the lock and the refresh-token file is empty. */
  predicate Stranded(s: System) {
    s.lock.None? && s.files.refresh.None? && forall pid :: pid in s.processes ==> s.processes[pid].phase.Idle?
  }

  /** And once a write has left the file empty no process ever gets to the provider again. */
  lemma {:induction false} EmptyFileLasts(s: System, steps: seq<Step>)
    requires Stranded(s)
    ensures var end := Run(s, steps);
            Stranded(end) && end.files == s.files && end.idp == s.idp && end.presented == s.presented
    decreases |steps|
  {
    if steps != [] {
      EmptyFileLasts(s, steps[..|steps| - 1]);
    }
  }

  /** A stored token taken as fresh has not expired, as long as it was not issued after its expiry. */
  lemma FreshIsUnexpired(exp: u64, iat: u64, now: u64)
    requires Fresh(exp, iat, now)
    ensures iat <= exp ==> now < exp
    ensures now >= exp ==> exp < iat
  {
  }

  // `fetch_new_token` by one process, start to finish under the lock.

  datatype FetchError = GetTokenError | RefreshTokenRevoked | TokenEndpointError

  /** What one fetch leaves behind. */
  datatype Fetched = Fetched(idp: Provider, files: Files, current: RefreshToken, cached: Option<Cached>,
                             answer: Result<(), FetchError>)

  function Fetch(idp: Provider, files: Files, current: RefreshToken, cached: Option<Cached>, now: u64, reply: Reply,
                 expiresIn: u64, accessFile: bool, write: WriteOutcome): Fetched
  {
    if files.refresh.None? then Fetched(idp, files, current, cached, Err(GetTokenError))
    else if StoredIsFresh(files.access, now) then
      var stored := files.access.value;
      Fetched(idp, files, files.refresh.value, Some(Cached(stored, stored.claims.value.0)), Ok(()))
    else
      var (idp', outcome) := Exchange(idp, files.refresh.value, reply);
      match outcome
      case Revoked => Fetched(idp', files, files.refresh.value, cached, Err(RefreshTokenRevoked))
      case Failed => Fetched(idp', files, files.refresh.value, cached, Err(TokenEndpointError))
      case Renewed(access, None) =>
        Fetched(idp', files, files.refresh.value, Some(Cached(access, now + expiresIn)), Ok(()))
      case Renewed(access, Some(next)) =>
        var stored := Files(OnFile(write, files.refresh, next), if accessFile then Some(access) else files.access);
        Fetched(idp', stored, next, Some(Cached(access, now + expiresIn)), Ok(()))
  }

  class TokenFiles {
    var files: Files

    constructor (files: Files)
      ensures this.files == files
    {
      this.files := files;
    }
  }

  class IdentityProvider {
    var idp: Provider

    constructor (idp: Provider)
      ensures this.idp == idp
    {
      this.idp := idp;
    }

    method Token(refresh: RefreshToken, reply: Reply) returns (outcome: Outcome)
      modifies this
      ensures (idp, outcome) == Exchange(old(idp), refresh, reply)
    {
      if reply.NoAnswer? {
        return Failed;
      }
      if refresh != idp.live {
        return Revoked;
      }
      if reply.Renew? {
        return Renewed(reply.access, None);
      }
      idp := Provider(reply.next, idp.spent + {idp.live});
      return Renewed(reply.access, Some(reply.next));
    }
  }

  class RefreshTokenProvider {
    var current: RefreshToken
    var cached: Option<Cached>

    constructor (refresh: RefreshToken)
      ensures current == refresh && cached == None
    {
      current := refresh;
      cached := None;
    }

    /** `fetch_new_token`, the lock held throughout. */
    method FetchNewToken(store: TokenFiles, server: IdentityProvider, now: u64, reply: Reply, expiresIn: u64,
                         accessFile: bool, write: WriteOutcome)
      returns (r: Result<(), FetchError>)
      modifies this, store, server
      ensures Fetched(server.idp, store.files, current, cached, r)
           == Fetch(old(server.idp), old(store.files), old(current), old(cached), now, reply, expiresIn, accessFile,
                    write)
    {
      if store.files.refresh.None? {
        return Err(GetTokenError);
      }
      current := store.files.refresh.value;
      var stored := store.files.access;
      if stored.Some? && stored.value.claims.Some? {
        var (exp, iat) := stored.value.claims.value;
        if Fresh(exp, iat, now) {
          cached := Some(Cached(stored.value, exp));
          return Ok(());
        }
      }
      var outcome := server.Token(current, reply);
      match outcome
      case Revoked => return Err(RefreshTokenRevoked);
      case Failed => return Err(TokenEndpointError);
      case Renewed(access, rotated) =>
        if rotated.Some? {
          current := rotated.value;
          store.files := store.files.(refresh := OnFile(write, store.files.refresh, rotated.value));
          if accessFile {
            store.files := store.files.(access := Some(access));
          }
        }
        cached := Some(Cached(access, now + expiresIn));
        return Ok(());
    }
  }

  /** With the live token on file, a fetch is never told its token was revoked and leaves the live token
      in memory; it leaves it on file exactly when it had none to write or wrote it. */
  lemma FetchKeepsLive(idp: Provider, files: Files, current: RefreshToken, cached: Option<Cached>, now: u64,
                       reply: Reply, expiresIn: u64, accessFile: bool, write: WriteOutcome)
    requires files.refresh == Some(idp.live)
    ensures var end := Fetch(idp, files, current, cached, now, reply, expiresIn, accessFile, write);
            && end.idp.live == end.current
            && end.answer != Err(RefreshTokenRevoked) && end.answer != Err(GetTokenError)
            && (end.files.refresh == Some(end.idp.live) <==>
                  || StoredIsFresh(files.access, now) || !reply.Rotate?
                  || OnFile(write, files.refresh, reply.next) == Some(reply.next))
  {
  }

  lemma {:induction false} RunInTwo(s: System, a: seq<Step>, b: seq<Step>)
    ensures Run(s, a + b) == Run(Run(s, a), b)
    decreases |b|
  {
    if b == [] {
      assert a + b == a;
    } else {
      assert (a + b)[..|a + b| - 1] == a + b[..|b| - 1];
      RunInTwo(s, a, b[..|b| - 1]);
    }
  }

  lemma RunStep(s: System, step: Step, rest: seq<Step>)
    ensures Run(s, [step] + rest) == Run(Next(s, step), rest)
  {
    RunInTwo(s, [step], rest);
    assert [step][..0] == [];
    assert Run(s, [step]) == Next(Run(s, []), step);
  }

  /** The steps of one fetch after taking the lock. */
  function FetchTrace(pid: nat, idp: Provider, files: Files, now: u64, reply: Reply, expiresIn: u64, accessFile: bool,
                      write: WriteOutcome): seq<Step>
  {
    if files.refresh.None? then []
    else if StoredIsFresh(files.access, now) then [ReusesStored(pid, now)] + []
    else
      var outcome := Exchange(idp, files.refresh.value, reply).1;
      [Exchanges(pid, now, reply)]
      + if !outcome.Renewed? then []
        else [WritesRefresh(pid, write)]
             + (if outcome.rotated.Some? then [WritesAccess(pid, accessFile)] + ([Finishes(pid, now, expiresIn)] + [])
                else [Finishes(pid, now, expiresIn)] + [])
  }

  /** A fetch without interruption is a run of its steps. */
  lemma FetchIsARun(s: System, pid: nat, now: u64, reply: Reply, expiresIn: u64, accessFile: bool,
                    write: WriteOutcome)
    requires s.lock.None? && pid in s.processes && s.processes[pid].phase.Idle?
    ensures var end := Run(s, [Locks(pid)]
                              + FetchTrace(pid, s.idp, s.files, now, reply, expiresIn, accessFile, write));
            var fetched := Fetch(s.idp, s.files, s.processes[pid].current, s.processes[pid].cached, now, reply,
                                 expiresIn, accessFile, write);
            && end.idp == fetched.idp && end.files == fetched.files && end.lock == None
            && pid in end.processes && end.processes[pid] == Process(Idle, fetched.current, fetched.cached)
  {
    var trace := FetchTrace(pid, s.idp, s.files, now, reply, expiresIn, accessFile, write);
    RunStep(s, Locks(pid), trace);
    var locked := Next(s, Locks(pid));
    if s.files.refresh.Some? {
      LockedFetch(locked, pid, now, reply, expiresIn, accessFile, write);
    }
  }

  lemma LockedFetch(s: System, pid: nat, now: u64, reply: Reply, expiresIn: u64, accessFile: bool, write: WriteOutcome)
    requires s.files.refresh.Some? && pid in s.processes
    requires s.processes[pid].phase == Locked(s.files.refresh.value, s.files.access)
    requires s.processes[pid].current == s.files.refresh.value
    ensures var end := Run(s, FetchTrace(pid, s.idp, s.files, now, reply, expiresIn, accessFile, write));
            var fetched := Fetch(s.idp, s.files, s.processes[pid].current, s.processes[pid].cached, now, reply,
                                 expiresIn, accessFile, write);
            && end.idp == fetched.idp && end.files == fetched.files && end.lock == None
            && pid in end.processes && end.processes[pid] == Process(Idle, fetched.current, fetched.cached)
  {
    var trace := FetchTrace(pid, s.idp, s.files, now, reply, expiresIn, accessFile, write);
    if StoredIsFresh(s.files.access, now) {
      RunStep(s, ReusesStored(pid, now), []);
    } else {
      var exchange := Exchanges(pid, now, reply);
      RunStep(s, exchange, trace[1..]);
      assert trace == [exchange] + trace[1..];
      if Exchange(s.idp, s.files.refresh.value, reply).1.Renewed? {
        PersistIsARun(Next(s, exchange), pid, now, expiresIn, accessFile, write);
      }
    }
  }

  lemma PersistIsARun(s: System, pid: nat, now: u64, expiresIn: u64, accessFile: bool, write: WriteOutcome)
    requires pid in s.processes && s.processes[pid].phase.Exchanged?
    ensures var phase := s.processes[pid].phase;
            var finish := [Finishes(pid, now, expiresIn)] + [];
            var rest := if phase.rotated.Some? then [WritesAccess(pid, accessFile)] + finish else finish;
            var end := Run(s, [WritesRefresh(pid, write)] + rest);
            && end.idp == s.idp && end.lock == None
            && end.files == (if phase.rotated.None? then s.files
                             else Files(OnFile(write, s.files.refresh, phase.rotated.value),
                                        if accessFile then Some(phase.granted) else s.files.access))
            && pid in end.processes
            && end.processes[pid] == Process(Idle, s.processes[pid].current,
                                             Some(Cached(phase.granted, now + expiresIn)))
  {
    var phase := s.processes[pid].phase;
    var finish := [Finishes(pid, now, expiresIn)] + [];
    var rest := if phase.rotated.Some? then [WritesAccess(pid, accessFile)] + finish else finish;
    RunStep(s, WritesRefresh(pid, write), rest);
    var wrote := Next(s, WritesRefresh(pid, write));
    if phase.rotated.Some? {
      RunStep(wrote, WritesAccess(pid, accessFile), finish);
      RunStep(Next(wrote, WritesAccess(pid, accessFile)), Finishes(pid, now, expiresIn), []);
    } else {
      RunStep(wrote, Finishes(pid, now, expiresIn), []);
    }
  }

  // What a fetch answers.

  /** A stored token is taken as fresh while less than two thirds of its lifetime have passed, in whole seconds. */
  lemma FreshIff(exp: u64, iat: u64, now: u64)
    ensures iat <= exp ==> (Fresh(exp, iat, now) <==> 3 * (now + 1) <= iat + 2 * exp)
    ensures exp < iat ==> (Fresh(exp, iat, now) <==> now < iat)
  {
  }

  /** The stored access token can still be used. */
  predicate Usable(files: Files, now: u64) {
    && files.access.Some? && files.access.value.claims.Some?
    && var (exp, iat) := files.access.value.claims.value;
       if iat <= exp then 3 * (now + 1) <= iat + 2 * exp else now < iat
  }

  /** A fetch reuses a usable stored token under its own expiry without going to the provider; otherwise it goes there
      with the token on file and keeps what it is given for as long as it is given. */
  lemma FetchAnswer(idp: Provider, files: Files, current: RefreshToken, cached: Option<Cached>, now: u64, reply: Reply,
                    expiresIn: u64, accessFile: bool, write: WriteOutcome)
    ensures var end := Fetch(idp, files, current, cached, now, reply, expiresIn, accessFile, write);
            && (files.refresh.None? ==> end == Fetched(idp, files, current, cached, Err(GetTokenError)))
            && (files.refresh.Some? && Usable(files, now) ==>
                  end == Fetched(idp, files, files.refresh.value,
                                 Some(Cached(files.access.value, files.access.value.claims.value.0)), Ok(())))
            && (files.refresh.Some? && !Usable(files, now) ==>
                  && (end.answer.Ok? <==> files.refresh.value == idp.live && !reply.NoAnswer?)
                  && (end.answer.Ok? ==> end.cached == Some(Cached(reply.access, now + expiresIn)))
                  && (end.answer.Err? ==> end.cached == cached && end.files == files && end.idp == idp)
                  && (end.answer == Err(RefreshTokenRevoked) <==> files.refresh.value != idp.live && !reply.NoAnswer?))
  {
    if files.access.Some? && files.access.value.claims.Some? {
      FreshIff(files.access.value.claims.value.0, files.access.value.claims.value.1, now);
    }
  }

  /** A process that starts is idle and remembers the token it was started with; one that runs is left alone. */
  lemma StartedProcess(s: System, pid: nat, remembered: RefreshToken)
    ensures var end := Next(s, Starts(pid, remembered));
            && end.idp == s.idp && end.files == s.files && end.lock == s.lock && end.presented == s.presented
            && pid in end.processes && (forall other :: other in s.processes ==> other in end.processes)
            && (forall other :: other in end.processes ==>
                  end.processes[other]
                  == if other in s.processes then s.processes[other] else Process(Idle, remembered, None))
            && (forall other :: other in end.processes ==> other in s.processes || other == pid)
  {
  }

  /** The lock holder goes to the provider only when the stored access token cannot be used, and reuses it only when
      it can. */
  lemma ReusesOrExchanges(s: System, pid: nat, now: u64, reply: Reply)
    requires pid in s.processes && s.processes[pid].phase.Locked?
    ensures var phase := s.processes[pid].phase;
            var usable := Usable(Files(Some(phase.refresh), phase.access), now);
            var exchanged, reused := Next(s, Exchanges(pid, now, reply)), Next(s, ReusesStored(pid, now));
            && (usable ==> exchanged == s && reused.lock.None? && reused.presented == s.presented)
            && (!usable ==> reused == s && |exchanged.presented| == |s.presented| + 1)
  {
    var access := s.processes[pid].phase.access;
    if access.Some? && access.value.claims.Some? {
      FreshIff(access.value.claims.value.0, access.value.claims.value.1, now);
    }
  }
}
