/** Whole runs of the nonce store, restarts included: `spend`
    (crates/channel-manager/src/service.rs) over the store of
    crates/channel-manager/src/nonce.rs, with clock readings that never go back. */
module NonceRuns {
  import opened Prelude
  import opened Store
  import opened Nonces

  /** Consumed nonces in memory and on disk. */
  datatype Memory = Memory(consumed: Consumed, stored: Consumed)

  datatype SpendError = HasExpired | NotRecorded | AlreadyUsed

  /** `spend`: refuses an expired statement, then consumes its nonce. */
  function Spend(mem: Memory, id: NonceId, notAfter: u64, now: u64, putFails: bool, deleteFails: set<NonceId>)
    : (Memory, Result<(), SpendError>)
  {
    if notAfter < now then (mem, Err(HasExpired))
    else
      var outcome := Consuming(mem.consumed, mem.stored, id, notAfter, now, putFails, deleteFails);
      var answer := match outcome.answer
        case Err(_) => Err(NotRecorded)
        case Ok(firstUse) => if firstUse then Ok(()) else Err(AlreadyUsed);
      (Memory(outcome.consumed, outcome.stored), answer)
  }

  /** A restart: memory is what the store still holds unexpired. */
  function Reload(mem: Memory, now: u64): Memory {
    Memory(Unexpired(mem.stored, now), Unexpired(mem.stored, now))
  }

  /** A restart that failed on a delete, having dropped some expired nonces. */
  function FailedReload(mem: Memory, now: u64, dropped: set<NonceId>): Memory {
    mem.(stored := mem.stored - (Expired(mem.stored, now) * dropped))
  }

  /** Memory and store agree with `history`, everything ever accepted, on what has not expired. */
  predicate Remembers(mem: Memory, history: Consumed, clock: u64) {
    Unexpired(mem.consumed, clock) == Unexpired(mem.stored, clock) == Unexpired(history, clock)
  }

  function Extend(history: Consumed, id: NonceId, notAfter: u64, accepted: bool): Consumed {
    if accepted then history[id := notAfter] else history
  }

  lemma UnexpiredLater(nonces: Consumed, clock: u64, now: u64)
    requires clock <= now
    ensures Unexpired(Unexpired(nonces, clock), now) == Unexpired(nonces, now)
  {
  }

  lemma RemembersLater(mem: Memory, history: Consumed, clock: u64, now: u64)
    requires Remembers(mem, history, clock) && clock <= now
    ensures Remembers(mem, history, now)
  {
    UnexpiredLater(mem.consumed, clock, now);
    UnexpiredLater(mem.stored, clock, now);
    UnexpiredLater(history, clock, now);
  }

  /** `spend` accepts exactly the unexpired statements whose nonce no unexpired
      accepted statement carries, and remembers exactly those. */
  lemma SpendExact(mem: Memory, history: Consumed, clock: u64, id: NonceId, notAfter: u64, now: u64,
                   putFails: bool, deleteFails: set<NonceId>)
    requires Remembers(mem, history, clock) && clock <= now
    ensures var (mem', r) := Spend(mem, id, notAfter, now, putFails, deleteFails);
            var history' := Extend(history, id, notAfter, r.Ok?);
            && Remembers(mem', history', now)
            && (notAfter >= now ==> mem'.consumed == Unexpired(history', now))
            && r == (if notAfter < now then Err(HasExpired)
                     else if id in history && history[id] >= now then Err(AlreadyUsed)
                     else if putFails then Err(NotRecorded)
                     else Ok(()))
  {
    RemembersLater(mem, history, clock, now);
    var (mem', r) := Spend(mem, id, notAfter, now, putFails, deleteFails);
    var kept := Unexpired(mem.consumed, now);
    assert id in kept <==> id in Unexpired(history, now);
    if notAfter >= now {
      var left := mem.stored - (Expired(mem.consumed, now) - deleteFails);
      assert Unexpired(left, now) == Unexpired(mem.stored, now) by {
        assert forall i :: i in Expired(mem.consumed, now) ==> i !in Unexpired(mem.stored, now);
      }
      assert Unexpired(kept, now) == kept;
      if r.Ok? {
        UnexpiredExtend(kept, id, notAfter, now);
        UnexpiredExtend(left, id, notAfter, now);
        UnexpiredExtend(history, id, notAfter, now);
      }
    }
  }

  lemma UnexpiredExtend(nonces: Consumed, id: NonceId, notAfter: u64, now: u64)
    requires notAfter >= now
    ensures Unexpired(nonces[id := notAfter], now) == Unexpired(nonces, now)[id := notAfter]
  {
  }

  lemma ReloadKeeps(mem: Memory, history: Consumed, clock: u64, now: u64)
    requires Remembers(mem, history, clock) && clock <= now
    ensures Remembers(Reload(mem, now), history, now)
    ensures Reload(mem, now).consumed == Unexpired(history, now)
  {
    RemembersLater(mem, history, clock, now);
    UnexpiredLater(mem.stored, now, now);
  }

  lemma FailedReloadKeeps(mem: Memory, history: Consumed, clock: u64, now: u64, dropped: set<NonceId>)
    requires Remembers(mem, history, clock) && clock <= now
    ensures Remembers(FailedReload(mem, now, dropped), history, now)
  {
    RemembersLater(mem, history, clock, now);
  }

  // Runs.

  datatype Step =
    | Spending(id: NonceId, notAfter: u64, now: u64, putFails: bool, deleteFails: set<NonceId>)
    | Reloading(now: u64)
    | FailingReload(now: u64, dropped: set<NonceId>)

  predicate ClockOk(clock: u64, steps: seq<Step>) {
    && (forall i :: 0 <= i < |steps| ==> clock <= steps[i].now)
    && (forall i, j :: 0 <= i < j < |steps| ==> steps[i].now <= steps[j].now)
  }

  /** The store and everything it has accepted, after a run from an empty store. */
  datatype Progress = Progress(mem: Memory, history: Consumed, clock: u64)

  function Next(before: Progress, step: Step): Progress {
    match step
    case Spending(id, notAfter, now, putFails, deleteFails) =>
      var (mem, r) := Spend(before.mem, id, notAfter, now, putFails, deleteFails);
      Progress(mem, Extend(before.history, id, notAfter, r.Ok?), now)
    case Reloading(now) => Progress(Reload(before.mem, now), before.history, now)
    case FailingReload(now, dropped) => Progress(FailedReload(before.mem, now, dropped), before.history, now)
  }

  function After(steps: seq<Step>): Progress
    decreases |steps|
  {
    if steps == [] then Progress(Memory(map[], map[]), map[], 0)
    else Next(After(steps[..|steps| - 1]), steps[|steps| - 1])
  }

  lemma {:induction false} ClockFollows(steps: seq<Step>)
    ensures After(steps).clock == if steps == [] then 0 else steps[|steps| - 1].now
  {
  }

  /** In every run, memory and store agree with the accepted nonces on what has
      not expired; after a spend that was in time, and after a reload, memory
      holds exactly the accepted nonces that have not expired. */
  lemma {:induction false} RemembersExactly(steps: seq<Step>)
    requires ClockOk(0, steps)
    ensures var end := After(steps);
            && Remembers(end.mem, end.history, end.clock)
            && (steps != [] ==>
                  var last := steps[|steps| - 1];
                  last.Reloading? || (last.Spending? && last.notAfter >= last.now) ==>
                    end.mem.consumed == Unexpired(end.history, last.now))
    decreases |steps|
  {
    if steps != [] {
      var front, last := steps[..|steps| - 1], steps[|steps| - 1];
      RemembersExactly(front);
      ClockFollows(front);
      var before := After(front);
      match last
      case Spending(id, notAfter, now, putFails, deleteFails) =>
        SpendExact(before.mem, before.history, before.clock, id, notAfter, now, putFails, deleteFails);
      case Reloading(now) =>
        ReloadKeeps(before.mem, before.history, before.clock, now);
      case FailingReload(now, dropped) =>
        FailedReloadKeeps(before.mem, before.history, before.clock, now, dropped);
    }
  }

  /** The store's answers along a run; `None` for steps that are not a spend. */
  function Answers(mem: Memory, steps: seq<Step>): (answers: seq<Option<Result<(), SpendError>>>)
    ensures |answers| == |steps|
    decreases |steps|
  {
    if steps == [] then []
    else
      match steps[0]
      case Spending(id, notAfter, now, putFails, deleteFails) =>
        var (mem', r) := Spend(mem, id, notAfter, now, putFails, deleteFails);
        [Some(r)] + Answers(mem', steps[1..])
      case Reloading(now) => [None] + Answers(Reload(mem, now), steps[1..])
      case FailingReload(now, dropped) => [None] + Answers(FailedReload(mem, now, dropped), steps[1..])
  }

  /** The answers of a store that never forgets an accepted nonce. */
  function IdealAnswers(accepted: set<NonceId>, steps: seq<Step>): (answers: seq<Option<Result<(), SpendError>>>)
    ensures |answers| == |steps|
    decreases |steps|
  {
    if steps == [] then []
    else
      match steps[0]
      case Spending(id, notAfter, now, putFails, _) =>
        var r := if notAfter < now then Err(HasExpired)
                 else if id in accepted then Err(AlreadyUsed)
                 else if putFails then Err(NotRecorded)
                 else Ok(());
        [Some(r)] + IdealAnswers(if r.Ok? then accepted + {id} else accepted, steps[1..])
      case Reloading(_) => [None] + IdealAnswers(accepted, steps[1..])
      case FailingReload(_, _) => [None] + IdealAnswers(accepted, steps[1..])
  }

  /** No two statements share a nonce: each nonce comes with one expiry only. */
  ghost predicate OneStatementPerNonce(validity: NonceId -> u64, steps: seq<Step>) {
    forall i :: 0 <= i < |steps| && steps[i].Spending? ==> steps[i].notAfter == validity(steps[i].id)
  }

  ghost predicate AgreesWith(history: Consumed, validity: NonceId -> u64) {
    forall id :: id in history ==> history[id] == validity(id)
  }

  /** When no two statements share a nonce, forgetting expired nonces is never
      noticed: every answer of every run is the unbounded store's. */
  lemma {:induction false} ForgettingUnnoticed(mem: Memory, history: Consumed, clock: u64, steps: seq<Step>,
                                               validity: NonceId -> u64)
    requires Remembers(mem, history, clock) && AgreesWith(history, validity)
    requires ClockOk(clock, steps) && OneStatementPerNonce(validity, steps)
    ensures Answers(mem, steps) == IdealAnswers(history.Keys, steps)
    decreases |steps|
  {
    if steps != [] {
      var step, rest := steps[0], steps[1..];
      match step
      case Spending(id, notAfter, now, putFails, deleteFails) =>
        SpendExact(mem, history, clock, id, notAfter, now, putFails, deleteFails);
        var (mem', r) := Spend(mem, id, notAfter, now, putFails, deleteFails);
        var history' := Extend(history, id, notAfter, r.Ok?);
        assert notAfter == validity(id);
        assert history'.Keys == if r.Ok? then history.Keys + {id} else history.Keys;
        ForgettingUnnoticed(mem', history', now, rest, validity);
      case Reloading(now) =>
        ReloadKeeps(mem, history, clock, now);
        ForgettingUnnoticed(Reload(mem, now), history, now, rest, validity);
      case FailingReload(now, dropped) =>
        FailedReloadKeeps(mem, history, clock, now, dropped);
        ForgettingUnnoticed(FailedReload(mem, now, dropped), history, now, rest, validity);
    }
  }

  /** What has been accepted after one more step. */
  function HistoryAfter(mem: Memory, history: Consumed, step: Step): Consumed {
    if step.Spending? then
      Extend(history, step.id, step.notAfter,
             Spend(mem, step.id, step.notAfter, step.now, step.putFails, step.deleteFails).1.Ok?)
    else history
  }

  /** An in-time spend presents a nonce whose accepted statement has expired. */
  predicate Reuses(history: Consumed, step: Step) {
    && step.Spending? && step.notAfter >= step.now
    && step.id in history && history[step.id] < step.now
  }

  predicate NeverReuses(mem: Memory, history: Consumed, steps: seq<Step>)
    decreases |steps|
  {
    steps == [] ||
      (&& !Reuses(history, steps[0])
       && NeverReuses(Next(Progress(mem, history, 0), steps[0]).mem, HistoryAfter(mem, history, steps[0]), steps[1..]))
  }

  /** In any run forgetting goes unnoticed exactly when no in-time spend presents a
      nonce whose accepted statement has expired. */
  lemma {:induction false} ForgettingUnnoticedIff(mem: Memory, history: Consumed, clock: u64, steps: seq<Step>)
    requires Remembers(mem, history, clock) && ClockOk(clock, steps)
    ensures Answers(mem, steps) == IdealAnswers(history.Keys, steps) <==> NeverReuses(mem, history, steps)
    decreases |steps|
  {
    if steps != [] {
      var step, rest := steps[0], steps[1..];
      var mem', history' := Next(Progress(mem, history, 0), step).mem, HistoryAfter(mem, history, step);
      match step
      case Spending(id, notAfter, now, putFails, deleteFails) =>
        SpendExact(mem, history, clock, id, notAfter, now, putFails, deleteFails);
        if Reuses(history, step) {
          assert Answers(mem, steps)[0] != IdealAnswers(history.Keys, steps)[0];
        } else {
          assert history'.Keys == (if Answers(mem, steps)[0].value.Ok? then history.Keys + {id} else history.Keys);
          ForgettingUnnoticedIff(mem', history', now, rest);
          SameTails(Answers(mem, steps), IdealAnswers(history.Keys, steps));
        }
      case Reloading(now) =>
        ReloadKeeps(mem, history, clock, now);
        ForgettingUnnoticedIff(mem', history', now, rest);
        SameTails(Answers(mem, steps), IdealAnswers(history.Keys, steps));
      case FailingReload(now, dropped) =>
        FailedReloadKeeps(mem, history, clock, now, dropped);
        ForgettingUnnoticedIff(mem', history', now, rest);
        SameTails(Answers(mem, steps), IdealAnswers(history.Keys, steps));
    }
  }

  lemma SameTails<T>(a: seq<T>, b: seq<T>)
    requires a != [] && b != [] && a[0] == b[0]
    ensures a == b <==> a[1..] == b[1..]
  {
    assert a == [a[0]] + a[1..] && b == [b[0]] + b[1..];
  }

  /** A second statement under a forgotten nonce is accepted, whatever the two are. */
  lemma SharedNonceNoticed(id: NonceId, first: u64, second: u64, when: u64)
    requires first < when <= second
    ensures var spends := [Spending(id, first, first, false, {}), Spending(id, second, when, false, {})];
            && !NeverReuses(Memory(map[], map[]), map[], spends)
            && Answers(Memory(map[], map[]), spends) != IdealAnswers({}, spends)
  {
    var one, two := Spending(id, first, first, false, {}), Spending(id, second, when, false, {});
    var empty := Memory(map[], map[]);
    SpendExact(empty, map[], 0, id, first, first, false, {});
    assert [one, two][1..] == [two];
    assert HistoryAfter(empty, map[], one) == map[id := first];
    assert Reuses(map[id := first], two);
    var history: Consumed := map[];
    ForgettingUnnoticedIff(empty, history, 0, [one, two]);
    assert history.Keys == {};
  }

  // What the clock has to do with it.

  /** A step that prunes: a spend that was in time. */
  predicate Prunes(step: Step) {
    step.Spending? && step.notAfter >= step.now
  }

  /** Step `k` of the run is accepted. */
  predicate AcceptedAt(steps: seq<Step>, k: int) {
    && 0 <= k < |steps| && steps[k].Spending?
    && Spend(After(steps[..k]).mem, steps[k].id, steps[k].notAfter, steps[k].now,
             steps[k].putFails, steps[k].deleteFails).1.Ok?
  }

  /** Step `i` is accepted and its nonce is not accepted again. */
  predicate LastAccepted(steps: seq<Step>, i: int) {
    && AcceptedAt(steps, i)
    && forall k :: i < k < |steps| && steps[k].Spending? && steps[k].id == steps[i].id ==> !AcceptedAt(steps, k)
  }

  /** Where one nonce is still remembered. */
  datatype Trace = Trace(memory: bool, store: bool)

  /** What a step that does not accept the nonce does to it: a spend in time drops it past its expiry,
      from the store too unless that fails; a reload takes what the store has unless it is past. */
  function Fade(trace: Trace, step: Step, id: NonceId, notAfter: u64): Trace {
    var past := step.now > notAfter;
    match step
    case Spending(_, _, _, _, deleteFails) =>
      if Prunes(step) && past
      then Trace(false, trace.store && !(trace.memory && id !in deleteFails))
      else trace
    case Reloading(_) => Trace(trace.store && !past, trace.store && !past)
    case FailingReload(_, dropped) => trace.(store := trace.store && !(past && id in dropped))
  }

  /** Where the nonce accepted at step `i` is remembered at the end. */
  function Fate(steps: seq<Step>, i: nat): Trace
    requires i < |steps| && steps[i].Spending?
    decreases |steps|
  {
    if i == |steps| - 1 then Trace(true, true)
    else Fade(Fate(steps[..|steps| - 1], i), steps[|steps| - 1], steps[i].id, steps[i].notAfter)
  }

  ghost predicate HeldAs(nonces: Consumed, id: NonceId, notAfter: u64, held: bool) {
    if held then id in nonces && nonces[id] == notAfter else id !in nonces
  }

  lemma StepFades(before: Progress, step: Step, id: NonceId, notAfter: u64, trace: Trace)
    requires HeldAs(before.mem.consumed, id, notAfter, trace.memory)
    requires HeldAs(before.mem.stored, id, notAfter, trace.store)
    requires step.Spending? && step.id == id ==>
               !Spend(before.mem, step.id, step.notAfter, step.now, step.putFails, step.deleteFails).1.Ok?
    ensures var after, trace' := Next(before, step).mem, Fade(trace, step, id, notAfter);
            HeldAs(after.consumed, id, notAfter, trace'.memory) && HeldAs(after.stored, id, notAfter, trace'.store)
  {
  }

  lemma AcceptedIsHeld(before: Progress, step: Step)
    requires step.Spending?
    requires Spend(before.mem, step.id, step.notAfter, step.now, step.putFails, step.deleteFails).1.Ok?
    ensures var after := Next(before, step).mem;
            HeldAs(after.consumed, step.id, step.notAfter, true) && HeldAs(after.stored, step.id, step.notAfter, true)
  {
  }

  lemma FrontAccepted(steps: seq<Step>, i: int)
    requires LastAccepted(steps, i) && i < |steps| - 1
    ensures LastAccepted(steps[..|steps| - 1], i)
  {
    var front := steps[..|steps| - 1];
    forall k | 0 <= k < |front| ensures AcceptedAt(front, k) <==> AcceptedAt(steps, k) {
      assert front[..k] == steps[..k];
    }
  }

  /** Without any assumption on the clock, reloads included: where an accepted nonce is
      still remembered depends only on the clock readings and failures since. */
  lemma {:induction false} RememberedAsFate(steps: seq<Step>, i: int)
    requires LastAccepted(steps, i)
    ensures HeldAs(After(steps).mem.consumed, steps[i].id, steps[i].notAfter, Fate(steps, i).memory)
    ensures HeldAs(After(steps).mem.stored, steps[i].id, steps[i].notAfter, Fate(steps, i).store)
    decreases |steps|
  {
    var n := |steps| - 1;
    if i == n {
      AcceptedIsHeld(After(steps[..n]), steps[n]);
    } else {
      FrontAccepted(steps, i);
      RememberedAsFate(steps[..n], i);
      StepFades(After(steps[..n]), steps[n], steps[i].id, steps[i].notAfter, Fate(steps[..n], i));
    }
  }

  /** A step after `i` read a clock past `notAfter` and forgets by it. */
  predicate PassesAt(steps: seq<Step>, k: int, notAfter: u64) {
    0 <= k < |steps| && (Prunes(steps[k]) || !steps[k].Spending?) && steps[k].now > notAfter
  }

  predicate ClockPassed(steps: seq<Step>, i: int, notAfter: u64) {
    exists k :: i < k < |steps| && PassesAt(steps, k, notAfter)
  }

  lemma ClockPassedOneMore(steps: seq<Step>, i: int, notAfter: u64)
    requires 0 <= i < |steps| - 1
    ensures var n := |steps| - 1;
            ClockPassed(steps, i, notAfter) <==> ClockPassed(steps[..n], i, notAfter) || PassesAt(steps, n, notAfter)
  {
    var front := steps[..|steps| - 1];
    if k :| i < k < |front| && PassesAt(front, k, notAfter) {
      assert PassesAt(steps, k, notAfter);
    }
    if k :| i < k < |steps| && PassesAt(steps, k, notAfter) {
      assert k < |front| ==> PassesAt(front, k, notAfter);
    }
  }

  /** Until some step reads a clock past its expiry an accepted nonce is remembered in memory and on disk. */
  lemma {:induction false} RememberedUntilPassed(steps: seq<Step>, i: nat)
    requires i < |steps| && steps[i].Spending? && !ClockPassed(steps, i, steps[i].notAfter)
    ensures Fate(steps, i) == Trace(true, true)
    decreases |steps|
  {
    if i < |steps| - 1 {
      ClockPassedOneMore(steps, i, steps[i].notAfter);
      RememberedUntilPassed(steps[..|steps| - 1], i);
    }
  }

  /** Presenting an accepted statement again while it is valid succeeds, if it can be
      recorded, exactly when the nonce has faded from memory, and then some clock
      reading since was past its expiry: the clock has gone back. */
  lemma ReplayAcceptedIffFaded(steps: seq<Step>, i: int, now: u64, deleteFails: set<NonceId>)
    requires LastAccepted(steps, i) && now <= steps[i].notAfter
    ensures Spend(After(steps).mem, steps[i].id, steps[i].notAfter, now, false, deleteFails).1
         == if Fate(steps, i).memory then Err(AlreadyUsed) else Ok(())
    ensures !Fate(steps, i).memory ==> ClockPassed(steps, i, steps[i].notAfter)
  {
    RememberedAsFate(steps, i);
    if !ClockPassed(steps, i, steps[i].notAfter) {
      RememberedUntilPassed(steps, i);
    }
  }

  /** Between reloads the clock alone decides. */
  predicate SpendsOnly(steps: seq<Step>) {
    forall k :: 0 <= k < |steps| ==> steps[k].Spending?
  }

  lemma {:induction false} SpendsFadeWithTheClock(steps: seq<Step>, i: nat)
    requires i < |steps| && SpendsOnly(steps)
    ensures Fate(steps, i).memory <==> !ClockPassed(steps, i, steps[i].notAfter)
    decreases |steps|
  {
    if i < |steps| - 1 {
      ClockPassedOneMore(steps, i, steps[i].notAfter);
      SpendsFadeWithTheClock(steps[..|steps| - 1], i);
    }
  }

  /** In a run of spends a statement already accepted is accepted again, if it can be
      recorded, exactly when the clock had passed its expiry and then went back. */
  lemma ReplayAcceptedIffClockWentBack(steps: seq<Step>, i: int, now: u64, deleteFails: set<NonceId>)
    requires SpendsOnly(steps) && LastAccepted(steps, i) && now <= steps[i].notAfter
    ensures Spend(After(steps).mem, steps[i].id, steps[i].notAfter, now, false, deleteFails).1
         == if ClockPassed(steps, i, steps[i].notAfter) then Ok(()) else Err(AlreadyUsed)
  {
    ReplayAcceptedIffFaded(steps, i, now, deleteFails);
    SpendsFadeWithTheClock(steps, i);
  }
}
