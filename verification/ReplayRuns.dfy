/** Whole runs of a shared-secret verifier with replay protection on
    (crates/auth/src/shared_secret.rs): how its bounded cache compares with a
    verifier that remembers every accepted token forever. */
module ReplayRuns {
  import opened Prelude
  import opened ReplayCache
  import opened SharedSecret

  datatype Call = Call(text: string, now: u64)

  predicate ClockOk(calls: seq<Call>) {
    forall i, j :: 0 <= i < j < |calls| ==> calls[i].now <= calls[j].now
  }

  /** The cache's queue and the entries accepted so far, in order. */
  datatype Progress = Progress(order: seq<Entry>, accepted: seq<Entry>)

  function After(settings: Settings, calls: seq<Call>): Progress
    decreases |calls|
  {
    if calls == [] then Progress([], [])
    else
      var before := After(settings, calls[..|calls| - 1]);
      Next(settings, before, calls[|calls| - 1])
  }

  function Next(settings: Settings, before: Progress, call: Call): Progress {
    var (order, answer) := TryVerify(settings, before.order, call.text, call.now);
    Progress(order,
             if answer.Ok? then before.accepted + [Authentic(settings, call.text, call.now).value] else before.accepted)
  }

  function Answer(settings: Settings, calls: seq<Call>, i: nat): Result<(), AuthError>
    requires i < |calls|
  {
    TryVerify(settings, After(settings, calls[..i]).order, calls[i].text, calls[i].now).1
  }

  /** Whenever an entry was accepted again, a full capacity of distinct others had been accepted in between. */
  predicate Spaced(accepted: seq<Entry>, capacity: nat) {
    forall q, r :: 0 <= q < r < |accepted| && accepted[q] == accepted[r] ==>
      r - q > capacity && NoDuplicates(accepted[q..q + capacity + 1])
  }

  lemma AuthenticIsRecent(settings: Settings, text: string, now: u64)
    requires Authentic(settings, text, now).Ok?
    ensures !TooOld(Authentic(settings, text, now).value, now, settings.validityWindow)
  {
  }

  lemma SpacedOneMore(accepted: seq<Entry>, entry: Entry, capacity: nat)
    requires Spaced(accepted, capacity)
    requires forall q :: 0 <= q < |accepted| && accepted[q] == entry ==> Buried(accepted, q, capacity)
    ensures Spaced(accepted + [entry], capacity)
  {
    var all := accepted + [entry];
    forall q, r | 0 <= q < r < |all| && all[q] == all[r]
      ensures r - q > capacity && NoDuplicates(all[q..q + capacity + 1])
    {
      if r < |accepted| {
        assert accepted[q] == accepted[r];
      } else {
        assert accepted[q] == entry;
      }
      assert all[q..q + capacity + 1] == accepted[q..q + capacity + 1];
    }
  }

  lemma StepKeeps(settings: Settings, before: Progress, clock: u64, call: Call)
    requires settings.replayCacheEnabled && clock <= call.now
    requires Remembers(before.order, before.accepted, settings.replayCacheMax, clock, settings.validityWindow)
    requires Spaced(before.accepted, Capacity(settings.replayCacheMax))
    ensures var after := Next(settings, before, call);
            && Remembers(after.order, after.accepted, settings.replayCacheMax, call.now, settings.validityWindow)
            && Spaced(after.accepted, Capacity(settings.replayCacheMax))
  {
    var max, window := settings.replayCacheMax, settings.validityWindow;
    RemembersLater(before.order, before.accepted, max, clock, call.now, window);
    var checked := Authentic(settings, call.text, call.now);
    if checked.Ok? {
      var entry := checked.value;
      AuthenticIsRecent(settings, call.text, call.now);
      InsertRemembers(before.order, before.accepted, max, entry, call.now, window);
      if Insert(before.order, max, entry, call.now, window).1.Fresh? {
        forall q | 0 <= q < |before.accepted| && before.accepted[q] == entry
          ensures Buried(before.accepted, q, Capacity(max))
        {
          AcceptedAgainOnlyBuried(before.order, before.accepted, max, entry, call.now, window, q);
        }
        SpacedOneMore(before.accepted, entry, Capacity(max));
      }
    }
  }

  function ClockAfter(calls: seq<Call>): u64 {
    if calls == [] then 0 else calls[|calls| - 1].now
  }

  /** In every run, between two acceptances of the same nonce and timestamp at
      least max(1, max_size) distinct others were accepted. */
  lemma {:induction false} ReplaysAreSpaced(settings: Settings, calls: seq<Call>)
    requires settings.replayCacheEnabled && ClockOk(calls)
    ensures var end := After(settings, calls);
            && Remembers(end.order, end.accepted, settings.replayCacheMax, ClockAfter(calls), settings.validityWindow)
            && Spaced(end.accepted, Capacity(settings.replayCacheMax))
    decreases |calls|
  {
    if calls != [] {
      var front := calls[..|calls| - 1];
      ReplaysAreSpaced(settings, front);
      StepKeeps(settings, After(settings, front), ClockAfter(front), calls[|calls| - 1]);
    }
  }

  // Against a verifier that never forgets.

  /** `try_verify` with a memory of everything accepted. */
  function IdealVerify(settings: Settings, accepted: set<Entry>, text: string, now: u64): Result<(), AuthError> {
    match Authentic(settings, text, now)
    case Err(e) => Err(e)
    case Ok(entry) => if entry in accepted then Err(TokenInvalidReplay) else Ok(())
  }

  function IdealAfter(settings: Settings, calls: seq<Call>): set<Entry>
    decreases |calls|
  {
    if calls == [] then {}
    else
      var before, last := IdealAfter(settings, calls[..|calls| - 1]), calls[|calls| - 1];
      if IdealVerify(settings, before, last.text, last.now).Ok?
      then before + {Authentic(settings, last.text, last.now).value} else before
  }

  function IdealAnswer(settings: Settings, calls: seq<Call>, i: nat): Result<(), AuthError>
    requires i < |calls|
  {
    IdealVerify(settings, IdealAfter(settings, calls[..i]), calls[i].text, calls[i].now)
  }

  lemma SameAnswer(settings: Settings, before: Progress, clock: u64, call: Call)
    requires settings.replayCacheEnabled && clock <= call.now
    requires Remembers(before.order, before.accepted, settings.replayCacheMax, clock, settings.validityWindow)
    requires |before.accepted| <= Capacity(settings.replayCacheMax)
    ensures TryVerify(settings, before.order, call.text, call.now).1
         == IdealVerify(settings, SetOf(before.accepted), call.text, call.now)
  {
    var max, window := settings.replayCacheMax, settings.validityWindow;
    RemembersLater(before.order, before.accepted, max, clock, call.now, window);
    var checked := Authentic(settings, call.text, call.now);
    if checked.Ok? {
      var entry := checked.value;
      AuthenticIsRecent(settings, call.text, call.now);
      PurgedIsSuffix(before.order, call.now, window);
      if entry in before.accepted && Insert(before.order, max, entry, call.now, window).1.Fresh? {
        var q :| 0 <= q < |before.accepted| && before.accepted[q] == entry;
        AcceptedAgainOnlyBuried(before.order, before.accepted, max, entry, call.now, window, q);
      }
    }
  }

  lemma {:induction false} AcceptedGrows(settings: Settings, calls: seq<Call>, i: nat)
    requires i <= |calls|
    ensures |After(settings, calls[..i]).accepted| <= |After(settings, calls).accepted|
    decreases |calls| - i
  {
    if i < |calls| {
      assert calls[..i + 1][..i] == calls[..i];
      AcceptedGrows(settings, calls, i + 1);
    } else {
      assert calls[..i] == calls;
    }
  }

  lemma {:induction false} SameHistory(settings: Settings, calls: seq<Call>)
    requires settings.replayCacheEnabled && ClockOk(calls)
    requires |After(settings, calls).accepted| <= Capacity(settings.replayCacheMax)
    ensures IdealAfter(settings, calls) == SetOf(After(settings, calls).accepted)
    decreases |calls|
  {
    if calls != [] {
      var front, last := calls[..|calls| - 1], calls[|calls| - 1];
      AcceptedGrows(settings, calls, |front|);
      SameHistory(settings, front);
      ReplaysAreSpaced(settings, front);
      SameAnswer(settings, After(settings, front), ClockAfter(front), last);
    }
  }

  /** A run that accepts no more than max(1, max_size) tokens gets, call by call,
      the answers of a verifier that remembers every accepted token forever. */
  lemma BoundedCacheUnnoticed(settings: Settings, calls: seq<Call>)
    requires settings.replayCacheEnabled && ClockOk(calls)
    requires |After(settings, calls).accepted| <= Capacity(settings.replayCacheMax)
    ensures forall i :: 0 <= i < |calls| ==> Answer(settings, calls, i) == IdealAnswer(settings, calls, i)
  {
    forall i | 0 <= i < |calls| ensures Answer(settings, calls, i) == IdealAnswer(settings, calls, i) {
      var front := calls[..i];
      AcceptedGrows(settings, calls, i);
      SameHistory(settings, front);
      ReplaysAreSpaced(settings, front);
      SameAnswer(settings, After(settings, front), ClockAfter(front), calls[i]);
    }
  }

  /** In every run each accepted entry is that of a token which carried the tag of its own message, with
      its timestamp in the window when it was presented. */
  lemma {:induction false} AcceptedAreGenuine(settings: Settings, calls: seq<Call>)
    ensures forall entry :: entry in After(settings, calls).accepted ==>
              exists i :: 0 <= i < |calls| && Genuine(settings, calls[i].text, calls[i].now, entry)
    decreases |calls|
  {
    if calls != [] {
      var front, last := calls[..|calls| - 1], calls[|calls| - 1];
      AcceptedAreGenuine(settings, front);
      forall entry | entry in After(settings, calls).accepted
        ensures exists i :: 0 <= i < |calls| && Genuine(settings, calls[i].text, calls[i].now, entry)
      {
        if entry in After(settings, front).accepted {
          var i :| 0 <= i < |front| && Genuine(settings, front[i].text, front[i].now, entry);
          assert Genuine(settings, calls[i].text, calls[i].now, entry);
        } else {
          AuthenticIff(settings, last.text, last.now, entry);
          assert Genuine(settings, calls[|calls| - 1].text, calls[|calls| - 1].now, entry);
        }
      }
    }
  }
}
