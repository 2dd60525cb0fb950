/** Replay protection (crates/channel-manager/src/nonce.rs): each nonce is accepted once
    while its statement is valid. */
module Nonces {
  import opened Prelude
  import opened Store
  import Statements

  type Consumed = map<NonceId, u64>

  /** The nonces whose statements have not expired at `now`. */
  function Unexpired(nonces: Consumed, now: u64): Consumed {
    map id | id in nonces && nonces[id] >= now :: nonces[id]
  }

  function Expired(nonces: Consumed, now: u64): set<NonceId> {
    set id | id in nonces && nonces[id] < now
  }

  /** Memory, store and answer after one `consume`. */
  datatype ConsumeOutcome = ConsumeOutcome(consumed: Consumed, stored: Consumed, answer: Result<bool, StoreError>)

  /** Prunes what has expired, then records `id` unless it is there already --
      in the store first, so that a failed write refuses the statement. */
  function Consuming(consumed: Consumed, stored: Consumed, id: NonceId, notAfter: u64, now: u64,
                   putFails: bool, deleteFails: set<NonceId>): ConsumeOutcome
  {
    var kept := Unexpired(consumed, now);
    var left := stored - (Expired(consumed, now) - deleteFails);
    if id in kept then ConsumeOutcome(kept, left, Ok(false))
    else if putFails then ConsumeOutcome(kept, left, Err(StoreError))
    else ConsumeOutcome(kept[id := notAfter], left[id := notAfter], Ok(true))
  }

  predicate ChannelsNulFree(consumed: Consumed) {
    forall id :: id in consumed ==> Statements.NUL !in id.0
  }

  function ToKeep(nonces: Consumed, now: u64): set<NonceId> {
    nonces.Keys - Expired(nonces, now)
  }

  /** Loading keeps the unexpired nonces, wherever it stops. */
  lemma LoadBounds(entries: Consumed, now: u64, pending: set<NonceId>)
    ensures Unexpired(LeftBut(entries, ToKeep(entries, now), pending), now) == Unexpired(entries, now)
    ensures KeptBut(entries, ToKeep(entries, now), {}) == LeftBut(entries, ToKeep(entries, now), {})
        == Unexpired(entries, now)
    ensures KeptBut(entries, ToKeep(entries, now), entries.Keys) == map[]
    ensures LeftBut(entries, ToKeep(entries, now), entries.Keys) == entries
  {
    assert Unexpired(entries, now) == Restrict(entries, ToKeep(entries, now));
    LoadEnds(entries, ToKeep(entries, now), pending);
  }

  /** Loading's progress: what it has kept and left, and that no delete has failed. */
  ghost predicate Loading(entries: Consumed, now: u64, deleteFails: set<NonceId>, pending: set<NonceId>,
                          kept: Consumed, left: Consumed)
  {
    && pending <= entries.Keys
    && kept == KeptBut(entries, ToKeep(entries, now), pending)
    && left == LeftBut(entries, ToKeep(entries, now), pending)
    && Expired(entries, now) - pending !! deleteFails
  }

  lemma LoadBegins(entries: Consumed, now: u64, deleteFails: set<NonceId>)
    ensures Loading(entries, now, deleteFails, entries.Keys, map[], entries)
  {
    LoadBounds(entries, now, entries.Keys);
    assert Expired(entries, now) - entries.Keys == {};
  }

  /** One entry on, kept or deleted. */
  lemma LoadGoesOn(entries: Consumed, now: u64, deleteFails: set<NonceId>, pending: set<NonceId>,
                   kept: Consumed, left: Consumed, id: NonceId)
    requires Loading(entries, now, deleteFails, pending, kept, left) && id in pending
    ensures id in entries && id in left && left[id] == entries[id]
    ensures entries[id] >= now ==>
              Loading(entries, now, deleteFails, pending - {id}, kept[id := entries[id]], left)
    ensures entries[id] < now && id !in deleteFails ==>
              Loading(entries, now, deleteFails, pending - {id}, kept, left - {id})
  {
    LoadStep(entries, ToKeep(entries, now), pending, id);
    assert Expired(entries, now) - (pending - {id})
        == Expired(entries, now) - pending + (if id in Expired(entries, now) then {id} else {});
  }

  /** What loading has left, wherever it stops, and what it has once nothing is pending. */
  lemma LoadStops(entries: Consumed, now: u64, deleteFails: set<NonceId>, pending: set<NonceId>,
                  kept: Consumed, left: Consumed)
    requires Loading(entries, now, deleteFails, pending, kept, left)
    ensures Unexpired(left, now) == Unexpired(entries, now) && left.Keys <= entries.Keys
    ensures pending == {} ==> kept == left == Unexpired(entries, now) && Expired(entries, now) !! deleteFails
  {
    LoadBounds(entries, now, pending);
    assert pending == {} ==> Expired(entries, now) - pending == Expired(entries, now);
  }

  lemma SomeDeleteFails(entries: Consumed, now: u64, deleteFails: set<NonceId>, id: NonceId)
    requires id in entries && entries[id] < now && id in deleteFails
    ensures !(Expired(entries, now) !! deleteFails)
  {
    assert id in Expired(entries, now);
  }

  /** What pruning has left in the store with `pending` still to look at. */
  function DroppedBut(stored: Consumed, consumed: Consumed, now: u64, deleteFails: set<NonceId>,
                      pending: set<NonceId>): Consumed
  {
    stored - (Expired(consumed, now) - pending - deleteFails)
  }

  /** Pruning's progress in memory and store. */
  ghost predicate Pruning(before: Consumed, stored: Consumed, now: u64, deleteFails: set<NonceId>,
                          pending: set<NonceId>, consumed: Consumed, left: Consumed)
  {
    && pending <= before.Keys
    && consumed == LeftBut(before, ToKeep(before, now), pending)
    && left == DroppedBut(stored, before, now, deleteFails, pending)
  }

  lemma PruneBegins(before: Consumed, stored: Consumed, now: u64, deleteFails: set<NonceId>)
    ensures Pruning(before, stored, now, deleteFails, before.Keys, before, stored)
  {
    LoadBounds(before, now, before.Keys);
    assert Expired(before, now) - before.Keys == {};
  }

  /** One nonce on: an expired one leaves memory, and the store where its delete succeeds. */
  lemma PruneGoesOn(before: Consumed, stored: Consumed, now: u64, deleteFails: set<NonceId>, pending: set<NonceId>,
                    consumed: Consumed, left: Consumed, id: NonceId)
    requires Pruning(before, stored, now, deleteFails, pending, consumed, left) && id in pending
    ensures id in consumed && consumed[id] == before[id]
    ensures before[id] >= now ==> Pruning(before, stored, now, deleteFails, pending - {id}, consumed, left)
    ensures before[id] < now ==>
              Pruning(before, stored, now, deleteFails, pending - {id}, consumed - {id},
                      if id in deleteFails then left else left - {id})
  {
    LoadStep(before, ToKeep(before, now), pending, id);
  }

  lemma PruneStops(before: Consumed, stored: Consumed, now: u64, deleteFails: set<NonceId>, consumed: Consumed,
                   left: Consumed)
    requires Pruning(before, stored, now, deleteFails, {}, consumed, left)
    ensures consumed == Unexpired(before, now) && left == stored - (Expired(before, now) - deleteFails)
  {
    LoadBounds(before, now, {});
    assert Expired(before, now) - {} - deleteFails == Expired(before, now) - deleteFails;
  }

  class NonceStore {
    var consumed: Consumed
    const store: StateStore

    ghost predicate Valid()
      reads this, store
    {
      store.Valid() && ChannelsNulFree(consumed)
    }

    constructor (store: StateStore, consumed: Consumed)
      requires store.Valid() && ChannelsNulFree(consumed)
      ensures Valid() && this.store == store && this.consumed == consumed
    {
      this.store := store;
      this.consumed := consumed;
    }

    /** Loads the nonces still valid at `now` and deletes the rest from the store.
        A failed delete aborts loading, leaving some expired nonces behind. */
    static method Load(store: StateStore, now: u64, loadFails: bool, deleteFails: set<NonceId>)
      returns (r: Result<NonceStore, StoreError>)
      requires store.Valid()
      modifies store
      ensures store.Valid()
      ensures store.disk == old(store.disk).(nonces := store.disk.nonces)
      ensures Unexpired(store.disk.nonces, now) == Unexpired(old(store.disk).nonces, now)
      ensures store.disk.nonces.Keys <= old(store.disk).nonces.Keys
      ensures r.Ok? ==> fresh(r.value) && r.value.Valid() && r.value.store == store
      ensures r.Ok? ==> r.value.consumed == store.disk.nonces == Unexpired(old(store.disk).nonces, now)
      ensures r.Ok? <==> !loadFails && Expired(old(store.disk).nonces, now) !! deleteFails
    {
      var loaded := store.LoadNonces(loadFails);
      if loaded.Err? {
        return Err(StoreError);
      }
      var entries := loaded.value;
      ghost var before := store.disk;
      var consumed: Consumed := map[];
      var pending := entries.Keys;
      LoadBegins(entries, now, deleteFails);
      while pending != {}
        invariant store.Valid() && store.disk == before.(nonces := store.disk.nonces)
        invariant Loading(entries, now, deleteFails, pending, consumed, store.disk.nonces)
        decreases |pending|
      {
        var id :| id in pending;
        LoadGoesOn(entries, now, deleteFails, pending, consumed, store.disk.nonces, id);
        if entries[id] >= now {
          consumed := consumed[id := entries[id]];
        } else {
          var deleted := store.DeleteNonce(id, id in deleteFails);
          if deleted.Err? {
            LoadStops(entries, now, deleteFails, pending, consumed, store.disk.nonces);
            SomeDeleteFails(entries, now, deleteFails, id);
            return Err(StoreError);
          }
        }
        pending := pending - {id};
      }
      LoadStops(entries, now, deleteFails, pending, consumed, store.disk.nonces);
      var nonces := new NonceStore(store, consumed);
      return Ok(nonces);
    }

    /** Accepts a nonce once; see the specification function above. */
    method Consume(id: NonceId, notAfter: u64, now: u64, putFails: bool, deleteFails: set<NonceId>)
      returns (r: Result<bool, StoreError>)
      requires Valid() && Statements.NUL !in id.0
      modifies this, store
      ensures Valid()
      ensures var outcome := Consuming(old(consumed), old(store.disk).nonces, id, notAfter, now, putFails, deleteFails);
              && consumed == outcome.consumed
              && store.disk == old(store.disk).(nonces := outcome.stored)
              && r == outcome.answer
    {
      Prune(now, deleteFails);
      if id in consumed {
        return Ok(false);
      }
      var put := store.PutNonce(id, notAfter, putFails);
      if put.Err? {
        return Err(StoreError);
      }
      consumed := consumed[id := notAfter];
      return Ok(true);
    }

    /** Forgets expired nonces, in memory even where the store's delete fails. */
    method Prune(now: u64, deleteFails: set<NonceId>)
      requires Valid()
      modifies this, store
      ensures Valid()
      ensures consumed == Unexpired(old(consumed), now)
      ensures store.disk == old(store.disk).(
                nonces := old(store.disk).nonces - (Expired(old(consumed), now) - deleteFails))
    {
      ghost var before, disk := consumed, store.disk;
      var pending := consumed.Keys;
      PruneBegins(before, disk.nonces, now, deleteFails);
      while pending != {}
        invariant Valid() && store.disk == disk.(nonces := store.disk.nonces)
        invariant Pruning(before, disk.nonces, now, deleteFails, pending, consumed, store.disk.nonces)
        decreases |pending|
      {
        var id :| id in pending;
        PruneGoesOn(before, disk.nonces, now, deleteFails, pending, consumed, store.disk.nonces, id);
        if consumed[id] < now {
          var _ := store.DeleteNonce(id, id in deleteFails);
          consumed := consumed - {id};
        }
        pending := pending - {id};
      }
      PruneStops(before, disk.nonces, now, deleteFails, consumed, store.disk.nonces);
    }
  }
}
