/** When each channel with a TTL is due (crates/channel-manager/src/expiry.rs), written
    through to the store. */
module Expiry {
  import opened Prelude
  import opened Store

  class ChannelExpiry {
    var expires: map<string, u64>
    const store: StateStore

    ghost predicate Valid()
      reads this, store
    {
      store.Valid()
    }

    constructor (store: StateStore, expires: map<string, u64>)
      requires store.Valid()
      ensures Valid() && this.store == store && this.expires == expires
    {
      this.store := store;
      this.expires := expires;
    }

    /** Loads the records of the channels in `keep` and deletes the rest from the
        store. A failed delete aborts loading, leaving some of the rest behind. */
    static method Load(store: StateStore, keep: set<string>, loadFails: bool, deleteFails: set<string>)
      returns (r: Result<ChannelExpiry, StoreError>)
      requires store.Valid()
      modifies store
      ensures store.Valid()
      ensures store.disk == old(store.disk).(expires := store.disk.expires)
      ensures Restrict(store.disk.expires, keep) == Restrict(old(store.disk).expires, keep)
      ensures store.disk.expires.Keys <= old(store.disk).expires.Keys
      ensures r.Ok? ==> fresh(r.value) && r.value.Valid() && r.value.store == store
      ensures r.Ok? ==> r.value.expires == store.disk.expires == Restrict(old(store.disk).expires, keep)
      ensures r.Ok? <==> !loadFails && old(store.disk).expires.Keys - keep !! deleteFails
    {
      var loaded := store.LoadExpiries(loadFails);
      if loaded.Err? {
        return Err(StoreError);
      }
      var entries := loaded.value;
      ghost var before := store.disk;
      var expires: map<string, u64> := map[];
      var pending := entries.Keys;
      LoadEnds(entries, keep, pending);
      while pending != {}
        invariant store.Valid() && pending <= entries.Keys
        invariant store.disk == before.(expires := LeftBut(entries, keep, pending))
        invariant expires == KeptBut(entries, keep, pending)
        invariant entries.Keys - keep - pending !! deleteFails
        decreases |pending|
      {
        var channel :| channel in pending;
        LoadStep(entries, keep, pending, channel);
        if channel in keep {
          expires := expires[channel := entries[channel]];
        } else {
          var deleted := store.DeleteExpiry(channel, channel in deleteFails);
          if deleted.Err? {
            LoadEnds(entries, keep, pending);
            assert channel in (entries.Keys - keep) * deleteFails;
            return Err(StoreError);
          }
        }
        pending := pending - {channel};
      }
      LoadEnds(entries, keep, pending);
      assert entries.Keys - keep - pending == entries.Keys - keep;
      var loadedRecords := new ChannelExpiry(store, expires);
      return Ok(loadedRecords);
    }

    /** Records when the channel is due, durably first: if that fails nothing is recorded. */
    method SetExpiry(channel: string, expiresAt: u64, putFails: bool) returns (r: Result<(), StoreError>)
      requires Valid()
      modifies this, store
      ensures Valid()
      ensures r == if putFails then Err(StoreError) else Ok(())
      ensures expires == if putFails then old(expires) else old(expires)[channel := expiresAt]
      ensures store.disk == if putFails then old(store.disk)
          else old(store.disk).(expires := old(store.disk).expires[channel := expiresAt])
    {
      var put := store.PutExpiry(channel, expiresAt, putFails);
      if put.Err? {
        return Err(StoreError);
      }
      expires := expires[channel := expiresAt];
      return Ok(());
    }

    function GetExpiry(channel: string): (found: Option<u64>)
      reads this
      ensures found.Some? <==> channel in expires
      ensures found.Some? ==> found.value == expires[channel]
    {
      if channel in expires then Some(expires[channel]) else None
    }

    /** Forgets a deleted channel's record, in memory even where the store fails. */
    method RemoveExpiry(channel: string, deleteFails: bool) returns (r: Result<(), StoreError>)
      requires Valid()
      modifies this, store
      ensures Valid()
      ensures r == if deleteFails then Err(StoreError) else Ok(())
      ensures expires == old(expires) - {channel}
      ensures store.disk == if deleteFails then old(store.disk)
          else old(store.disk).(expires := old(store.disk).expires - {channel})
    {
      expires := expires - {channel};
      r := store.DeleteExpiry(channel, deleteFails);
    }

    /** The channels due at `now`. */
    function DueAt(now: u64): (due: set<string>)
      reads this
      ensures forall c :: c in due <==> c in expires && expires[c] <= now
    {
      set c | c in expires && expires[c] <= now
    }
  }
}
