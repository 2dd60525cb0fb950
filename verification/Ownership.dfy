/** Who owns each channel (crates/channel-manager/src/ownership.rs), written through to the store. */
module Ownership {
  import opened Prelude
  import opened Store

  class ChannelOwnership {
    var owners: map<string, ChannelOwner>
    const store: StateStore

    ghost predicate Valid()
      reads this, store
    {
      store.Valid()
    }

    constructor (store: StateStore, owners: map<string, ChannelOwner>)
      requires store.Valid()
      ensures Valid() && this.store == store && this.owners == owners
    {
      this.store := store;
      this.owners := owners;
    }

    /** Loads the records of the channels in `keep` and deletes the rest from the
        store. A failed delete aborts loading, leaving some of the rest behind. */
    static method Load(store: StateStore, keep: set<string>, loadFails: bool, deleteFails: set<string>)
      returns (r: Result<ChannelOwnership, StoreError>)
      requires store.Valid()
      modifies store
      ensures store.Valid()
      ensures store.disk == old(store.disk).(owners := store.disk.owners)
      ensures Restrict(store.disk.owners, keep) == Restrict(old(store.disk).owners, keep)
      ensures store.disk.owners.Keys <= old(store.disk).owners.Keys
      ensures r.Ok? ==> fresh(r.value) && r.value.Valid() && r.value.store == store
      ensures r.Ok? ==> r.value.owners == store.disk.owners == Restrict(old(store.disk).owners, keep)
      ensures r.Ok? <==> !loadFails && old(store.disk).owners.Keys - keep !! deleteFails
    {
      var loaded := store.LoadOwners(loadFails);
      if loaded.Err? {
        return Err(StoreError);
      }
      var entries := loaded.value;
      ghost var before := store.disk;
      var owners: map<string, ChannelOwner> := map[];
      var pending := entries.Keys;
      LoadEnds(entries, keep, pending);
      while pending != {}
        invariant store.Valid() && pending <= entries.Keys
        invariant store.disk == before.(owners := LeftBut(entries, keep, pending))
        invariant owners == KeptBut(entries, keep, pending)
        invariant entries.Keys - keep - pending !! deleteFails
        decreases |pending|
      {
        var channel :| channel in pending;
        LoadStep(entries, keep, pending, channel);
        if channel in keep {
          owners := owners[channel := entries[channel]];
        } else {
          var deleted := store.DeleteOwner(channel, channel in deleteFails);
          if deleted.Err? {
            LoadEnds(entries, keep, pending);
            assert channel in (entries.Keys - keep) * deleteFails;
            return Err(StoreError);
          }
        }
        pending := pending - {channel};
      }
      LoadEnds(entries, keep, pending);
      assert entries.Keys - keep - pending == entries.Keys - keep;
      var loadedRecords := new ChannelOwnership(store, owners);
      return Ok(loadedRecords);
    }

    /** Records the channel's owner, durably first: if that fails nothing is recorded. */
    method SetOwner(channel: string, owner: ChannelOwner, putFails: bool) returns (r: Result<(), StoreError>)
      requires Valid()
      modifies this, store
      ensures Valid()
      ensures r == if putFails then Err(StoreError) else Ok(())
      ensures owners == if putFails then old(owners) else old(owners)[channel := owner]
      ensures store.disk == if putFails then old(store.disk)
          else old(store.disk).(owners := old(store.disk).owners[channel := owner])
    {
      var put := store.PutOwner(channel, owner, putFails);
      if put.Err? {
        return Err(StoreError);
      }
      owners := owners[channel := owner];
      return Ok(());
    }

    function GetOwner(channel: string): (found: Option<ChannelOwner>)
      reads this
      ensures found.Some? <==> channel in owners
      ensures found.Some? ==> found.value == owners[channel]
    {
      if channel in owners then Some(owners[channel]) else None
    }

    /** Forgets a deleted channel's record, in memory even where the store fails. */
    method RemoveOwner(channel: string, deleteFails: bool) returns (r: Result<(), StoreError>)
      requires Valid()
      modifies this, store
      ensures Valid()
      ensures r == if deleteFails then Err(StoreError) else Ok(())
      ensures owners == old(owners) - {channel}
      ensures store.disk == if deleteFails then old(store.disk)
          else old(store.disk).(owners := old(store.disk).owners - {channel})
    {
      owners := owners - {channel};
      r := store.DeleteOwner(channel, deleteFails);
    }
  }
}
