/** The bounded replay cache (crates/auth/src/shared_secret.rs): a hash set beside a
    queue in order of arrival, purged and evicted from the front. */
module ReplayCache {
  import opened Prelude

  datatype Entry = Entry(nonce: string, timestamp: u64)

  datatype Inserted = Fresh | Replay

  predicate TooOld(entry: Entry, now: u64, window: u64) {
    SaturatingSub(now, entry.timestamp) > window
  }

  /** The queue once expired entries have left its front. */
  function Purged(order: seq<Entry>, now: u64, window: u64): seq<Entry> {
    if order != [] && TooOld(order[0], now, window) then Purged(order[1..], now, window) else order
  }

  /** What is left is the back of the queue, and what left was too old. */
  lemma {:induction false} PurgedIsSuffix(order: seq<Entry>, now: u64, window: u64)
    ensures var kept := Purged(order, now, window);
            && |kept| <= |order| && kept == order[|order| - |kept|..]
            && forall i :: 0 <= i < |order| - |kept| ==> TooOld(order[i], now, window)
  {
    if order != [] && TooOld(order[0], now, window) {
      PurgedIsSuffix(order[1..], now, window);
    }
  }

  /** The queue and the answer after one insertion: purge, refuse a replay, evict at capacity, append. */
  function Insert(order: seq<Entry>, maxSize: nat, entry: Entry, now: u64, window: u64): (seq<Entry>, Inserted) {
    Admit(Purged(order, now, window), maxSize, entry)
  }

  function Admit(kept: seq<Entry>, maxSize: nat, entry: Entry): (seq<Entry>, Inserted) {
    if entry in kept then (kept, Replay) else (MakeRoom(kept, maxSize) + [entry], Fresh)
  }

  function MakeRoom(kept: seq<Entry>, maxSize: nat): seq<Entry> {
    if |kept| >= maxSize && kept != [] then kept[1..] else kept
  }

  function SetOf(order: seq<Entry>): set<Entry> {
    set e | e in order
  }

  lemma {:induction false} SizeOfSet(order: seq<Entry>)
    requires NoDuplicates(order)
    ensures |SetOf(order)| == |order|
  {
    if order != [] {
      var rest := order[1..];
      SizeOfSet(rest);
      assert SetOf(order) == SetOf(rest) + {order[0]};
    }
  }

  lemma PopFront(order: seq<Entry>)
    requires NoDuplicates(order) && order != []
    ensures NoDuplicates(order[1..]) && SetOf(order[1..]) == SetOf(order) - {order[0]}
  {
    forall e | e in SetOf(order) - {order[0]} ensures e in order[1..] {
      var i :| 0 <= i < |order| && order[i] == e;
      assert order[1..][i - 1] == e;
    }
  }

  lemma PushBack(order: seq<Entry>, entry: Entry)
    requires NoDuplicates(order) && entry !in order
    ensures NoDuplicates(order + [entry]) && SetOf(order + [entry]) == SetOf(order) + {entry}
  {
  }

  class Cache {
    var entries: set<Entry>
    var order: seq<Entry>
    const maxSize: nat

    ghost predicate Valid()
      reads this
    {
      NoDuplicates(order) && entries == SetOf(order)
    }

    constructor (maxSize: nat)
      ensures Valid() && order == [] && this.maxSize == maxSize
    {
      this.maxSize := maxSize;
      entries := {};
      order := [];
    }

    method PurgeExpired(now: u64, window: u64)
      requires Valid()
      modifies this
      ensures Valid()
      ensures order == Purged(old(order), now, window)
    {
      while order != [] && TooOld(order[0], now, window)
        invariant Valid()
        invariant Purged(order, now, window) == Purged(old(order), now, window)
        decreases |order|
      {
        PopFront(order);
        var expired := order[0];
        order := order[1..];
        entries := entries - {expired};
      }
    }

    method InsertEntry(entry: Entry, now: u64, window: u64) returns (answer: Inserted)
      requires Valid()
      modifies this
      ensures Valid()
      ensures (order, answer) == Insert(old(order), maxSize, entry, now, window)
    {
      PurgeExpired(now, window);
      if entry in entries {
        return Replay;
      }
      assert entry !in order;
      SizeOfSet(order);
      ghost var kept := order;
      if |entries| >= maxSize && order != [] {
        PopFront(order);
        var oldest := order[0];
        order := order[1..];
        entries := entries - {oldest};
      }
      assert order == MakeRoom(kept, maxSize);
      PushBack(order, entry);
      entries := entries + {entry};
      order := order + [entry];
      return Fresh;
    }
  }

  // How long an accepted entry is remembered.

  /** At least one entry is held even by a cache of size zero. */
  function Capacity(maxSize: nat): nat {
    if maxSize == 0 then 1 else maxSize
  }

  /** `accepted[q]` left the cache for a reason: it is too old, or a full capacity
      of distinct entries was accepted after it. */
  predicate Gone(accepted: seq<Entry>, q: nat, capacity: nat, now: u64, window: u64)
    requires q < |accepted|
  {
    TooOld(accepted[q], now, window) || Buried(accepted, q, capacity)
  }

  predicate Buried(accepted: seq<Entry>, q: nat, capacity: nat) {
    q + capacity < |accepted| && NoDuplicates(accepted[q..q + capacity + 1])
  }

  /** The queue holds the latest accepted entries, and every other one is gone for a reason. */
  predicate Remembers(order: seq<Entry>, accepted: seq<Entry>, maxSize: nat, now: u64, window: u64) {
    && |order| <= |accepted| && order == accepted[|accepted| - |order|..]
    && NoDuplicates(order)
    && (forall q :: 0 <= q < |accepted| - |order| ==> Gone(accepted, q, Capacity(maxSize), now, window))
  }

  lemma BuriedStays(accepted: seq<Entry>, more: seq<Entry>, q: nat, capacity: nat)
    requires Buried(accepted, q, capacity)
    ensures Buried(accepted + more, q, capacity)
  {
    assert (accepted + more)[q..q + capacity + 1] == accepted[q..q + capacity + 1];
  }

  lemma RemembersLater(order: seq<Entry>, accepted: seq<Entry>, maxSize: nat, clock: u64, now: u64, window: u64)
    requires Remembers(order, accepted, maxSize, clock, window) && clock <= now
    ensures Remembers(order, accepted, maxSize, now, window)
  {
    forall q | 0 <= q < |accepted| - |order| ensures Gone(accepted, q, Capacity(maxSize), now, window) {
      assert Gone(accepted, q, Capacity(maxSize), clock, window);
    }
  }

  lemma PurgeRemembers(order: seq<Entry>, accepted: seq<Entry>, maxSize: nat, now: u64, window: u64)
    requires Remembers(order, accepted, maxSize, now, window)
    ensures Remembers(Purged(order, now, window), accepted, maxSize, now, window)
  {
    PurgedIsSuffix(order, now, window);
    var kept := Purged(order, now, window);
    var start := |accepted| - |order|;
    forall q | 0 <= q < |accepted| - |kept| ensures Gone(accepted, q, Capacity(maxSize), now, window) {
      if q >= start {
        assert accepted[q] == order[q - start];
      }
    }
  }

  /** The front of a full queue is buried by the next entry. */
  lemma EvictedIsBuried(kept: seq<Entry>, accepted: seq<Entry>, capacity: nat, entry: Entry)
    requires |kept| <= |accepted| && kept == accepted[|accepted| - |kept|..]
    requires NoDuplicates(kept) && entry !in kept && |kept| >= capacity
    ensures Buried(accepted + [entry], |accepted| - |kept|, capacity)
  {
    var start := |accepted| - |kept|;
    PushBack(kept, entry);
    assert (accepted + [entry])[start..] == kept + [entry];
    assert (accepted + [entry])[start..start + capacity + 1] == (kept + [entry])[..capacity + 1];
  }

  lemma QueueIsSuffix(kept: seq<Entry>, accepted: seq<Entry>, maxSize: nat, entry: Entry)
    requires |kept| <= |accepted| && kept == accepted[|accepted| - |kept|..]
    requires NoDuplicates(kept) && entry !in kept
    ensures var order', accepted' := MakeRoom(kept, maxSize) + [entry], accepted + [entry];
            |order'| <= |accepted'| && order' == accepted'[|accepted'| - |order'|..] && NoDuplicates(order')
  {
    var room := MakeRoom(kept, maxSize);
    assert room == accepted[|accepted| - |room|..];
    PushBack(room, entry);
  }

  lemma AdmitRemembers(kept: seq<Entry>, accepted: seq<Entry>, maxSize: nat, entry: Entry, now: u64, window: u64)
    requires Remembers(kept, accepted, maxSize, now, window) && entry !in kept
    ensures Remembers(MakeRoom(kept, maxSize) + [entry], accepted + [entry], maxSize, now, window)
  {
    var accepted', order' := accepted + [entry], MakeRoom(kept, maxSize) + [entry];
    QueueIsSuffix(kept, accepted, maxSize, entry);
    forall q | 0 <= q < |accepted'| - |order'| ensures Gone(accepted', q, Capacity(maxSize), now, window) {
      if q < |accepted| - |kept| {
        assert Gone(accepted, q, Capacity(maxSize), now, window);
        if Buried(accepted, q, Capacity(maxSize)) {
          BuriedStays(accepted, [entry], q, Capacity(maxSize));
        }
      } else {
        EvictedIsBuried(kept, accepted, Capacity(maxSize), entry);
      }
    }
  }

  /** An insertion keeps the account of what is gone. */
  lemma InsertRemembers(order: seq<Entry>, accepted: seq<Entry>, maxSize: nat, entry: Entry, now: u64, window: u64)
    requires Remembers(order, accepted, maxSize, now, window)
    ensures var (order', answer) := Insert(order, maxSize, entry, now, window);
            Remembers(order', if answer.Fresh? then accepted + [entry] else accepted, maxSize, now, window)
  {
    PurgeRemembers(order, accepted, maxSize, now, window);
    var kept := Purged(order, now, window);
    if entry !in kept {
      AdmitRemembers(kept, accepted, maxSize, entry, now, window);
    }
  }

  /** An entry that is not too old is refused unless it was never accepted or is buried. */
  lemma AcceptedAgainOnlyBuried(order: seq<Entry>, accepted: seq<Entry>, maxSize: nat, entry: Entry, now: u64,
                                window: u64, q: nat)
    requires Remembers(order, accepted, maxSize, now, window) && !TooOld(entry, now, window)
    requires q < |accepted| && accepted[q] == entry
    requires Insert(order, maxSize, entry, now, window).1.Fresh?
    ensures Buried(accepted, q, Capacity(maxSize))
  {
    PurgeRemembers(order, accepted, maxSize, now, window);
    var kept := Purged(order, now, window);
    assert forall i :: 0 <= i < |kept| ==> accepted[|accepted| - |kept| + i] == kept[i];
    assert q < |accepted| - |kept|;
    assert Gone(accepted, q, Capacity(maxSize), now, window);
  }

  // The bound is tight.

  function InsertAll(order: seq<Entry>, maxSize: nat, arrivals: seq<Entry>, now: u64, window: u64): seq<Entry>
    decreases |arrivals|
  {
    if arrivals == [] then order
    else
      var n := |arrivals| - 1;
      Insert(InsertAll(order, maxSize, arrivals[..n], now, window), maxSize, arrivals[n], now, window).0
  }

  lemma PurgeNothing(order: seq<Entry>, now: u64, window: u64)
    requires forall i :: 0 <= i < |order| ==> !TooOld(order[i], now, window)
    ensures Purged(order, now, window) == order
  {
  }

  /** The last `n` arrivals, or all if there are fewer. */
  function Latest(arrivals: seq<Entry>, n: nat): seq<Entry> {
    if |arrivals| <= n then arrivals else arrivals[|arrivals| - n..]
  }

  lemma AdmitLatest(maxSize: nat, arrivals: seq<Entry>)
    requires NoDuplicates(arrivals) && arrivals != []
    ensures var k := |arrivals| - 1;
            Admit(Latest(arrivals[..k], Capacity(maxSize)), maxSize, arrivals[k]).0
                == Latest(arrivals, Capacity(maxSize))
  {
    var k := |arrivals| - 1;
    var before := Latest(arrivals[..k], Capacity(maxSize));
    assert before == arrivals[k - |before|..k];
    var room := MakeRoom(before, maxSize);
    assert room == arrivals[k - |room|..k];
    assert room + [arrivals[k]] == arrivals[k - |room|..];
  }

  lemma {:induction false} LatestKept(maxSize: nat, arrivals: seq<Entry>, now: u64, window: u64)
    requires NoDuplicates(arrivals) && forall i :: 0 <= i < |arrivals| ==> !TooOld(arrivals[i], now, window)
    ensures InsertAll([], maxSize, arrivals, now, window) == Latest(arrivals, Capacity(maxSize))
    decreases |arrivals|
  {
    if arrivals != [] {
      var k := |arrivals| - 1;
      LatestKept(maxSize, arrivals[..k], now, window);
      PurgeNothing(Latest(arrivals[..k], Capacity(maxSize)), now, window);
      AdmitLatest(maxSize, arrivals);
    }
  }

  /** One entry more than the capacity, and the first one is accepted again. */
  lemma CapacityIsTight(maxSize: nat, arrivals: seq<Entry>, now: u64, window: u64)
    requires NoDuplicates(arrivals) && |arrivals| == Capacity(maxSize) + 1
    requires forall i :: 0 <= i < |arrivals| ==> !TooOld(arrivals[i], now, window)
    ensures Insert(InsertAll([], maxSize, arrivals, now, window), maxSize, arrivals[0], now, window).1.Fresh?
  {
    LatestKept(maxSize, arrivals, now, window);
    PurgeNothing(arrivals[1..], now, window);
    assert arrivals[0] !in arrivals[1..];
  }

  /** An entry is too old once its timestamp is more than the window behind the clock. */
  lemma TooOldIff(entry: Entry, now: u64, window: u64)
    ensures TooOld(entry, now, window) <==> entry.timestamp + window < now
  {
  }

  /** Purging stops at the first entry in arrival order that is not too old. */
  lemma {:induction false} PurgedStops(order: seq<Entry>, now: u64, window: u64)
    ensures var kept := Purged(order, now, window);
            kept != [] ==> kept[0].timestamp + window >= now
  {
    if order != [] && TooOld(order[0], now, window) {
      PurgedStops(order[1..], now, window);
    }
  }
}
