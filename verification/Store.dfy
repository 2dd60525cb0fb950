/** Durable channel-manager state (crates/channel-manager/src/store.rs): one flat
    key-value store that behaves as three independent maps. The hash is a
    parameter, assumed collision-free; each operation either happens or fails
    leaving the store as it was. */
module Store {
  import opened Prelude
  import opened Text
  import Statements

  /** A channel's owner: whose key signs for it and where to ask for approval. */
  datatype ChannelOwner = ChannelOwner(subject: string, callbackName: Option<string>)

  /** A consumed nonce is scoped by its channel. */
  type NonceId = (string, string)

  datatype StoreError = StoreError

  /** What the store means: owners, expiry times and consumed nonces. */
  datatype Disk = Disk(
    owners: map<string, ChannelOwner>,
    expires: map<string, u64>,
    nonces: map<NonceId, u64>)

  datatype Record =
    | OwnerRecord(channel: string, subject: string, callbackName: Option<string>)
    | ExpiryRecord(channel: string, expiresAt: u64)
    | NonceRecord(channel: string, nonce: string, notAfter: u64)

  type Kv = map<string, Record>

  /** The hexadecimal digest of some bytes. */
  type Hash = string -> string

  const OWNER_PREFIX := "owner:"
  const NONCE_PREFIX := "nonce:"
  const EXPIRY_PREFIX := "expiry:"

  function OwnerKey(hash: Hash, channel: string): string {
    OWNER_PREFIX + hash(channel)
  }

  function ExpiryKey(hash: Hash, channel: string): string {
    EXPIRY_PREFIX + hash(channel)
  }

  function NonceKey(hash: Hash, channel: string, nonce: string): string {
    NONCE_PREFIX + hash(channel + [Statements.NUL] + nonce)
  }

  function KeyOf(hash: Hash, record: Record): string {
    match record
    case OwnerRecord(channel, _, _) => OwnerKey(hash, channel)
    case ExpiryRecord(channel, _) => ExpiryKey(hash, channel)
    case NonceRecord(channel, nonce, _) => NonceKey(hash, channel, nonce)
  }

  function OwnerRecordOf(channel: string, owner: ChannelOwner): Record {
    OwnerRecord(channel, owner.subject, owner.callbackName)
  }

  ghost predicate CollisionFree(hash: Hash) {
    forall a, b :: hash(a) == hash(b) ==> a == b
  }

  predicate Holds(disk: Disk, record: Record) {
    match record
    case OwnerRecord(channel, subject, callbackName) =>
      channel in disk.owners && disk.owners[channel] == ChannelOwner(subject, callbackName)
    case ExpiryRecord(channel, expiresAt) =>
      channel in disk.expires && disk.expires[channel] == expiresAt
    case NonceRecord(channel, nonce, notAfter) =>
      (channel, nonce) in disk.nonces && disk.nonces[(channel, nonce)] == notAfter
  }

  predicate ScopedNonces(disk: Disk) {
    forall id :: id in disk.nonces ==> Statements.NUL !in id.0
  }

  /** The flat store holds exactly the records of the three maps, each under its key. */
  ghost predicate Represents(hash: Hash, kv: Kv, disk: Disk) {
    && ScopedNonces(disk)
    && (forall k :: k in kv ==> k == KeyOf(hash, kv[k]) && Holds(disk, kv[k]))
    && (forall record :: Holds(disk, record) ==> KeyOf(hash, record) in kv && kv[KeyOf(hash, record)] == record)
  }

  /** Which record a record stands beside or replaces: its kind and what it describes. */
  datatype Slot = OwnerSlot(channel: string) | ExpirySlot(channel: string) | NonceSlot(channel: string, nonce: string)

  function SlotOf(record: Record): Slot {
    match record
    case OwnerRecord(channel, _, _) => OwnerSlot(channel)
    case ExpiryRecord(channel, _) => ExpirySlot(channel)
    case NonceRecord(channel, nonce, _) => NonceSlot(channel, nonce)
  }

  predicate Scoped(record: Record) {
    record.NonceRecord? ==> Statements.NUL !in record.channel
  }

  /** The channel and nonce of a nonce key can be told apart when the channel has no NUL. */
  lemma NonceTextInjective(c1: string, n1: string, c2: string, n2: string)
    requires Statements.NUL !in c1 && Statements.NUL !in c2
    requires c1 + [Statements.NUL] + n1 == c2 + [Statements.NUL] + n2
    ensures c1 == c2 && n1 == n2
  {
    var s1, s2 := c1 + [Statements.NUL] + n1, c2 + [Statements.NUL] + n2;
    FirstPart(c1, [n1], Statements.NUL);
    FirstPart(c2, [n2], Statements.NUL);
    assert s1 == Join([c1] + [n1], Statements.NUL) && s2 == Join([c2] + [n2], Statements.NUL);
    assert n1 == s1[|c1| + 1..] && n2 == s2[|c2| + 1..];
  }

  lemma PrefixedInjective(prefix: string, a: string, b: string)
    requires prefix + a == prefix + b
    ensures a == b
  {
    assert (prefix + a)[|prefix|..] == a && (prefix + b)[|prefix|..] == b;
  }

  /** No two slots share a key. */
  lemma KeysDistinct(hash: Hash, a: Record, b: Record)
    requires CollisionFree(hash) && Scoped(a) && Scoped(b)
    requires KeyOf(hash, a) == KeyOf(hash, b)
    ensures SlotOf(a) == SlotOf(b)
  {
    assert KeyOf(hash, a)[0] == KeyOf(hash, b)[0];
    match a
    case OwnerRecord(channel, _, _) =>
      PrefixedInjective(OWNER_PREFIX, hash(channel), hash(b.channel));
    case ExpiryRecord(channel, _) =>
      PrefixedInjective(EXPIRY_PREFIX, hash(channel), hash(b.channel));
    case NonceRecord(channel, nonce, _) =>
      var textA, textB := channel + [Statements.NUL] + nonce, b.channel + [Statements.NUL] + b.nonce;
      PrefixedInjective(NONCE_PREFIX, hash(textA), hash(textB));
      NonceTextInjective(channel, nonce, b.channel, b.nonce);
  }

  /** The three maps after writing one record. */
  function Written(disk: Disk, record: Record): Disk {
    match record
    case OwnerRecord(channel, subject, callbackName) =>
      disk.(owners := disk.owners[channel := ChannelOwner(subject, callbackName)])
    case ExpiryRecord(channel, expiresAt) =>
      disk.(expires := disk.expires[channel := expiresAt])
    case NonceRecord(channel, nonce, notAfter) =>
      disk.(nonces := disk.nonces[(channel, nonce) := notAfter])
  }

  /** The three maps after erasing what a record's slot holds. */
  function Erased(disk: Disk, slot: Slot): Disk {
    match slot
    case OwnerSlot(channel) => disk.(owners := disk.owners - {channel})
    case ExpirySlot(channel) => disk.(expires := disk.expires - {channel})
    case NonceSlot(channel, nonce) => disk.(nonces := disk.nonces - {(channel, nonce)})
  }

  lemma HoldsWritten(disk: Disk, record: Record, other: Record)
    ensures Holds(Written(disk, record), other)
        <==> other == record || (Holds(disk, other) && SlotOf(other) != SlotOf(record))
  {
  }

  lemma HoldsErased(disk: Disk, slot: Slot, other: Record)
    ensures Holds(Erased(disk, slot), other) <==> Holds(disk, other) && SlotOf(other) != slot
  {
  }

  lemma HeldIsScoped(disk: Disk, record: Record)
    requires ScopedNonces(disk) && Holds(disk, record)
    ensures Scoped(record)
  {
    if record.NonceRecord? {
      assert (record.channel, record.nonce) in disk.nonces;
    }
  }

  /** Writing one record changes its own map at its own key and nothing else. */
  lemma WriteRefines(hash: Hash, kv: Kv, disk: Disk, record: Record)
    requires CollisionFree(hash) && Represents(hash, kv, disk) && Scoped(record)
    ensures Represents(hash, kv[KeyOf(hash, record) := record], Written(disk, record))
  {
    var key := KeyOf(hash, record);
    var kv', disk' := kv[key := record], Written(disk, record);
    forall k | k in kv' ensures k == KeyOf(hash, kv'[k]) && Holds(disk', kv'[k]) {
      HoldsWritten(disk, record, kv'[k]);
      if k != key {
        KeyDeterminedUnless(hash, kv[k], record);
      }
    }
    forall other | Holds(disk', other) ensures KeyOf(hash, other) in kv' && kv'[KeyOf(hash, other)] == other {
      HoldsWritten(disk, record, other);
      if other != record {
        HeldIsScoped(disk, other);
        KeysDistinctUnless(hash, other, record);
      }
    }
  }

  lemma KeyDeterminedUnless(hash: Hash, a: Record, b: Record)
    ensures KeyOf(hash, a) != KeyOf(hash, b) ==> SlotOf(a) != SlotOf(b)
  {
  }

  lemma KeysDistinctUnless(hash: Hash, a: Record, b: Record)
    requires CollisionFree(hash) && Scoped(a) && Scoped(b)
    ensures SlotOf(a) != SlotOf(b) ==> KeyOf(hash, a) != KeyOf(hash, b)
  {
    if KeyOf(hash, a) == KeyOf(hash, b) {
      KeysDistinct(hash, a, b);
    }
  }

  /** Erasing one record changes its own map at its own key and nothing else. */
  lemma EraseRefines(hash: Hash, kv: Kv, disk: Disk, record: Record)
    requires CollisionFree(hash) && Represents(hash, kv, disk) && Scoped(record)
    ensures Represents(hash, kv - {KeyOf(hash, record)}, Erased(disk, SlotOf(record)))
  {
    var key := KeyOf(hash, record);
    var kv', disk' := kv - {key}, Erased(disk, SlotOf(record));
    forall k | k in kv' ensures k == KeyOf(hash, kv'[k]) && Holds(disk', kv'[k]) {
      HoldsErased(disk, SlotOf(record), kv[k]);
      KeyDeterminedUnless(hash, kv[k], record);
    }
    forall other | Holds(disk', other) ensures KeyOf(hash, other) in kv' && kv'[KeyOf(hash, other)] == other {
      HoldsErased(disk, SlotOf(record), other);
      HeldIsScoped(disk, other);
      KeysDistinctUnless(hash, other, record);
    }
  }

  /** A flat store means one thing only. */
  lemma RepresentsOne(hash: Hash, kv: Kv, a: Disk, b: Disk)
    requires Represents(hash, kv, a) && Represents(hash, kv, b)
    ensures a == b
  {
    SameHeld(hash, kv, a, b);
    SameHeld(hash, kv, b, a);
    assert a.owners == b.owners;
    assert a.expires == b.expires;
    assert a.nonces == b.nonces;
  }

  lemma SameHeld(hash: Hash, kv: Kv, a: Disk, b: Disk)
    requires Represents(hash, kv, a) && Represents(hash, kv, b)
    ensures forall c :: c in a.owners ==> c in b.owners && b.owners[c] == a.owners[c]
    ensures forall c :: c in a.expires ==> c in b.expires && b.expires[c] == a.expires[c]
    ensures forall id :: id in a.nonces ==> id in b.nonces && b.nonces[id] == a.nonces[id]
  {
    forall c | c in a.owners ensures c in b.owners && b.owners[c] == a.owners[c] {
      assert Holds(a, OwnerRecordOf(c, a.owners[c]));
      assert Holds(b, OwnerRecordOf(c, a.owners[c]));
    }
    forall c | c in a.expires ensures c in b.expires && b.expires[c] == a.expires[c] {
      assert Holds(a, ExpiryRecord(c, a.expires[c]));
      assert Holds(b, ExpiryRecord(c, a.expires[c]));
    }
    forall id | id in a.nonces ensures id in b.nonces && b.nonces[id] == a.nonces[id] {
      assert Holds(a, NonceRecord(id.0, id.1, a.nonces[id]));
      assert Holds(b, NonceRecord(id.0, id.1, a.nonces[id]));
    }
  }

  /** Records under a prefix are those of its kind. */
  lemma PrefixSelects(hash: Hash, record: Record)
    ensures OWNER_PREFIX <= KeyOf(hash, record) <==> record.OwnerRecord?
    ensures EXPIRY_PREFIX <= KeyOf(hash, record) <==> record.ExpiryRecord?
    ensures NONCE_PREFIX <= KeyOf(hash, record) <==> record.NonceRecord?
  {
    var key := KeyOf(hash, record);
    assert key[0] == match record
                     case OwnerRecord(_, _, _) => 'o'
                     case ExpiryRecord(_, _) => 'e'
                     case NonceRecord(_, _, _) => 'n';
  }

  /** At most one record per slot. */
  predicate OnePerSlot(records: set<Record>) {
    forall a, b :: a in records && b in records && SlotOf(a) == SlotOf(b) ==> a == b
  }

  function OwnersIn(records: set<Record>): map<string, ChannelOwner>
    requires OnePerSlot(records)
  {
    map record | record in records && record.OwnerRecord? ::
      record.channel := ChannelOwner(record.subject, record.callbackName)
  }

  function ExpiriesIn(records: set<Record>): map<string, u64>
    requires OnePerSlot(records)
  {
    map record | record in records && record.ExpiryRecord? :: record.channel := record.expiresAt
  }

  function NoncesIn(records: set<Record>): map<NonceId, u64>
    requires OnePerSlot(records)
  {
    map record | record in records && record.NonceRecord? :: (record.channel, record.nonce) := record.notAfter
  }

  lemma HeldOnePerSlot(disk: Disk, a: Record, b: Record)
    requires Holds(disk, a) && Holds(disk, b) && SlotOf(a) == SlotOf(b)
    ensures a == b
  {
  }

  /** Decoding the records under a prefix gives back that map. */
  lemma RecordsMean(disk: Disk, records: set<Record>)
    requires forall record :: record in records ==> Holds(disk, record)
    ensures OnePerSlot(records)
    ensures (forall record :: Holds(disk, record) && record.OwnerRecord? ==> record in records) ==>
              OwnersIn(records) == disk.owners
    ensures (forall record :: Holds(disk, record) && record.ExpiryRecord? ==> record in records) ==>
              ExpiriesIn(records) == disk.expires
    ensures (forall record :: Holds(disk, record) && record.NonceRecord? ==> record in records) ==>
              NoncesIn(records) == disk.nonces
  {
    forall a, b | a in records && b in records && SlotOf(a) == SlotOf(b) ensures a == b {
      HeldOnePerSlot(disk, a, b);
    }
    if forall record :: Holds(disk, record) && record.OwnerRecord? ==> record in records {
      OwnersMean(disk, records);
    }
    if forall record :: Holds(disk, record) && record.ExpiryRecord? ==> record in records {
      ExpiriesMean(disk, records);
    }
    if forall record :: Holds(disk, record) && record.NonceRecord? ==> record in records {
      NoncesMean(disk, records);
    }
  }

  lemma OwnersMean(disk: Disk, records: set<Record>)
    requires OnePerSlot(records) && forall record :: record in records ==> Holds(disk, record)
    requires forall record :: Holds(disk, record) && record.OwnerRecord? ==> record in records
    ensures OwnersIn(records) == disk.owners
  {
    forall c | c in disk.owners ensures c in OwnersIn(records) {
      assert OwnerRecordOf(c, disk.owners[c]) in records;
    }
  }

  lemma ExpiriesMean(disk: Disk, records: set<Record>)
    requires OnePerSlot(records) && forall record :: record in records ==> Holds(disk, record)
    requires forall record :: Holds(disk, record) && record.ExpiryRecord? ==> record in records
    ensures ExpiriesIn(records) == disk.expires
  {
    forall c | c in disk.expires ensures c in ExpiriesIn(records) {
      assert ExpiryRecord(c, disk.expires[c]) in records;
    }
  }

  lemma NoncesMean(disk: Disk, records: set<Record>)
    requires OnePerSlot(records) && forall record :: record in records ==> Holds(disk, record)
    requires forall record :: Holds(disk, record) && record.NonceRecord? ==> record in records
    ensures NoncesIn(records) == disk.nonces
  {
    forall id | id in disk.nonces ensures id in NoncesIn(records) {
      assert NonceRecord(id.0, id.1, disk.nonces[id]) in records;
    }
  }

  /** The records under the keys in `keep`. */
  function Restrict<K, V>(records: map<K, V>, keep: set<K>): map<K, V> {
    map key | key in records && key in keep :: records[key]
  }

  /** What loading has kept in memory with `pending` still to look at. */
  function KeptBut<K, V>(records: map<K, V>, keep: set<K>, pending: set<K>): map<K, V> {
    Restrict(records, keep) - pending
  }

  /** What loading has left in the store with `pending` still to look at. */
  function LeftBut<K, V>(records: map<K, V>, keep: set<K>, pending: set<K>): map<K, V> {
    records - (records.Keys - keep - pending)
  }

  lemma LoadStep<K, V>(records: map<K, V>, keep: set<K>, pending: set<K>, key: K)
    requires key in pending && pending <= records.Keys
    ensures key in LeftBut(records, keep, pending) && LeftBut(records, keep, pending)[key] == records[key]
    ensures key in keep ==>
              && KeptBut(records, keep, pending - {key}) == KeptBut(records, keep, pending)[key := records[key]]
              && LeftBut(records, keep, pending - {key}) == LeftBut(records, keep, pending)
    ensures key !in keep ==>
              && KeptBut(records, keep, pending - {key}) == KeptBut(records, keep, pending)
              && LeftBut(records, keep, pending - {key}) == LeftBut(records, keep, pending) - {key}
  {
  }

  lemma LoadEnds<K, V>(records: map<K, V>, keep: set<K>, pending: set<K>)
    ensures Restrict(LeftBut(records, keep, pending), keep) == Restrict(records, keep)
    ensures KeptBut(records, keep, {}) == LeftBut(records, keep, {}) == Restrict(records, keep)
    ensures KeptBut(records, keep, records.Keys) == map[] && LeftBut(records, keep, records.Keys) == records
  {
  }

  /** The store: `disk` is what `kv` means. */
  class StateStore {
    const hash: Hash
    var kv: Kv
    ghost var disk: Disk

    ghost predicate Valid()
      reads this
    {
      CollisionFree(hash) && Represents(hash, kv, disk)
    }

    constructor (hash: Hash)
      requires CollisionFree(hash)
      ensures Valid() && disk == Disk(map[], map[], map[])
    {
      this.hash := hash;
      kv := map[];
      disk := Disk(map[], map[], map[]);
    }

    method Put(record: Record, fails: bool) returns (r: Result<(), StoreError>)
      requires Valid() && Scoped(record)
      modifies this
      ensures Valid()
      ensures r == if fails then Err(StoreError) else Ok(())
      ensures disk == if fails then old(disk) else Written(old(disk), record)
    {
      if fails {
        return Err(StoreError);
      }
      WriteRefines(hash, kv, disk, record);
      kv := kv[KeyOf(hash, record) := record];
      disk := Written(disk, record);
      return Ok(());
    }

    /** Deletes what is stored under `record`'s key. */
    method Delete(record: Record, fails: bool) returns (r: Result<(), StoreError>)
      requires Valid() && Scoped(record)
      modifies this
      ensures Valid()
      ensures r == if fails then Err(StoreError) else Ok(())
      ensures disk == if fails then old(disk) else Erased(old(disk), SlotOf(record))
    {
      if fails {
        return Err(StoreError);
      }
      EraseRefines(hash, kv, disk, record);
      kv := kv - {KeyOf(hash, record)};
      disk := Erased(disk, SlotOf(record));
      return Ok(());
    }

    method PutOwner(channel: string, owner: ChannelOwner, fails: bool) returns (r: Result<(), StoreError>)
      requires Valid()
      modifies this
      ensures Valid()
      ensures r == if fails then Err(StoreError) else Ok(())
      ensures disk == if fails then old(disk) else old(disk).(owners := old(disk).owners[channel := owner])
    {
      r := Put(OwnerRecordOf(channel, owner), fails);
    }

    method DeleteOwner(channel: string, fails: bool) returns (r: Result<(), StoreError>)
      requires Valid()
      modifies this
      ensures Valid()
      ensures r == if fails then Err(StoreError) else Ok(())
      ensures disk == if fails then old(disk) else old(disk).(owners := old(disk).owners - {channel})
    {
      r := Delete(OwnerRecord(channel, "", None), fails);
    }

    method PutExpiry(channel: string, expiresAt: u64, fails: bool) returns (r: Result<(), StoreError>)
      requires Valid()
      modifies this
      ensures Valid()
      ensures r == if fails then Err(StoreError) else Ok(())
      ensures disk == if fails then old(disk) else old(disk).(expires := old(disk).expires[channel := expiresAt])
    {
      r := Put(ExpiryRecord(channel, expiresAt), fails);
    }

    method DeleteExpiry(channel: string, fails: bool) returns (r: Result<(), StoreError>)
      requires Valid()
      modifies this
      ensures Valid()
      ensures r == if fails then Err(StoreError) else Ok(())
      ensures disk == if fails then old(disk) else old(disk).(expires := old(disk).expires - {channel})
    {
      r := Delete(ExpiryRecord(channel, 0), fails);
    }

    method PutNonce(id: NonceId, notAfter: u64, fails: bool) returns (r: Result<(), StoreError>)
      requires Valid() && Statements.NUL !in id.0
      modifies this
      ensures Valid()
      ensures r == if fails then Err(StoreError) else Ok(())
      ensures disk == if fails then old(disk) else old(disk).(nonces := old(disk).nonces[id := notAfter])
    {
      r := Put(NonceRecord(id.0, id.1, notAfter), fails);
    }

    method DeleteNonce(id: NonceId, fails: bool) returns (r: Result<(), StoreError>)
      requires Valid() && Statements.NUL !in id.0
      modifies this
      ensures Valid()
      ensures r == if fails then Err(StoreError) else Ok(())
      ensures disk == if fails then old(disk) else old(disk).(nonces := old(disk).nonces - {id})
    {
      r := Delete(NonceRecord(id.0, id.1, 0), fails);
    }

    /** The records whose key starts with `prefix`. */
    method ListPrefix(prefix: string) returns (records: set<Record>)
      requires Valid()
      ensures forall record :: record in records <==> Holds(disk, record) && prefix <= KeyOf(hash, record)
    {
      records := {};
      var keys := kv.Keys;
      while keys != {}
        invariant keys <= kv.Keys
        invariant forall record :: record in records <==>
            Holds(disk, record) && prefix <= KeyOf(hash, record) && KeyOf(hash, record) !in keys
        decreases |keys|
      {
        var k :| k in keys;
        keys := keys - {k};
        if prefix <= k {
          records := records + {kv[k]};
        }
      }
    }

    /** `load_owners`: every stored owner by channel, in no particular order. */
    method LoadOwners(fails: bool) returns (r: Result<map<string, ChannelOwner>, StoreError>)
      requires Valid()
      ensures r == if fails then Err(StoreError) else Ok(disk.owners)
    {
      if fails {
        return Err(StoreError);
      }
      var records := ListPrefix(OWNER_PREFIX);
      forall record ensures OWNER_PREFIX <= KeyOf(hash, record) <==> record.OwnerRecord? {
        PrefixSelects(hash, record);
      }
      RecordsMean(disk, records);
      return Ok(OwnersIn(records));
    }

    /** `load_expiries`: every stored expiry time by channel, in no particular order. */
    method LoadExpiries(fails: bool) returns (r: Result<map<string, u64>, StoreError>)
      requires Valid()
      ensures r == if fails then Err(StoreError) else Ok(disk.expires)
    {
      if fails {
        return Err(StoreError);
      }
      var records := ListPrefix(EXPIRY_PREFIX);
      forall record ensures EXPIRY_PREFIX <= KeyOf(hash, record) <==> record.ExpiryRecord? {
        PrefixSelects(hash, record);
      }
      RecordsMean(disk, records);
      return Ok(ExpiriesIn(records));
    }

    /** `load_nonces`: every consumed nonce, in no particular order. */
    method LoadNonces(fails: bool) returns (r: Result<map<NonceId, u64>, StoreError>)
      requires Valid()
      ensures r == if fails then Err(StoreError) else Ok(disk.nonces)
    {
      if fails {
        return Err(StoreError);
      }
      var records := ListPrefix(NONCE_PREFIX);
      forall record ensures NONCE_PREFIX <= KeyOf(hash, record) <==> record.NonceRecord? {
        PrefixSelects(hash, record);
      }
      RecordsMean(disk, records);
      return Ok(NoncesIn(records));
    }
  }
}
