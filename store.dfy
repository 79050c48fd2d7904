/** The sync-history table: one row per library file, keyed by its path,
    holding the fingerprint and size the file had when it was last pushed,
    when that was, and whether the push worked. The table is a map; an
    unreachable database is a run-wide flag under which every read finds
    nothing and every write is dropped, as the engine swallows those errors. */
module SyncStore {
  import opened Wrappers
  import opened Paths
  import opened Metadata

  /** `sync_status`: only these two values are ever written. */
  datatype Status = Synced | Failed

  datatype SyncRecord = SyncRecord(hash: Digest, size: nat, lastSynced: int, status: Status)

  type Store = map<Path, SyncRecord>

  /** `_get_sync_status`: the row for `p`, or nothing when there is none or
      the database cannot be read. */
  function Lookup(store: Store, storeOk: bool, p: Path): (r: Option<SyncRecord>)
    ensures r.Some? <==> storeOk && p in store
    ensures r.Some? ==> r.value == store[p]
  {
    if storeOk && p in store then Some(store[p]) else None
  }

  /** `_update_sync_status`: `INSERT OR REPLACE` of the row for `p`; nothing
      happens when the database cannot be written. */
  function Upsert(store: Store, storeOk: bool, p: Path, rec: SyncRecord): (r: Store)
    ensures storeOk ==> p in r && r[p] == rec
    ensures !storeOk ==> r == store
    ensures r.Keys == if storeOk then store.Keys + {p} else store.Keys
    ensures forall q :: q != p && q in store ==> q in r && r[q] == store[q]
  {
    if storeOk then store[p := rec] else store
  }

  /** After an upsert, reading the same path gives the new row back, and
      every other path reads as before. */
  lemma UpsertThenLookup(store: Store, storeOk: bool, p: Path, rec: SyncRecord, q: Path)
    ensures Lookup(Upsert(store, storeOk, p, rec), storeOk, q) == if storeOk && q == p then Some(rec) else Lookup(store, storeOk, q)
  {
  }

  /** Writing the same row twice is the same as writing it once. */
  lemma UpsertIdempotent(store: Store, storeOk: bool, p: Path, rec: SyncRecord)
    ensures Upsert(Upsert(store, storeOk, p, rec), storeOk, p, rec) == Upsert(store, storeOk, p, rec)
  {
  }

  /** The later of two writes to one path wins. */
  lemma UpsertLastWins(store: Store, storeOk: bool, p: Path, a: SyncRecord, b: SyncRecord)
    ensures Upsert(Upsert(store, storeOk, p, a), storeOk, p, b) == Upsert(store, storeOk, p, b)
  {
  }
}
