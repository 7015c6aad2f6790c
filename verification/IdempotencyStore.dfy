/** The Redis entries behind the protocol: records and locks share one keyspace under one prefix. */
module IdempotencyStore {
  import opened Results
  import opened Clock
  import opened Redis
  import opened IdempotencyProtocol

  const PREFIX: string := "idempotency:"
  const LOCK: string := "lock:"

  /** What an entry holds: a record as JSON, or the text LOCKED. */
  datatype Stored = RecordJson(record: Record) | LockedText

  /** JSON.parse throws on the text LOCKED. */
  datatype StoreError = NotJson

  type Db = Keyspace<string, Stored>

  function RecordKey(key: StorageKey): (entry: string)
    ensures entry == "idempotency:" + key
  {
    PREFIX + key
  }

  function LockKey(key: StorageKey): (entry: string)
    ensures entry == "idempotency:lock:" + key
  {
    PREFIX + LOCK + key
  }

  /** A storage key whose record cannot be taken for another key's lock. */
  predicate Plain(key: StorageKey) {
    !(LOCK <= key)
  }

  /** What `get` returns on a keyspace. */
  function Read(db: Db, key: StorageKey): Result<Option<Record>, StoreError> {
    match db.Lookup(RecordKey(key))
    case None => Ok(None)
    case Some(RecordJson(record)) => Ok(Some(record))
    case Some(LockedText) => Err(NotJson)
  }

  lemma KeysInjective(a: StorageKey, b: StorageKey)
    ensures RecordKey(a) == RecordKey(b) ==> a == b
    ensures LockKey(a) == LockKey(b) ==> a == b
  {
    assert a == RecordKey(a)[|PREFIX|..] && b == RecordKey(b)[|PREFIX|..];
    assert a == LockKey(a)[|PREFIX + LOCK|..] && b == LockKey(b)[|PREFIX + LOCK|..];
  }

  /** The record entry of one key is the lock entry of another exactly in one case. */
  lemma KeysCollideIff(a: StorageKey, b: StorageKey)
    ensures RecordKey(a) == LockKey(b) <==> a == "lock:" + b
  {
    assert LockKey(b) == PREFIX + (LOCK + b);
    assert a == RecordKey(a)[|PREFIX|..];
    assert LOCK + b == LockKey(b)[|PREFIX|..];
  }

  /**
   Without that condition the two kinds of entry interfere: while a record is live under
   `LOCK + key`, nobody gets the lock of `key`, and removing that lock removes the record.
   */
  lemma CollidingRecordActsAsLock(db: Db, key: StorageKey, record: Record)
    ensures var db' := db.SetEx(RecordKey(LOCK + key), RECORD_TTL, RecordJson(record));
            && db'.SetNxEx(LockKey(key), LOCK_TTL, LockedText) == db'
            && Read(db', LOCK + key) == Ok(Some(record))
            && Read(db'.Del(LockKey(key)), LOCK + key) == Ok(None)
  {
    KeysCollideIff(LOCK + key, key);
  }

  class IdempotencyStore {
    const redis: Server<string, Stored>

    constructor (redis: Server<string, Stored>)
      ensures this.redis == redis
    {
      this.redis := redis;
    }

    method Get(key: StorageKey) returns (found: Result<Option<Record>, StoreError>)
      ensures found == Read(redis.View(), key)
      ensures redis.View().Lookup("idempotency:" + key) == None ==> found == Ok(None)
      ensures forall record :: redis.View().Lookup("idempotency:" + key) == Some(RecordJson(record)) ==> found == Ok(Some(record))
    {
      var data := redis.Get(RecordKey(key));
      match data
      case None => found := Ok(None);
      case Some(RecordJson(record)) => found := Ok(Some(record));
      case Some(LockedText) => found := Err(NotJson);
    }

    method Set(key: StorageKey, record: Record)
      modifies redis
      ensures redis.View() == old(redis.View()).SetEx("idempotency:" + key, 86_400_000, RecordJson(record))
    {
      redis.SetEx(RecordKey(key), RECORD_TTL, RecordJson(record));
    }

    method Lock(key: StorageKey) returns (acquired: bool)
      modifies redis
      ensures acquired <==> old(redis.View()).Lookup("idempotency:lock:" + key).None?
      ensures redis.View() == old(redis.View()).SetNxEx("idempotency:lock:" + key, 30_000, LockedText)
    {
      acquired := redis.SetNxEx(LockKey(key), LOCK_TTL, LockedText);
    }

    method Unlock(key: StorageKey)
      modifies redis
      ensures redis.View() == old(redis.View()).Del("idempotency:lock:" + key)
    {
      redis.Del(LockKey(key));
    }
  }
}
