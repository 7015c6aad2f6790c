/**
 The middleware as an object: each method is the code one request runs between two awaits,
 acting on the shared store. `Process` is the state those methods move, and the last part
 shows that the protocol describes every run of it.
 */
module IdempotencyMiddleware {
  import opened Results
  import opened Clock
  import opened Redis
  import opened IdempotencyProtocol
  import opened IdempotencyStore

  /** A command the replaced res.json issued without waiting for it. */
  datatype Command = SetCommand(record: Record) | UnlockCommand

  datatype Stage =
    | AtGet
    | AtLock
    | InHandler                            // res.json is replaced
    | Flushing(outbox: seq<Command>)       // answered; the commands still to take effect, in order
    | EndedWithSend
    | RepliedFromStore(record: Record)
    | Conflict                             // 409
    | FailOpen                             // next() from the catch branch, res.json untouched

  datatype Call = Call(key: StorageKey, stage: Stage)

  datatype Process = Process(db: Db, calls: map<RequestId, Call>) {
    function At(r: RequestId, stage: Stage): Process
      requires r in calls
    {
      this.(calls := calls[r := calls[r].(stage := stage)])
    }
  }

  predicate AtStage(p: Process, r: RequestId, stage: Stage) {
    r in p.calls && p.calls[r].stage == stage
  }

  predicate Flushes(p: Process, r: RequestId, isSet: bool) {
    && r in p.calls && p.calls[r].stage.Flushing?
    && var outbox := p.calls[r].stage.outbox;
    |outbox| > 0 && outbox[0].SetCommand? == isSet
  }

  predicate ProcessEnabled(p: Process, e: Event) {
    match e
    case Arrive(r, _) => r !in p.calls
    case Get(r) => AtStage(p, r, AtGet)
    case GetFails(r) => AtStage(p, r, AtGet)
    case TryLock(r) => AtStage(p, r, AtLock)
    case LockFails(r, _) => AtStage(p, r, AtLock)
    case AnswerJson(r, _) => AtStage(p, r, InHandler)
    case AnswerSend(r) => AtStage(p, r, InHandler)
    case Set(r) => Flushes(p, r, true)
    case SetLost(r) => Flushes(p, r, true)
    case Unlock(r) => Flushes(p, r, false)
    case UnlockLost(r) => Flushes(p, r, false)
    case Tick(_) => true
  }

  function ProcessNext(p: Process, e: Event): Process
    requires ProcessEnabled(p, e)
  {
    match e
    case Arrive(r, key) => p.(calls := p.calls[r := Call(key, AtGet)])
    case Get(r) =>
      (match Read(p.db, p.calls[r].key)
       case Ok(Some(record)) => p.At(r, RepliedFromStore(record))
       case Ok(None) => p.At(r, AtLock)
       case Err(_) => p.At(r, FailOpen))
    case GetFails(r) => p.At(r, FailOpen)
    case TryLock(r) =>
      var lock := LockKey(p.calls[r].key);
      p.(db := p.db.SetNxEx(lock, LOCK_TTL, LockedText))
       .At(r, if p.db.Lookup(lock).None? then InHandler else Conflict)
    case LockFails(r, applied) =>
      p.(db := if applied then p.db.SetNxEx(LockKey(p.calls[r].key), LOCK_TTL, LockedText) else p.db).At(r, FailOpen)
    case AnswerJson(r, record) => p.At(r, Flushing([SetCommand(record), UnlockCommand]))
    case AnswerSend(r) => p.At(r, EndedWithSend)
    case Set(r) =>
      var outbox := p.calls[r].stage.outbox;
      p.(db := p.db.SetEx(RecordKey(p.calls[r].key), RECORD_TTL, RecordJson(outbox[0].record)))
       .At(r, Flushing(outbox[1..]))
    case SetLost(r) => p.At(r, Flushing(p.calls[r].stage.outbox[1..]))
    case Unlock(r) =>
      p.(db := p.db.Del(LockKey(p.calls[r].key))).At(r, Flushing(p.calls[r].stage.outbox[1..]))
    case UnlockLost(r) => p.At(r, Flushing(p.calls[r].stage.outbox[1..]))
    case Tick(elapsed) => p.(db := p.db.Advance(elapsed))
  }

  /** Only mutation methods with a non-empty key are handled. */
  predicate Applies(httpMethod: string, header: Option<string>) {
    httpMethod in {"POST", "PATCH", "DELETE"} && header.Some? && header.value != ""
  }

  function StorageKeyOf(header: string, fingerprint: string): StorageKey {
    header + ":" + fingerprint
  }

  /** What a request does to the process when it comes in. */
  function Arrival(r: RequestId, httpMethod: string, header: Option<string>, fingerprint: string): Option<Event> {
    if Applies(httpMethod, header) then Some(Arrive(r, StorageKeyOf(header.value, fingerprint))) else None
  }

  class Middleware {
    const store: IdempotencyStore
    var calls: map<RequestId, Call>

    constructor (redis: Server<string, Stored>)
      ensures store.redis == redis && fresh(store) && calls == map[]
    {
      store := new IdempotencyStore(redis);
      calls := map[];
    }

    function View(): Process
      reads this, store.redis
    {
      Process(store.redis.View(), calls)
    }

    /** Up to the first await; `fingerprint` is the digest of body, path and request id. */
    method Receive(r: RequestId, httpMethod: string, header: Option<string>, fingerprint: string)
      returns (intercepted: bool)
      requires r !in calls
      modifies this
      ensures intercepted <==>
                (httpMethod == "POST" || httpMethod == "PATCH" || httpMethod == "DELETE") && header.Some? && |header.value| > 0
      ensures intercepted ==> View() == ProcessNext(old(View()), Arrive(r, header.value + ":" + fingerprint))
      ensures !intercepted ==> View() == old(View())
      ensures var arrival := Arrival(r, httpMethod, header, fingerprint);
              intercepted == arrival.Some? && (intercepted ==> View() == ProcessNext(old(View()), arrival.value))
    {
      if httpMethod !in {"POST", "PATCH", "DELETE"} {
        return false;
      }
      if header.None? || header.value == "" {
        return false;
      }
      calls := calls[r := Call(header.value + ":" + fingerprint, AtGet)];
      intercepted := true;
    }

    /** From the `get` to the next await; a stored record ends the request. */
    method AfterGet(r: RequestId)
      requires AtStage(View(), r, AtGet)
      modifies this
      ensures View() == ProcessNext(old(View()), Get(r))
    {
      var existing := store.Get(calls[r].key);
      match existing
      case Ok(Some(record)) => calls := calls[r := calls[r].(stage := RepliedFromStore(record))];
      case Ok(None) => calls := calls[r := calls[r].(stage := AtLock)];
      case Err(_) => calls := calls[r := calls[r].(stage := FailOpen)];
    }

    /** From the `lock` into the handler, or to a 409. */
    method AfterLock(r: RequestId)
      requires AtStage(View(), r, AtLock)
      modifies this, store.redis
      ensures View() == ProcessNext(old(View()), TryLock(r))
    {
      var acquired := store.Lock(calls[r].key);
      calls := calls[r := calls[r].(stage := if acquired then InHandler else Conflict)];
    }

    /** A rejected `get` or `lock` lands in the catch branch; a rejected `lock` may have reached Redis all the same. */
    method Catch(r: RequestId, applied: bool)
      requires AtStage(View(), r, AtGet) || AtStage(View(), r, AtLock)
      modifies this, store.redis
      ensures View() ==
              ProcessNext(old(View()), if old(calls[r].stage).AtGet? then GetFails(r) else LockFails(r, applied))
    {
      if calls[r].stage.AtLock? && applied {
        var _ := store.Lock(calls[r].key);
      }
      calls := calls[r := calls[r].(stage := FailOpen)];
    }

    /** The replaced res.json: issue `set`, then `unlock`, wait for neither, and answer. */
    method Json(r: RequestId, record: Record)
      requires AtStage(View(), r, InHandler)
      modifies this
      ensures View() == ProcessNext(old(View()), AnswerJson(r, record))
    {
      var outbox := [SetCommand(record)];
      outbox := outbox + [UnlockCommand];
      assert outbox == [SetCommand(record), UnlockCommand];
      calls := calls[r := calls[r].(stage := Flushing(outbox))];
    }

    method Send(r: RequestId)
      requires AtStage(View(), r, InHandler)
      modifies this
      ensures View() == ProcessNext(old(View()), AnswerSend(r))
    {
      calls := calls[r := calls[r].(stage := EndedWithSend)];
    }

    /** The connection delivers, or loses, the oldest command of an answered request. */
    method Deliver(r: RequestId, lost: bool)
      requires r in calls && calls[r].stage.Flushing? && calls[r].stage.outbox != []
      modifies this, store.redis
      ensures View() == ProcessNext(old(View()),
                          if old(calls[r].stage.outbox[0]).SetCommand? then (if lost then SetLost(r) else Set(r))
                          else if lost then UnlockLost(r) else Unlock(r))
    {
      var outbox := calls[r].stage.outbox;
      if !lost {
        match outbox[0] {
          case SetCommand(record) => store.Set(calls[r].key, record);
          case UnlockCommand => store.Unlock(calls[r].key);
        }
      }
      calls := calls[r := calls[r].(stage := Flushing(outbox[1..]))];
    }
  }

  /* ---- The protocol describes the object ---- */

  function StageOf(phase: Phase): Stage {
    match phase
    case AwaitingGet => AtGet
    case AwaitingLock => AtLock
    case Running => InHandler
    case Recording(record) => Flushing([SetCommand(record), UnlockCommand])
    case Unlocking => Flushing([UnlockCommand])
    case Answered => Flushing([])
    case Sent => EndedWithSend
    case Replayed(record, _) => RepliedFromStore(record)
    case Refused => Conflict
    case Unprotected => FailOpen
  }

  ghost predicate CallsMatch(p: Process, s: System, keys: set<StorageKey>) {
    && p.calls.Keys == s.requests.Keys
    && (forall r | r in s.requests ::
          s.requests[r].key in keys && p.calls[r] == Call(s.requests[r].key, StageOf(s.requests[r].phase)))
  }

  predicate LockMatches(db: Db, s: System, key: StorageKey) {
    if key in s.locks then
      LockKey(key) in db.entries && db.entries[LockKey(key)] == Entry(LockedText, s.locks[key].expiresAt)
    else
      LockKey(key) !in db.entries
  }

  predicate RecordMatches(db: Db, s: System, key: StorageKey) {
    if key in s.records then
      && RecordKey(key) in db.entries
      && db.entries[RecordKey(key)] == Entry(RecordJson(s.records[key].record), s.records[key].expiresAt)
    else
      RecordKey(key) !in db.entries
  }

  /** The process and the protocol agree on every key in use. */
  ghost predicate Represents(p: Process, s: System, keys: set<StorageKey>) {
    && p.db.now == s.now
    && CallsMatch(p, s, keys)
    && (forall key | key in keys :: LockMatches(p.db, s, key))
    && (forall key | key in keys :: RecordMatches(p.db, s, key))
  }

  predicate ArrivesIn(e: Event, keys: set<StorageKey>) {
    e.Arrive? ==> e.key in keys
  }

  /** No key in use has its record where another one has its lock. */
  predicate Apart(keys: set<StorageKey>) {
    forall a, b | a in keys && b in keys :: RecordKey(a) != LockKey(b)
  }

  lemma EnabledAlike(p: Process, s: System, e: Event, keys: set<StorageKey>)
    requires CallsMatch(p, s, keys)
    ensures Enabled(s, e) <==> ProcessEnabled(p, e)
  {
    if !e.Tick? && e.r in s.requests {
      assert p.calls[e.r] == Call(s.requests[e.r].key, StageOf(s.requests[e.r].phase));
    }
  }

  /** The outbox empties in the order set, unlock. */
  lemma OutboxOrder(record: Record)
    ensures StageOf(Recording(record)).outbox[1..] == StageOf(Unlocking).outbox
    ensures StageOf(Unlocking).outbox[1..] == StageOf(Answered).outbox
  {
  }

  /** What `get` and `lock` find in the keyspace is what the protocol finds. */
  lemma LookupsAgree(db: Db, s: System, key: StorageKey)
    requires db.now == s.now && LockMatches(db, s, key) && RecordMatches(db, s, key)
    ensures db.Lookup(LockKey(key)).None? <==> !LockLive(s, key)
    ensures Read(db, key) == Ok(if RecordLive(s, key) then Some(s.records[key].record) else None)
  {
  }

  predicate MovesAlike(p: Process, s: System, e: Event)
    requires Enabled(s, e) && ProcessEnabled(p, e) && !e.Tick? && !e.Arrive?
  {
    ProcessNext(p, e).calls == p.calls[e.r := Call(s.requests[e.r].key, StageOf(Moved(s, e).phase))]
  }

  lemma LookupMoves(p: Process, s: System, e: Event, keys: set<StorageKey>)
    requires Represents(p, s, keys) && Enabled(s, e) && ProcessEnabled(p, e) && (e.Get? || e.TryLock?)
    ensures MovesAlike(p, s, e)
  {
    var q := s.requests[e.r];
    assert p.calls[e.r] == Call(q.key, StageOf(q.phase));
    LookupsAgree(p.db, s, q.key);
  }

  lemma FlushMoves(p: Process, s: System, e: Event, keys: set<StorageKey>)
    requires CallsMatch(p, s, keys) && Enabled(s, e) && ProcessEnabled(p, e)
    requires e.Set? || e.SetLost? || e.Unlock? || e.UnlockLost?
    ensures MovesAlike(p, s, e)
  {
    var q := s.requests[e.r];
    assert p.calls[e.r] == Call(q.key, StageOf(q.phase));
    OutboxOrder(if q.phase.Recording? then q.phase.record else Record(0, ""));
  }

  lemma StageMoves(p: Process, s: System, e: Event, keys: set<StorageKey>)
    requires Represents(p, s, keys) && Enabled(s, e) && ProcessEnabled(p, e) && !e.Tick? && !e.Arrive?
    ensures MovesAlike(p, s, e)
  {
    if e.Get? || e.TryLock? {
      LookupMoves(p, s, e, keys);
    } else if e.Set? || e.SetLost? || e.Unlock? || e.UnlockLost? {
      FlushMoves(p, s, e, keys);
    } else {
      assert p.calls[e.r] == Call(s.requests[e.r].key, StageOf(s.requests[e.r].phase));
    }
  }

  lemma OneCallMoves(p: Process, s: System, e: Event, keys: set<StorageKey>)
    requires CallsMatch(p, s, keys) && Enabled(s, e) && ProcessEnabled(p, e) && !e.Tick? && !e.Arrive?
    requires MovesAlike(p, s, e)
    ensures CallsMatch(ProcessNext(p, e), Next(s, e), keys)
  {
    assert Moved(s, e).key == s.requests[e.r].key;
    assert Next(s, e).requests == s.requests[e.r := Moved(s, e)];
  }

  lemma CallsStayMatched(p: Process, s: System, e: Event, keys: set<StorageKey>)
    requires Represents(p, s, keys) && Enabled(s, e) && ProcessEnabled(p, e) && ArrivesIn(e, keys)
    ensures CallsMatch(ProcessNext(p, e), Next(s, e), keys)
  {
    if !e.Tick? && !e.Arrive? {
      StageMoves(p, s, e, keys);
      OneCallMoves(p, s, e, keys);
    }
  }

  /** Which entries of the keyspace an event can write. */
  lemma OneEntryMoves(p: Process, s: System, e: Event, keys: set<StorageKey>, entry: string)
    requires CallsMatch(p, s, keys) && Enabled(s, e) && ProcessEnabled(p, e)
    requires e.Tick? || e.Arrive? || (entry != LockKey(s.requests[e.r].key) && entry != RecordKey(s.requests[e.r].key))
    ensures var db, db' := p.db, ProcessNext(p, e).db;
            && (entry in db'.entries <==> entry in db.entries)
            && (entry in db.entries ==> db'.entries[entry] == db.entries[entry])
  {
    if !e.Tick? && !e.Arrive? {
      assert p.calls[e.r] == Call(s.requests[e.r].key, StageOf(s.requests[e.r].phase));
    }
  }

  /** The entries of the key an event is about. */
  lemma OwnEntriesMatch(p: Process, s: System, e: Event, keys: set<StorageKey>)
    requires CallsMatch(p, s, keys) && p.db.now == s.now
    requires Enabled(s, e) && ProcessEnabled(p, e) && !e.Tick? && !e.Arrive?
    requires LockMatches(p.db, s, s.requests[e.r].key) && RecordMatches(p.db, s, s.requests[e.r].key)
    ensures LockMatches(ProcessNext(p, e).db, Next(s, e), s.requests[e.r].key)
    ensures RecordMatches(ProcessNext(p, e).db, Next(s, e), s.requests[e.r].key)
  {
    var key := s.requests[e.r].key;
    assert p.calls[e.r] == Call(key, StageOf(s.requests[e.r].phase));
    KeysCollideIff(key, key);
  }

  lemma EntriesStayMatched(p: Process, s: System, e: Event, keys: set<StorageKey>, key: StorageKey)
    requires Represents(p, s, keys) && Apart(keys) && Enabled(s, e) && ProcessEnabled(p, e) && key in keys
    ensures LockMatches(ProcessNext(p, e).db, Next(s, e), key)
    ensures RecordMatches(ProcessNext(p, e).db, Next(s, e), key)
  {
    assert LockMatches(p.db, s, key) && RecordMatches(p.db, s, key);
    if e.Tick? || e.Arrive? {
      OneEntryMoves(p, s, e, keys, LockKey(key));
      OneEntryMoves(p, s, e, keys, RecordKey(key));
    } else if key == s.requests[e.r].key {
      OwnEntriesMatch(p, s, e, keys);
    } else {
      var used := s.requests[e.r].key;
      assert used in keys;
      KeysInjective(key, used);
      OneEntryMoves(p, s, e, keys, LockKey(key));
      OneEntryMoves(p, s, e, keys, RecordKey(key));
      OtherKeysStay(s, e, key);
    }
  }

  lemma OtherKeysStay(s: System, e: Event, key: StorageKey)
    requires Enabled(s, e) && (e.Tick? || e.Arrive? || key != s.requests[e.r].key)
    ensures key in Next(s, e).locks <==> key in s.locks
    ensures key in s.locks ==> Next(s, e).locks[key] == s.locks[key]
    ensures key in Next(s, e).records <==> key in s.records
    ensures key in s.records ==> Next(s, e).records[key] == s.records[key]
  {
  }

  lemma {:induction false} RunRepresented(p: Process, s: System, es: seq<Event>, keys: set<StorageKey>)
    requires Represents(p, s, keys) && Apart(keys) && CanRun(s, es)
    requires forall e | e in es :: ArrivesIn(e, keys)
    ensures ProcessCanRun(p, es) && Represents(ProcessRun(p, es), Run(s, es), keys)
    decreases |es|
  {
    if es != [] {
      assert ArrivesIn(es[0], keys);
      EnabledAlike(p, s, es[0], keys);
      CallsStayMatched(p, s, es[0], keys);
      forall key | key in keys
        ensures LockMatches(ProcessNext(p, es[0]).db, Next(s, es[0]), key)
        ensures RecordMatches(ProcessNext(p, es[0]).db, Next(s, es[0]), key)
      {
        EntriesStayMatched(p, s, es[0], keys, key);
      }
      RunRepresented(ProcessNext(p, es[0]), Next(s, es[0]), es[1..], keys);
    }
  }

  predicate ProcessCanRun(p: Process, es: seq<Event>)
    decreases |es|
  {
    es == [] || (ProcessEnabled(p, es[0]) && ProcessCanRun(ProcessNext(p, es[0]), es[1..]))
  }

  function ProcessRun(p: Process, es: seq<Event>): Process
    requires ProcessCanRun(p, es)
    decreases |es|
  {
    if es == [] then p else ProcessRun(ProcessNext(p, es[0]), es[1..])
  }

  const Fresh := Process(Keyspace(0, map[]), map[])

  /** Conversely, whatever the object can do the protocol can do. */
  lemma {:induction false} RunCovered(p: Process, s: System, es: seq<Event>, keys: set<StorageKey>)
    requires Represents(p, s, keys) && Apart(keys) && ProcessCanRun(p, es)
    requires forall e | e in es :: ArrivesIn(e, keys)
    ensures CanRun(s, es)
    decreases |es|
  {
    if es != [] {
      assert ArrivesIn(es[0], keys);
      EnabledAlike(p, s, es[0], keys);
      RunRepresented(p, s, [es[0]], keys);
      assert Run(s, [es[0]]) == Next(s, es[0]);
      assert ProcessRun(p, [es[0]]) == ProcessNext(p, es[0]);
      RunCovered(ProcessNext(p, es[0]), Next(s, es[0]), es[1..], keys);
    }
  }
}
