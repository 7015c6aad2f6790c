/**
 The get / lock / run / record / unlock protocol of the idempotency middleware, as a
 state machine over any number of requests. Every `await` of the middleware is a step
 boundary, so the events of different requests interleave freely; store failures and the
 passing of time are events as well. A run is a sequence of enabled events.

 `got`, `locked`, `recorded` and `released` are history: they say at which step and time
 each command of a request took effect, and nothing in `Next` depends on them. The same
 holds for a lock's `holder` and a record's `author`: Redis stores neither.
 */
module IdempotencyProtocol {
  import opened Results
  import opened Clock

  const LOCK_TTL: Time := 30 * SECOND
  const RECORD_TTL: Time := 24 * 60 * 60 * SECOND

  type StorageKey = string
  type RequestId = nat

  datatype Record = Record(statusCode: int, body: string)

  datatype Phase =
    | AwaitingGet                                    // before IdempotencyStore.get takes effect
    | AwaitingLock                                   // get found nothing
    | Running                                        // lock held, handler behind the replaced res.json
    | Recording(record: Record)                      // res.json called; set, then unlock, on their way
    | Unlocking                                      // set is over, unlock on its way
    | Answered                                       // unlock is over
    | Sent                                           // the handler ended with res.send: no set, no unlock
    | Replayed(record: Record, author: RequestId)    // answered from a stored record
    | Refused                                        // answered 409
    | Unprotected                                    // catch branch: the handler runs without a lock

  datatype Stamp = Stamp(step: nat, time: Time)

  datatype Request = Request(
    key: StorageKey,
    phase: Phase,
    got: Option<Stamp> := None,
    locked: Option<Stamp> := None,
    answer: Option<Record> := None,
    recorded: Option<Stamp> := None,
    released: Option<Stamp> := None)

  datatype Lock = Lock(holder: RequestId, expiresAt: Time)

  datatype StoredRecord = StoredRecord(record: Record, author: RequestId, expiresAt: Time)

  datatype System = System(
    now: Time,
    step: nat,
    locks: map<StorageKey, Lock>,
    records: map<StorageKey, StoredRecord>,
    requests: map<RequestId, Request>)

  const Init := System(0, 0, map[], map[], map[])

  datatype Event =
    | Arrive(r: RequestId, key: StorageKey)
    | Get(r: RequestId)
    | GetFails(r: RequestId)
    | TryLock(r: RequestId)
    | LockFails(r: RequestId, applied: bool)         // the command may have reached Redis all the same
    | AnswerJson(r: RequestId, record: Record)
    | AnswerSend(r: RequestId)
    | Set(r: RequestId)
    | SetLost(r: RequestId)
    | Unlock(r: RequestId)
    | UnlockLost(r: RequestId)
    | Tick(elapsed: Time)

  predicate InPhase(s: System, r: RequestId, phase: Phase) {
    r in s.requests && s.requests[r].phase == phase
  }

  predicate LockLive(s: System, key: StorageKey) {
    key in s.locks && s.now < s.locks[key].expiresAt
  }

  predicate RecordLive(s: System, key: StorageKey) {
    key in s.records && s.now < s.records[key].expiresAt
  }

  predicate Enabled(s: System, e: Event) {
    match e
    case Arrive(r, _) => r !in s.requests
    case Get(r) => InPhase(s, r, AwaitingGet)
    case GetFails(r) => InPhase(s, r, AwaitingGet)
    case TryLock(r) => InPhase(s, r, AwaitingLock)
    case LockFails(r, _) => InPhase(s, r, AwaitingLock)
    case AnswerJson(r, _) => InPhase(s, r, Running)
    case AnswerSend(r) => InPhase(s, r, Running)
    case Set(r) => r in s.requests && s.requests[r].phase.Recording?
    case SetLost(r) => r in s.requests && s.requests[r].phase.Recording?
    case Unlock(r) => InPhase(s, r, Unlocking)
    case UnlockLost(r) => InPhase(s, r, Unlocking)
    case Tick(_) => true
  }

  function Here(s: System): Option<Stamp> {
    Some(Stamp(s.step, s.now))
  }

  /** The request an event is about, after the event. */
  function Moved(s: System, e: Event): Request
    requires Enabled(s, e) && !e.Tick?
  {
    if e.Arrive? then Request(e.key, AwaitingGet) else
    var q := s.requests[e.r];
    match e
    case Get(_) =>
      if RecordLive(s, q.key) then
        q.(got := Here(s), phase := Replayed(s.records[q.key].record, s.records[q.key].author))
      else
        q.(got := Here(s), phase := AwaitingLock)
    case GetFails(_) => q.(phase := Unprotected)
    case TryLock(_) =>
      if LockLive(s, q.key) then q.(phase := Refused) else q.(phase := Running, locked := Here(s))
    case LockFails(_, _) => q.(phase := Unprotected)
    case AnswerJson(_, record) => q.(phase := Recording(record), answer := Some(record))
    case AnswerSend(_) => q.(phase := Sent)
    case Set(_) => q.(phase := Unlocking, recorded := Here(s))
    case SetLost(_) => q.(phase := Unlocking)
    case Unlock(_) => q.(phase := Answered, released := Here(s))
    case UnlockLost(_) => q.(phase := Answered)
  }

  /** SET NX EX writes the lock only when no live lock is there; DEL removes whatever lock is there. */
  function NextLocks(s: System, e: Event): map<StorageKey, Lock>
    requires Enabled(s, e)
  {
    if e.TryLock? || (e.LockFails? && e.applied) then
      var key := s.requests[e.r].key;
      if LockLive(s, key) then s.locks else s.locks[key := Lock(e.r, s.now + LOCK_TTL)]
    else if e.Unlock? then
      s.locks - {s.requests[e.r].key}
    else
      s.locks
  }

  function NextRecords(s: System, e: Event): map<StorageKey, StoredRecord>
    requires Enabled(s, e)
  {
    if e.Set? then
      var q := s.requests[e.r];
      s.records[q.key := StoredRecord(q.phase.record, e.r, s.now + RECORD_TTL)]
    else
      s.records
  }

  function Next(s: System, e: Event): System
    requires Enabled(s, e)
  {
    System(
      if e.Tick? then s.now + e.elapsed else s.now,
      s.step + 1,
      NextLocks(s, e),
      NextRecords(s, e),
      if e.Tick? then s.requests else s.requests[e.r := Moved(s, e)])
  }

  predicate CanRun(s: System, es: seq<Event>)
    decreases |es|
  {
    es == [] || (Enabled(s, es[0]) && CanRun(Next(s, es[0]), es[1..]))
  }

  function Run(s: System, es: seq<Event>): System
    requires CanRun(s, es)
    decreases |es|
  {
    if es == [] then s else Run(Next(s, es[0]), es[1..])
  }

  lemma {:induction false} RunAppend(s: System, es: seq<Event>, e: Event)
    requires CanRun(s, es) && Enabled(Run(s, es), e)
    ensures CanRun(s, es + [e]) && Run(s, es + [e]) == Next(Run(s, es), e)
    decreases |es|
  {
    if es == [] {
      assert CanRun(Next(s, e), (es + [e])[1..]);
      assert Run(Next(s, e), (es + [e])[1..]) == Next(s, e);
    } else {
      RunAppend(Next(s, es[0]), es[1..], e);
      assert (es + [e])[1..] == es[1..] + [e];
    }
  }

  /* ---- What holds in every run, store failures and overruns included ---- */

  predicate Executed(s: System, r: RequestId) {
    r in s.requests && s.requests[r].locked.Some?
  }

  predicate HasRecorded(s: System, r: RequestId) {
    r in s.requests && s.requests[r].recorded.Some?
  }

  predicate HasGot(s: System, r: RequestId) {
    r in s.requests && s.requests[r].got.Some?
  }

  /** The handler holds the lock: between a successful lock and the end of its unlock. */
  predicate Holding(q: Request) {
    q.phase.Running? || q.phase.Recording? || q.phase.Unlocking?
  }

  predicate Past(now: Time, step: nat, stamp: Option<Stamp>) {
    stamp.Some? ==> stamp.value.step < step && stamp.value.time <= now
  }

  predicate Ordered(a: Option<Stamp>, b: Option<Stamp>) {
    b.Some? ==> a.Some? && a.value.step < b.value.step && a.value.time <= b.value.time
  }

  /** A request's stamps lie in the past, in protocol order. */
  predicate TimesOk(now: Time, step: nat, q: Request) {
    && Past(now, step, q.got) && Past(now, step, q.locked)
    && Past(now, step, q.recorded) && Past(now, step, q.released)
    && Ordered(q.got, q.locked) && Ordered(q.locked, q.recorded) && Ordered(q.locked, q.released)
    && (q.recorded.Some? && q.released.Some? ==> q.recorded.value.step < q.released.value.step)
  }

  /** Which commands of a request have taken effect, by its phase. */
  predicate PhaseOk(q: Request) {
    && (q.phase.AwaitingGet? ==> q.got.None?)
    && (q.phase.AwaitingLock? || q.phase.Replayed? || q.phase.Refused? ==> q.got.Some?)
    && (q.locked.Some? <==> Holding(q) || q.phase.Answered? || q.phase.Sent?)
    && (q.recorded.Some? ==> (q.phase.Unlocking? || q.phase.Answered?) && q.answer.Some?)
    && (q.released.Some? ==> q.phase.Answered?)
    && (q.phase.Recording? ==> q.answer == Some(q.phase.record))
  }

  predicate RequestOk(now: Time, step: nat, q: Request) {
    TimesOk(now, step, q) && PhaseOk(q)
  }

  ghost predicate StampsInv(s: System) {
    forall r | r in s.requests :: RequestOk(s.now, s.step, s.requests[r])
  }

  /** The stored record of a key is the answer of the last request whose `set` took effect. */
  predicate RecordOk(s: System, key: StorageKey)
    requires key in s.records
  {
    var stored := s.records[key];
    && HasRecorded(s, stored.author)
    && var q := s.requests[stored.author];
    && q.key == key
    && q.answer == Some(stored.record)
    && stored.expiresAt == q.recorded.value.time + RECORD_TTL
  }

  /** The stored record of `r`'s key was set no earlier than `r`'s own. */
  predicate Superseded(s: System, r: RequestId)
    requires HasRecorded(s, r)
  {
    s.requests[r].key in s.records
    && var last := s.records[s.requests[r].key].author;
    && HasRecorded(s, last)
    && s.requests[r].recorded.value.step <= s.requests[last].recorded.value.step
    && s.requests[r].recorded.value.time <= s.requests[last].recorded.value.time
  }

  ghost predicate RecordsInv(s: System) {
    && (forall key | key in s.records :: RecordOk(s, key))
    && (forall r | HasRecorded(s, r) :: Superseded(s, r))
  }

  /** `q` did its `get` after `p` had recorded under the same key. */
  predicate GotAfter(p: Request, q: Request) {
    p.key == q.key && p.recorded.Some? && q.got.Some? && p.recorded.value.step <= q.got.value.step
  }

  /** A request that went past its `get` found no live record of an earlier execution. */
  ghost predicate MissesInv(s: System) {
    forall p, q | p in s.requests && q in s.requests
                  && GotAfter(s.requests[p], s.requests[q]) && !s.requests[q].phase.Replayed? ::
      s.requests[p].recorded.value.time + RECORD_TTL <= s.requests[q].got.value.time
  }

  /** A replay repeats the last answer recorded before its `get`, while that record was live. */
  predicate ReplayOk(s: System, q: Request)
    requires q.phase.Replayed?
  {
    && HasRecorded(s, q.phase.author)
    && var p := s.requests[q.phase.author];
    && GotAfter(p, q)
    && p.answer == Some(q.phase.record)
    && q.got.value.time < p.recorded.value.time + RECORD_TTL
    && (forall other | other in s.requests && GotAfter(s.requests[other], q) ::
          s.requests[other].recorded.value.step <= p.recorded.value.step)
  }

  ghost predicate ReplaysInv(s: System) {
    forall r | r in s.requests && s.requests[r].phase.Replayed? :: ReplayOk(s, s.requests[r])
  }

  ghost predicate Inv(s: System) {
    StampsInv(s) && RecordsInv(s) && MissesInv(s) && ReplaysInv(s)
  }

  lemma MovedTimesOk(s: System, e: Event)
    requires Enabled(s, e) && !e.Tick?
    requires e.Arrive? || RequestOk(s.now, s.step, s.requests[e.r])
    ensures TimesOk(s.now, s.step + 1, Moved(s, e))
  {
    if !e.Arrive? {
      assert PhaseOk(s.requests[e.r]);
    }
  }

  lemma MovedPhaseOk(s: System, e: Event)
    requires Enabled(s, e) && !e.Tick?
    requires e.Arrive? || PhaseOk(s.requests[e.r])
    ensures PhaseOk(Moved(s, e))
  {
  }

  lemma StampsKept(s: System, e: Event)
    requires StampsInv(s) && Enabled(s, e)
    ensures StampsInv(Next(s, e))
  {
    var s' := Next(s, e);
    forall r | r in s'.requests ensures RequestOk(s'.now, s'.step, s'.requests[r]) {
      if !e.Tick? && r == e.r {
        if !e.Arrive? {
          assert RequestOk(s.now, s.step, s.requests[r]);
        }
        MovedTimesOk(s, e);
        MovedPhaseOk(s, e);
      } else {
        assert RequestOk(s.now, s.step, s.requests[r]);
      }
    }
  }

  /** What one event leaves of the history of a request other requests look at. */
  lemma HistoryKept(s: System, e: Event, r: RequestId)
    requires StampsInv(s) && Enabled(s, e) && r in s.requests
    ensures r in Next(s, e).requests
    ensures var q, q' := s.requests[r], Next(s, e).requests[r];
            && q'.key == q.key
            && (q.got.Some? ==> q'.got == q.got)
            && (q.recorded.Some? ==> q'.recorded == q.recorded && q'.answer == q.answer)
            && (q'.recorded.Some? && q.recorded.None? ==> e == Set(r) && q'.recorded == Here(s))
            && (q'.got.Some? && q.got.None? ==> e == Get(r) && q'.got == Here(s))
            && (q'.phase.Replayed? ==> q.phase == q'.phase || e == Get(r))
            && (q.phase.Replayed? ==> q'.phase == q.phase)
  {
    assert RequestOk(s.now, s.step, s.requests[r]);
  }

  lemma RecordKept(s: System, e: Event, key: StorageKey)
    requires StampsInv(s) && RecordsInv(s) && Enabled(s, e)
    requires key in Next(s, e).records
    ensures RecordOk(Next(s, e), key)
  {
    if e.Set? && key == s.requests[e.r].key {
      assert RequestOk(s.now, s.step, s.requests[e.r]);
    } else {
      assert RecordOk(s, key);
      HistoryKept(s, e, s.records[key].author);
    }
  }

  lemma SupersededKept(s: System, e: Event, r: RequestId)
    requires StampsInv(s) && RecordsInv(s) && Enabled(s, e)
    requires HasRecorded(Next(s, e), r)
    ensures Superseded(Next(s, e), r)
  {
    assert r in s.requests;
    HistoryKept(s, e, r);
    assert RequestOk(s.now, s.step, s.requests[r]);
    if HasRecorded(s, r) {
      assert Superseded(s, r);
      HistoryKept(s, e, s.records[s.requests[r].key].author);
    }
  }

  lemma RecordsKept(s: System, e: Event)
    requires StampsInv(s) && RecordsInv(s) && Enabled(s, e)
    ensures RecordsInv(Next(s, e))
  {
    forall key | key in Next(s, e).records ensures RecordOk(Next(s, e), key) {
      RecordKept(s, e, key);
    }
    forall r | HasRecorded(Next(s, e), r) ensures Superseded(Next(s, e), r) {
      SupersededKept(s, e, r);
    }
  }

  lemma MissesKept(s: System, e: Event)
    requires StampsInv(s) && RecordsInv(s) && MissesInv(s) && Enabled(s, e)
    ensures MissesInv(Next(s, e))
  {
    var s' := Next(s, e);
    forall p, q | p in s'.requests && q in s'.requests
                  && GotAfter(s'.requests[p], s'.requests[q]) && !s'.requests[q].phase.Replayed?
      ensures s'.requests[p].recorded.value.time + RECORD_TTL <= s'.requests[q].got.value.time
    {
      assert q in s.requests && p in s.requests;
      HistoryKept(s, e, p);
      HistoryKept(s, e, q);
      assert RequestOk(s.now, s.step, s.requests[p]) && RequestOk(s.now, s.step, s.requests[q]);
      if !GotAfter(s.requests[p], s.requests[q]) {
        // The `get` of q is this very step, and it missed.
        assert e == Get(q) && HasRecorded(s, p);
        assert RecordOk(s, s.requests[q].key);
      }
    }
  }

  lemma ReplaysKept(s: System, e: Event)
    requires StampsInv(s) && RecordsInv(s) && ReplaysInv(s) && Enabled(s, e)
    ensures ReplaysInv(Next(s, e))
  {
    var s' := Next(s, e);
    forall r | r in s'.requests && s'.requests[r].phase.Replayed? ensures ReplayOk(s', s'.requests[r]) {
      assert r in s.requests;
      HistoryKept(s, e, r);
      if s.requests[r].phase.Replayed? {
        assert ReplayOk(s, s.requests[r]);
      } else {
        assert e == Get(r) && RecordOk(s, s.requests[r].key);
      }
      HistoryKept(s, e, s'.requests[r].phase.author);
      LastRecordedStays(s, e, r);
    }
  }

  lemma LastRecordedStays(s: System, e: Event, r: RequestId)
    requires StampsInv(s) && RecordsInv(s) && ReplaysInv(s) && Enabled(s, e)
    requires r in s.requests && Next(s, e).requests[r].phase.Replayed?
    requires HasRecorded(Next(s, e), Next(s, e).requests[r].phase.author)
    ensures var s' := Next(s, e);
            forall other | other in s'.requests && GotAfter(s'.requests[other], s'.requests[r]) ::
              s'.requests[other].recorded.value.step
                <= s'.requests[s'.requests[r].phase.author].recorded.value.step
  {
    var s' := Next(s, e);
    HistoryKept(s, e, r);
    assert RequestOk(s.now, s.step, s.requests[r]);
    forall other | other in s'.requests && GotAfter(s'.requests[other], s'.requests[r])
      ensures s'.requests[other].recorded.value.step
           <= s'.requests[s'.requests[r].phase.author].recorded.value.step
    {
      assert other in s.requests;
      HistoryKept(s, e, other);
      assert HasRecorded(s, other);
      if s.requests[r].phase.Replayed? {
        assert ReplayOk(s, s.requests[r]);
        HistoryKept(s, e, s.requests[r].phase.author);
      } else {
        assert RecordOk(s, s.requests[r].key);
        HistoryKept(s, e, s.records[s.requests[r].key].author);
      }
    }
  }

  lemma {:induction false} RunKeepsInv(s: System, es: seq<Event>)
    requires Inv(s) && CanRun(s, es)
    ensures Inv(Run(s, es))
    decreases |es|
  {
    if es != [] {
      StampsKept(s, es[0]);
      RecordsKept(s, es[0]);
      MissesKept(s, es[0]);
      ReplaysKept(s, es[0]);
      RunKeepsInv(Next(s, es[0]), es[1..]);
    }
  }

  /** The systems some run can lead to. */
  ghost predicate Reachable(s: System) {
    exists es :: CanRun(Init, es) && Run(Init, es) == s
  }

  lemma ReachableInv(s: System)
    requires Reachable(s)
    ensures Inv(s)
  {
    var es :| CanRun(Init, es) && Run(Init, es) == s;
    RunKeepsInv(Init, es);
  }
}
