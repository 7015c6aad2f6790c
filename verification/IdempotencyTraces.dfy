/** Runs that show each condition of the guarantees is needed. */
module IdempotencyTraces {
  import opened Results
  import opened IdempotencyProtocol
  import opened IdempotencyExclusion
  import opened IdempotencyRefinement

  /** A store command that fails, or an answer through res.send. */
  predicate Faulty(e: Event) {
    EntersUnlocked(e) || e.SetLost? || e.UnlockLost? || e.AnswerSend?
  }

  /** `es` leads to `s`, with no store failure and no res.send. */
  ghost predicate Faultless(es: seq<Event>, s: System) {
    && CanRun(Init, es)
    && Run(Init, es) == s
    && (forall e | e in es :: !Faulty(e))
  }

  lemma {:induction false} TimelyAppend(s: System, es: seq<Event>, e: Event, key: StorageKey)
    requires CanRun(s, es) && TimelyRun(s, es, key)
    requires Enabled(Run(s, es), e) && Timely(Next(Run(s, es), e), key)
    ensures CanRun(s, es + [e]) && TimelyRun(s, es + [e], key)
    decreases |es|
  {
    RunAppend(s, es, e);
    if es == [] {
      assert (es + [e])[1..] == [];
      assert TimelyRun(Next(s, e), [], key);
    } else {
      TimelyAppend(Next(s, es[0]), es[1..], e, key);
      assert (es + [e])[1..] == es[1..] + [e];
    }
  }

  lemma Extend(es: seq<Event>, s: System, e: Event, key: StorageKey) returns (es': seq<Event>, s': System)
    requires Faultless(es, s) && Enabled(s, e)
    requires !Faulty(e)
    ensures es' == es + [e] && s' == Next(s, e) && Faultless(es', s')
    ensures TimelyRun(Init, es, key) && Timely(s', key) ==> TimelyRun(Init, es', key)
  {
    es', s' := es + [e], Next(s, e);
    RunAppend(Init, es, e);
    if TimelyRun(Init, es, key) && Timely(s', key) {
      TimelyAppend(Init, es, e, key);
    }
  }

  /** A running handler answers, and its `set` and `unlock` take effect at once. */
  lemma Finish(es: seq<Event>, s: System, r: RequestId, record: Record, key: StorageKey) returns (es': seq<Event>, s': System)
    requires Faultless(es, s) && InPhase(s, r, Running) && s.requests[r].key == key
    ensures Faultless(es', s') && es <= es'
    ensures s'.now == s.now && s'.locks == s.locks - {s.requests[r].key}
    ensures s'.records == s.records[s.requests[r].key := StoredRecord(record, r, s.now + RECORD_TTL)]
    ensures r in s'.requests && s'.requests == s.requests[r := s'.requests[r]]
    ensures s'.requests[r].phase.Answered? && s'.requests[r].recorded.Some?
    ensures s'.requests[r].key == s.requests[r].key
    ensures TimelyRun(Init, es, key) && Timely(s, key) ==> TimelyRun(Init, es', key) && Timely(s', key)
  {
    es', s' := Extend(es, s, AnswerJson(r, record), key);
    es', s' := Extend(es', s', Set(r), key);
    es', s' := Extend(es', s', Unlock(r), key);
  }

  /** A request arrives and misses. */
  lemma ArriveAndMiss(es: seq<Event>, s: System, r: RequestId, key: StorageKey) returns (es': seq<Event>, s': System)
    requires Faultless(es, s) && r !in s.requests && !RecordLive(s, key)
    ensures Faultless(es', s') && es <= es'
    ensures s'.now == s.now && s'.locks == s.locks && s'.records == s.records
    ensures r in s'.requests && s'.requests == s.requests[r := s'.requests[r]]
    ensures s'.requests[r].phase.AwaitingLock? && s'.requests[r].key == key
    ensures TimelyRun(Init, es, key) && Timely(s, key) ==> TimelyRun(Init, es', key) && Timely(s', key)
  {
    es', s' := Extend(es, s, Arrive(r, key), key);
    es', s' := Extend(es', s', Get(r), key);
  }

  /** A waiting request finds the lock free. */
  lemma Enter(es: seq<Event>, s: System, r: RequestId, key: StorageKey) returns (es': seq<Event>, s': System)
    requires Faultless(es, s) && InPhase(s, r, AwaitingLock) && s.requests[r].key == key && !LockLive(s, s.requests[r].key)
    ensures Faultless(es', s') && es <= es'
    ensures s'.now == s.now && s'.records == s.records
    ensures s'.locks == s.locks[s.requests[r].key := Lock(r, s.now + LOCK_TTL)]
    ensures r in s'.requests && s'.requests == s.requests[r := s'.requests[r]]
    ensures s'.requests[r].phase.Running? && s'.requests[r].locked.Some? && s'.requests[r].key == s.requests[r].key
    ensures TimelyRun(Init, es, key) && Timely(s, key) ==> TimelyRun(Init, es', key) && Timely(s', key)
  {
    es', s' := Extend(es, s, TryLock(r), key);
  }

  /** No run of the object leads to a handler that runs while a record is live. */
  lemma RunningBesideRecordFails(es: seq<Event>, r: RequestId, key: StorageKey)
    requires CanRun(Init, es) && Runs(Run(Init, es), r, key) && RecordLive(Run(Init, es), key)
    ensures CellRun(Idle, OpsOf(Init, es, key)).None?
  {
    RunRefinesIff(es, key);
    if PermittedRun(Init, es, key) {
      RunRefinesFrom(Init, es, key, Idle);
      assert false;
    }
  }

  /**
   Without the condition on `set`: a timely run with no failure in which a second handler
   runs while the first one's record is live, because the first one recorded and unlocked
   between the second one's missed `get` and its `lock`.
   */
  lemma LateLockRepeats(key: StorageKey, record: Record) returns (es: seq<Event>)
    ensures CanRun(Init, es) && TimelyRun(Init, es, key)
    ensures forall e | e in es :: !Faulty(e)
    ensures var s := Run(Init, es);
            && HasRecorded(s, 1) && Executed(s, 2)
            && s.requests[1].key == s.requests[2].key == key
            && RecordLive(s, key) && s.records[key].author == 1
            && InPhase(s, 2, Running)
    ensures CellRun(Idle, OpsOf(Init, es, key)).None?
  {
    var s;
    es, s := ArriveAndMiss([], Init, 1, key);
    es, s := ArriveAndMiss(es, s, 2, key);
    es, s := Enter(es, s, 1, key);
    es, s := Finish(es, s, 1, record, key);
    es, s := Enter(es, s, 2, key);
    RunningBesideRecordFails(es, 2, key);
  }

  /**
   Without timeliness: after 30 s a second handler runs beside the first, and the first
   one's `unlock` then removes the second one's lock.
   */
  lemma OverrunBreaksExclusion(key: StorageKey, record: Record) returns (es: seq<Event>, es': seq<Event>)
    ensures CanRun(Init, es) && CanRun(Init, es') && es <= es'
    ensures forall e | e in es' :: !Faulty(e)
    ensures var s := Run(Init, es);
            InPhase(s, 1, Running) && InPhase(s, 2, Running) && s.requests[1].key == s.requests[2].key == key
    ensures var s := Run(Init, es');
            InPhase(s, 1, Answered) && InPhase(s, 2, Running) && !LockLive(s, key)
  {
    var s;
    es, s := ArriveAndMiss([], Init, 1, key);
    es, s := Enter(es, s, 1, key);
    es, s := Extend(es, s, Tick(LOCK_TTL), key);
    es, s := ArriveAndMiss(es, s, 2, key);
    es, s := Enter(es, s, 2, key);
    es', s := Finish(es, s, 1, record, key);
  }

  /** With one failed `get`, two handlers of a key run at once at the very first instant. */
  lemma FailOpenBreaksExclusion(key: StorageKey) returns (es: seq<Event>)
    ensures CanRun(Init, es) && TimelyRun(Init, es, key)
    ensures var s := Run(Init, es);
            && s.now == 0
            && InPhase(s, 1, Running) && InPhase(s, 2, Unprotected)
            && s.requests[1].key == s.requests[2].key == key
  {
    var s;
    es, s := ArriveAndMiss([], Init, 1, key);
    es, s := Enter(es, s, 1, key);
    es, s := Extend(es, s, Arrive(2, key), key);
    RunAppend(Init, es, GetFails(2));
    TimelyAppend(Init, es, GetFails(2), key);
    es := es + [GetFails(2)];
  }

  /** Within its 30 s, the lock of an answered request keeps the others out. */
  lemma LockCoversRecording(s: System, r: RequestId)
    requires r in s.requests && s.requests[r].phase.Recording?
    requires Inv(s) && KeyInv(s, s.requests[r].key) && CellInv(s, s.requests[r].key) && Timely(s, s.requests[r].key)
    ensures LockLive(s, s.requests[r].key) && !RecordLive(s, s.requests[r].key)
  {
    var key := s.requests[r].key;
    assert RequestOk(s.now, s.step, s.requests[r]) && Holds(s, r, key) && Runs(s, r, key);
    assert LockedBy(s, r);
  }

  /**
   Why `set` is issued before `unlock`: take the lock of an answered request away before its
   answer is stored, and a waiting request of the key enters the handler with nothing to replay.
   */
  lemma UnlockBeforeSetWouldRepeat(s: System, r: RequestId, q: RequestId)
    requires r in s.requests && s.requests[r].phase.Recording?
    requires TimelyReachable(s, s.requests[r].key)
    requires InPhase(s, q, AwaitingLock) && s.requests[q].key == s.requests[r].key
    ensures InPhase(Next(s, TryLock(q)), q, Refused)
    ensures var early := s.(locks := s.locks - {s.requests[r].key});
            && Enabled(early, TryLock(q))
            && InPhase(Next(early, TryLock(q)), q, Running)
            && !RecordLive(Next(early, TryLock(q)), s.requests[r].key)
  {
    TimelyReachableInv(s, s.requests[r].key);
    LockCoversRecording(s, r);
  }
}
