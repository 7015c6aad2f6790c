/**
 The atomic object behind a storage key: run the handler once, then replay its answer for
 24 hours. Exactly which runs of the protocol are, for a key, runs of that object.
 */
module IdempotencyRefinement {
  import opened Results
  import opened Clock
  import opened IdempotencyProtocol
  import opened IdempotencyExclusion

  /* ---- The atomic object ---- */

  datatype Cell =
    | Idle
    | Busy(runner: RequestId)
    | Done(record: Record, until: Time)

  datatype Op =
    | Start(r: RequestId)                      // the handler is entered
    | Finish(r: RequestId, record: Record)     // its answer is stored
    | Replay(r: RequestId, record: Record)     // a stored answer is returned
    | Refuse(r: RequestId)                     // 409
    | Bypass(r: RequestId)                     // the handler is entered without the object
    | Lose(r: RequestId)                       // an answer is given that will never be stored
    | Pass                                     // nothing but, perhaps, time

  datatype TimedOp = TimedOp(op: Op, at: Time)

  /** None: the object does not allow the operation. */
  function CellNext(c: Cell, o: TimedOp): Option<Cell> {
    match o.op
    case Start(r) => if c.Idle? then Some(Busy(r)) else None
    case Finish(r, record) => if c == Busy(r) then Some(Done(record, o.at + 86_400_000)) else None
    case Replay(_, record) => if c.Done? && c.record == record && o.at < c.until then Some(c) else None
    case Refuse(_) => if c.Idle? then None else Some(c)
    case Bypass(_) => None
    case Lose(_) => None
    case Pass => Some(if c.Done? && c.until <= o.at then Idle else c)
  }

  function CellRun(c: Cell, ops: seq<TimedOp>): Option<Cell>
    decreases |ops|
  {
    if ops == [] then Some(c) else
    var c' := CellNext(c, ops[0]);
    if c'.None? then None else CellRun(c'.value, ops[1..])
  }

  /** While an answer is stored, the object only replays that answer: no handler starts. */
  lemma {:induction false} DoneOnlyReplays(c: Cell, ops: seq<TimedOp>)
    requires c.Done? && CellRun(c, ops).Some?
    requires forall i | 0 <= i < |ops| :: ops[i].at < c.until
    ensures CellRun(c, ops) == Some(c)
    ensures forall i | 0 <= i < |ops| :: !ops[i].op.Start? && !ops[i].op.Finish?
    ensures forall i | 0 <= i < |ops| && ops[i].op.Replay? :: ops[i].op.record == c.record
    decreases |ops|
  {
    if ops != [] {
      assert ops[0].at < c.until;
      assert CellNext(c, ops[0]) == Some(c);
      DoneOnlyReplays(c, ops[1..]);
      forall i | 0 <= i < |ops|
        ensures !ops[i].op.Start? && !ops[i].op.Finish?
        ensures ops[i].op.Replay? ==> ops[i].op.record == c.record
      {
        if i > 0 {
          assert ops[i] == ops[1..][i - 1];
        }
      }
    }
  }

  /** While a handler runs, no other starts and nothing is replayed. */
  lemma {:induction false} BusyRunsAlone(c: Cell, ops: seq<TimedOp>)
    requires c.Busy? && CellRun(c, ops).Some?
    requires forall i | 0 <= i < |ops| :: !ops[i].op.Finish?
    ensures CellRun(c, ops) == Some(c)
    ensures forall i | 0 <= i < |ops| :: !ops[i].op.Start? && !ops[i].op.Replay?
    decreases |ops|
  {
    if ops != [] {
      assert !ops[0].op.Finish?;
      assert CellNext(c, ops[0]) == Some(c);
      BusyRunsAlone(c, ops[1..]);
      forall i | 0 <= i < |ops|
        ensures !ops[i].op.Start? && !ops[i].op.Replay?
      {
        if i > 0 {
          assert ops[i] == ops[1..][i - 1];
        }
      }
    }
  }

  /* ---- What a run of the protocol means to the object of a key ---- */

  predicate About(s: System, e: Event, key: StorageKey)
    requires Enabled(s, e)
  {
    !e.Tick? && !e.Arrive? && s.requests[e.r].key == key
  }

  function Meaning(s: System, e: Event, key: StorageKey): Op
    requires Enabled(s, e)
  {
    if !About(s, e, key) then Pass
    else if EntersUnlocked(e) then Bypass(e.r)
    else if e.AnswerSend? || e.SetLost? then Lose(e.r)
    else if e.Get? && RecordLive(s, key) then Replay(e.r, s.records[key].record)
    else if e.TryLock? then (if LockLive(s, key) then Refuse(e.r) else Start(e.r))
    else if e.Set? then Finish(e.r, s.requests[e.r].phase.record)
    else Pass
  }

  function OpOf(s: System, e: Event, key: StorageKey): TimedOp
    requires Enabled(s, e)
  {
    TimedOp(Meaning(s, e, key), Next(s, e).now)
  }

  function OpsOf(s: System, es: seq<Event>, key: StorageKey): seq<TimedOp>
    requires CanRun(s, es)
    decreases |es|
  {
    if es == [] then [] else [OpOf(s, es[0], key)] + OpsOf(Next(s, es[0]), es[1..], key)
  }

  /** `r` is in the key's handler, or has answered and its `set` is on the way. */
  predicate Runs(s: System, r: RequestId, key: StorageKey) {
    r in s.requests && s.requests[r].key == key && (s.requests[r].phase.Running? || s.requests[r].phase.Recording?)
  }

  /** The state of the object a state of the protocol stands for. */
  ghost predicate StandsFor(s: System, key: StorageKey, c: Cell) {
    match c
    case Idle => !RecordLive(s, key) && forall r :: !Runs(s, r, key)
    case Busy(r) => Runs(s, r, key)
    case Done(record, until) =>
      && RecordLive(s, key) && s.records[key].record == record && s.records[key].expiresAt == until
      && forall r :: !Runs(s, r, key)
  }

  /* ---- The condition ---- */

  /** `p`'s `set` took effect under `r`'s key after `r`'s `get`. */
  predicate SetSinceGet(s: System, p: RequestId, r: RequestId)
    requires HasGot(s, r)
  {
    && HasRecorded(s, p)
    && s.requests[p].key == s.requests[r].key
    && s.requests[r].got.value.step < s.requests[p].recorded.value.step
  }

  /** A `set` that took effect since `r`'s `get` has left a record that is still live. */
  ghost predicate LateSet(s: System, r: RequestId) {
    HasGot(s, r) && exists p :: SetSinceGet(s, p, r) && s.now < s.requests[p].recorded.value.time + 86_400_000
  }

  /** `r` would find the lock free. */
  predicate FindsFree(s: System, e: Event, key: StorageKey)
    requires Enabled(s, e)
  {
    e.TryLock? && s.requests[e.r].key == key && !LockLive(s, key)
  }

  /** No `get`, `lock` or `set` of the key fails, and nobody answers through res.send. */
  predicate Clean(s: System, e: Event, key: StorageKey)
    requires Enabled(s, e)
  {
    About(s, e, key) ==> !EntersUnlocked(e) && !e.SetLost? && !e.AnswerSend?
  }

  /** Whoever finds the lock free finds no handler still running, and has missed no live record. */
  ghost predicate Permitted(s: System, e: Event, key: StorageKey)
    requires Enabled(s, e)
  {
    && Clean(s, e, key)
    && (FindsFree(s, e, key) ==> !LateSet(s, e.r) && forall r :: !Runs(s, r, key))
  }

  ghost predicate PermittedRun(s: System, es: seq<Event>, key: StorageKey)
    requires CanRun(s, es)
    decreases |es|
  {
    es == [] || (Permitted(s, es[0], key) && PermittedRun(Next(s, es[0]), es[1..], key))
  }

  /* ---- What permitted runs keep ---- */

  ghost predicate OneRuns(s: System, key: StorageKey) {
    && (forall p, q | Runs(s, p, key) && Runs(s, q, key) :: p == q)
    && (forall r | Runs(s, r, key) :: !RecordLive(s, key))
  }

  /** A lock entry dies within 30 s, and while it lives a handler runs or a record outlives it. */
  ghost predicate LockMeansBusy(s: System, key: StorageKey) {
    key in s.locks ==>
      && s.locks[key].expiresAt <= s.now + 30_000
      && (Runs(s, s.locks[key].holder, key)
          || (key in s.records && s.locks[key].expiresAt <= s.records[key].expiresAt))
  }

  ghost predicate CellInv(s: System, key: StorageKey) {
    OneRuns(s, key) && LockMeansBusy(s, key)
  }

  /** After a missed `get`, the key's record is live if and only if a late `set` wrote it. */
  lemma LiveRecordIsNewerThanMiss(s: System, r: RequestId)
    requires StampsInv(s) && RecordsInv(s) && MissesInv(s)
    requires InPhase(s, r, AwaitingLock)
    ensures RecordLive(s, s.requests[r].key) <==> LateSet(s, r)
  {
    var key := s.requests[r].key;
    assert RequestOk(s.now, s.step, s.requests[r]);
    if RecordLive(s, key) {
      assert RecordOk(s, key);
      var p := s.records[key].author;
      assert !GotAfter(s.requests[p], s.requests[r]);
      assert SetSinceGet(s, p, r);
    }
    forall p | SetSinceGet(s, p, r) && s.now < s.requests[p].recorded.value.time + 86_400_000
      ensures RecordLive(s, key)
    {
      assert Superseded(s, p) && RecordOk(s, key);
    }
  }

  /** Which requests run the handler after an event. */
  lemma RunsMove(s: System, e: Event, r: RequestId, key: StorageKey)
    requires Enabled(s, e)
    ensures Runs(Next(s, e), r, key)
       <==> || (FindsFree(s, e, key) && r == e.r)
            || (Runs(s, r, key) && !((e.Set? || e.SetLost? || e.AnswerSend?) && e.r == r))
  {
  }

  /** Events of other keys, and of none, leave the key's entries alone. */
  lemma OtherKeyStays(s: System, e: Event, key: StorageKey)
    requires Enabled(s, e) && !About(s, e, key)
    ensures key in Next(s, e).locks <==> key in s.locks
    ensures key in s.locks ==> Next(s, e).locks[key] == s.locks[key]
    ensures key in Next(s, e).records <==> key in s.records
    ensures key in s.records ==> Next(s, e).records[key] == s.records[key]
    ensures s.now <= Next(s, e).now && (!e.Tick? ==> s.now == Next(s, e).now)
  {
  }

  /** What finding the lock free is worth. */
  lemma FreeLock(s: System, e: Event, key: StorageKey, c: Cell)
    requires StampsInv(s) && RecordsInv(s) && MissesInv(s) && StandsFor(s, key, c)
    requires Enabled(s, e) && FindsFree(s, e, key)
    ensures Permitted(s, e, key) <==> c.Idle?
  {
    LiveRecordIsNewerThanMiss(s, e.r);
  }

  lemma OneRunsKept(s: System, e: Event, key: StorageKey)
    requires StampsInv(s) && RecordsInv(s) && MissesInv(s) && OneRuns(s, key)
    requires Enabled(s, e) && Permitted(s, e, key)
    ensures OneRuns(Next(s, e), key)
  {
    if FindsFree(s, e, key) {
      LiveRecordIsNewerThanMiss(s, e.r);
    }
    forall p, q | Runs(Next(s, e), p, key) && Runs(Next(s, e), q, key) ensures p == q {
      RunsMove(s, e, p, key);
      RunsMove(s, e, q, key);
    }
    forall r | Runs(Next(s, e), r, key) ensures !RecordLive(Next(s, e), key) {
      RunsMove(s, e, r, key);
      if e.Set? && s.requests[e.r].key == key {
        assert Runs(s, e.r, key);
      }
    }
  }

  lemma LockMeansBusyKept(s: System, e: Event, key: StorageKey)
    requires LockMeansBusy(s, key)
    requires Enabled(s, e) && Permitted(s, e, key)
    ensures LockMeansBusy(Next(s, e), key)
  {
    if key in Next(s, e).locks {
      RunsMove(s, e, Next(s, e).locks[key].holder, key);
      if !About(s, e, key) {
        OtherKeyStays(s, e, key);
      }
    }
  }

  /* ---- The refinement ---- */

  /** One event is a step of the object. */
  ghost predicate RefinesAt(s: System, e: Event, key: StorageKey, c: Cell)
    requires Enabled(s, e)
  {
    var c' := CellNext(c, OpOf(s, e, key));
    c'.Some? && StandsFor(Next(s, e), key, c'.value)
  }

  lemma OtherKeyRefines(s: System, e: Event, key: StorageKey, c: Cell)
    requires StandsFor(s, key, c) && Enabled(s, e) && !About(s, e, key)
    ensures RefinesAt(s, e, key, c)
  {
    OtherKeyStays(s, e, key);
    forall r ensures Runs(Next(s, e), r, key) <==> Runs(s, r, key) {
      RunsMove(s, e, r, key);
    }
  }

  lemma LockRefines(s: System, e: Event, key: StorageKey, c: Cell)
    requires StampsInv(s) && RecordsInv(s) && MissesInv(s) && CellInv(s, key) && StandsFor(s, key, c)
    requires Enabled(s, e) && Permitted(s, e, key) && About(s, e, key) && e.TryLock?
    ensures RefinesAt(s, e, key, c)
  {
    forall r ensures Runs(Next(s, e), r, key) <==> Runs(s, r, key) || (FindsFree(s, e, key) && r == e.r) {
      RunsMove(s, e, r, key);
    }
    if FindsFree(s, e, key) {
      FreeLock(s, e, key, c);
    } else {
      assert !c.Idle?;
    }
  }

  lemma SetRefines(s: System, e: Event, key: StorageKey, c: Cell)
    requires CellInv(s, key) && StandsFor(s, key, c)
    requires Enabled(s, e) && About(s, e, key) && e.Set?
    ensures RefinesAt(s, e, key, c)
  {
    assert Runs(s, e.r, key);
    forall r ensures Runs(Next(s, e), r, key) <==> Runs(s, r, key) && r != e.r {
      RunsMove(s, e, r, key);
    }
  }

  lemma QuietRefines(s: System, e: Event, key: StorageKey, c: Cell)
    requires CellInv(s, key) && StandsFor(s, key, c)
    requires Enabled(s, e) && Clean(s, e, key) && About(s, e, key) && !e.TryLock? && !e.Set?
    ensures RefinesAt(s, e, key, c)
  {
    forall r ensures Runs(Next(s, e), r, key) <==> Runs(s, r, key) {
      RunsMove(s, e, r, key);
    }
  }

  lemma StepRefines(s: System, e: Event, key: StorageKey, c: Cell)
    requires Inv(s) && CellInv(s, key) && StandsFor(s, key, c)
    requires Enabled(s, e) && Permitted(s, e, key)
    ensures RefinesAt(s, e, key, c)
    ensures CellInv(Next(s, e), key)
  {
    if !About(s, e, key) {
      OtherKeyRefines(s, e, key, c);
    } else if e.TryLock? {
      LockRefines(s, e, key, c);
    } else if e.Set? {
      SetRefines(s, e, key, c);
    } else {
      QuietRefines(s, e, key, c);
    }
    OneRunsKept(s, e, key);
    LockMeansBusyKept(s, e, key);
  }

  lemma {:induction false} RunRefinesFrom(s: System, es: seq<Event>, key: StorageKey, c: Cell)
    requires Inv(s) && CellInv(s, key) && StandsFor(s, key, c)
    requires CanRun(s, es) && PermittedRun(s, es, key)
    ensures CellRun(c, OpsOf(s, es, key)).Some?
    ensures StandsFor(Run(s, es), key, CellRun(c, OpsOf(s, es, key)).value)
    ensures Inv(Run(s, es)) && CellInv(Run(s, es), key)
    decreases |es|
  {
    if es != [] {
      StepRefines(s, es[0], key, c);
      StepKeepsInv(s, es[0]);
      var c' := CellNext(c, OpOf(s, es[0], key)).value;
      RunRefinesFrom(Next(s, es[0]), es[1..], key, c');
      assert OpsOf(s, es, key)[1..] == OpsOf(Next(s, es[0]), es[1..], key);
    }
  }

  lemma UncleanMeaning(s: System, e: Event, key: StorageKey)
    requires Enabled(s, e)
    ensures FindsFree(s, e, key) ==> Meaning(s, e, key) == Start(e.r)
    ensures !Clean(s, e, key) ==> Meaning(s, e, key).Bypass? || Meaning(s, e, key).Lose?
  {
  }

  lemma UncleanStepFails(s: System, e: Event, key: StorageKey, c: Cell)
    requires Enabled(s, e) && !Clean(s, e, key)
    ensures CellNext(c, OpOf(s, e, key)).None?
  {
    UncleanMeaning(s, e, key);
  }

  lemma BlockedStartFails(s: System, e: Event, key: StorageKey, c: Cell)
    requires Enabled(s, e) && FindsFree(s, e, key) && !c.Idle?
    ensures CellNext(c, OpOf(s, e, key)).None?
  {
    UncleanMeaning(s, e, key);
  }

  lemma UnpermittedStepFails(s: System, e: Event, key: StorageKey, c: Cell)
    requires StampsInv(s) && RecordsInv(s) && MissesInv(s) && StandsFor(s, key, c)
    requires Enabled(s, e) && !Permitted(s, e, key)
    ensures CellNext(c, OpOf(s, e, key)).None?
  {
    if Clean(s, e, key) {
      FreeLock(s, e, key, c);
      BlockedStartFails(s, e, key, c);
    } else {
      UncleanStepFails(s, e, key, c);
    }
  }

  /** The first event that is not permitted is one the object does not allow. */
  lemma {:induction false} UnpermittedRunFails(s: System, es: seq<Event>, key: StorageKey, c: Cell)
    requires Inv(s) && CellInv(s, key) && StandsFor(s, key, c)
    requires CanRun(s, es) && !PermittedRun(s, es, key)
    ensures CellRun(c, OpsOf(s, es, key)).None?
    decreases |es|
  {
    var ops := OpsOf(s, es, key);
    if Permitted(s, es[0], key) {
      StepRefines(s, es[0], key, c);
      StepKeepsInv(s, es[0]);
      UnpermittedRunFails(Next(s, es[0]), es[1..], key, CellNext(c, OpOf(s, es[0], key)).value);
      assert ops[1..] == OpsOf(Next(s, es[0]), es[1..], key);
    } else {
      UnpermittedStepFails(s, es[0], key, c);
      assert ops[0] == OpOf(s, es[0], key);
    }
  }

  /**
   The refinement, exactly. In every run and for every key, whatever happens under other keys:
   what the run does to the key is a run of the atomic object if and only if no `get`, `lock`
   or `set` of the key fails, no handler of it answers through res.send, and whoever finds its
   lock free finds no handler still running and has missed no record that is still live.
   */
  lemma RunRefinesIff(es: seq<Event>, key: StorageKey)
    requires CanRun(Init, es)
    ensures CellRun(Idle, OpsOf(Init, es, key)).Some? <==> PermittedRun(Init, es, key)
  {
    if PermittedRun(Init, es, key) {
      RunRefinesFrom(Init, es, key, Idle);
    } else {
      UnpermittedRunFails(Init, es, key, Idle);
    }
  }

  /** The object's state at the end of such a run is the one the stored entries and requests stand for. */
  lemma RunRefines(es: seq<Event>, key: StorageKey)
    requires CanRun(Init, es) && PermittedRun(Init, es, key)
    ensures CellRun(Idle, OpsOf(Init, es, key)).Some?
    ensures StandsFor(Run(Init, es), key, CellRun(Idle, OpsOf(Init, es, key)).value)
  {
    RunRefinesFrom(Init, es, key, Idle);
  }

  /* ---- With handlers that end in time ---- */

  /** Whoever gets a free lock has missed no live record. */
  ghost predicate NothingMissed(s: System, es: seq<Event>, key: StorageKey)
    requires CanRun(s, es)
    decreases |es|
  {
    es == [] || (&& Clean(s, es[0], key)
                 && (FindsFree(s, es[0], key) ==> !LateSet(s, es[0].r))
                 && NothingMissed(Next(s, es[0]), es[1..], key))
  }

  lemma TimelyStepPermitted(s: System, e: Event, key: StorageKey)
    requires Inv(s) && KeyInv(s, key) && Timely(s, key) && Enabled(s, e)
    requires Clean(s, e, key) && (FindsFree(s, e, key) ==> !LateSet(s, e.r))
    ensures Permitted(s, e, key) && !TakesOver(s, e, key)
  {
    if FindsFree(s, e, key) {
      forall r ensures !Runs(s, r, key) {
        if r in s.requests {
          assert RequestOk(s.now, s.step, s.requests[r]);
          assert Runs(s, r, key) ==> Holds(s, r, key);
        }
      }
    }
  }

  lemma {:induction false} TimelyRunPermitted(s: System, es: seq<Event>, key: StorageKey)
    requires Inv(s) && KeyInv(s, key)
    requires CanRun(s, es) && TimelyRun(s, es, key) && NothingMissed(s, es, key)
    ensures PermittedRun(s, es, key)
    decreases |es|
  {
    if es != [] {
      TimelyStepPermitted(s, es[0], key);
      StepKeepsInv(s, es[0]);
      KeyKept(s, es[0], key);
      TimelyRunPermitted(Next(s, es[0]), es[1..], key);
    }
  }

  /**
   The conditional refinement: when no `get`, `lock` or `set` of a key fails, its handlers answer
   through res.json and are done within 30 s, and no `set` of a live record falls between a request's
   `get` and its successful `lock`, every interleaving refines the atomic object of the key.
   */
  lemma TimelyRunRefines(es: seq<Event>, key: StorageKey)
    requires CanRun(Init, es) && TimelyRun(Init, es, key) && NothingMissed(Init, es, key)
    ensures CellRun(Idle, OpsOf(Init, es, key)).Some?
    ensures StandsFor(Run(Init, es), key, CellRun(Idle, OpsOf(Init, es, key)).value)
  {
    TimelyRunPermitted(Init, es, key);
    RunRefines(es, key);
  }

  /** States such runs lead to. */
  ghost predicate TimelyReachable(s: System, key: StorageKey) {
    exists es :: CanRun(Init, es) && TimelyRun(Init, es, key) && NothingMissed(Init, es, key) && Run(Init, es) == s
  }

  lemma {:induction false} TimelyAtEnd(s: System, es: seq<Event>, key: StorageKey)
    requires CanRun(s, es) && TimelyRun(s, es, key)
    ensures Timely(Run(s, es), key)
    decreases |es|
  {
    if es != [] {
      TimelyAtEnd(Next(s, es[0]), es[1..], key);
    }
  }

  lemma TimelyReachableInv(s: System, key: StorageKey)
    requires TimelyReachable(s, key)
    ensures Inv(s) && KeyInv(s, key) && CellInv(s, key) && Timely(s, key)
  {
    var es :| CanRun(Init, es) && TimelyRun(Init, es, key) && NothingMissed(Init, es, key) && Run(Init, es) == s;
    TimelyIsUncontested(Init, es, key);
    UncontestedRunIsExclusive(Init, es, key);
    TimelyRunPermitted(Init, es, key);
    RunRefinesFrom(Init, es, key, Idle);
    TimelyAtEnd(Init, es, key);
  }
}
